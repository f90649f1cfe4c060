/** Deciding whether a host application is running from the process ids
    found under its name, and reading those ids out of Windows TASKLIST
    output (automarkerQt.py and automarker.py, `exe_is_running` and
    `_get_pids_from_name`). */
module Processes {
  import opened Outcomes
  import opened Text

  datatype Platform = Windows | MacOS

  function PremiereProcessName(p: Platform): string {
    if p.Windows? then "adobe premiere pro.exe" else "Adobe Premiere Pro"
  }

  function AfterFxProcessName(p: Platform): string {
    if p.Windows? then "AfterFX.exe" else "After Effects"
  }

  function ResolveProcessName(p: Platform): string {
    if p.Windows? then "Resolve.exe" else "Resolve"
  }

  datatype ProcessError =
    | Ambiguous(name: string, pids: seq<nat>)   // OSError: more than one match
    | NoPidInLine(line: string)                 // IndexError: the regex found nothing

  /** The `(running, pid)` pair; `pid` is `None` when nothing runs. */
  datatype Running = Running(running: bool, pid: Option<nat>)

  /** The two names for which the Qt version tolerates several processes. */
  predicate ToleratesSeveral(platform: Platform, name: string) {
    name == AfterFxProcessName(platform) || name == PremiereProcessName(platform)
  }

  /** `exe_is_running` of the Qt version. */
  function ExeIsRunning(platform: Platform, name: string, pids: seq<nat>): Result<Running, ProcessError> {
    if |pids| == 1 then Ok(Running(true, Some(pids[0])))
    else if |pids| > 1 && ToleratesSeveral(platform, name) then Ok(Running(true, Some(pids[0])))
    else if |pids| > 1 then Err(Ambiguous(name, pids))
    else Ok(Running(false, None))
  }

  /** `exe_is_running` of the Tk version: several matches are always an error. */
  function ExeIsRunningStrict(name: string, pids: seq<nat>): Result<Running, ProcessError> {
    if |pids| == 0 then Ok(Running(false, None))
    else if |pids| > 1 then Err(Ambiguous(name, pids))
    else Ok(Running(true, Some(pids[0])))
  }

  /** The four outcomes of the Qt decision. */
  lemma ExeIsRunningOutcomes(platform: Platform, name: string, pids: seq<nat>)
    ensures ExeIsRunning(platform, name, pids) == Ok(Running(false, None)) <==> pids == []
    ensures ExeIsRunning(platform, name, pids).Ok? && ExeIsRunning(platform, name, pids).value.running
            <==> |pids| == 1 || (|pids| > 1 && ToleratesSeveral(platform, name))
    ensures ExeIsRunning(platform, name, pids).Ok? && ExeIsRunning(platform, name, pids).value.running
            ==> ExeIsRunning(platform, name, pids).value.pid == Some(pids[0])
    ensures ExeIsRunning(platform, name, pids).Err?
            <==> |pids| > 1 && !ToleratesSeveral(platform, name)
    ensures ExeIsRunning(platform, name, pids).Err?
            ==> ExeIsRunning(platform, name, pids).error == Ambiguous(name, pids)
  {
  }

  /** The three outcomes of the Tk decision. */
  lemma ExeIsRunningStrictOutcomes(name: string, pids: seq<nat>)
    ensures ExeIsRunningStrict(name, pids) == Ok(Running(false, None)) <==> pids == []
    ensures ExeIsRunningStrict(name, pids).Ok? && ExeIsRunningStrict(name, pids).value.running
            <==> |pids| == 1
    ensures |pids| == 1 ==> ExeIsRunningStrict(name, pids) == Ok(Running(true, Some(pids[0])))
    ensures ExeIsRunningStrict(name, pids) == Err(Ambiguous(name, pids)) <==> |pids| > 1
  {
  }

  /** The two versions give the same answer except when several processes
      carry one of the two tolerated names. */
  lemma VariantsDifferOnlyOnToleratedNames(platform: Platform, name: string, pids: seq<nat>)
    ensures ExeIsRunning(platform, name, pids) != ExeIsRunningStrict(name, pids)
            <==> |pids| > 1 && ToleratesSeveral(platform, name)
  {
  }

  // ---- TASKLIST output ----

  /** The line filter `l.lower().startswith(process_name.lower())`. */
  predicate NamesProcess(line: string, name: string) {
    StartsWith(Lower(line), Lower(name))
  }

  /** The TASKLIST lines kept for a process name, in output order. */
  function MatchingLines(lines: seq<string>, name: string): (r: seq<string>)
    ensures |r| <= |lines|
    ensures forall l :: l in r ==> l in lines && NamesProcess(l, name)
  {
    if lines == [] then []
    else (if NamesProcess(lines[0], name) then [lines[0]] else []) + MatchingLines(lines[1..], name)
  }

  /** Every line that names the process is kept. */
  lemma {:induction false} MatchingLinesKeepsAll(lines: seq<string>, name: string)
    ensures forall l :: l in lines && NamesProcess(l, name) ==> l in MatchingLines(lines, name)
  {
    if lines != [] {
      MatchingLinesKeepsAll(lines[1..], name);
      forall l | l in lines && NamesProcess(l, name)
        ensures l in MatchingLines(lines, name)
      {
        if l != lines[0] {
          assert l in lines[1..];
        }
      }
    }
  }

  /** Filtering commutes with concatenation, so the kept lines stay in the
      order of the output. */
  lemma {:induction false} MatchingLinesConcat(a: seq<string>, b: seq<string>, name: string)
    ensures MatchingLines(a + b, name) == MatchingLines(a, name) + MatchingLines(b, name)
  {
    if a == [] {
      assert a + b == b;
    } else {
      assert (a + b)[0] == a[0];
      assert (a + b)[1..] == a[1..] + b;
      MatchingLinesConcat(a[1..], b, name);
    }
  }

  predicate IsDigit(c: char) { '0' <= c <= '9' }

  predicate IsAsciiLetter(c: char) { 'a' <= c <= 'z' || 'A' <= c <= 'Z' }

  /** The regular expression `   ([0-9]{1,6}) [a-zA-Z]` matches `line` at
      position `i` with a group of `k` digits. */
  ghost predicate MatchAt(line: string, i: nat, k: nat) {
    && 1 <= k <= 6
    && i + k + 5 <= |line|
    && line[i] == ' ' && line[i + 1] == ' ' && line[i + 2] == ' '
    && (forall j :: i + 3 <= j < i + 3 + k ==> IsDigit(line[j]))
    && line[i + 3 + k] == ' '
    && IsAsciiLetter(line[i + 4 + k])
  }

  /** The length of the run of digits starting at `j`. */
  function DigitRun(line: string, j: nat): (n: nat)
    requires j <= |line|
    ensures j + n <= |line|
    ensures forall m :: j <= m < j + n ==> IsDigit(line[m])
    ensures j + n < |line| ==> !IsDigit(line[j + n])
    decreases |line| - j
  {
    if j < |line| && IsDigit(line[j]) then 1 + DigitRun(line, j + 1) else 0
  }

  /** The number of digits the pattern captures at position `i`, if it
      matches there; the greedy `{1,6}` can only succeed on the whole run,
      since a shorter group would be followed by a digit, not a space. */
  function MatchLength(line: string, i: nat): Option<nat> {
    if i + 3 <= |line| && line[i] == ' ' && line[i + 1] == ' ' && line[i + 2] == ' ' then
      var k := DigitRun(line, i + 3);
      if 1 <= k <= 6 && i + k + 5 <= |line| && line[i + 3 + k] == ' ' && IsAsciiLetter(line[i + 4 + k])
      then Some(k) else None
    else None
  }

  lemma MatchLengthCorrect(line: string, i: nat)
    ensures MatchLength(line, i).Some? ==> MatchAt(line, i, MatchLength(line, i).value)
    ensures MatchLength(line, i).None? ==> forall k :: !MatchAt(line, i, k)
  {
    forall k | MatchAt(line, i, k) ensures MatchLength(line, i) == Some(k) {
      var n := DigitRun(line, i + 3);
      if n < k {
        assert IsDigit(line[i + 3 + n]);
      }
    }
  }

  datatype Match = Match(start: nat, digits: nat)

  /** The leftmost match at or after `from`, as `re.findall(...)[0]` finds it. */
  function FindMatch(line: string, from: nat): Option<Match>
    decreases |line| - from
  {
    if from >= |line| then None
    else match MatchLength(line, from)
      case Some(k) => Some(Match(from, k))
      case None => FindMatch(line, from + 1)
  }

  /** The search finds a match, the leftmost one, whenever there is one. */
  lemma {:induction false} FindMatchLeftmost(line: string, from: nat)
    ensures FindMatch(line, from).Some? ==>
              var m := FindMatch(line, from).value;
              from <= m.start && MatchAt(line, m.start, m.digits)
              && forall i, k :: from <= i < m.start ==> !MatchAt(line, i, k)
    ensures FindMatch(line, from).None? ==> forall i, k :: from <= i ==> !MatchAt(line, i, k)
    decreases |line| - from
  {
    if from >= |line| {
      forall i, k | from <= i ensures !MatchAt(line, i, k) { }
    } else {
      MatchLengthCorrect(line, from);
      if MatchLength(line, from).None? {
        FindMatchLeftmost(line, from + 1);
      }
    }
  }

  /** `int(...)` of a string of decimal digits. */
  function DigitsValue(ds: string): (v: nat)
    requires forall i :: 0 <= i < |ds| ==> IsDigit(ds[i])
    ensures v < Pow10(|ds|)
  {
    if ds == [] then 0
    else
      var d := DigitValue(ds[|ds| - 1]);
      DigitsValue(ds[..|ds| - 1]) * 10 + d
  }

  function DigitValue(c: char): (d: nat)
    requires IsDigit(c)
    ensures d <= 9
  {
    c as int - '0' as int
  }

  function Pow10(n: nat): (p: nat)
    ensures p >= 1
  {
    if n == 0 then 1 else 10 * Pow10(n - 1)
  }

  /** The process id on one kept TASKLIST line: the digits of the leftmost
      match, or `None` where `[0]` raises `IndexError`. */
  function ParsePid(line: string): Option<nat> {
    match FindMatch(line, 0)
    case None => None
    case Some(m) =>
      FindMatchLeftmost(line, 0);
      Some(DigitsValue(line[m.start + 3..m.start + 3 + m.digits]))
  }

  /** A parsed id is the leftmost match's group and has at most six digits;
      a line with no match gives no id. */
  lemma ParsePidSpec(line: string)
    ensures ParsePid(line).None? <==> forall i, k :: !MatchAt(line, i, k)
    ensures ParsePid(line).Some? ==> ParsePid(line).value < 1000000
    ensures ParsePid(line).Some? ==>
              exists i, k :: MatchAt(line, i, k) && (forall i', k' :: i' < i ==> !MatchAt(line, i', k'))
                             && ParsePid(line).value == DigitsValue(line[i + 3..i + 3 + k])
  {
    FindMatchLeftmost(line, 0);
    match FindMatch(line, 0)
    case None =>
    case Some(m) =>
      assert MatchAt(line, m.start, m.digits);
      assert Pow10(m.digits) <= Pow10(6) by { Pow10Monotone(m.digits, 6); }
  }

  lemma {:induction false} Pow10Monotone(a: nat, b: nat)
    requires a <= b
    ensures Pow10(a) <= Pow10(b)
    decreases b
  {
    if a < b {
      Pow10Monotone(a, b - 1);
    }
  }

  /** `[int(re.findall(...)[0]) for l in lines]`: the first line without a
      match raises. */
  function PidsOf(lines: seq<string>): Result<seq<nat>, ProcessError> {
    if lines == [] then Ok([])
    else match ParsePid(lines[0])
      case None => Err(NoPidInLine(lines[0]))
      case Some(p) =>
        match PidsOf(lines[1..])
        case Err(e) => Err(e)
        case Ok(ps) => Ok([p] + ps)
  }

  /** One id per line, in line order, when every line has one; otherwise the
      error names a line without one. */
  lemma {:induction false} PidsOfSpec(lines: seq<string>)
    ensures PidsOf(lines).Ok? <==> forall l :: l in lines ==> ParsePid(l).Some?
    ensures PidsOf(lines).Ok? ==>
              |PidsOf(lines).value| == |lines|
              && forall i :: 0 <= i < |lines| ==> Some(PidsOf(lines).value[i]) == ParsePid(lines[i])
    ensures PidsOf(lines).Err? ==>
              PidsOf(lines).error.NoPidInLine? && PidsOf(lines).error.line in lines
              && ParsePid(PidsOf(lines).error.line).None?
  {
    if lines != [] {
      PidsOfSpec(lines[1..]);
      assert forall l :: l in lines ==> l == lines[0] || l in lines[1..];
      if PidsOf(lines).Ok? {
        var ps := PidsOf(lines).value;
        forall i | 0 <= i < |lines| ensures Some(ps[i]) == ParsePid(lines[i]) {
          if i > 0 {
            assert lines[i] == lines[1..][i - 1];
          }
        }
      }
    }
  }

  /** `_get_pids_from_name` on Windows, from the lines of TASKLIST output. */
  function PidsFromTasklist(lines: seq<string>, name: string): Result<seq<nat>, ProcessError> {
    PidsOf(MatchingLines(lines, name))
  }

  /** The ids come one per kept line, in output order; the parse succeeds
      exactly when every line naming the process carries an id. */
  lemma PidsFromTasklistSpec(lines: seq<string>, name: string)
    ensures PidsFromTasklist(lines, name).Ok?
            <==> forall l :: l in lines && NamesProcess(l, name) ==> ParsePid(l).Some?
    ensures PidsFromTasklist(lines, name).Ok? ==>
              var kept := MatchingLines(lines, name);
              |PidsFromTasklist(lines, name).value| == |kept|
              && forall i :: 0 <= i < |kept| ==> Some(PidsFromTasklist(lines, name).value[i]) == ParsePid(kept[i])
  {
    PidsOfSpec(MatchingLines(lines, name));
    MatchingLinesKeepsAll(lines, name);
  }
}
