/** The Python string operations the program relies on, on `seq<char>`. */
module Text {

  /** `str.lower()` restricted to ASCII letters; every other character is
      kept as it is. */
  function LowerChar(c: char): char {
    if 'A' <= c <= 'Z' then (c as int + 32) as char else c
  }

  function Lower(s: string): (r: string)
    ensures |r| == |s|
    ensures forall i :: 0 <= i < |s| ==> r[i] == LowerChar(s[i])
  {
    if s == [] then [] else [LowerChar(s[0])] + Lower(s[1..])
  }

  /** `str.startswith(prefix)`. */
  predicate StartsWith(s: string, prefix: string) {
    |prefix| <= |s| && s[..|prefix|] == prefix
  }

  /** `str.isspace()` for one character: Python's whitespace set. */
  predicate IsSpace(c: char) {
    var n := c as int;
    (9 <= n <= 0x0D) || (0x1C <= n <= 0x20) || n == 0x85 || n == 0xA0 || n == 0x1680
    || (0x2000 <= n <= 0x200A) || n == 0x2028 || n == 0x2029 || n == 0x202F
    || n == 0x205F || n == 0x3000
  }

  /** `str.rstrip()`: the longest prefix that does not end in whitespace. */
  function RStrip(s: string): (r: string)
    ensures |r| <= |s| && r == s[..|r|]
    ensures r == [] || !IsSpace(r[|r| - 1])
    ensures forall i :: |r| <= i < |s| ==> IsSpace(s[i])
  {
    if s != [] && IsSpace(s[|s| - 1]) then RStrip(s[..|s| - 1]) else s
  }

  /** `s.split(" ")[-1]`: the text after the last space (the whole string
      when there is none). */
  function LastToken(s: string): (r: string)
    ensures |r| <= |s| && r == s[|s| - |r|..]
    ensures ' ' !in r
    ensures |r| == |s| || s[|s| - |r| - 1] == ' '
  {
    if s == [] || s[|s| - 1] == ' ' then [] else LastToken(s[..|s| - 1]) + [s[|s| - 1]]
  }

  /** `s.replace(pattern, replacement)`: every non-overlapping occurrence,
      scanned from the left, is replaced. */
  function Replace(s: string, pattern: string, replacement: string): string
    requires pattern != []
    decreases |s|
  {
    if |s| < |pattern| then s
    else if s[..|pattern|] == pattern then replacement + Replace(s[|pattern|..], pattern, replacement)
    else [s[0]] + Replace(s[1..], pattern, replacement)
  }

  /** Text that cannot start an occurrence is copied unchanged. */
  lemma {:induction false} ReplaceSkips(a: string, t: string, pattern: string, replacement: string)
    requires pattern != [] && pattern[0] !in a
    ensures Replace(a + t, pattern, replacement) == a + Replace(t, pattern, replacement)
  {
    if a != [] {
      var s := a + t;
      if |s| < |pattern| {
        assert Replace(s, pattern, replacement) == s;
        assert Replace(t, pattern, replacement) == t;
      } else {
        assert s[..|pattern|] != pattern by {
          assert s[..|pattern|][0] == a[0] && a[0] in a;
        }
        assert s[1..] == a[1..] + t;
        assert Replace(s, pattern, replacement) == [s[0]] + Replace(s[1..], pattern, replacement);
        ReplaceSkips(a[1..], t, pattern, replacement);
        assert a == [a[0]] + a[1..];
        assert [a[0]] + (a[1..] + Replace(t, pattern, replacement)) == a + Replace(t, pattern, replacement);
      }
    } else {
      assert a + t == t;
    }
  }

  /** `pattern` occurs in `s` starting at index `i`. */
  predicate OccursAt(s: string, pattern: string, i: int) {
    0 <= i && i + |pattern| <= |s| && s[i..i + |pattern|] == pattern
  }

  /** A prefix in which no occurrence starts is copied unchanged. */
  lemma {:induction false} ReplaceSkipsTo(s: string, n: nat, pattern: string, replacement: string)
    requires pattern != [] && n <= |s|
    requires forall i :: 0 <= i < n ==> !OccursAt(s, pattern, i)
    ensures Replace(s, pattern, replacement) == s[..n] + Replace(s[n..], pattern, replacement)
  {
    if n == 0 {
      assert s[..0] + s[0..] == s;
    } else if |s| < |pattern| {
      var rest := s[n..];
      assert Replace(s, pattern, replacement) == s;
      assert Replace(rest, pattern, replacement) == rest;
      assert s[..n] + rest == s;
    } else {
      ReplaceStep(s, pattern, replacement);
      var t := s[1..];
      forall i | 0 <= i < n - 1
        ensures !OccursAt(t, pattern, i)
      {
        OccursAfterFirst(s, pattern, i);
      }
      ReplaceSkipsTo(t, n - 1, pattern, replacement);
      assert t[n - 1..] == s[n..];
      assert [s[0]] + t[..n - 1] == s[..n];
    }
  }

  /** Where no occurrence starts, the scan copies one character. */
  lemma ReplaceStep(s: string, pattern: string, replacement: string)
    requires pattern != [] && |pattern| <= |s| && !OccursAt(s, pattern, 0)
    ensures Replace(s, pattern, replacement) == [s[0]] + Replace(s[1..], pattern, replacement)
  {
    assert s[0..|pattern|] == s[..|pattern|];
  }

  /** Occurrences in the text after its first character are those of the
      text, one index further on. */
  lemma OccursAfterFirst(s: string, pattern: string, i: nat)
    requires s != []
    ensures OccursAt(s[1..], pattern, i) <==> OccursAt(s, pattern, i + 1)
  {
    if i + |pattern| <= |s| - 1 {
      assert s[1..][i..i + |pattern|] == s[i + 1..i + 1 + |pattern|];
    }
  }

  /** No occurrence starts in `a + r + m` of `a + r + m + rest` when `a` and
      `m` hold no first character of the pattern, the pattern never occurs
      in `r`, and `m` starts with a character found nowhere else in the
      pattern, so no occurrence runs from `r` into `m`. */
  lemma NoOccurrenceBefore(a: string, r: string, m: string, rest: string, pattern: string)
    requires pattern != [] && pattern[0] !in a && pattern[0] !in m
    requires forall i :: !OccursAt(r, pattern, i)
    requires m != [] && m[0] !in pattern[1..]
    ensures forall i :: 0 <= i < |a + r + m| ==> !OccursAt(a + r + m + rest, pattern, i)
  {
    var s := a + r + m + rest;
    forall i | 0 <= i < |a + r + m|
      ensures !OccursAt(s, pattern, i)
    {
      if i + |pattern| <= |s| {
        NoOccurrenceAt(a, r, m, rest, pattern, i);
      }
    }
  }

  lemma NoOccurrenceAt(a: string, r: string, m: string, rest: string, pattern: string, i: nat)
    requires pattern != [] && pattern[0] !in a && pattern[0] !in m
    requires forall i :: !OccursAt(r, pattern, i)
    requires m != [] && m[0] !in pattern[1..]
    requires i < |a + r + m| && i + |pattern| <= |a + r + m + rest|
    ensures (a + r + m + rest)[i..i + |pattern|] != pattern
  {
    var s := a + r + m + rest;
    var w := s[i..i + |pattern|];
    var h, q := |a|, |r|;
    if i < h {
      assert w[0] == a[i] && a[i] in a;
    } else if i >= h + q {
      assert w[0] == m[i - h - q] && m[i - h - q] in m;
    } else if i + |pattern| <= h + q {
      assert w == r[i - h..i - h + |pattern|];
      assert !OccursAt(r, pattern, i - h);
    } else {
      var j := h + q - i;
      assert w[j] == m[0];
      assert pattern[j] == pattern[1..][j - 1];
    }
  }

  /** A text whose only occurrence is one placed after a prefix where none
      starts, followed by text that cannot start one: that occurrence alone
      is replaced. */
  lemma ReplaceAround(a: string, t: string, pattern: string, replacement: string)
    requires pattern != [] && pattern[0] !in t
    requires forall i :: 0 <= i < |a| ==> !OccursAt(a + pattern + t, pattern, i)
    ensures Replace(a + pattern + t, pattern, replacement) == a + replacement + t
  {
    var s := a + pattern + t;
    ReplaceSkipsTo(s, |a|, pattern, replacement);
    assert s[..|a|] == a;
    assert s[|a|..] == [] + pattern + t;
    ReplaceOnce([], t, pattern, replacement);
    ReplaceAbsent(t, pattern, replacement);
  }

  /** Text in which the pattern never occurs is returned unchanged. */
  lemma ReplaceNoOccurrence(s: string, pattern: string, replacement: string)
    requires pattern != []
    requires forall i :: !OccursAt(s, pattern, i)
    ensures Replace(s, pattern, replacement) == s
  {
    ReplaceSkipsTo(s, |s|, pattern, replacement);
    assert s[|s|..] == [];
    assert s[..|s|] == s;
  }

  /** `str.replace` on a string built around one occurrence of the pattern,
      where the text before it cannot start one. */
  lemma ReplaceOnce(a: string, t: string, pattern: string, replacement: string)
    requires pattern != [] && pattern[0] !in a
    ensures Replace(a + pattern + t, pattern, replacement) == a + replacement + Replace(t, pattern, replacement)
  {
    assert a + pattern + t == a + (pattern + t);
    ReplaceSkips(a, pattern + t, pattern, replacement);
    assert (pattern + t)[..|pattern|] == pattern;
    assert (pattern + t)[|pattern|..] == t;
  }

  /** Every character of the result comes from the text or the replacement,
      and a one-character pattern leaves no occurrence of its character
      behind. */
  lemma {:induction false} ReplaceChars(s: string, pattern: string, replacement: string, c: char)
    requires pattern != []
    ensures c in Replace(s, pattern, replacement)
            ==> c in replacement || (c in s && (|pattern| != 1 || c != pattern[0]))
    decreases |s|
  {
    if |s| < |pattern| {
      if |pattern| == 1 {
        assert s == [];
      }
    } else if s[..|pattern|] == pattern {
      var rest := s[|pattern|..];
      ReplaceChars(rest, pattern, replacement, c);
      if c in rest {
        var i :| 0 <= i < |rest| && rest[i] == c;
        assert s[|pattern| + i] == c;
      }
    } else {
      var rest := s[1..];
      ReplaceChars(rest, pattern, replacement, c);
      if c in rest {
        var i :| 0 <= i < |rest| && rest[i] == c;
        assert s[1 + i] == c;
      }
      if |pattern| == 1 {
        assert s[..1] == [s[0]];
      }
    }
  }

  /** Text in which the pattern cannot start is returned unchanged. */
  lemma ReplaceAbsent(s: string, pattern: string, replacement: string)
    requires pattern != [] && pattern[0] !in s
    ensures Replace(s, pattern, replacement) == s
  {
    ReplaceSkips(s, [], pattern, replacement);
    assert s + [] == s;
  }

  /** Lower-casing keeps every character that is not an upper-case letter,
      so it changes nothing in text without one. */
  lemma LowerKeeps(s: string)
    ensures (forall i :: 0 <= i < |s| ==> !('A' <= s[i] <= 'Z')) ==> Lower(s) == s
    ensures forall c :: !('a' <= c <= 'z') && !('A' <= c <= 'Z') ==> (c in Lower(s) <==> c in s)
  {
    forall c | !('a' <= c <= 'z') && !('A' <= c <= 'Z')
      ensures c in Lower(s) <==> c in s
    {
      if c in Lower(s) {
        var i :| 0 <= i < |s| && Lower(s)[i] == c;
        assert s[i] == c;
      }
      if c in s {
        var i :| 0 <= i < |s| && s[i] == c;
        assert Lower(s)[i] == c;
      }
    }
  }

  /** Windows `os.path.join(a, b)` for a relative `b`: a backslash is put
      between the parts unless `a` is empty, already ends with a separator,
      or is a bare drive such as `C:`. */
  function Join(a: string, b: string): string {
    if a == [] || a[|a| - 1] in "\\/" || (|a| == 2 && a[1] == ':') then a + b
    else a + "\\" + b
  }

  /** A joined path starts with the directory, ends with the name, and puts
      at most one separator between them. */
  lemma JoinSpec(a: string, b: string)
    ensures |a| + |b| <= |Join(a, b)| <= |a| + 1 + |b|
    ensures StartsWith(Join(a, b), a) && Join(a, b)[|Join(a, b)| - |b|..] == b
    ensures |Join(a, b)| == |a| + 1 + |b| ==> Join(a, b)[|a|] == '\\'
  {
  }
}
