/** The decision and state logic of the Qt application (automarkerQt.py):
    which host the status checker reports, which adapter the main window
    then uses, which beats are sent as markers, and the playback callback
    that consumes the audio buffer. */
module QtApp {
  import opened Outcomes
  import opened Slicing
  import opened Processes
  import opened Markers
  import opened Preview

  /** The editing applications the program can drive. */
  datatype Host = Premiere | AfterEffects | Resolve

  /** The status string the checker emits for the host it found, `"0"` for
      none. */
  function StatusCode(host: Option<Host>): string {
    match host
    case None => "0"
    case Some(Premiere) => "1"
    case Some(AfterEffects) => "2"
    case Some(Resolve) => "3"
  }

  /** One round of `StatusChecker.run`: Premiere is asked first, then After
      Effects, then Resolve, each only when the ones before are not
      running. An error from a process query escapes `run` and ends the
      polling thread, so no status is emitted after it. */
  function CheckStatus(platform: Platform, premierePids: seq<nat>, afterFxPids: seq<nat>, resolvePids: seq<nat>)
    : Result<Option<Host>, ProcessError>
  {
    match ExeIsRunning(platform, PremiereProcessName(platform), premierePids)
    case Err(e) => Err(e)
    case Ok(pr) =>
      if pr.running then Ok(Some(Premiere))
      else match ExeIsRunning(platform, AfterFxProcessName(platform), afterFxPids)
        case Err(e) => Err(e)
        case Ok(ae) =>
          if ae.running then Ok(Some(AfterEffects))
          else match ExeIsRunning(platform, ResolveProcessName(platform), resolvePids)
            case Err(e) => Err(e)
            case Ok(rs) => if rs.running then Ok(Some(Resolve)) else Ok(None)
  }

  /** Premiere wins whenever it runs, After Effects whenever it runs and
      Premiere does not, Resolve only when neither does; `"0"` is reported
      only when nothing runs, and the one error is several Resolve
      processes when neither other host runs. */
  lemma CheckStatusPriority(platform: Platform, premierePids: seq<nat>, afterFxPids: seq<nat>, resolvePids: seq<nat>)
    ensures CheckStatus(platform, premierePids, afterFxPids, resolvePids) == Ok(Some(Premiere))
            <==> premierePids != []
    ensures CheckStatus(platform, premierePids, afterFxPids, resolvePids) == Ok(Some(AfterEffects))
            <==> premierePids == [] && afterFxPids != []
    ensures CheckStatus(platform, premierePids, afterFxPids, resolvePids) == Ok(Some(Resolve))
            <==> premierePids == [] && afterFxPids == [] && |resolvePids| == 1
    ensures CheckStatus(platform, premierePids, afterFxPids, resolvePids) == Ok(None)
            <==> premierePids == [] && afterFxPids == [] && resolvePids == []
    ensures CheckStatus(platform, premierePids, afterFxPids, resolvePids).Err?
            <==> premierePids == [] && afterFxPids == [] && |resolvePids| > 1
  {
    assert ToleratesSeveral(platform, PremiereProcessName(platform));
    assert ToleratesSeveral(platform, AfterFxProcessName(platform));
    assert !ToleratesSeveral(platform, ResolveProcessName(platform));
  }

  /** `MainWindow.update_app_status`: the adapter chosen for a status
      string; an unknown string keeps the current one. */
  function AdapterFor(status: string, current: Option<Host>): Option<Host> {
    if status == "0" then None
    else if status == "1" then Some(Premiere)
    else if status == "2" then Some(AfterEffects)
    else if status == "3" then Some(Resolve)
    else current
  }

  /** The label shown for a status string; an unknown string keeps it. */
  function StatusText(status: string, current: string): string {
    if status == "0" then "App isn't running..."
    else if status == "1" then "Premiere Pro is running!"
    else if status == "2" then "After Effects is running!"
    else if status == "3" then "Resolve is running!"
    else current
  }

  /** The status the checker emits selects the adapter of the host it
      found, whatever was selected before; a string that is no status code
      leaves the selection alone. */
  lemma AdapterForStatusCode(host: Option<Host>, current: Option<Host>, other: string, shown: string)
    requires other !in {"0", "1", "2", "3"}
    ensures AdapterFor(StatusCode(host), current) == host
    ensures AdapterFor(other, current) == current && StatusText(other, shown) == shown
  {
  }

  /** The part of the main window this model follows. */
  class MainWindow {
    var currentApp: Option<Host>
    var appStatusLabel: string

    /** `update_app_status`, the slot the status checker's signal is
        connected to. */
    method UpdateAppStatus(status: string)
      modifies this
      ensures currentApp == AdapterFor(status, old(currentApp))
      ensures appStatusLabel == StatusText(status, old(appStatusLabel))
    {
      if status == "0" {
        appStatusLabel := "App isn't running...";
        currentApp := None;
      } else if status == "1" {
        currentApp := Some(Premiere);
        appStatusLabel := "Premiere Pro is running!";
      } else if status == "2" {
        currentApp := Some(AfterEffects);
        appStatusLabel := "After Effects is running!";
      } else if status == "3" {
        currentApp := Some(Resolve);
        appStatusLabel := "Resolve is running!";
      }
    }
  }

  /** `AddMarkersThread.run`: nothing is sent without an adapter; otherwise
      the beats `[offset::every]` are sent to it. */
  function MarkersSent(app: Option<Host>, beats: seq<real>, every: nat, offset: nat): Option<seq<real>>
    requires every >= 1
  {
    if app.None? then None else Some(Stride(beats, offset, every))
  }

  /** The markers sent are exactly the beats at `offset + k*every`, in the
      beats' order, none when the offset is past the last beat, and all of
      them for `every == 1, offset == 0`. */
  lemma MarkersSentSpec(app: Option<Host>, beats: seq<real>, every: nat, offset: nat, k: nat)
    requires 1 <= every
    ensures MarkersSent(app, beats, every, offset).Some? <==> app.Some?
    ensures app.Some? ==>
              var sent := MarkersSent(app, beats, every, offset).value;
              && (k < |sent| <==> offset + k * every < |beats|)
              && (k < |sent| ==> sent[k] == beats[offset + k * every])
              && (offset >= |beats| ==> sent == [])
              && (StrictlyIncreasing(beats) ==> StrictlyIncreasing(sent))
    ensures app.Some? && every == 1 && offset == 0 ==> MarkersSent(app, beats, every, offset) == Some(beats)
  {
    if app.Some? {
      StrideIndex(beats, offset, every, k);
      if offset >= |beats| {
        StrideOutOfRange(beats, offset, every);
      }
      if StrictlyIncreasing(beats) {
        StrideKeepsIncreasing(beats, offset, every);
      }
      StrideIdentity(beats);
    }
  }

  /** The markers the Premiere script creates for a list it is sent. */
  function PremiereMarkers(sent: seq<real>, sequenceEnd: real): (r: seq<real>)
    ensures forall x :: x in r <==> x in sent && x < sequenceEnd
  {
    forall x ensures x in BeforeEnd(sent, sequenceEnd) <==> x in sent && x < sequenceEnd {
      BeforeEndMembers(sent, sequenceEnd, x);
    }
    BeforeEnd(sent, sequenceEnd)
  }

  /** The position of the track line as `MainWindow.callback` computes it:
      the number of samples played minus the start of a window worked out
      from the samples still to play. It divides by that number, so it
      fails once the buffer is empty. */
  function TrackPositionAsWritten(total: nat, remaining: nat, zoom: int, scroll: nat): (r: Result<int, PreviewError>)
    requires ZoomMin <= zoom <= ZoomMax && remaining <= total
    ensures r.Err? <==> remaining == 0
  {
    match WindowOf(remaining, zoom, scroll)
    case Err(e) => Err(e)
    case Ok(w) => Ok((total - remaining) - w.start)
  }

  /** The track line's position measured from the window that
      `update_chart` shows, which is worked out from all the samples. */
  function TrackPosition(total: nat, played: nat, zoom: int, scroll: nat): (r: Result<int, PreviewError>)
    requires ZoomMin <= zoom <= ZoomMax
    ensures r.Err? <==> total == 0
  {
    match WindowOf(total, zoom, scroll)
    case Err(e) => Err(e)
    case Ok(w) => Ok(played - w.start)
  }

  /** The corrected position is defined whenever there is audio, and it
      lies on the displayed waveform (in `[0, visible length)`) exactly when
      the next sample to play, at index `played`, is one of the samples the
      preview shows. */
  lemma TrackPositionOnDisplay(data: seq<real>, beats: seq<int>, zoom: int, scroll: nat,
                               offset: nat, every: nat, played: nat)
    requires ZoomMin <= zoom <= ZoomMax && every >= 1 && scroll <= |data| && played <= |data|
    ensures TrackPosition(|data|, played, zoom, scroll).Ok? <==> data != []
    ensures data != [] ==>
              var c := UpdateChart(data, beats, zoom, scroll, offset, every).value;
              var p := TrackPosition(|data|, played, zoom, scroll).value;
              (0 <= p < |c.samples| <==> c.window.start <= played < c.window.end)
  {
    WindowOfSpec(|data|, zoom, scroll);
    if data != [] {
      var w := WindowOf(|data|, zoom, scroll).value;
      assert |Slice(data, w.start, w.end)| == w.end - w.start;
    }
  }

  /** The callback as written fails on the call that hands out the last
      samples (for ten samples: one call of ten frames), where the
      corrected position is defined; before that the two can differ only
      through rounding. */
  lemma TrackPositionAsWrittenFailsAtEnd(total: nat, zoom: int, scroll: nat)
    requires ZoomMin <= zoom <= ZoomMax && total > 0
    ensures TrackPositionAsWritten(total, 0, zoom, scroll) == Err(ZeroDivision)
    ensures TrackPosition(total, total, zoom, scroll).Ok?
    ensures TrackPositionAsWritten(10, 0, 80, 0) != TrackPosition(10, 10, 80, 0)
  {
  }

  /** Playback of the analysed audio: `full` is the analyser's samples and
      `data` what is left to play. */
  class Player {
    const full: seq<real>
    var data: seq<real>

    /** The samples left to play are always the end of the audio. */
    ghost predicate Valid()
      reads this
    {
      |data| <= |full| && data == full[|full| - |data|..]
    }

    /** `current_play_position`: how many samples have been handed out. */
    function Played(): (n: nat)
      reads this
      requires Valid()
      ensures n <= |full|
    {
      |full| - |data|
    }

    /** `start_stop_playback` resets the buffer to the whole audio. */
    constructor(samples: seq<real>)
      ensures full == samples && data == samples && Valid()
    {
      full := samples;
      data := samples;
    }

    /** `MainWindow.callback`: hand out the first `frameCount` samples (or
        all that are left), drop them from the buffer, and compute the
        track line's position as written. When `position` is an error the
        program raises before it returns, so the chunk never reaches the
        audio stream; the model still returns it. */
    method Callback(frameCount: nat, zoom: int, scroll: nat) returns (chunk: seq<real>, position: Result<int, PreviewError>)
      requires Valid() && ZoomMin <= zoom <= ZoomMax
      modifies this
      ensures Valid()
      ensures chunk == old(data)[..Min(frameCount, |old(data)|)]
      ensures data == old(data)[Min(frameCount, |old(data)|)..]
      ensures chunk + data == old(data)
      ensures old(Played()) <= Played() == old(Played()) + |chunk|
      ensures position == TrackPositionAsWritten(|full|, |data|, zoom, scroll)
      ensures position.Err? <==> data == []
    {
      var n := Min(frameCount, |data|);
      chunk := data[..n];
      data := data[n..];
      assert chunk + data == old(data);
      var currentPlayPosition := |full| - |data|;
      if |data| == 0 {
        position := Err(ZeroDivision);
      } else {
        var visibleDataLength := VisibleLength(|data|, zoom);
        var start := ScrolledStart(|data| - visibleDataLength, scroll, |data|);
        position := Ok(currentPlayPosition - start);
      }
    }
  }
}
