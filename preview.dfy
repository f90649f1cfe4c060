/** The waveform preview of automarkerQt.py (`Layout.update_chart`): the
    window of samples shown for the zoom and scroll sliders, and the beats
    drawn inside it. Beat positions are whole sample indices here; the
    program multiplies beat times by the sample rate in floating point. */
module Preview {
  import opened Outcomes
  import opened Slicing

  /** The zoom slider's range, in hundredths. */
  const ZoomMin := 80
  const ZoomMax := 99

  /** The visible samples are `[start, end)`. */
  datatype Window = Window(start: nat, end: nat)

  /** `update_chart` divides the scroll value by the number of samples. */
  datatype PreviewError = ZeroDivision

  /** `int(len(data) * (1 - zoom))` with the zoom in hundredths, computed
      exactly. */
  function VisibleLength(length: nat, zoom: int): (v: nat)
    requires ZoomMin <= zoom <= ZoomMax
    ensures v <= length
    ensures length > 0 ==> v < length
  {
    Product(length, (100 - zoom) as nat) / 100
  }

  /** The window for a zoom and a scroll position: its length is the
      visible length and it starts at the scrolled fraction of the samples
      that are not shown. */
  function WindowOf(length: nat, zoom: int, scroll: nat): (r: Result<Window, PreviewError>)
    requires ZoomMin <= zoom <= ZoomMax
  {
    if length == 0 then Err(ZeroDivision)
    else
      var visible := VisibleLength(length, zoom);
      var start := ScrolledStart(length - visible, scroll, length);
      Ok(Window(start, start + visible))
  }

  /** `int(hidden * (scroll / length))`, computed exactly. */
  function ScrolledStart(hidden: nat, scroll: nat, length: nat): nat
    requires length > 0
  {
    Product(hidden, scroll) / length
  }

  /** The window exists exactly when there are samples; it spans the
      visible length, and for a scroll value in the slider's range it lies
      inside the samples. */
  lemma WindowOfSpec(length: nat, zoom: int, scroll: nat)
    requires ZoomMin <= zoom <= ZoomMax
    ensures WindowOf(length, zoom, scroll).Ok? <==> length > 0
    ensures WindowOf(length, zoom, scroll).Ok? ==>
              WindowOf(length, zoom, scroll).value.end
              == WindowOf(length, zoom, scroll).value.start + VisibleLength(length, zoom)
    ensures WindowOf(length, zoom, scroll).Ok? && scroll <= length ==>
              WindowOf(length, zoom, scroll).value.end <= length
    ensures WindowOf(length, zoom, scroll).Ok? && scroll == 0 ==>
              WindowOf(length, zoom, scroll).value.start == 0
  {
    if length > 0 && scroll <= length {
      var hidden := length - VisibleLength(length, zoom);
      ScaledDownFits(hidden, scroll, length);
      assert ScrolledStart(hidden, scroll, length) <= hidden;
    }
  }

  /** `a * s / n <= a` whenever `s <= n`. */
  lemma ScaledDownFits(a: nat, s: nat, n: nat)
    requires 0 < n && s <= n
    ensures a * s / n <= a
  {
    assert a * s <= a * n by {
      MulMonotone(a, s, n);
    }
    assert a * n / n == a;
    DivMonotone(a * s, a * n, n);
  }

  lemma MulMonotone(a: nat, s: nat, n: nat)
    requires s <= n
    ensures a * s <= a * n
  {
    assert a * n == a * s + a * (n - s);
  }

  lemma DivMonotone(x: nat, y: nat, n: nat)
    requires 0 < n && x <= y
    ensures x / n <= y / n
  {
    var p, q := x / n, y / n;
    assert p * n <= x;
    assert y < (q + 1) * n;
    FactorLess(p, q + 1, n);
  }

  lemma FactorLess(a: nat, b: nat, n: nat)
    requires a * n < b * n
    ensures a < b
  {
    if b <= a {
      MulMonotone(n, b, a);
    }
  }

  /** `[beat - start for beat in beats if start <= beat < end]`. */
  function VisibleBeats(beats: seq<int>, start: int, end: int): (r: seq<int>)
    ensures |r| <= |beats|
    ensures forall i :: 0 <= i < |r| ==> 0 <= r[i] < end - start
  {
    if beats == [] then []
    else (if start <= beats[0] < end then [beats[0] - start] else []) + VisibleBeats(beats[1..], start, end)
  }

  /** A position is shown exactly when it is `b - start` for a beat `b` in
      `[start, end)`. */
  lemma {:induction false} VisibleBeatsMembers(beats: seq<int>, start: int, end: int, x: int)
    ensures x in VisibleBeats(beats, start, end) <==> x + start in beats && start <= x + start < end
  {
    if beats != [] {
      VisibleBeatsMembers(beats[1..], start, end, x);
      assert beats == [beats[0]] + beats[1..];
      assert x + start in beats <==> x + start == beats[0] || x + start in beats[1..];
    }
  }

  predicate Increasing(s: seq<int>) {
    forall i, j :: 0 <= i < j < |s| ==> s[i] < s[j]
  }

  /** Re-basing keeps the beats' order: increasing positions stay
      increasing. */
  lemma {:induction false} VisibleBeatsIncreasing(beats: seq<int>, start: int, end: int)
    requires Increasing(beats)
    ensures Increasing(VisibleBeats(beats, start, end))
  {
    if beats != [] {
      var r := VisibleBeats(beats, start, end);
      var rest := VisibleBeats(beats[1..], start, end);
      VisibleBeatsIncreasing(beats[1..], start, end);
      if start <= beats[0] < end {
        assert r == [beats[0] - start] + rest;
        forall i, j | 0 <= i < j < |r|
          ensures r[i] < r[j]
        {
          assert r[j] == rest[j - 1];
          if i == 0 {
            VisibleBeatsMembers(beats[1..], start, end, rest[j - 1]);
            var m :| 0 <= m < |beats[1..]| && beats[1..][m] == rest[j - 1] + start;
            assert beats[0] < beats[m + 1];
            assert r[0] == beats[0] - start;
          } else {
            assert r[i] == rest[i - 1];
            assert rest[i - 1] < rest[j - 1];
          }
        }
      } else {
        assert r == rest;
      }
    }
  }

  /** What the preview shows: the samples of the window and the selected
      beats, re-based to the window's start. */
  datatype Chart = Chart(window: Window, samples: seq<real>, beats: seq<int>)

  /** `update_chart`: the window from the sliders, the samples in it, and
      the `[offset::every]` selection of the beats that fall inside it. */
  function UpdateChart(data: seq<real>, beats: seq<int>, zoom: int, scroll: nat, offset: nat, every: nat)
    : Result<Chart, PreviewError>
    requires ZoomMin <= zoom <= ZoomMax && every >= 1
  {
    match WindowOf(|data|, zoom, scroll)
    case Err(e) => Err(e)
    case Ok(w) =>
      Ok(Chart(w, Slice(data, w.start, w.end), Stride(VisibleBeats(beats, w.start, w.end), offset, every)))
  }

  /** With the slider values in range, the preview fails only without
      samples, and otherwise shows exactly the samples of a window of the
      visible length that lies inside the audio. */
  lemma UpdateChartSpec(data: seq<real>, beats: seq<int>, zoom: int, scroll: nat, offset: nat, every: nat)
    requires ZoomMin <= zoom <= ZoomMax && every >= 1 && scroll <= |data|
    ensures UpdateChart(data, beats, zoom, scroll, offset, every).Err? <==> data == []
    ensures UpdateChart(data, beats, zoom, scroll, offset, every).Ok? ==>
              var c := UpdateChart(data, beats, zoom, scroll, offset, every).value;
              && c.window.end <= |data|
              && c.window.end - c.window.start == VisibleLength(|data|, zoom)
              && c.samples == data[c.window.start..c.window.end]
  {
    WindowOfSpec(|data|, zoom, scroll);
  }

  /** The preview's `k`-th beat is the `(offset + k*every)`-th beat inside
      the window, re-based, so it lies within the window and comes from a
      beat of the input. */
  lemma UpdateChartBeats(data: seq<real>, beats: seq<int>, zoom: int, scroll: nat, offset: nat, every: nat, k: nat)
    requires ZoomMin <= zoom <= ZoomMax && every >= 1
    requires UpdateChart(data, beats, zoom, scroll, offset, every).Ok?
    ensures var c := UpdateChart(data, beats, zoom, scroll, offset, every).value;
            var visible := VisibleBeats(beats, c.window.start, c.window.end);
            && (k < |c.beats| <==> offset + k * every < |visible|)
            && (k < |c.beats| ==>
                  && c.beats[k] == visible[offset + k * every]
                  && 0 <= c.beats[k] < c.window.end - c.window.start
                  && c.beats[k] + c.window.start in beats)
  {
    var w := WindowOf(|data|, zoom, scroll).value;
    var visible := VisibleBeats(beats, w.start, w.end);
    StrideIndex(visible, offset, every, k);
    if offset + k * every < |visible| {
      VisibleBeatsMembers(beats, w.start, w.end, visible[offset + k * every]);
    }
  }
}
