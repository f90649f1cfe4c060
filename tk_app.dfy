/** The state logic of the Tk application (automarker.py): placing markers
    from the global beat list, the preview's marker selection, the
    playback callback over the global play position, and the click that
    asks to seek. Its module-level globals are the fields of `Session`. */
module TkApp {
  import opened Slicing
  import opened Markers

  /** `sample_rate` of the Tk application. */
  const SampleRate := 44100

  /** The preview plays and shows the first ten seconds. */
  const PreviewSamples := SampleRate * 10
  const PreviewSeconds := 10.0

  /** The beats `place_marks` keeps, as written: the `[offset::every]`
      selection only when `every > 1`, so the offset is ignored when
      `every == 1`. */
  function PlaceMarksSelection(beats: seq<real>, every: nat, offset: nat): (r: seq<real>)
    requires every >= 1
    ensures every == 1 ==> r == beats
    ensures every > 1 ==> r == Stride(beats, offset, every)
  {
    if every > 1 then Stride(beats, offset, every) else beats
  }

  /** The beats `place_marks` evidently means to keep: the same
      `[offset::every]` selection the preview draws, for every slider
      value. */
  function IntendedSelection(beats: seq<real>, every: nat, offset: nat): (r: seq<real>)
    requires every >= 1
    ensures every == 1 ==> r == Slice(beats, offset, |beats|)
  {
    StrideStepOne(beats, offset);
    Stride(beats, offset, every)
  }

  /** `update_markers`: the beats `[offset::every]` that fall in the first
      ten seconds, which are the ones drawn. */
  function UpdateMarkers(beats: seq<real>, every: nat, offset: nat): seq<real>
    requires every >= 1
  {
    BeforeEnd(Stride(beats, offset, every), PreviewSeconds)
  }

  /** The preview draws exactly the selected beats before ten seconds, in
      order; the intended placement marks, within the first ten seconds,
      exactly what the preview draws, and for `every > 1` the placement as
      written agrees with it. */
  lemma {:induction false} UpdateMarkersSpec(beats: seq<real>, every: nat, offset: nat, x: real)
    requires every >= 1
    ensures x in UpdateMarkers(beats, every, offset)
            <==> x < PreviewSeconds && exists k :: 0 <= k && offset + k * every < |beats| && beats[offset + k * every] == x
    ensures UpdateMarkers(beats, every, offset) == BeforeEnd(IntendedSelection(beats, every, offset), PreviewSeconds)
    ensures every > 1 ==> UpdateMarkers(beats, every, offset)
                          == BeforeEnd(PlaceMarksSelection(beats, every, offset), PreviewSeconds)
  {
    var s := Stride(beats, offset, every);
    BeforeEndMembers(s, PreviewSeconds, x);
    if x in s {
      var k :| 0 <= k < |s| && s[k] == x;
      StrideIndex(beats, offset, every, k);
    }
    if exists k :: 0 <= k && offset + k * every < |beats| && beats[offset + k * every] == x {
      var k :| 0 <= k && offset + k * every < |beats| && beats[offset + k * every] == x;
      StrideIndex(beats, offset, every, k);
      assert s[k] == x;
    }
  }

  /** With `every == 1` and an offset, the placement as written keeps a
      beat the preview leaves out: for beats at one and two seconds and
      offset 1, it places both while the preview shows only the second. */
  lemma OffsetIgnoredWhenEveryIsOne()
    ensures PlaceMarksSelection([1.0, 2.0], 1, 1) == [1.0, 2.0]
    ensures UpdateMarkers([1.0, 2.0], 1, 1) == [2.0]
    ensures IntendedSelection([1.0, 2.0], 1, 1) == [2.0]
  {
    assert Stride([1.0, 2.0], 1, 1) == [2.0] + Stride([1.0, 2.0], 2, 1);
  }

  /** Selecting from a selection is one selection with composed offset and
      step: this is what a second `place_marks` does to the overwritten
      global. */
  lemma RepeatedPlacement(beats: seq<real>, every: nat, offset: nat)
    requires every > 1
    ensures PlaceMarksSelection(PlaceMarksSelection(beats, every, offset), every, offset)
            == Stride(beats, offset + Product(offset, every), Product(every, every))
  {
    StrideOfStride(beats, offset, every, offset, every);
  }

  /** Four beats, every second one: the first placement keeps two, the
      second keeps one. */
  lemma RepeatedPlacementExample()
    ensures PlaceMarksSelection([0.5, 1.0, 1.5, 2.0], 2, 0) == [0.5, 1.5]
    ensures PlaceMarksSelection([0.5, 1.5], 2, 0) == [0.5]
  {
    var b := [0.5, 1.0, 1.5, 2.0];
    StrideIndex(b, 0, 2, 0);
    StrideIndex(b, 0, 2, 1);
    StrideIndex(b, 0, 2, 2);
    StrideIndex([0.5, 1.5], 0, 2, 0);
    StrideIndex([0.5, 1.5], 0, 2, 1);
  }

  /** The module-level state of the Tk application. */
  class Session {
    /** The global `beatsamples`: beat times in seconds. */
    var beatsamples: seq<real>
    /** The global `data`: the loaded samples. */
    var data: seq<real>
    /** The global `playpos`: the next sample to play. */
    var playpos: nat
    /** `playpos_param` and `changepos`: a seek asked for by a click. */
    var playposParam: int
    var changepos: bool
    /** The markers created in the active sequence, in creation order. */
    var markers: seq<real>

    /** `place_marks` as written: the global is replaced by the selection,
        then a marker is created for each of its beats before the end of
        the sequence, in order. */
    method PlaceMarks(every: nat, offset: nat, endOfSequence: real)
      requires every >= 1
      modifies this
      ensures beatsamples == PlaceMarksSelection(old(beatsamples), every, offset)
      ensures markers == old(markers) + BeforeEnd(beatsamples, endOfSequence)
      ensures data == old(data) && playpos == old(playpos)
      ensures playposParam == old(playposParam) && changepos == old(changepos)
    {
      if every > 1 {
        beatsamples := Stride(beatsamples, offset, every);
      }
      CreateMarkers(beatsamples, endOfSequence);
    }

    /** `place_marks` as evidently intended: the markers are those of the
        selection the preview draws, and the global list is left as it is,
        so placing again gives the same markers again. */
    method PlaceMarksCorrected(every: nat, offset: nat, endOfSequence: real)
      requires every >= 1
      modifies this
      ensures beatsamples == old(beatsamples)
      ensures markers == old(markers) + BeforeEnd(IntendedSelection(beatsamples, every, offset), endOfSequence)
      ensures data == old(data) && playpos == old(playpos)
      ensures playposParam == old(playposParam) && changepos == old(changepos)
    {
      var selected := Stride(beatsamples, offset, every);
      CreateMarkers(selected, endOfSequence);
    }

    /** The marker loop of `place_marks`. */
    method CreateMarkers(beats: seq<real>, endOfSequence: real)
      modifies this
      ensures markers == old(markers) + BeforeEnd(beats, endOfSequence)
      ensures beatsamples == old(beatsamples) && data == old(data) && playpos == old(playpos)
      ensures playposParam == old(playposParam) && changepos == old(changepos)
    {
      for i := 0 to |beats|
        invariant markers == old(markers) + BeforeEnd(beats[..i], endOfSequence)
        invariant beatsamples == old(beatsamples) && data == old(data) && playpos == old(playpos)
        invariant playposParam == old(playposParam) && changepos == old(changepos)
      {
        BeforeEndConcat(beats[..i], [beats[i]], endOfSequence);
        assert beats[..i + 1] == beats[..i] + [beats[i]];
        if beats[i] < endOfSequence {
          markers := markers + [beats[i]];
        }
      }
      assert beats[..|beats|] == beats;
    }

    /** `callback`: hand out the samples from the play position on, move
        the position on by the frames asked for, and signal completion once
        ten seconds have been played. */
    method Callback(frameCount: nat) returns (chunk: seq<real>, complete: bool)
      modifies this
      ensures chunk == Slice(data, old(playpos), old(playpos) + frameCount)
      ensures playpos == old(playpos) + frameCount
      ensures complete <==> playpos >= PreviewSamples
      ensures beatsamples == old(beatsamples) && data == old(data) && markers == old(markers)
      ensures playposParam == old(playposParam) && changepos == old(changepos)
    {
      chunk := Slice(data, playpos, playpos + frameCount);
      playpos := playpos + frameCount;
      if playpos >= SampleRate * 10 {
        return chunk, true;
      }
      return chunk, false;
    }

    /** `on_left_click`: a click on the waveform band (`100 <= y <= 300`)
        asks to seek to its `x`; any other click changes nothing. */
    method OnLeftClick(x: int, y: int)
      modifies this
      ensures 100 <= y <= 300 ==> playposParam == x && changepos
      ensures !(100 <= y <= 300) ==> playposParam == old(playposParam) && changepos == old(changepos)
      ensures beatsamples == old(beatsamples) && data == old(data) && playpos == old(playpos)
      ensures markers == old(markers)
    {
      if 100 <= y <= 300 {
        playposParam := x;
        changepos := true;
      }
    }
  }

  /** Successive callbacks hand out consecutive stretches of the samples:
      two calls of `m` and `n` frames give what one call of `m + n` frames
      would. */
  lemma CallbacksAreConsecutive(data: seq<real>, p: nat, m: nat, n: nat)
    ensures Slice(data, p, p + m) + Slice(data, p + m, p + m + n) == Slice(data, p, p + m + n)
  {
    var a := Slice(data, p, p + m);
    var b := Slice(data, p + m, p + m + n);
    var c := Slice(data, p, p + m + n);
    assert |a + b| == |c|;
    forall i | 0 <= i < |c|
      ensures (a + b)[i] == c[i]
    {
      if i < |a| {
        assert (a + b)[i] == a[i];
      } else {
        assert (a + b)[i] == b[i - |a|];
      }
    }
  }
}
