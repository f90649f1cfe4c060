/** Which beats become markers in the host: a marker is created only for a
    beat strictly before the end of the active sequence (the Premiere
    script of automarkerQt.py and `place_marks` of automarker.py), and the
    Tk preview draws only the beats of its first ten seconds. */
module Markers {
  import opened Slicing

  /** The beats strictly before `end`, in their original order. */
  function BeforeEnd(beats: seq<real>, end: real): (r: seq<real>)
    ensures |r| <= |beats|
    ensures forall i :: 0 <= i < |r| ==> r[i] < end
  {
    if beats == [] then []
    else (if beats[0] < end then [beats[0]] else []) + BeforeEnd(beats[1..], end)
  }

  /** A beat gets a marker exactly when it is one of the beats and lies
      before the end. */
  lemma {:induction false} BeforeEndMembers(beats: seq<real>, end: real, x: real)
    ensures x in BeforeEnd(beats, end) <==> x in beats && x < end
  {
    if beats != [] {
      BeforeEndMembers(beats[1..], end, x);
      assert beats == [beats[0]] + beats[1..];
      assert x in beats <==> x == beats[0] || x in beats[1..];
    }
  }

  /** Filtering a list made of two parts filters each part: markers are
      created in the order of the list. */
  lemma {:induction false} BeforeEndConcat(a: seq<real>, b: seq<real>, end: real)
    ensures BeforeEnd(a + b, end) == BeforeEnd(a, end) + BeforeEnd(b, end)
  {
    if a == [] {
      assert a + b == b;
    } else {
      assert (a + b)[0] == a[0];
      assert (a + b)[1..] == a[1..] + b;
      BeforeEndConcat(a[1..], b, end);
    }
  }

  /** When every beat lies before the end, every beat gets a marker. */
  lemma {:induction false} BeforeEndKeepsAll(beats: seq<real>, end: real)
    requires forall i :: 0 <= i < |beats| ==> beats[i] < end
    ensures BeforeEnd(beats, end) == beats
  {
    if beats != [] {
      BeforeEndKeepsAll(beats[1..], end);
    }
  }

  /** Markers for increasing beats are created in increasing order. */
  lemma {:induction false} BeforeEndKeepsIncreasing(beats: seq<real>, end: real)
    requires StrictlyIncreasing(beats)
    ensures StrictlyIncreasing(BeforeEnd(beats, end))
  {
    if beats != [] {
      var r := BeforeEnd(beats, end);
      var rest := BeforeEnd(beats[1..], end);
      BeforeEndKeepsIncreasing(beats[1..], end);
      if beats[0] < end {
        assert r == [beats[0]] + rest;
        forall i, j | 0 <= i < j < |r|
          ensures r[i] < r[j]
        {
          assert r[j] == rest[j - 1];
          if i == 0 {
            BeforeEndMembers(beats[1..], end, rest[j - 1]);
            var m :| 0 <= m < |beats[1..]| && beats[1..][m] == rest[j - 1];
            assert beats[0] < beats[m + 1];
            assert r[0] == beats[0];
          } else {
            assert r[i] == rest[i - 1];
            assert rest[i - 1] < rest[j - 1];
          }
        }
      } else {
        assert r == rest;
      }
    }
  }
}
