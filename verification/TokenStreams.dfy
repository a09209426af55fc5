/** Token delivery to one client: what the segments of successive attempts add up to. A token is its
    index; `sent` counts only the tokens of attempts that did not fail. */
module TokenStreams {
  import opened Views

  function Range(start: int, n: nat): seq<int> { seq(n, i => start + i) }

  /** The tokens one attempt put on the client's stream, and whether the attempt failed. */
  datatype Segment = Segment(replica: Id, tokens: seq<int>, failed: bool)

  /** Everything the client received, in order. */
  function Delivered(segments: seq<Segment>): seq<int> {
    if segments == [] then []
    else var n := |segments| - 1; Delivered(segments[..n]) + segments[n].tokens
  }

  /** What it received from attempts that did not fail. */
  function Kept(segments: seq<Segment>): seq<int> {
    if segments == [] then []
    else var n := |segments| - 1; Kept(segments[..n]) + if segments[n].failed then [] else segments[n].tokens
  }

  /** Each attempt resumes after the tokens kept so far. */
  predicate Chained(segments: seq<Segment>) {
    segments == [] ||
    var n := |segments| - 1;
    Chained(segments[..n]) && segments[n].tokens == Range(|Kept(segments[..n])|, |segments[n].tokens|)
  }

  lemma SegmentAdded(segments: seq<Segment>, s: Segment)
    requires Chained(segments) && s.tokens == Range(|Kept(segments)|, |s.tokens|)
    ensures Chained(segments + [s])
    ensures Kept(segments + [s]) == Kept(segments) + if s.failed then [] else s.tokens
    ensures Delivered(segments + [s]) == Delivered(segments) + s.tokens
  {
    assert (segments + [s])[..|segments|] == segments;
  }

  /** The kept segments are exactly the token indices from 0, in order. */
  lemma {:induction false} KeptIsGapless(segments: seq<Segment>)
    requires Chained(segments)
    ensures Kept(segments) == Range(0, |Kept(segments)|)
  {
    if segments == [] {
    } else {
      KeptIsGapless(segments[..|segments| - 1]);
    }
  }

  /** A failed attempt put tokens on the stream and a later attempt put tokens on it again. */
  predicate Repeats(segments: seq<Segment>) {
    exists i, j | 0 <= i < j < |segments| ::
      segments[i].failed && segments[i].tokens != [] && segments[j].tokens != []
  }

  predicate Wasted(segments: seq<Segment>) {
    exists i | 0 <= i < |segments| :: segments[i].failed && segments[i].tokens != []
  }

  /** An attempt that did not fail put tokens on the stream. */
  predicate Useful(segments: seq<Segment>) {
    exists i | 0 <= i < |segments| :: !segments[i].failed && segments[i].tokens != []
  }

  lemma UsefulStep(segments: seq<Segment>)
    requires segments != []
    ensures var n := |segments| - 1;
      Useful(segments) <==> Useful(segments[..n]) || (!segments[n].failed && segments[n].tokens != [])
  {
    var n := |segments| - 1;
    var before := segments[..n];
    if Useful(before) {
      var i :| 0 <= i < |before| && !before[i].failed && before[i].tokens != [];
      assert segments[i] == before[i];
    }
    if Useful(segments) {
      var i :| 0 <= i < |segments| && !segments[i].failed && segments[i].tokens != [];
      assert i < n ==> before[i] == segments[i];
    }
  }

  lemma {:induction false} KeptIsUseful(segments: seq<Segment>)
    ensures Kept(segments) != [] <==> Useful(segments)
  {
    if segments == [] {
    } else {
      KeptIsUseful(segments[..|segments| - 1]);
      UsefulStep(segments);
    }
  }

  lemma {:induction false} KeptWithinDelivered(segments: seq<Segment>)
    requires Chained(segments)
    ensures |Kept(segments)| <= |Delivered(segments)|
    ensures |Kept(segments)| == |Delivered(segments)| <==> !Wasted(segments)
    ensures forall t :: t in Kept(segments) ==> t in Delivered(segments)
    ensures forall t :: t in Delivered(segments) ==> 0 <= t
  {
    if segments == [] {
    } else {
      var n := |segments| - 1;
      var before := segments[..n];
      KeptWithinDelivered(before);
      if Wasted(before) {
        var i :| 0 <= i < |before| && before[i].failed && before[i].tokens != [];
        assert segments[i] == before[i];
      }
      if Wasted(segments) && !(segments[n].failed && segments[n].tokens != []) {
        var i :| 0 <= i < |segments| && segments[i].failed && segments[i].tokens != [];
        assert before[i] == segments[i];
      }
    }
  }

  lemma RepeatsStep(segments: seq<Segment>)
    requires segments != []
    ensures var n := |segments| - 1;
      Repeats(segments) <==> Repeats(segments[..n]) || (Wasted(segments[..n]) && segments[n].tokens != [])
  {
    var n := |segments| - 1;
    var before := segments[..n];
    if Repeats(segments) {
      var i, j :| 0 <= i < j < |segments| && segments[i].failed && segments[i].tokens != [] && segments[j].tokens != [];
      assert before[i] == segments[i];
      if j < n { assert before[j] == segments[j]; }
    }
    if Repeats(before) {
      var i, j :| 0 <= i < j < |before| && before[i].failed && before[i].tokens != [] && before[j].tokens != [];
      assert segments[i] == before[i] && segments[j] == before[j];
    }
    if Wasted(before) && segments[n].tokens != [] {
      var i :| 0 <= i < |before| && before[i].failed && before[i].tokens != [];
      assert segments[i] == before[i];
    }
  }

  /** The client sees every index once and in order exactly when no failed attempt that had delivered
      tokens was followed by more tokens. */
  lemma {:induction false} ExactlyOnceExactly(segments: seq<Segment>)
    requires Chained(segments)
    ensures Delivered(segments) == Range(0, |Delivered(segments)|) <==> !Repeats(segments)
  {
    if segments == [] {
    } else {
      var n := |segments| - 1;
      var before := segments[..n];
      ExactlyOnceExactly(before);
      RepeatsStep(segments);
      KeptWithinDelivered(before);
      var d := Delivered(segments);
      assert d[..|Delivered(before)|] == Delivered(before);
      if d == Range(0, |d|) {
        assert Delivered(before) == Range(0, |Delivered(before)|);
        if segments[n].tokens != [] {
          assert d[|Delivered(before)|] == segments[n].tokens[0] == |Kept(before)|;
        }
      }
    }
  }

  /** A complete delivery covers every index. */
  lemma CompleteCovers(segments: seq<Segment>, i: int)
    requires Chained(segments) && 0 <= i < |Kept(segments)|
    ensures i in Delivered(segments)
  {
    KeptIsGapless(segments);
    KeptWithinDelivered(segments);
    assert Kept(segments)[i] == i;
  }
}
