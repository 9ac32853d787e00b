/** Tag selection by threshold and the guarded hand-off of the selected tags to
    the metadata writer; both tagger scripts share this logic. */
module Tagging {
  import opened Wrappers
  import opened Text

  /** The indices whose probability is strictly above the threshold, in
      increasing order. */
  function SelectedIndices(probs: seq<real>, thresh: real): (r: seq<int>)
    ensures forall i :: i in r <==> 0 <= i < |probs| && probs[i] > thresh
    ensures forall a, b :: 0 <= a < b < |r| ==> r[a] < r[b]
  {
    if |probs| == 0 then []
    else
      var n := |probs| - 1;
      var front := SelectedIndices(probs[..n], thresh);
      SelectedIndicesStep(probs, thresh, front);
      front + (if probs[n] > thresh then [n] else [])
  }

  /** The indices selected from all but the last probability, followed by the
      last index when it is selected, are the indices selected from all. */
  lemma SelectedIndicesStep(probs: seq<real>, thresh: real, front: seq<int>)
    requires |probs| > 0
    requires forall i :: i in front <==> 0 <= i < |probs| - 1 && probs[..|probs| - 1][i] > thresh
    requires forall a, b :: 0 <= a < b < |front| ==> front[a] < front[b]
    ensures var r := front + (if probs[|probs| - 1] > thresh then [|probs| - 1] else []);
      && (forall i :: i in r <==> 0 <= i < |probs| && probs[i] > thresh)
      && (forall a, b :: 0 <= a < b < |r| ==> r[a] < r[b])
  {
    var n := |probs| - 1;
    var r := front + (if probs[n] > thresh then [n] else []);
    forall i | 0 <= i < n ensures probs[..n][i] == probs[i] { }
    forall a | 0 <= a < |front| ensures 0 <= front[a] < n {
      assert front[a] in front;
    }
    forall i ensures i in r <==> 0 <= i < |probs| && probs[i] > thresh {
      if 0 <= i < n {
        assert probs[..n][i] == probs[i];
      }
    }
  }

  /** What the selection loop yields: the tags at the selected indices, or
      `None` when an index above the threshold lies past the end of the tag
      vocabulary (the `IndexError` that `tags[i]` raises). */
  function Select(tags: seq<string>, probs: seq<real>, thresh: real): Option<seq<string>>
  {
    if |probs| == 0 then Some([])
    else
      var n := |probs| - 1;
      match Select(tags, probs[..n], thresh)
      case None => None
      case Some(d) =>
        if probs[n] > thresh then
          if n < |tags| then Some(d + [tags[n]]) else None
        else Some(d)
  }

  /** The selection fails exactly when a probability above the threshold has
      no tag. */
  lemma {:induction false} SelectFails(tags: seq<string>, probs: seq<real>, thresh: real)
    ensures Select(tags, probs, thresh).None? <==> exists i :: |tags| <= i < |probs| && probs[i] > thresh
  {
    if |probs| > 0 {
      var n := |probs| - 1;
      var front := probs[..n];
      SelectFails(tags, front, thresh);
      if Select(tags, front, thresh).None? {
        var i :| |tags| <= i < n && front[i] > thresh;
        assert probs[i] > thresh;
      } else {
        forall i | |tags| <= i < n ensures probs[i] <= thresh { assert front[i] == probs[i]; }
      }
    }
  }

  /** A selection that succeeds holds, in order, the tags at the selected indices. */
  lemma {:induction false} SelectContents(tags: seq<string>, probs: seq<real>, thresh: real)
    ensures Select(tags, probs, thresh).Some? ==>
      var r := Select(tags, probs, thresh).value;
      var idx := SelectedIndices(probs, thresh);
      |r| == |idx| &&
      forall k :: 0 <= k < |idx| ==> 0 <= idx[k] < |tags| && r[k] == tags[idx[k]]
  {
    if |probs| > 0 {
      var n := |probs| - 1;
      var front := probs[..n];
      SelectContents(tags, front, thresh);
      var idx := SelectedIndices(probs, thresh);
      var fidx := SelectedIndices(front, thresh);
      assert idx == fidx + (if probs[n] > thresh then [n] else []);
      if Select(tags, front, thresh).Some? {
        var d := Select(tags, front, thresh).value;
        if probs[n] > thresh && n < |tags| {
          var r := d + [tags[n]];
          assert r == Select(tags, probs, thresh).value;
          forall k | 0 <= k < |idx| ensures 0 <= idx[k] < |tags| && r[k] == tags[idx[k]] {
            if k < |fidx| { assert idx[k] == fidx[k] && r[k] == d[k]; }
          }
        } else if probs[n] <= thresh {
          assert idx == fidx;
        }
      }
    }
  }

  /** The selection loop of both tagger scripts: walk the probabilities with
      their indices and collect the tag of every one above the threshold. */
  method SelectTags(tags: seq<string>, probs: seq<real>, thresh: real) returns (r: Option<seq<string>>)
    ensures r == Select(tags, probs, thresh)
  {
    var detected: seq<string> := [];
    for i := 0 to |probs|
      invariant Select(tags, probs[..i], thresh) == Some(detected)
    {
      assert probs[..i + 1][..i] == probs[..i];
      if probs[i] > thresh {
        if i >= |tags| {
          SelectFails(tags, probs, thresh);
          return None;
        }
        detected := detected + [tags[i]];
      }
    }
    assert probs[..|probs|] == probs;
    return Some(detected);
  }

  /** A probability equal to the threshold is never selected. */
  lemma ThresholdIsExclusive(probs: seq<real>, thresh: real, i: nat)
    requires i < |probs| && probs[i] == thresh
    ensures i !in SelectedIndices(probs, thresh)
  {
  }

  /** Raising the threshold can only drop selected indices. */
  lemma {:induction false} HigherThresholdSelectsFewer(probs: seq<real>, low: real, high: real)
    requires low <= high
    ensures forall i :: i in SelectedIndices(probs, high) ==> i in SelectedIndices(probs, low)
    ensures |SelectedIndices(probs, high)| <= |SelectedIndices(probs, low)|
  {
    if |probs| > 0 {
      var n := |probs| - 1;
      HigherThresholdSelectsFewer(probs[..n], low, high);
    }
  }

  /** A write call: the file and the tag list handed to the metadata writer. */
  datatype WriteCall = WriteCall(path: string, tags: seq<string>)

  /** The `XMP:Subject` value the writer passes to exiftool, or `None` when it
      returns at once because the tag list is empty. The value is the tags
      joined with `", "`, and exiftool's `-sep ", "` splits it back into the
      same list when no tag holds a comma. */
  function XmpSubject(tags: seq<string>): (r: Option<string>)
    ensures r.None? <==> tags == []
    ensures r.Some? && NoComma(tags) ==> Split(r.value) == tags
  {
    if tags == [] then None
    else
      SplitJoinWhenCommaFree(tags);
      Some(Join(tags))
  }

  lemma SplitJoinWhenCommaFree(parts: seq<string>)
    ensures |parts| > 0 && NoComma(parts) ==> Split(Join(parts)) == parts
  {
    if |parts| > 0 && NoComma(parts) { SplitJoin(parts); }
  }

  /** The result of `write_xmp_passthrough_safe` in the universal script:
      `False` for an empty list, else whatever the external write reported. */
  function PassthroughWrite(tags: seq<string>, toolSucceeded: bool): (ok: bool)
    ensures ok ==> XmpSubject(tags).Some?
    ensures tags == [] ==> !ok
    ensures tags != [] ==> ok == toolSucceeded
  {
    match XmpSubject(tags)
    case None => false
    case Some(_) => toolSucceeded
  }
}
