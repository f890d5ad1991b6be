/** Greedy non-max suppression (utils.py, nms) on predictions
    [class, score, four box numbers]. The procedure its documentation describes:
    drop predictions scoring at most the score threshold, sort the rest by score,
    highest first, then repeatedly keep the head and remove every later prediction
    of the same class whose IoU with it exceeds the IoU threshold. */
module Nms {
  import opened Boxes
  import opened Sorting

  /** One prediction: its class, its score and its box. */
  datatype Bbox = Bbox(cls: int, score: real, box: Box)

  function Score(b: Bbox): real { b.score }

  /** The boxes scoring above the threshold, in input order. */
  function AboveThreshold(bboxes: seq<Bbox>, threshold: real): (r: seq<Bbox>)
    ensures forall b :: b in r <==> b in bboxes && b.score > threshold
    ensures |r| <= |bboxes|
  {
    if bboxes == [] then []
    else
      var rest := AboveThreshold(bboxes[1..], threshold);
      assert forall b :: b in bboxes <==> b == bboxes[0] || b in bboxes[1..] by {
        assert bboxes == [bboxes[0]] + bboxes[1..];
      }
      if bboxes[0].score > threshold then [bboxes[0]] + rest else rest
  }

  /** The chosen box removes b: same class and IoU above the IoU threshold. */
  predicate Suppresses(chosen: Bbox, b: Bbox, iouThreshold: real, f: BoxFormat)
  {
    b.cls == chosen.cls && Iou(f, chosen.box, b.box) > iouThreshold
  }

  /** The boxes the chosen box does not remove, in order. */
  function Survivors(chosen: Bbox, rest: seq<Bbox>, iouThreshold: real, f: BoxFormat): (r: seq<Bbox>)
    ensures forall b :: b in r <==> b in rest && !Suppresses(chosen, b, iouThreshold, f)
    ensures forall b :: b in rest && b.cls != chosen.cls ==> b in r
    ensures |r| <= |rest|
    ensures NonIncreasing(rest, Score) ==> NonIncreasing(r, Score)
  {
    if rest == [] then []
    else
      var tail := Survivors(chosen, rest[1..], iouThreshold, f);
      assert rest == [rest[0]] + rest[1..];
      ConsSorted(rest, tail);
      if Suppresses(chosen, rest[0], iouThreshold, f) then tail else [rest[0]] + tail
  }

  /** The greedy selection over candidates already sorted by score: keep the
      head, suppress with it, repeat on what survives. Each step removes at least
      the head, so the selection ends. */
  function Greedy(cands: seq<Bbox>, iouThreshold: real, f: BoxFormat): (r: seq<Bbox>)
    ensures forall b :: b in r ==> b in cands
    ensures |r| <= |cands|
    ensures NonIncreasing(cands, Score) ==> NonIncreasing(r, Score)
    decreases |cands|
  {
    if cands == [] then []
    else
      var chosen := cands[0];
      var survivors := Survivors(chosen, cands[1..], iouThreshold, f);
      var tail := Greedy(survivors, iouThreshold, f);
      assert forall b :: b in cands[1..] ==> b in cands;
      ConsSorted(cands, tail);
      [chosen] + tail
  }

  /** Putting the head of a sorted list in front of a sorted selection from
      the rest of it keeps the order. */
  lemma ConsSorted(cands: seq<Bbox>, tail: seq<Bbox>)
    requires cands != []
    requires forall b :: b in tail ==> b in cands[1..]
    ensures NonIncreasing(cands, Score) && NonIncreasing(tail, Score) ==> NonIncreasing([cands[0]] + tail, Score)
  {
    if NonIncreasing(cands, Score) && NonIncreasing(tail, Score) {
      forall j | 0 <= j < |tail| ensures tail[j].score <= cands[0].score {
        assert tail[j] in cands[1..];
        var k :| 0 <= k < |cands[1..]| && cands[1..][k] == tail[j];
        assert cands[k + 1] == tail[j];
      }
    }
  }

  /** No two boxes of one class in s overlap above the IoU threshold. */
  predicate NoSameClassOverlap(s: seq<Bbox>, iouThreshold: real, f: BoxFormat)
  {
    forall i, j :: 0 <= i < j < |s| && s[i].cls == s[j].cls ==> Iou(f, s[i].box, s[j].box) <= iouThreshold
  }

  /** No two kept boxes of one class overlap above the IoU threshold: the later
      one would have been suppressed by the earlier. */
  lemma {:induction false} GreedyNoOverlap(cands: seq<Bbox>, iouThreshold: real, f: BoxFormat)
    ensures NoSameClassOverlap(Greedy(cands, iouThreshold, f), iouThreshold, f)
    decreases |cands|
  {
    if cands != [] {
      var chosen := cands[0];
      var survivors := Survivors(chosen, cands[1..], iouThreshold, f);
      var tail := Greedy(survivors, iouThreshold, f);
      GreedyNoOverlap(survivors, iouThreshold, f);
      forall k | 0 <= k < |tail| && tail[k].cls == chosen.cls
        ensures Iou(f, chosen.box, tail[k].box) <= iouThreshold
      {
        assert tail[k] in survivors;
      }
      ConsNoOverlap(chosen, tail, iouThreshold, f);
    }
  }

  /** Prepending a box that overlaps no later box of its class keeps a sequence
      free of same-class overlaps. */
  lemma ConsNoOverlap(chosen: Bbox, tail: seq<Bbox>, iouThreshold: real, f: BoxFormat)
    requires forall k :: 0 <= k < |tail| && tail[k].cls == chosen.cls ==>
      Iou(f, chosen.box, tail[k].box) <= iouThreshold
    requires NoSameClassOverlap(tail, iouThreshold, f)
    ensures NoSameClassOverlap([chosen] + tail, iouThreshold, f)
  {
    var r := [chosen] + tail;
    forall i, j | 0 <= i < j < |r| && r[i].cls == r[j].cls
      ensures Iou(f, r[i].box, r[j].box) <= iouThreshold
    {
      assert r[j] == tail[j - 1];
      if i > 0 {
        assert r[i] == tail[i - 1];
      }
    }
  }

  /** Every box of cands is in r or is removed by a box of r. */
  predicate Accounted(cands: seq<Bbox>, r: seq<Bbox>, iouThreshold: real, f: BoxFormat)
  {
    forall b :: b in cands ==> b in r || exists i :: 0 <= i < |r| && Suppresses(r[i], b, iouThreshold, f)
  }

  /** Every candidate is either kept or removed by a kept box of its own class
      whose IoU with it exceeds the threshold; in particular a box is never
      removed on account of a box of another class. */
  lemma {:induction false} GreedyDropsOnlySuppressed(cands: seq<Bbox>, iouThreshold: real, f: BoxFormat)
    ensures Accounted(cands, Greedy(cands, iouThreshold, f), iouThreshold, f)
    decreases |cands|
  {
    if cands != [] {
      var survivors := Survivors(cands[0], cands[1..], iouThreshold, f);
      GreedyDropsOnlySuppressed(survivors, iouThreshold, f);
      var r := Greedy(cands, iouThreshold, f);
      var tail := Greedy(survivors, iouThreshold, f);
      assert r == [cands[0]] + tail;
      forall b | b in cands
        ensures b in r || exists i :: 0 <= i < |r| && Suppresses(r[i], b, iouThreshold, f)
      {
        if b == cands[0] {
          assert r[0] == b;
        } else {
          assert cands == [cands[0]] + cands[1..];
          assert b in cands[1..];
          if Suppresses(cands[0], b, iouThreshold, f) {
            assert Suppresses(r[0], b, iouThreshold, f);
          } else if b !in tail {
            var i :| 0 <= i < |tail| && Suppresses(tail[i], b, iouThreshold, f);
            assert Suppresses(r[i + 1], b, iouThreshold, f);
          }
        }
      }
    }
  }

  /** The selection the documentation describes, for the given boxes and
      thresholds: what survives filtering, sorting and greedy suppression. */
  function Selection(bboxes: seq<Bbox>, iouThreshold: real, threshold: real, f: BoxFormat): seq<Bbox>
  {
    Greedy(SortByScore(AboveThreshold(bboxes, threshold), Score), iouThreshold, f)
  }

  /** Every selected box comes from the input and scores above the threshold;
      the selection is sorted by score, no two boxes of one class in it overlap
      above the IoU threshold, and every box above the score threshold is either
      selected or suppressed by a selected box. */
  lemma SelectionProperties(bboxes: seq<Bbox>, iouThreshold: real, threshold: real, f: BoxFormat)
    ensures forall b :: b in Selection(bboxes, iouThreshold, threshold, f) ==> b in bboxes && b.score > threshold
    ensures |Selection(bboxes, iouThreshold, threshold, f)| <= |bboxes|
    ensures NonIncreasing(Selection(bboxes, iouThreshold, threshold, f), Score)
    ensures NoSameClassOverlap(Selection(bboxes, iouThreshold, threshold, f), iouThreshold, f)
    ensures Accounted(AboveThreshold(bboxes, threshold), Selection(bboxes, iouThreshold, threshold, f), iouThreshold, f)
  {
    var above := AboveThreshold(bboxes, threshold);
    var sorted := SortByScore(above, Score);
    forall b | b in sorted ensures b in above {
      SortedMembers(above, Score, b);
    }
    forall b | b in above ensures b in sorted {
      SortedMembers(above, Score, b);
    }
    GreedyNoOverlap(sorted, iouThreshold, f);
    GreedyDropsOnlySuppressed(sorted, iouThreshold, f);
    AccountedSame(above, sorted, Greedy(sorted, iouThreshold, f), iouThreshold, f);
  }

  /** Accounting for the boxes of one list accounts for those of a list with the
      same members. */
  lemma AccountedSame(a: seq<Bbox>, b: seq<Bbox>, r: seq<Bbox>, iouThreshold: real, f: BoxFormat)
    requires forall x :: x in a ==> x in b
    requires Accounted(b, r, iouThreshold, f)
    ensures Accounted(a, r, iouThreshold, f)
  {
  }

  /** One pass of the loop: the head joins the kept boxes and the selection
      goes on over what it leaves. */
  lemma GreedyStep(kept: seq<Bbox>, cands: seq<Bbox>, iouThreshold: real, f: BoxFormat)
    requires cands != []
    ensures kept + Greedy(cands, iouThreshold, f) ==
      (kept + [cands[0]]) + Greedy(Survivors(cands[0], cands[1..], iouThreshold, f), iouThreshold, f)
  {
    var rest := Greedy(Survivors(cands[0], cands[1..], iouThreshold, f), iouThreshold, f);
    assert Greedy(cands, iouThreshold, f) == [cands[0]] + rest;
    assert kept + ([cands[0]] + rest) == (kept + [cands[0]]) + rest;
  }

  /** Non-max suppression: filter by score, sort by score, select greedily. The
      loop takes the head of the candidate list and rebinds the list to the
      survivors on each pass. */
  method NonMaxSuppression(bboxes: seq<Bbox>, iouThreshold: real, threshold: real, f: BoxFormat := Corners)
    returns (kept: seq<Bbox>)
    ensures kept == Selection(bboxes, iouThreshold, threshold, f)
    ensures forall b :: b in kept ==> b in bboxes && b.score > threshold
    ensures NonIncreasing(kept, Score)
    ensures NoSameClassOverlap(kept, iouThreshold, f)
    ensures Accounted(AboveThreshold(bboxes, threshold), kept, iouThreshold, f)
  {
    var candidates := AboveThreshold(bboxes, threshold);
    candidates := SortByScore(candidates, Score);
    kept := Suppress(candidates, iouThreshold, f);
    SelectionProperties(bboxes, iouThreshold, threshold, f);
  }

  /** The while loop over candidates sorted by score. */
  method Suppress(sorted: seq<Bbox>, iouThreshold: real, f: BoxFormat) returns (kept: seq<Bbox>)
    ensures kept == Greedy(sorted, iouThreshold, f)
  {
    var candidates := sorted;
    kept := [];
    while candidates != []
      invariant kept + Greedy(candidates, iouThreshold, f) == Greedy(sorted, iouThreshold, f)
      decreases |candidates|
    {
      var chosen := candidates[0];
      GreedyStep(kept, candidates, iouThreshold, f);
      candidates := Survivors(chosen, candidates[1..], iouThreshold, f);
      kept := kept + [chosen];
    }
    assert kept + [] == kept;
  }

  /** The survivors as the code's comprehension writes them: it keeps boxes of
      other classes and same-class boxes whose IoU EXCEEDS the threshold. */
  function SurvivorsAsWritten(chosen: Bbox, rest: seq<Bbox>, iouThreshold: real, f: BoxFormat): (r: seq<Bbox>)
    ensures forall b :: b in r <==> b in rest && (b.cls != chosen.cls || Iou(f, chosen.box, b.box) > iouThreshold)
  {
    if rest == [] then []
    else
      var tail := SurvivorsAsWritten(chosen, rest[1..], iouThreshold, f);
      assert rest == [rest[0]] + rest[1..];
      if rest[0].cls != chosen.cls || Iou(f, chosen.box, rest[0].box) > iouThreshold then [rest[0]] + tail else tail
  }

  /** nms as the code runs it: the filtered list is never used, the unfiltered
      list is sorted, and the return inside the loop ends the call after the first
      pass, so the result is one top-scoring box of the whole input. On empty
      input the loop never runs and no return is reached: the call gives None. */
  function NmsAsWritten(bboxes: seq<Bbox>, iouThreshold: real, threshold: real, f: BoxFormat): (r: Option<seq<Bbox>>)
    ensures r.None? <==> bboxes == []
    ensures r.Some? ==> |r.value| == 1 && r.value[0] in bboxes && forall b :: b in bboxes ==> b.score <= r.value[0].score
  {
    var sorted := SortByScore(bboxes, Score);
    if sorted == [] then None
    else
      assert forall b :: b in bboxes ==> b in sorted by {
        forall b | b in bboxes ensures b in sorted { SortedMembers(bboxes, Score, b); }
      }
      SortedMembers(bboxes, Score, sorted[0]);
      Some([sorted[0]])
  }

  /** The code returns a box scoring below the score threshold, which the
      documented procedure drops. */
  lemma AsWrittenIgnoresThreshold(x: Bbox, iouThreshold: real, threshold: real, f: BoxFormat)
    requires x.score <= threshold
    ensures NmsAsWritten([x], iouThreshold, threshold, f) == Some([x])
    ensures Greedy(SortByScore(AboveThreshold([x], threshold), Score), iouThreshold, f) == []
  {
    assert AboveThreshold([x], threshold) == [];
  }

  /** A candidate that no other kept box shares a class with is kept. */
  lemma KeptWithoutRival(cands: seq<Bbox>, r: seq<Bbox>, x: Bbox, iouThreshold: real, f: BoxFormat)
    requires Accounted(cands, r, iouThreshold, f)
    requires x in cands
    requires forall y :: y in r && y.cls == x.cls ==> y == x
    ensures x in r
  {
  }

  /** Two boxes of different classes above the score threshold both survive the
      documented procedure; the code returns only one of them. */
  lemma AsWrittenStopsAfterOne(a: Bbox, b: Bbox, iouThreshold: real, threshold: real, f: BoxFormat)
    requires a.cls != b.cls && a.score > threshold && b.score > threshold
    ensures NmsAsWritten([a, b], iouThreshold, threshold, f).Some?
    ensures |NmsAsWritten([a, b], iouThreshold, threshold, f).value| == 1
    ensures var r := Greedy(SortByScore(AboveThreshold([a, b], threshold), Score), iouThreshold, f);
      a in r && b in r && |r| == 2
  {
    var above := AboveThreshold([a, b], threshold);
    var cands := SortByScore(above, Score);
    var r := Greedy(cands, iouThreshold, f);
    SortedMembers(above, Score, a);
    SortedMembers(above, Score, b);
    forall x | x in r ensures x == a || x == b {
      SortedMembers(above, Score, x);
    }
    GreedyDropsOnlySuppressed(cands, iouThreshold, f);
    KeptWithoutRival(cands, r, a, iouThreshold, f);
    KeptWithoutRival(cands, r, b, iouThreshold, f);
  }

  /** Against a box of the chosen box's class, the comprehension as written and
      the documented rule disagree on every pair: the code keeps exactly the
      overlapping boxes the documentation says to remove. */
  lemma AsWrittenKeepsOverlapping(chosen: Bbox, b: Bbox, iouThreshold: real, f: BoxFormat)
    requires b.cls == chosen.cls
    ensures b in SurvivorsAsWritten(chosen, [b], iouThreshold, f) <==> Iou(f, chosen.box, b.box) > iouThreshold
    ensures b in Survivors(chosen, [b], iouThreshold, f) <==> Iou(f, chosen.box, b.box) <= iouThreshold
  {
  }
}
