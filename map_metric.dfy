/** Mean average precision (utils.py, mean_average_precision). For every class
    c in 0 .. num_classes - 1: keep the detections and ground truths of class c,
    give every image one unclaimed flag per ground truth it holds, scan the
    detections from the highest score down and judge each one a true positive
    (TP) or a false positive (FP) against its best ground truth in the same
    image, then integrate the precision/recall curve of the class. The result is
    the mean of the per-class values. */
module MeanAp {
  import opened Boxes
  import opened Sorting
  import opened Claims
  import opened Curves

  /** A detection [train_idx, class_pred, prob_score, box]. */
  datatype PredBox = PredBox(img: int, cls: int, score: real, box: Box)

  /** A ground truth [train_idx, class_label, box]. */
  datatype TrueBox = TrueBox(img: int, cls: int, box: Box)

  function PredScore(p: PredBox): real { p.score }

  /** The detections of class c, in input order. */
  function PredsOfClass(preds: seq<PredBox>, c: int): (r: seq<PredBox>)
    ensures forall p :: p in r <==> p in preds && p.cls == c
    ensures |r| <= |preds|
  {
    if preds == [] then []
    else
      var init := preds[..|preds| - 1];
      var last := preds[|preds| - 1];
      assert preds == init + [last];
      PredsOfClass(init, c) + (if last.cls == c then [last] else [])
  }

  /** The ground truths of class c, in input order. */
  function TruthsOfClass(gts: seq<TrueBox>, c: int): (r: seq<TrueBox>)
    ensures forall g :: g in r <==> g in gts && g.cls == c
    ensures |r| <= |gts|
  {
    if gts == [] then []
    else
      var init := gts[..|gts| - 1];
      var last := gts[|gts| - 1];
      assert gts == init + [last];
      TruthsOfClass(init, c) + (if last.cls == c then [last] else [])
  }

  /** The ground truths of one image, in input order: `ground_truth_img`. */
  function TruthsInImage(gts: seq<TrueBox>, img: int): (r: seq<TrueBox>)
    ensures forall g :: g in r <==> g in gts && g.img == img
    ensures |r| <= |gts|
  {
    if gts == [] then []
    else
      var init := gts[..|gts| - 1];
      var last := gts[|gts| - 1];
      assert gts == init + [last];
      TruthsInImage(init, img) + (if last.img == img then [last] else [])
  }

  /** The image ids of the ground truths, one per box: what the Counter counts. */
  function ImageIds(gts: seq<TrueBox>): (r: seq<int>)
    ensures |r| == |gts|
  {
    seq(|gts|, i requires 0 <= i < |gts| => gts[i].img)
  }

  /** An image holds as many ground truths as its id occurs among the ids. */
  lemma {:induction false} TruthsInImageCount(gts: seq<TrueBox>, img: int)
    ensures |TruthsInImage(gts, img)| == multiset(ImageIds(gts))[img]
    decreases |gts|
  {
    if gts != [] {
      var init := gts[..|gts| - 1];
      assert ImageIds(gts) == ImageIds(init) + [gts[|gts| - 1].img];
      TruthsInImageCount(init, img);
    }
  }

  /** The claim map fits the ground truths: every image holds one flag per
      ground truth of that image, and images without ground truths have no
      entry. */
  ghost predicate ClaimsFor(gts: seq<TrueBox>, claims: Flags)
  {
    forall img :: |TruthsInImage(gts, img)| == (if img in claims then |claims[img]| else 0)
  }

  /** The starting map, all flags unclaimed, fits the ground truths it is built
      from. */
  lemma ZeroClaimsFit(gts: seq<TrueBox>)
    ensures ClaimsFor(gts, ZeroClaims(ImageIds(gts)))
    ensures Claimed(ZeroClaims(ImageIds(gts))) == 0
    ensures Capacity(ZeroClaims(ImageIds(gts))) == |gts|
  {
    var m := ZeroClaims(ImageIds(gts));
    forall img ensures |TruthsInImage(gts, img)| == (if img in m then |m[img]| else 0) {
      TruthsInImageCount(gts, img);
    }
    ZeroClaimsUnclaimed(ImageIds(gts));
    ZeroClaimsCapacity(ImageIds(gts));
  }

  /** The best ground truth found so far: its IoU and its index, None while no
      IoU has exceeded the starting value 0. */
  datatype Best = Best(iou: real, idx: Option<nat>)

  /** The best ground truth among gts for a detection box: the first of maximal
      IoU, found with a strict comparison starting from 0. */
  function BestMatch(det: Box, gts: seq<TrueBox>, f: BoxFormat): (b: Best)
    ensures b.idx.None? ==> b.iou == 0.0 && forall j :: 0 <= j < |gts| ==> Iou(f, det, gts[j].box) == 0.0
    ensures b.idx.Some? ==> b.idx.value < |gts| && b.iou == Iou(f, det, gts[b.idx.value].box) > 0.0
    ensures b.idx.Some? ==> forall j :: 0 <= j < |gts| ==> Iou(f, det, gts[j].box) <= b.iou
    ensures b.idx.Some? ==> forall j :: 0 <= j < b.idx.value ==> Iou(f, det, gts[j].box) < b.iou
  {
    if gts == [] then Best(0.0, None)
    else
      var init := gts[..|gts| - 1];
      var b := BestMatch(det, init, f);
      var v := Iou(f, det, gts[|gts| - 1].box);
      assert forall j :: 0 <= j < |init| ==> gts[j] == init[j];
      if v > b.iou then Best(v, Some(|init|)) else b
  }

  /** Matching one detection changes the claim map in this way. */
  datatype Verdict = Verdict(tp: bool, claims: Flags)

  /** Setting one flag of an image keeps the claim map fitting the ground
      truths. */
  lemma ClaimKeepsFit(gts: seq<TrueBox>, claims: Flags, img: int, k: nat)
    requires ClaimsFor(gts, claims) && img in claims && k < |claims[img]|
    ensures ClaimsFor(gts, claims[img := claims[img][k := true]])
  {
    var claims' := claims[img := claims[img][k := true]];
    forall i ensures |TruthsInImage(gts, i)| == (if i in claims' then |claims'[i]| else 0) {
      assert |TruthsInImage(gts, i)| == (if i in claims then |claims[i]| else 0);
    }
  }

  /** The judgement of one detection: a TP exactly when its best ground truth in
      the same image overlaps it by more than the IoU threshold and is still
      unclaimed, in which case that ground truth becomes claimed; an FP
      otherwise, leaving the claims as they were. */
  function Judge(det: PredBox, gts: seq<TrueBox>, iouThreshold: real, f: BoxFormat, claims: Flags): (r: Verdict)
    requires ClaimsFor(gts, claims)
    ensures ClaimsFor(gts, r.claims)
    ensures r.claims.Keys == claims.Keys
    ensures !r.tp ==> r.claims == claims
    ensures r.tp ==>
      var b := BestMatch(det.box, TruthsInImage(gts, det.img), f);
      b.idx.Some? && b.iou > iouThreshold && det.img in claims &&
      b.idx.value < |claims[det.img]| && !claims[det.img][b.idx.value] &&
      r.claims == claims[det.img := claims[det.img][b.idx.value := true]]
  {
    var imgTruths := TruthsInImage(gts, det.img);
    var b := BestMatch(det.box, imgTruths, f);
    if b.iou > iouThreshold && b.idx.Some? then
      assert |TruthsInImage(gts, det.img)| > 0;
      var flags := claims[det.img];
      if !flags[b.idx.value] then
        ClaimKeepsFit(gts, claims, det.img, b.idx.value);
        Verdict(true, claims[det.img := flags[b.idx.value := true]])
      else
        Verdict(false, claims)
    else
      Verdict(false, claims)
  }

  /** A detection whose best ground truth is matched above the threshold but
      already claimed is an FP, even when another ground truth overlaps it too. */
  lemma ClaimedBestIsFalsePositive(det: PredBox, gts: seq<TrueBox>, iouThreshold: real, f: BoxFormat, claims: Flags)
    requires ClaimsFor(gts, claims)
    requires var b := BestMatch(det.box, TruthsInImage(gts, det.img), f);
      b.idx.Some? && det.img in claims && b.idx.value < |claims[det.img]| && claims[det.img][b.idx.value]
    ensures !Judge(det, gts, iouThreshold, f, claims).tp
  {
  }

  /** A detection with no ground truth in its image, or whose overlap with every
      ground truth there is at most the threshold, is an FP. */
  lemma UnmatchedIsFalsePositive(det: PredBox, gts: seq<TrueBox>, iouThreshold: real, f: BoxFormat, claims: Flags)
    requires ClaimsFor(gts, claims)
    requires forall g :: g in gts && g.img == det.img ==> Iou(f, det.box, g.box) <= iouThreshold
    ensures !Judge(det, gts, iouThreshold, f, claims).tp
  {
    var imgTruths := TruthsInImage(gts, det.img);
    var b := BestMatch(det.box, imgTruths, f);
    if b.idx.Some? {
      assert imgTruths[b.idx.value] in imgTruths;
    }
  }

  /** A detection whose best ground truth overlaps it above the threshold and is
      unclaimed is a TP. */
  lemma UnclaimedBestIsTruePositive(det: PredBox, gts: seq<TrueBox>, iouThreshold: real, f: BoxFormat, claims: Flags)
    requires ClaimsFor(gts, claims)
    requires var b := BestMatch(det.box, TruthsInImage(gts, det.img), f);
      b.idx.Some? && b.iou > iouThreshold && det.img in claims &&
      b.idx.value < |claims[det.img]| && !claims[det.img][b.idx.value]
    ensures Judge(det, gts, iouThreshold, f, claims).tp
  {
  }

  /** A TP claims exactly one more ground truth; an FP claims none. The number
      of flags never changes. */
  lemma JudgeCounts(det: PredBox, gts: seq<TrueBox>, iouThreshold: real, f: BoxFormat, claims: Flags)
    requires ClaimsFor(gts, claims)
    ensures Claimed(Judge(det, gts, iouThreshold, f, claims).claims) ==
      Claimed(claims) + (if Judge(det, gts, iouThreshold, f, claims).tp then 1 else 0)
    ensures Capacity(Judge(det, gts, iouThreshold, f, claims).claims) == Capacity(claims)
  {
    var r := Judge(det, gts, iouThreshold, f, claims);
    if r.tp {
      var b := BestMatch(det.box, TruthsInImage(gts, det.img), f);
      ClaimOne(claims, det.img, b.idx.value);
    }
  }

  /** The flags of a scan and the claims it leaves behind. */
  datatype Outcome = Outcome(flags: seq<bool>, claims: Flags)

  /** Judges the detections in order, each against the claims the earlier ones
      left: the TP flag of every detection and the final claims. */
  function Scan(dets: seq<PredBox>, gts: seq<TrueBox>, iouThreshold: real, f: BoxFormat, claims: Flags): (r: Outcome)
    requires ClaimsFor(gts, claims)
    ensures |r.flags| == |dets|
    ensures ClaimsFor(gts, r.claims)
  {
    if dets == [] then Outcome([], claims)
    else
      var v := Judge(dets[0], gts, iouThreshold, f, claims);
      var rest := Scan(dets[1..], gts, iouThreshold, f, v.claims);
      Outcome([v.tp] + rest.flags, rest.claims)
  }

  /** Every TP of a scan claims its own ground truth: the claimed count grows
      by exactly the number of TPs, and the number of flags stays. */
  lemma {:induction false} ScanCounts(dets: seq<PredBox>, gts: seq<TrueBox>, iouThreshold: real, f: BoxFormat, claims: Flags)
    requires ClaimsFor(gts, claims)
    ensures Claimed(Scan(dets, gts, iouThreshold, f, claims).claims) ==
      Claimed(claims) + TrueCount(Scan(dets, gts, iouThreshold, f, claims).flags)
    ensures Capacity(Scan(dets, gts, iouThreshold, f, claims).claims) == Capacity(claims)
    decreases |dets|
  {
    if dets != [] {
      var v := Judge(dets[0], gts, iouThreshold, f, claims);
      JudgeCounts(dets[0], gts, iouThreshold, f, claims);
      ScanCounts(dets[1..], gts, iouThreshold, f, v.claims);
      var r := Scan(dets, gts, iouThreshold, f, claims);
      assert r.flags[1..] == Scan(dets[1..], gts, iouThreshold, f, v.claims).flags;
    }
  }

  /** Starting from no claims, a scan marks no more TPs than there are ground
      truths, and the final claims count exactly its TPs. */
  lemma TruePositivesBounded(dets: seq<PredBox>, gts: seq<TrueBox>, iouThreshold: real, f: BoxFormat)
    ensures ClaimsFor(gts, ZeroClaims(ImageIds(gts)))
    ensures TrueCount(Scan(dets, gts, iouThreshold, f, ZeroClaims(ImageIds(gts))).flags) <= |gts|
    ensures Claimed(Scan(dets, gts, iouThreshold, f, ZeroClaims(ImageIds(gts))).claims) ==
      TrueCount(Scan(dets, gts, iouThreshold, f, ZeroClaims(ImageIds(gts))).flags)
  {
    var zero := ZeroClaims(ImageIds(gts));
    ZeroClaimsFit(gts);
    var r := Scan(dets, gts, iouThreshold, f, zero);
    ScanCounts(dets, gts, iouThreshold, f, zero);
    ClaimedWithinCapacity(r.claims);
    assert Claimed(r.claims) == TrueCount(r.flags) <= Capacity(r.claims) == |gts|;
  }

  /** The same detection twice, matching an unclaimed ground truth above the
      threshold: the first is a TP and the repeat an FP. */
  lemma DuplicateDetection(det: PredBox, gts: seq<TrueBox>, iouThreshold: real, f: BoxFormat, claims: Flags)
    requires ClaimsFor(gts, claims)
    requires var b := BestMatch(det.box, TruthsInImage(gts, det.img), f);
      b.idx.Some? && b.iou > iouThreshold && det.img in claims &&
      b.idx.value < |claims[det.img]| && !claims[det.img][b.idx.value]
    ensures Scan([det, det], gts, iouThreshold, f, claims).flags == [true, false]
  {
    var v := Judge(det, gts, iouThreshold, f, claims);
    UnclaimedBestIsTruePositive(det, gts, iouThreshold, f, claims);
    ClaimedBestIsFalsePositive(det, gts, iouThreshold, f, v.claims);
    assert [det, det][1..] == [det];
  }

  /** The detections of class c in scan order: highest score first. */
  function ScanOrder(preds: seq<PredBox>, c: int): seq<PredBox>
  {
    SortByScore(PredsOfClass(preds, c), PredScore)
  }

  /** The TP flags of class c, in scan order. */
  function ClassFlags(preds: seq<PredBox>, gts: seq<TrueBox>, c: int, iouThreshold: real, f: BoxFormat): seq<bool>
  {
    var truths := TruthsOfClass(gts, c);
    ZeroClaimsFit(truths);
    Scan(ScanOrder(preds, c), truths, iouThreshold, f, ZeroClaims(ImageIds(truths))).flags
  }

  /** The average precision of class c. */
  function ClassAp(preds: seq<PredBox>, gts: seq<TrueBox>, c: int, iouThreshold: real, f: BoxFormat): real
  {
    ApOfFlags(ClassFlags(preds, gts, c, iouThreshold, f), |TruthsOfClass(gts, c)|)
  }

  /** Every class scores in [0, 1). */
  lemma ClassApRange(preds: seq<PredBox>, gts: seq<TrueBox>, c: int, iouThreshold: real, f: BoxFormat)
    ensures 0.0 <= ClassAp(preds, gts, c, iouThreshold, f) < 1.0
  {
    var truths := TruthsOfClass(gts, c);
    TruePositivesBounded(ScanOrder(preds, c), truths, iouThreshold, f);
    ApBounds(ClassFlags(preds, gts, c, iouThreshold, f), |truths|);
  }

  /** A class without ground truths, or without detections, scores 0. */
  lemma ClassWithoutMatches(preds: seq<PredBox>, gts: seq<TrueBox>, c: int, iouThreshold: real, f: BoxFormat)
    requires TruthsOfClass(gts, c) == [] || PredsOfClass(preds, c) == []
    ensures ClassAp(preds, gts, c, iouThreshold, f) == 0.0
  {
    var truths := TruthsOfClass(gts, c);
    TruePositivesBounded(ScanOrder(preds, c), truths, iouThreshold, f);
    ApWithoutTruePositives(ClassFlags(preds, gts, c, iouThreshold, f), |truths|);
  }

  /** The values g(0), ..., g(n - 1), built one entry at a time. */
  function Tabulate(g: int -> real, n: nat): (r: seq<real>)
    ensures |r| == n
    ensures forall c :: 0 <= c < n ==> r[c] == g(c)
  {
    if n == 0 then [] else Tabulate(g, n - 1) + [g(n - 1)]
  }

  /** The average precisions of classes 0 .. n - 1, in class order. */
  function ClassAps(preds: seq<PredBox>, gts: seq<TrueBox>, n: nat, iouThreshold: real, f: BoxFormat): (r: seq<real>)
  {
    Tabulate(c => ClassAp(preds, gts, c, iouThreshold, f), n)
  }

  /** The mean over zero per-class values divides by zero. */
  datatype MeanError = NoClasses

  /** The mean over num_classes classes; no classes leave nothing to divide by. */
  function MeanOverClasses(preds: seq<PredBox>, gts: seq<TrueBox>, iouThreshold: real, f: BoxFormat, numClasses: nat): (r: Result<real, MeanError>)
    ensures r.Err? <==> numClasses == 0
    ensures r.Err? ==> r.error == NoClasses
  {
    if numClasses == 0 then Err(NoClasses)
    else Ok(Sum(ClassAps(preds, gts, numClasses, iouThreshold, f)) / numClasses as real)
  }

  /** The mean average precision lies in [0, 1). */
  lemma MeanRange(preds: seq<PredBox>, gts: seq<TrueBox>, iouThreshold: real, f: BoxFormat, numClasses: nat)
    requires numClasses > 0
    ensures MeanOverClasses(preds, gts, iouThreshold, f, numClasses).Ok?
    ensures 0.0 <= MeanOverClasses(preds, gts, iouThreshold, f, numClasses).value < 1.0
  {
    var aps := ClassAps(preds, gts, numClasses, iouThreshold, f);
    forall c | 0 <= c < numClasses ensures 0.0 <= aps[c] < 1.0 {
      ClassApRange(preds, gts, c, iouThreshold, f);
    }
    MeanBounds(aps);
  }

  /** Every detection of the class is a true positive and every ground truth
      of the class is found. */
  predicate AllMatched(flags: seq<bool>, total: nat)
  {
    flags != [] && |flags| == total && forall i :: 0 <= i < |flags| ==> flags[i]
  }

  /** When every class finds all of its ground truths with no false positive,
      the mean average precision is within 2 * epsilon of 1. */
  lemma PerfectScore(preds: seq<PredBox>, gts: seq<TrueBox>, iouThreshold: real, f: BoxFormat, numClasses: nat)
    requires numClasses > 0
    requires forall c :: 0 <= c < numClasses ==>
      AllMatched(ClassFlags(preds, gts, c, iouThreshold, f), |TruthsOfClass(gts, c)|)
    ensures MeanOverClasses(preds, gts, iouThreshold, f, numClasses).Ok?
    ensures MeanOverClasses(preds, gts, iouThreshold, f, numClasses).value >= 0.999998
  {
    var aps := ClassAps(preds, gts, numClasses, iouThreshold, f);
    forall c | 0 <= c < numClasses ensures aps[c] >= 0.999998 {
      PerfectClass(ClassFlags(preds, gts, c, iouThreshold, f));
    }
    MeanLower(aps, 0.999998);
  }

  /** Without detections every class scores 0, and so does the mean. */
  lemma NoPredictionsScoreZero(gts: seq<TrueBox>, iouThreshold: real, f: BoxFormat, numClasses: nat)
    requires numClasses > 0
    ensures MeanOverClasses([], gts, iouThreshold, f, numClasses) == Ok(0.0)
  {
    var aps := ClassAps([], gts, numClasses, iouThreshold, f);
    forall c | 0 <= c < numClasses ensures aps[c] == 0.0 {
      NoPredictionsClassZero(gts, c, iouThreshold, f);
    }
    SumZeros(aps);
    var n := numClasses as real;
    assert 0.0 / n == 0.0;
    assert MeanOverClasses([], gts, iouThreshold, f, numClasses) == Ok(Sum(aps) / n);
  }

  lemma NoPredictionsClassZero(gts: seq<TrueBox>, c: int, iouThreshold: real, f: BoxFormat)
    ensures ClassAp([], gts, c, iouThreshold, f) == 0.0
  {
    ClassWithoutMatches([], gts, c, iouThreshold, f);
  }

  /** A class without ground truths still counts in the mean: it adds 0 to the
      sum while the divisor stays num_classes. */
  lemma EmptyClassCounts(preds: seq<PredBox>, gts: seq<TrueBox>, iouThreshold: real, f: BoxFormat, numClasses: nat, c: nat)
    requires c < numClasses
    requires TruthsOfClass(gts, c) == []
    ensures MeanOverClasses(preds, gts, iouThreshold, f, numClasses).value ==
      Sum(Tabulate(k => if k == c then 0.0 else ClassAp(preds, gts, k, iouThreshold, f), numClasses)) / numClasses as real
  {
    var aps := ClassAps(preds, gts, numClasses, iouThreshold, f);
    var others := Tabulate(k => if k == c then 0.0 else ClassAp(preds, gts, k, iouThreshold, f), numClasses);
    ClassWithoutMatches(preds, gts, c, iouThreshold, f);
    forall k | 0 <= k < numClasses ensures aps[k] == others[k] {
    }
    assert aps == others;
  }

  /** When every ground truth is of a class below k, the classes from k up to
      num_classes score 0 but stay in the divisor, so the mean is at most
      k / num_classes: with the default of 20 classes, a dataset using classes
      0, 1 and 2 scores at most 3/20. */
  lemma FewClassesBound(preds: seq<PredBox>, gts: seq<TrueBox>, iouThreshold: real, f: BoxFormat, numClasses: nat, k: nat)
    requires 0 < numClasses && k <= numClasses
    requires forall g :: g in gts ==> g.cls < k
    ensures MeanOverClasses(preds, gts, iouThreshold, f, numClasses).Ok?
    ensures MeanOverClasses(preds, gts, iouThreshold, f, numClasses).value <= k as real / numClasses as real
  {
    ApsBelowOne(preds, gts, iouThreshold, f, numClasses);
    ApsAboveZero(preds, gts, iouThreshold, f, numClasses, k);
    MeanSparse(ClassAps(preds, gts, numClasses, iouThreshold, f), k);
  }

  /** Every entry of the per-class list lies in [0, 1). */
  lemma ApsBelowOne(preds: seq<PredBox>, gts: seq<TrueBox>, iouThreshold: real, f: BoxFormat, numClasses: nat)
    ensures forall c :: 0 <= c < numClasses ==> 0.0 <= ClassAps(preds, gts, numClasses, iouThreshold, f)[c] < 1.0
  {
    var aps := ClassAps(preds, gts, numClasses, iouThreshold, f);
    forall c | 0 <= c < numClasses ensures 0.0 <= aps[c] < 1.0 {
      ClassApRange(preds, gts, c, iouThreshold, f);
    }
  }

  /** The entries of classes above every ground truth's class are 0. */
  lemma ApsAboveZero(preds: seq<PredBox>, gts: seq<TrueBox>, iouThreshold: real, f: BoxFormat, numClasses: nat, k: nat)
    requires forall g :: g in gts ==> g.cls < k
    ensures forall c :: k <= c < numClasses ==> ClassAps(preds, gts, numClasses, iouThreshold, f)[c] == 0.0
  {
    var aps := ClassAps(preds, gts, numClasses, iouThreshold, f);
    forall c | k <= c < numClasses ensures aps[c] == 0.0 {
      NoTruthsAbove(gts, c, k);
      ClassWithoutMatches(preds, gts, c, iouThreshold, f);
    }
  }

  /** A class at or above every ground truth's class has no ground truths. */
  lemma NoTruthsAbove(gts: seq<TrueBox>, c: int, k: int)
    requires k <= c
    requires forall g :: g in gts ==> g.cls < k
    ensures TruthsOfClass(gts, c) == []
  {
  }

  /** The detections of class c, collected by one pass over the input. */
  method SelectPredictions(preds: seq<PredBox>, c: int) returns (detections: seq<PredBox>)
    ensures detections == PredsOfClass(preds, c)
  {
    detections := [];
    for i := 0 to |preds|
      invariant detections == PredsOfClass(preds[..i], c)
    {
      assert preds[..i + 1][..i] == preds[..i];
      if preds[i].cls == c {
        detections := detections + [preds[i]];
      }
    }
    assert preds[..|preds|] == preds;
  }

  /** The ground truths of class c, collected by one pass over the input. */
  method SelectTruths(gts: seq<TrueBox>, c: int) returns (truths: seq<TrueBox>)
    ensures truths == TruthsOfClass(gts, c)
  {
    truths := [];
    for i := 0 to |gts|
      invariant truths == TruthsOfClass(gts[..i], c)
    {
      assert gts[..i + 1][..i] == gts[..i];
      if gts[i].cls == c {
        truths := truths + [gts[i]];
      }
    }
    assert gts[..|gts|] == gts;
  }

  /** The inner loop over the ground truths of one image: the best IoU and the
      index of the ground truth that has it. */
  method FindBestGroundTruth(det: Box, imgTruths: seq<TrueBox>, f: BoxFormat) returns (bestIou: real, bestIdx: Option<nat>)
    ensures Best(bestIou, bestIdx) == BestMatch(det, imgTruths, f)
  {
    bestIou := 0.0;
    bestIdx := None;
    for idx := 0 to |imgTruths|
      invariant Best(bestIou, bestIdx) == BestMatch(det, imgTruths[..idx], f)
    {
      assert imgTruths[..idx + 1][..idx] == imgTruths[..idx];
      var iou := Iou(f, det, imgTruths[idx].box);
      if iou > bestIou {
        bestIou := iou;
        bestIdx := Some(idx);
      }
    }
    assert imgTruths[..|imgTruths|] == imgTruths;
  }

  /** Scanning from detection i on judges detection i first. */
  lemma ScanStep(dets: seq<PredBox>, i: nat, gts: seq<TrueBox>, iouThreshold: real, f: BoxFormat, claims: Flags)
    requires ClaimsFor(gts, claims) && i < |dets|
    ensures var v := Judge(dets[i], gts, iouThreshold, f, claims);
      Scan(dets[i..], gts, iouThreshold, f, claims) ==
      Outcome([v.tp] + Scan(dets[i + 1..], gts, iouThreshold, f, v.claims).flags,
              Scan(dets[i + 1..], gts, iouThreshold, f, v.claims).claims)
  {
    assert dets[i..][1..] == dets[i + 1..];
  }

  /** The first |flags| entries of the TP and FP tensors record the flags; the
      others still hold their initial 0. */
  ghost predicate Recorded(tp: seq<real>, fp: seq<real>, flags: seq<bool>)
  {
    |flags| <= |tp| == |fp| &&
    (forall k :: 0 <= k < |flags| ==> tp[k] == (if flags[k] then 1.0 else 0.0) && fp[k] == (if flags[k] then 0.0 else 1.0)) &&
    (forall k :: |flags| <= k < |tp| ==> tp[k] == 0.0 && fp[k] == 0.0)
  }

  lemma RecordNext(tp: seq<real>, fp: seq<real>, flags: seq<bool>, i: nat)
    requires i < |flags| && i < |tp| && Recorded(tp, fp, flags[..i])
    ensures Recorded(tp[i := if flags[i] then 1.0 else 0.0], fp[i := if flags[i] then 0.0 else 1.0], flags[..i + 1])
  {
  }

  lemma RecordedAll(tp: seq<real>, fp: seq<real>, flags: seq<bool>)
    requires Recorded(tp, fp, flags) && |flags| == |tp| == |fp|
    ensures tp == Indicator(flags) && fp == Indicator(Negate(flags))
  {
  }

  /** Judging detection i against the claims a scan has reached there yields
      the next flag of that scan and the claims it goes on from. */
  lemma ScanAdvance(dets: seq<PredBox>, i: nat, gts: seq<TrueBox>, iouThreshold: real, f: BoxFormat, claims: Flags, all: Outcome,
                    isTp: bool, claims': Flags)
    requires ClaimsFor(gts, claims) && i < |dets| && |all.flags| == |dets|
    requires Scan(dets[i..], gts, iouThreshold, f, claims) == Outcome(all.flags[i..], all.claims)
    requires Verdict(isTp, claims') == Judge(dets[i], gts, iouThreshold, f, claims)
    ensures ClaimsFor(gts, claims') && all.flags[i] == isTp
    ensures Scan(dets[i + 1..], gts, iouThreshold, f, claims') == Outcome(all.flags[i + 1..], all.claims)
  {
    ScanStep(dets, i, gts, iouThreshold, f, claims);
    assert all.flags[i..][1..] == all.flags[i + 1..];
  }

  /** The body of the matching loop for one detection: find its best ground
      truth in the same image, then claim it when it overlaps above the
      threshold and is still unclaimed. */
  method MatchDetection(det: PredBox, truths: seq<TrueBox>, iouThreshold: real, f: BoxFormat, claims: Flags)
    returns (isTp: bool, claims': Flags)
    requires ClaimsFor(truths, claims)
    ensures Verdict(isTp, claims') == Judge(det, truths, iouThreshold, f, claims)
  {
    var imgTruths := TruthsInImage(truths, det.img);
    var bestIou, bestIdx := FindBestGroundTruth(det.box, imgTruths, f);
    claims' := claims;
    isTp := false;
    if bestIou > iouThreshold && bestIdx.Some? {
      assert |imgTruths| > 0;
      if !claims[det.img][bestIdx.value] {
        isTp := true;
        claims' := claims[det.img := claims[det.img][bestIdx.value := true]];
      }
    }
  }

  /** Marks detection i as a TP or as an FP in the two tensors, whose entries
      from i on are still 0, according to the next flag of the scan. */
  method MarkVerdict(tp: array<real>, fp: array<real>, i: nat, isTp: bool, ghost flags: seq<bool>)
    requires tp != fp && i < |flags| && i < tp.Length && flags[i] == isTp
    requires Recorded(tp[..], fp[..], flags[..i])
    modifies tp, fp
    ensures Recorded(tp[..], fp[..], flags[..i + 1])
  {
    RecordNext(tp[..], fp[..], flags, i);
    if isTp {
      tp[i] := 1.0;
      assert old(fp[..])[i := 0.0] == old(fp[..]);
    } else {
      fp[i] := 1.0;
      assert old(tp[..])[i := 0.0] == old(tp[..]);
    }
    assert tp[..] == old(tp[..])[i := if isTp then 1.0 else 0.0];
    assert fp[..] == old(fp[..])[i := if isTp then 0.0 else 1.0];
  }

  /** The matching loop of one class over its detections in scan order: fills
      the TP and FP arrays and the claim map, starting from all flags unclaimed. */
  method MatchDetections(dets: seq<PredBox>, truths: seq<TrueBox>, iouThreshold: real, f: BoxFormat)
    returns (tp: array<real>, fp: array<real>, claims: Flags)
    ensures fresh(tp) && fresh(fp)
    ensures ClaimsFor(truths, ZeroClaims(ImageIds(truths)))
    ensures tp[..] == Indicator(Scan(dets, truths, iouThreshold, f, ZeroClaims(ImageIds(truths))).flags)
    ensures fp[..] == Indicator(Negate(Scan(dets, truths, iouThreshold, f, ZeroClaims(ImageIds(truths))).flags))
    ensures claims == Scan(dets, truths, iouThreshold, f, ZeroClaims(ImageIds(truths))).claims
  {
    var zero := ZeroClaims(ImageIds(truths));
    ZeroClaimsFit(truths);
    tp := new real[|dets|](_ => 0.0);
    fp := new real[|dets|](_ => 0.0);
    claims := FillVerdicts(dets, truths, iouThreshold, f, zero, tp, fp);
  }

  /** The loop itself, over TP and FP arrays of zeros and a claim map that fits
      the ground truths. */
  /** One iteration of the loop over detections: judge detection i, record its
      verdict in TP or FP, and continue the scan from the new claims. */
  method FillOne(dets: seq<PredBox>, i: nat, truths: seq<TrueBox>, iouThreshold: real, f: BoxFormat, claims: Flags,
                 ghost all: Outcome, tp: array<real>, fp: array<real>)
    returns (next: Flags)
    requires ClaimsFor(truths, claims) && i < |dets| && |all.flags| == |dets|
    requires Scan(dets[i..], truths, iouThreshold, f, claims) == Outcome(all.flags[i..], all.claims)
    requires tp != fp && i < tp.Length
    requires Recorded(tp[..], fp[..], all.flags[..i])
    modifies tp, fp
    ensures ClaimsFor(truths, next)
    ensures Scan(dets[i + 1..], truths, iouThreshold, f, next) == Outcome(all.flags[i + 1..], all.claims)
    ensures Recorded(tp[..], fp[..], all.flags[..i + 1])
  {
    var isTp;
    isTp, next := MatchDetection(dets[i], truths, iouThreshold, f, claims);
    ScanAdvance(dets, i, truths, iouThreshold, f, claims, all, isTp, next);
    MarkVerdict(tp, fp, i, isTp, all.flags);
  }

  method FillVerdicts(dets: seq<PredBox>, truths: seq<TrueBox>, iouThreshold: real, f: BoxFormat, start: Flags,
                      tp: array<real>, fp: array<real>)
    returns (claims: Flags)
    requires ClaimsFor(truths, start)
    requires tp != fp && tp.Length == fp.Length == |dets|
    requires forall k :: 0 <= k < |dets| ==> tp[k] == 0.0 && fp[k] == 0.0
    modifies tp, fp
    ensures tp[..] == Indicator(Scan(dets, truths, iouThreshold, f, start).flags)
    ensures fp[..] == Indicator(Negate(Scan(dets, truths, iouThreshold, f, start).flags))
    ensures claims == Scan(dets, truths, iouThreshold, f, start).claims
  {
    ghost var all := Scan(dets, truths, iouThreshold, f, start);
    claims := start;
    assert dets[0..] == dets;
    for i := 0 to |dets|
      invariant ClaimsFor(truths, claims)
      invariant Scan(dets[i..], truths, iouThreshold, f, claims) == Outcome(all.flags[i..], all.claims)
      invariant Recorded(tp[..], fp[..], all.flags[..i])
    {
      claims := FillOne(dets, i, truths, iouThreshold, f, claims, all, tp, fp);
    }
    assert all.flags[..|dets|] == all.flags;
    RecordedAll(tp[..], fp[..], all.flags);
  }

  /** Matching the detections of one class in scan order, then integrating the
      resulting curve. */
  method MatchAndIntegrate(sorted: seq<PredBox>, truths: seq<TrueBox>, iouThreshold: real, f: BoxFormat)
    returns (ap: real)
    ensures ClaimsFor(truths, ZeroClaims(ImageIds(truths)))
    ensures ap == ApOfFlags(Scan(sorted, truths, iouThreshold, f, ZeroClaims(ImageIds(truths))).flags, |truths|)
  {
    var tp, fp, claims := MatchDetections(sorted, truths, iouThreshold, f);
    ghost var flags := Scan(sorted, truths, iouThreshold, f, ZeroClaims(ImageIds(truths))).flags;
    IndicatorNonNegative(flags);
    IndicatorNonNegative(Negate(flags));
    ap := AveragePrecision(tp[..], fp[..], |truths|);
  }

  /** The body of the class loop: select, sort, match, then integrate the
      curve of class c. */
  method ClassAveragePrecision(preds: seq<PredBox>, gts: seq<TrueBox>, c: int, iouThreshold: real, f: BoxFormat)
    returns (ap: real)
    ensures ap == ClassAp(preds, gts, c, iouThreshold, f)
    ensures 0.0 <= ap < 1.0
  {
    var detections := SelectPredictions(preds, c);
    var truths := SelectTruths(gts, c);
    var sorted := SortByScore(detections, PredScore);
    ap := MatchAndIntegrate(sorted, truths, iouThreshold, f);
    ClassApRange(preds, gts, c, iouThreshold, f);
  }

  /** The whole routine: one pass per class, collecting the per-class average
      precisions, then their mean; with no classes there is nothing to divide
      by. The defaults are an IoU threshold of 0.5, corners boxes and 20
      classes. */
  method MeanAveragePrecision(preds: seq<PredBox>, gts: seq<TrueBox>, iouThreshold: real := 0.5, f: BoxFormat := Corners, numClasses: nat := 20)
    returns (r: Result<real, MeanError>)
    ensures r == MeanOverClasses(preds, gts, iouThreshold, f, numClasses)
    ensures r.Err? <==> numClasses == 0
    ensures r.Ok? ==> 0.0 <= r.value < 1.0
  {
    var averagePrecisions: seq<real> := [];
    for c := 0 to numClasses
      invariant averagePrecisions == ClassAps(preds, gts, c, iouThreshold, f)
    {
      var ap := ClassAveragePrecision(preds, gts, c, iouThreshold, f);
      assert ClassAps(preds, gts, c + 1, iouThreshold, f) == averagePrecisions + [ap];
      averagePrecisions := averagePrecisions + [ap];
    }
    if numClasses == 0 {
      r := Err(NoClasses);
    } else {
      r := Ok(Sum(averagePrecisions) / numClasses as real);
      MeanRange(preds, gts, iouThreshold, f, numClasses);
    }
  }
}
