/** The per-class precision/recall curve of the mAP routine (utils.py:139-147) and
    the mean over classes (utils.py:149). The tensor operations it uses become
    their mathematical definitions over reals: torch.cumsum is a running sum,
    the two divisions are element-wise, torch.cat prepends one point, and
    torch.trapz(y, x) is the trapezoid rule over the points (x[i], y[i]). */
module Curves {
  import opened Boxes
  import opened Claims

  /** The sum of s, added from the front as Python's sum does. */
  function Sum(s: seq<real>): real
  {
    if s == [] then 0.0 else Sum(s[..|s| - 1]) + s[|s| - 1]
  }

  /** The running sums of s: entry i is the sum of s[0..i]. */
  function CumSum(s: seq<real>): (r: seq<real>)
    ensures |r| == |s|
    ensures forall i :: 0 <= i < |s| ==> r[i] == Sum(s[..i + 1])
  {
    if s == [] then []
    else
      var init := s[..|s| - 1];
      var r := CumSum(init) + [Sum(s)];
      forall i | 0 <= i < |init| ensures r[i] == Sum(s[..i + 1]) {
        assert init[..i + 1] == s[..i + 1];
      }
      assert s[..|s|] == s;
      r
  }

  predicate NonNegative(s: seq<real>)
  {
    forall i :: 0 <= i < |s| ==> s[i] >= 0.0
  }

  predicate Ascending(s: seq<real>)
  {
    forall i, j :: 0 <= i <= j < |s| ==> s[i] <= s[j]
  }

  /** Appending a value no smaller than the last keeps a non-negative sequence
      ascending. */
  lemma AppendAscending(a: seq<real>, x: real)
    requires NonNegative(a) && Ascending(a) && x >= 0.0
    requires a != [] ==> a[|a| - 1] <= x
    ensures NonNegative(a + [x]) && Ascending(a + [x])
  {
    var r := a + [x];
    forall i, j | 0 <= i <= j < |r| ensures r[i] <= r[j] {
      if j == |a| && i < |a| {
        assert a[i] <= a[|a| - 1];
      }
    }
  }

  /** The running sums of non-negative entries are non-negative and never
      decrease, and the last one is the total. */
  lemma {:induction false} CumSumAscending(s: seq<real>)
    requires NonNegative(s)
    ensures NonNegative(CumSum(s)) && Ascending(CumSum(s))
    ensures s != [] ==> CumSum(s)[|s| - 1] == Sum(s)
    decreases |s|
  {
    if s != [] {
      var init := s[..|s| - 1];
      CumSumAscending(init);
      var a := CumSum(init);
      assert CumSum(s) == a + [Sum(s)];
      assert Sum(s) == Sum(init) + s[|s| - 1];
      if init != [] {
        assert a[|init| - 1] == Sum(init);
      }
      AppendAscending(a, Sum(s));
    }
  }

  /** The TP (or FP) tensor: 1 where the flag is set, 0 elsewhere. */
  function Indicator(flags: seq<bool>): seq<real>
  {
    seq(|flags|, i requires 0 <= i < |flags| => if flags[i] then 1.0 else 0.0)
  }

  function Negate(flags: seq<bool>): seq<bool>
  {
    seq(|flags|, i requires 0 <= i < |flags| => !flags[i])
  }

  /** The indicator has one non-negative entry per flag. */
  lemma IndicatorNonNegative(flags: seq<bool>)
    ensures |Indicator(flags)| == |flags| && NonNegative(Indicator(flags))
  {
  }

  /** Summing the indicator counts the set flags. */
  lemma {:induction false} SumIndicator(flags: seq<bool>)
    ensures Sum(Indicator(flags)) == TrueCount(flags) as real
    decreases |flags|
  {
    if flags != [] {
      var init := flags[..|flags| - 1];
      assert Indicator(flags)[..|flags| - 1] == Indicator(init);
      SumIndicator(init);
      assert init + [flags[|flags| - 1]] == flags;
      TrueCountAppend(init, flags[|flags| - 1]);
    }
  }

  /** recall[i] = TP_cumsum[i] / (number of ground truths + epsilon). */
  function Recalls(tpCumsum: seq<real>, total: nat): seq<real>
  {
    seq(|tpCumsum|, i requires 0 <= i < |tpCumsum| => tpCumsum[i] / (total as real + Epsilon))
  }

  /** precision[i] = TP_cumsum[i] / (TP_cumsum[i] + FP_cumsum[i] + epsilon). */
  function Precisions(tpCumsum: seq<real>, fpCumsum: seq<real>): seq<real>
    requires |tpCumsum| == |fpCumsum|
    requires NonNegative(tpCumsum) && NonNegative(fpCumsum)
  {
    seq(|tpCumsum|, i requires 0 <= i < |tpCumsum| => tpCumsum[i] / (tpCumsum[i] + fpCumsum[i] + Epsilon))
  }

  /** The trapezoid rule over the points (x[i], y[i]); a single point gives 0. */
  function Trapz(y: seq<real>, x: seq<real>): real
    requires |y| == |x|
    decreases |x|
  {
    if |x| <= 1 then 0.0
    else Trapezoid(x[1] - x[0], y[0], y[1]) + Trapz(y[1..], x[1..])
  }

  /** The area of one trapezoid of width w between heights a and b. */
  function Trapezoid(w: real, a: real, b: real): real
  {
    w * (a + b) / 2.0
  }

  lemma TrapezoidBounds(w: real, a: real, b: real)
    requires w >= 0.0 && 0.0 <= a <= 1.0 && 0.0 <= b <= 1.0
    ensures 0.0 <= Trapezoid(w, a, b) <= w
  {
    MulMonotone(0.0, w, a + b, 2.0);
  }

  /** Over ascending abscissas and ordinates in [0, 1], the area lies between 0
      and the width of the abscissa range. */
  lemma {:induction false} TrapzBounds(y: seq<real>, x: seq<real>)
    requires |y| == |x| >= 1
    requires Ascending(x)
    requires forall i :: 0 <= i < |y| ==> 0.0 <= y[i] <= 1.0
    ensures 0.0 <= Trapz(y, x) <= x[|x| - 1] - x[0]
    decreases |x|
  {
    if |x| > 1 {
      assert x[0] <= x[1];
      TrapezoidBounds(x[1] - x[0], y[0], y[1]);
      TrapzBounds(y[1..], x[1..]);
      assert x[1..][|x| - 2] == x[|x| - 1];
    }
  }

  /** A curve whose abscissas never move has no area. */
  lemma {:induction false} TrapzFlat(y: seq<real>, x: seq<real>)
    requires |y| == |x|
    requires forall i :: 0 <= i < |x| ==> x[i] == x[0]
    ensures Trapz(y, x) == 0.0
    decreases |x|
  {
    if |x| > 1 {
      TrapzFlat(y[1..], x[1..]);
    }
  }

  /** Recall after each detection, after a leading 0, from the TP tensor and
      the number of ground truths. */
  function RecallCurve(tp: seq<real>, total: nat): (x: seq<real>)
    ensures |x| == |tp| + 1
  {
    [0.0] + Recalls(CumSum(tp), total)
  }

  /** Precision after each detection, after a leading 1, from the TP and FP
      tensors. */
  function PrecisionCurve(tp: seq<real>, fp: seq<real>): (y: seq<real>)
    requires |tp| == |fp| && NonNegative(tp) && NonNegative(fp)
    ensures |y| == |tp| + 1
  {
    CumSumAscending(tp);
    CumSumAscending(fp);
    [1.0] + Precisions(CumSum(tp), CumSum(fp))
  }

  /** The average precision of one class: the trapezoid area under its
      precision/recall curve. */
  function AveragePrecision(tp: seq<real>, fp: seq<real>, total: nat): real
    requires |tp| == |fp| && NonNegative(tp) && NonNegative(fp)
  {
    Trapz(PrecisionCurve(tp, fp), RecallCurve(tp, total))
  }

  /** The average precision of one class given its TP flags in scan order. */
  function ApOfFlags(flags: seq<bool>, total: nat): real
  {
    AveragePrecision(Indicator(flags), Indicator(Negate(flags)), total)
  }

  lemma DivMonotone(a: real, b: real, d: real)
    requires 0.0 <= a <= b && d > 0.0
    ensures 0.0 <= a / d <= b / d
  {
  }

  /** The running TP count never exceeds the total number of true positives. */
  lemma TpCumsumBound(flags: seq<bool>)
    ensures NonNegative(CumSum(Indicator(flags))) && Ascending(CumSum(Indicator(flags)))
    ensures forall i :: 0 <= i < |flags| ==> CumSum(Indicator(flags))[i] <= TrueCount(flags) as real
  {
    var tp := Indicator(flags);
    CumSumAscending(tp);
    SumIndicator(flags);
    var c := CumSum(tp);
    forall i | 0 <= i < |flags| ensures c[i] <= TrueCount(flags) as real {
      assert c[i] <= c[|tp| - 1];
    }
  }

  /** Recall over running counts bounded by the total starts at 0, is
      ascending and stays in [0, 1). */
  lemma RecallsBounds(c: seq<real>, total: nat)
    requires NonNegative(c) && Ascending(c)
    requires forall i :: 0 <= i < |c| ==> c[i] <= total as real
    ensures Ascending([0.0] + Recalls(c, total))
    ensures forall i :: 0 <= i < |c| + 1 ==> 0.0 <= ([0.0] + Recalls(c, total))[i] < 1.0
  {
    var d := total as real + Epsilon;
    var x := [0.0] + Recalls(c, total);
    assert forall i :: 1 <= i < |x| ==> x[i] == c[i - 1] / d;
    forall i | 1 <= i < |x| ensures 0.0 <= x[i] < 1.0 {
      RatioBelowOne(c[i - 1], d);
    }
    forall i, j | 0 <= i <= j < |x| ensures x[i] <= x[j] {
      if i > 0 {
        DivMonotone(c[i - 1], c[j - 1], d);
      }
    }
  }

  /** Every precision after the first point lies in [0, 1). */
  lemma PrecisionsBounds(tpCumsum: seq<real>, fpCumsum: seq<real>)
    requires |tpCumsum| == |fpCumsum|
    requires NonNegative(tpCumsum) && NonNegative(fpCumsum)
    ensures forall i :: 0 <= i < |tpCumsum| ==> 0.0 <= Precisions(tpCumsum, fpCumsum)[i] < 1.0
  {
    forall i | 0 <= i < |tpCumsum| ensures 0.0 <= Precisions(tpCumsum, fpCumsum)[i] < 1.0 {
      RatioBelowOne(tpCumsum[i], tpCumsum[i] + fpCumsum[i] + Epsilon);
    }
  }

  /** While the true positives do not outnumber the ground truths, recall starts
      at 0, never decreases and stays below 1. */
  lemma CurveRecalls(flags: seq<bool>, total: nat)
    requires TrueCount(flags) <= total
    ensures RecallCurve(Indicator(flags), total)[0] == 0.0
    ensures Ascending(RecallCurve(Indicator(flags), total))
    ensures forall i :: 0 <= i < |flags| + 1 ==> 0.0 <= RecallCurve(Indicator(flags), total)[i] < 1.0
  {
    var c := CumSum(Indicator(flags));
    TpCumsumWithin(flags, total);
    RecallsBounds(c, total);
  }

  lemma TpCumsumWithin(flags: seq<bool>, total: nat)
    requires TrueCount(flags) <= total
    ensures NonNegative(CumSum(Indicator(flags))) && Ascending(CumSum(Indicator(flags)))
    ensures forall i :: 0 <= i < |flags| ==> CumSum(Indicator(flags))[i] <= total as real
  {
    TpCumsumBound(flags);
  }

  /** Precision starts at 1 and then stays in [0, 1). */
  lemma CurvePrecisions(tp: seq<real>, fp: seq<real>)
    requires |tp| == |fp| && NonNegative(tp) && NonNegative(fp)
    ensures PrecisionCurve(tp, fp)[0] == 1.0
    ensures forall i :: 1 <= i < |tp| + 1 ==> 0.0 <= PrecisionCurve(tp, fp)[i] < 1.0
  {
    CumSumAscending(tp);
    CumSumAscending(fp);
    var tpCumsum := CumSum(tp);
    var fpCumsum := CumSum(fp);
    PrecisionsBounds(tpCumsum, fpCumsum);
    var y := PrecisionCurve(tp, fp);
    var p := Precisions(tpCumsum, fpCumsum);
    forall i | 1 <= i < |tp| + 1 ensures 0.0 <= y[i] < 1.0 {
      assert y[i] == p[i - 1];
    }
  }

  /** While the true positives do not outnumber the ground truths, the average
      precision lies in [0, 1): it is at most the last recall. */
  lemma ApBounds(flags: seq<bool>, total: nat)
    requires TrueCount(flags) <= total
    ensures 0.0 <= ApOfFlags(flags, total) < 1.0
  {
    var tp := Indicator(flags);
    var fp := Indicator(Negate(flags));
    CurveRecalls(flags, total);
    CurvePrecisions(tp, fp);
    TrapzBounds(PrecisionCurve(tp, fp), RecallCurve(tp, total));
  }

  /** Without true positives, recall stays 0 and the class scores 0. */
  lemma ApWithoutTruePositives(flags: seq<bool>, total: nat)
    requires TrueCount(flags) == 0
    ensures ApOfFlags(flags, total) == 0.0
  {
    var tp := Indicator(flags);
    TrueCountZero(flags);
    assert forall i :: 0 <= i < |tp| ==> tp[i] == 0.0;
    RecallCurveZero(tp, total);
    TrapzFlat(PrecisionCurve(tp, Indicator(Negate(flags))), RecallCurve(tp, total));
  }

  /** With no TP at all, recall is 0 throughout. */
  lemma RecallCurveZero(tp: seq<real>, total: nat)
    requires forall i :: 0 <= i < |tp| ==> tp[i] == 0.0
    ensures forall i :: 0 <= i < |tp| + 1 ==> RecallCurve(tp, total)[i] == 0.0
  {
    var c := CumSum(tp);
    forall i | 0 <= i < |tp| ensures c[i] == 0.0 {
      SumZeros(tp[..i + 1]);
    }
    var x := RecallCurve(tp, total);
    assert forall i :: 1 <= i < |x| ==> x[i] == c[i - 1] / (total as real + Epsilon);
  }

  /** Values in [0, 1) sum to something in [0, count], and to less than count
      when there is at least one of them. */
  lemma {:induction false} SumBelowCount(s: seq<real>)
    requires forall i :: 0 <= i < |s| ==> 0.0 <= s[i] < 1.0
    ensures 0.0 <= Sum(s) <= |s| as real
    ensures s != [] ==> Sum(s) < |s| as real
    decreases |s|
  {
    if s != [] {
      SumBelowCount(s[..|s| - 1]);
    }
  }

  /** The mean of values in [0, 1) lies in [0, 1). */
  lemma MeanBounds(s: seq<real>)
    requires s != []
    requires forall i :: 0 <= i < |s| ==> 0.0 <= s[i] < 1.0
    ensures 0.0 <= Sum(s) / |s| as real < 1.0
  {
    SumBelowCount(s);
    RatioBelowOne(Sum(s), |s| as real);
  }

  /** Entries that are all 0 sum to 0. */
  lemma {:induction false} SumZeros(s: seq<real>)
    requires forall i :: 0 <= i < |s| ==> s[i] == 0.0
    ensures Sum(s) == 0.0
    decreases |s|
  {
    if s != [] {
      SumZeros(s[..|s| - 1]);
    }
  }

  /** Values in [0, 1) followed by zeros sum to something between 0 and the
      number of values before the zeros. */
  lemma {:induction false} SumSparse(s: seq<real>, k: nat)
    requires k <= |s|
    requires forall i :: 0 <= i < k ==> 0.0 <= s[i] < 1.0
    requires forall i :: k <= i < |s| ==> s[i] == 0.0
    ensures 0.0 <= Sum(s) <= k as real
    decreases |s|
  {
    if |s| == k {
      SumBelowCount(s);
    } else {
      SumSparse(s[..|s| - 1], k);
    }
  }

  /** The mean of values in [0, 1) followed by zeros is at most the share of
      the values before the zeros. */
  lemma MeanSparse(s: seq<real>, k: nat)
    requires 0 < |s| && k <= |s|
    requires forall i :: 0 <= i < k ==> 0.0 <= s[i] < 1.0
    requires forall i :: k <= i < |s| ==> s[i] == 0.0
    ensures Sum(s) / |s| as real <= k as real / |s| as real
  {
    SumSparse(s, k);
    DivMonotone(Sum(s), k as real, |s| as real);
  }

  /** Entries that are all 1 sum to their count. */
  lemma {:induction false} SumOnes(s: seq<real>)
    requires forall i :: 0 <= i < |s| ==> s[i] == 1.0
    ensures Sum(s) == |s| as real
    decreases |s|
  {
    if s != [] {
      SumOnes(s[..|s| - 1]);
    }
  }

  /** helper: a trapezoid of width w >= 0 between heights of at least m has an
      area of at least m * w. */
  lemma TrapezoidLower(w: real, a: real, b: real, m: real)
    requires w >= 0.0 && a >= m && b >= m
    ensures Trapezoid(w, a, b) >= m * w
  {
    assert w * (a + b) >= w * (2.0 * m);
    assert w * (2.0 * m) / 2.0 == m * w;
  }

  /** Over ascending abscissas, ordinates never below m >= 0 give an area of
      at least m times the width of the abscissa range. */
  lemma {:induction false} TrapzLower(y: seq<real>, x: seq<real>, m: real)
    requires |y| == |x| >= 1
    requires Ascending(x)
    requires m >= 0.0
    requires forall i :: 0 <= i < |y| ==> y[i] >= m
    ensures Trapz(y, x) >= m * (x[|x| - 1] - x[0])
    decreases |x|
  {
    if |x| > 1 {
      var w := x[1] - x[0];
      assert x[0] <= x[1];
      TrapezoidLower(w, y[0], y[1], m);
      TrapzLower(y[1..], x[1..], m);
      assert Trapz(y, x) == Trapezoid(w, y[0], y[1]) + Trapz(y[1..], x[1..]);
      assert x[1..][|x| - 2] == x[|x| - 1];
      assert m * (x[|x| - 1] - x[0]) == m * w + m * (x[|x| - 1] - x[1]);
    }
  }

  /** helper: k / (k + epsilon) is smallest at k = 1. */
  lemma RatioLower(k: real)
    requires k >= 1.0
    ensures k / (k + Epsilon) >= 1.0 / (1.0 + Epsilon)
  {
    assert k * (1.0 + Epsilon) >= k + Epsilon;
  }

  /** With every flag set, TP_cumsum[i] is i + 1 and FP_cumsum[i] is 0. */
  lemma PerfectCounts(flags: seq<bool>)
    requires forall i :: 0 <= i < |flags| ==> flags[i]
    ensures forall i :: 0 <= i < |flags| ==> CumSum(Indicator(flags))[i] == (i + 1) as real
    ensures forall i :: 0 <= i < |flags| ==> CumSum(Indicator(Negate(flags)))[i] == 0.0
  {
    var tp := Indicator(flags);
    var fp := Indicator(Negate(flags));
    forall i | 0 <= i < |flags| ensures CumSum(tp)[i] == (i + 1) as real && CumSum(fp)[i] == 0.0 {
      SumOnes(tp[..i + 1]);
      SumZeros(fp[..i + 1]);
    }
  }

  /** With every flag set, every precision is at least 1 / (1 + epsilon). */
  lemma PerfectPrecisions(flags: seq<bool>)
    requires forall i :: 0 <= i < |flags| ==> flags[i]
    ensures forall i :: 0 <= i < |flags| + 1 ==>
      PrecisionCurve(Indicator(flags), Indicator(Negate(flags)))[i] >= 1.0 / (1.0 + Epsilon)
  {
    var tp := Indicator(flags);
    var fp := Indicator(Negate(flags));
    var c := CumSum(tp);
    var d := CumSum(fp);
    PerfectCounts(flags);
    var y := PrecisionCurve(tp, fp);
    forall i | 0 <= i < |flags| + 1 ensures y[i] >= 1.0 / (1.0 + Epsilon) {
      if i > 0 {
        assert y[i] == c[i - 1] / (c[i - 1] + d[i - 1] + Epsilon);
        RatioLower(c[i - 1]);
      }
    }
  }

  /** With every flag set and as many ground truths as detections, the last
      recall is n / (n + epsilon). */
  lemma PerfectRecall(flags: seq<bool>)
    requires forall i :: 0 <= i < |flags| ==> flags[i]
    ensures RecallCurve(Indicator(flags), |flags|)[|flags|] == |flags| as real / (|flags| as real + Epsilon)
  {
    PerfectCounts(flags);
    if flags != [] {
      assert RecallCurve(Indicator(flags), |flags|)[|flags|]
          == CumSum(Indicator(flags))[|flags| - 1] / (|flags| as real + Epsilon);
    }
  }

  /** A class whose every detection is a true positive and which finds all of
      its ground truths scores within 2 * epsilon of 1: every precision is at
      least 1 / (1 + epsilon) and the last recall is n / (n + epsilon). */
  lemma PerfectClass(flags: seq<bool>)
    requires flags != []
    requires forall i :: 0 <= i < |flags| ==> flags[i]
    ensures ApOfFlags(flags, |flags|) >= 0.999998
  {
    var n := |flags|;
    var tp := Indicator(flags);
    var y := PrecisionCurve(tp, Indicator(Negate(flags)));
    var x := RecallCurve(tp, n);
    PerfectPrecisions(flags);
    CurveRecalls(flags, n);
    PerfectRecall(flags);
    RatioLower(n as real);
    NearlyPerfectCurve(y, x);
  }

  /** An ascending recall curve from 0 to at least 1 / (1 + epsilon) under
      precisions all at least 1 / (1 + epsilon) has an area of at least
      1 - 2 * epsilon. */
  lemma NearlyPerfectCurve(y: seq<real>, x: seq<real>)
    requires |y| == |x| >= 1
    requires Ascending(x)
    requires x[0] == 0.0 && x[|x| - 1] >= 1.0 / (1.0 + Epsilon)
    requires forall i :: 0 <= i < |y| ==> y[i] >= 1.0 / (1.0 + Epsilon)
    ensures Trapz(y, x) >= 0.999998
  {
    TrapzLower(y, x, 1.0 / (1.0 + Epsilon));
    AreaBound(Trapz(y, x), x[|x| - 1] - x[0]);
  }

  /** helper: an area of at least m * w, with w >= m and m = 1 / (1 + epsilon),
      is at least 1 - 2 * epsilon. */
  lemma AreaBound(area: real, w: real)
    requires w >= 1.0 / (1.0 + Epsilon)
    requires area >= 1.0 / (1.0 + Epsilon) * w
    ensures area >= 0.999998
  {
    var m := 1.0 / (1.0 + Epsilon);
    MulMonotone(m, m, m, w);
    assert m * m >= 0.999998;
  }

  /** Values of at least l sum to at least l times their count. */
  lemma {:induction false} SumAboveCount(s: seq<real>, l: real)
    requires forall i :: 0 <= i < |s| ==> s[i] >= l
    ensures Sum(s) >= |s| as real * l
    decreases |s|
  {
    if s != [] {
      SumAboveCount(s[..|s| - 1], l);
    }
  }

  /** The mean of values of at least l is at least l. */
  lemma MeanLower(s: seq<real>, l: real)
    requires s != []
    requires forall i :: 0 <= i < |s| ==> s[i] >= l
    ensures Sum(s) / |s| as real >= l
  {
    SumAboveCount(s, l);
  }
}
