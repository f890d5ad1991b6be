/** The per-image claim flags of the mAP routine (utils.py:101-105, 132-134): a map
    from image id to one flag per ground-truth box of that image, all unclaimed at
    first, each set at most once by a true-positive detection. The code builds it
    from a Counter of image ids whose counts it replaces by zero tensors; here the
    map holds sequences of booleans, and the sums below count flags across the
    whole map. */
module Claims {

  type Flags = map<int, seq<bool>>

  /** The number of set flags in s. */
  function TrueCount(s: seq<bool>): (n: nat)
    ensures n <= |s|
  {
    if s == [] then 0 else (if s[0] then 1 else 0) + TrueCount(s[1..])
  }

  lemma {:induction false} TrueCountAppend(s: seq<bool>, x: bool)
    ensures TrueCount(s + [x]) == TrueCount(s) + (if x then 1 else 0)
  {
    if s != [] {
      assert (s + [x])[1..] == s[1..] + [x];
      TrueCountAppend(s[1..], x);
    }
  }

  /** Setting one unset flag adds exactly one to the count. */
  lemma {:induction false} TrueCountSet(s: seq<bool>, k: nat)
    requires k < |s| && !s[k]
    ensures TrueCount(s[k := true]) == TrueCount(s) + 1
  {
    if k > 0 {
      assert s[k := true][1..] == s[1..][k - 1 := true];
      TrueCountSet(s[1..], k - 1);
    }
  }

  lemma {:induction false} TrueCountNone(s: seq<bool>)
    requires forall k :: 0 <= k < |s| ==> !s[k]
    ensures TrueCount(s) == 0
  {
    if s != [] {
      TrueCountNone(s[1..]);
    }
  }

  /** A count of 0 means no flag is set. */
  lemma {:induction false} TrueCountZero(s: seq<bool>)
    requires TrueCount(s) == 0
    ensures forall k :: 0 <= k < |s| ==> !s[k]
  {
    if s != [] {
      TrueCountZero(s[1..]);
      assert forall k :: 1 <= k < |s| ==> s[k] == s[1..][k - 1];
    }
  }

  lemma HasElement(s: set<int>)
    requires s != {}
    ensures exists x :: x in s
  {
    if forall x :: x !in s {
      assert false;
    }
  }

  ghost function Pick(s: set<int>): int
    requires s != {}
  {
    HasElement(s);
    var x :| x in s; x
  }

  /** The sum of the values of a map. */
  ghost function SumValues(m: map<int, nat>): nat
    decreases |m|
  {
    if |m| == 0 then 0
    else
      var k := Pick(m.Keys);
      assert (m - {k}).Keys == m.Keys - {k};
      m[k] + SumValues(m - {k})
  }

  /** The sum does not depend on which key is taken first. */
  lemma {:induction false} SumRemove(m: map<int, nat>, k: int)
    requires k in m
    ensures SumValues(m) == m[k] + SumValues(m - {k})
    decreases |m|
  {
    var j := Pick(m.Keys);
    if j != k {
      assert (m - {j}).Keys == m.Keys - {j};
      assert (m - {k}).Keys == m.Keys - {k};
      SumRemove(m - {j}, k);
      SumRemove(m - {k}, j);
      assert m - {j} - {k} == m - {k} - {j};
    }
  }

  lemma SumUpdate(m: map<int, nat>, k: int, v: nat)
    requires k in m
    ensures SumValues(m[k := v]) + m[k] == SumValues(m) + v
  {
    SumRemove(m[k := v], k);
    SumRemove(m, k);
    assert m[k := v] - {k} == m - {k};
  }

  lemma SumInsert(m: map<int, nat>, k: int, v: nat)
    requires k !in m
    ensures SumValues(m[k := v]) == SumValues(m) + v
  {
    SumRemove(m[k := v], k);
    assert m[k := v] - {k} == m;
  }

  lemma {:induction false} SumMonotone(a: map<int, nat>, b: map<int, nat>)
    requires a.Keys == b.Keys
    requires forall k :: k in a ==> a[k] <= b[k]
    ensures SumValues(a) <= SumValues(b)
    decreases |a|
  {
    if |a| > 0 {
      var k := Pick(a.Keys);
      SumRemove(b, k);
      assert (a - {k}).Keys == a.Keys - {k};
      SumMonotone(a - {k}, b - {k});
    }
  }

  lemma {:induction false} SumZero(m: map<int, nat>)
    requires forall k :: k in m ==> m[k] == 0
    ensures SumValues(m) == 0
    decreases |m|
  {
    if |m| > 0 {
      var k := Pick(m.Keys);
      assert (m - {k}).Keys == m.Keys - {k};
      SumZero(m - {k});
    }
  }

  /** Per image, the number of claimed ground-truth boxes. */
  function ClaimCounts(m: Flags): map<int, nat>
  {
    map img | img in m :: TrueCount(m[img])
  }

  /** Per image, the number of ground-truth boxes. */
  function Sizes(m: Flags): map<int, nat>
  {
    map img | img in m :: |m[img]|
  }

  /** The number of claimed ground-truth boxes over all images. */
  ghost function Claimed(m: Flags): nat
  {
    SumValues(ClaimCounts(m))
  }

  /** The number of ground-truth boxes over all images. */
  ghost function Capacity(m: Flags): nat
  {
    SumValues(Sizes(m))
  }

  /** No more boxes are claimed than there are. */
  lemma ClaimedWithinCapacity(m: Flags)
    ensures Claimed(m) <= Capacity(m)
  {
    SumMonotone(ClaimCounts(m), Sizes(m));
  }

  /** Claiming one unclaimed box adds one to the claimed count and leaves the
      number of boxes unchanged. */
  lemma ClaimOne(m: Flags, img: int, k: nat)
    requires img in m && k < |m[img]| && !m[img][k]
    ensures Claimed(m[img := m[img][k := true]]) == Claimed(m) + 1
    ensures Capacity(m[img := m[img][k := true]]) == Capacity(m)
  {
    var flags := m[img][k := true];
    TrueCountSet(m[img], k);
    CountsUpdate(m, img, flags);
    SizesUpdate(m, img, flags);
    SumUpdate(ClaimCounts(m), img, TrueCount(flags));
  }

  /** Replacing the flags of one image changes only that image's count. */
  lemma CountsUpdate(m: Flags, img: int, flags: seq<bool>)
    requires img in m
    ensures ClaimCounts(m[img := flags]) == ClaimCounts(m)[img := TrueCount(flags)]
  {
    var m' := m[img := flags];
    var a, b := ClaimCounts(m'), ClaimCounts(m)[img := TrueCount(flags)];
    assert a.Keys == b.Keys;
    forall k | k in a ensures a[k] == b[k] {
      if k != img {
        assert m'[k] == m[k];
      }
    }
  }

  /** Replacing the flags of one image by as many flags keeps every size. */
  lemma SizesUpdate(m: Flags, img: int, flags: seq<bool>)
    requires img in m && |flags| == |m[img]|
    ensures Sizes(m[img := flags]) == Sizes(m)
  {
    var m' := m[img := flags];
    var c, d := Sizes(m'), Sizes(m);
    assert c.Keys == d.Keys;
    forall k | k in c ensures c[k] == d[k] {
      if k != img {
        assert m'[k] == m[k];
      }
    }
  }

  /** The claim map the code starts from: for every image id in imgs, as many
      unclaimed flags as the id occurs in imgs. */
  function ZeroClaims(imgs: seq<int>): (m: Flags)
    ensures forall img :: img in m <==> img in imgs
    ensures forall img :: img in m ==> |m[img]| == multiset(imgs)[img]
    ensures forall img, k :: img in m && 0 <= k < |m[img]| ==> !m[img][k]
  {
    if imgs == [] then map[]
    else
      var init := imgs[..|imgs| - 1];
      var last := imgs[|imgs| - 1];
      assert imgs == init + [last];
      var m := ZeroClaims(init);
      assert multiset(imgs) == multiset(init) + multiset{last};
      m[last := (if last in m then m[last] else []) + [false]]
  }

  /** None of the starting flags is set. */
  lemma ZeroClaimsUnclaimed(imgs: seq<int>)
    ensures Claimed(ZeroClaims(imgs)) == 0
  {
    var m := ZeroClaims(imgs);
    forall img | img in m ensures ClaimCounts(m)[img] == 0 {
      TrueCountNone(m[img]);
    }
    SumZero(ClaimCounts(m));
  }

  /** Adding one flag for an image adds one to the number of boxes. */
  lemma CapacityAddFlag(m: Flags, img: int)
    ensures Capacity(m[img := (if img in m then m[img] else []) + [false]]) == Capacity(m) + 1
  {
    var m' := m[img := (if img in m then m[img] else []) + [false]];
    if img in m {
      assert Sizes(m') == Sizes(m)[img := |m[img]| + 1];
      SumUpdate(Sizes(m), img, |m[img]| + 1);
    } else {
      assert Sizes(m') == Sizes(m)[img := 1];
      SumInsert(Sizes(m), img, 1);
    }
  }

  /** The starting map has one flag per image id given. */
  lemma {:induction false} ZeroClaimsCapacity(imgs: seq<int>)
    ensures Capacity(ZeroClaims(imgs)) == |imgs|
  {
    if imgs != [] {
      var init := imgs[..|imgs| - 1];
      ZeroClaimsCapacity(init);
      CapacityAddFlag(ZeroClaims(init), imgs[|imgs| - 1]);
    }
  }
}
