/** Ordering records by score, highest first: the `sorted(..., reverse=True)` and
    `list.sort(..., reverse=True)` calls of utils.py. Only the outcome matters to
    the routines: a permutation of the input whose scores never increase. */
module Sorting {

  /** Scores never increase from front to back. */
  predicate NonIncreasing<T>(s: seq<T>, score: T -> real)
  {
    forall i, j :: 0 <= i < j < |s| ==> score(s[i]) >= score(s[j])
  }

  /** Inserts x in front of the first element it scores at least as high as. */
  function Insert<T>(x: T, s: seq<T>, score: T -> real): (r: seq<T>)
    requires NonIncreasing(s, score)
    ensures NonIncreasing(r, score)
    ensures multiset(r) == multiset(s) + multiset{x}
    ensures |r| == |s| + 1
  {
    if s == [] || score(x) >= score(s[0]) then
      [x] + s
    else
      var rest := Insert(x, s[1..], score);
      HeadOverRest(x, s, rest, score);
      assert s == [s[0]] + s[1..];
      [s[0]] + rest
  }

  /** When x scores below the head of s, the head stays in front of every element
      of s[1..] with x added. */
  lemma HeadOverRest<T>(x: T, s: seq<T>, rest: seq<T>, score: T -> real)
    requires s != [] && NonIncreasing(s, score) && score(x) < score(s[0])
    requires NonIncreasing(rest, score)
    requires multiset(rest) == multiset(s[1..]) + multiset{x}
    ensures NonIncreasing([s[0]] + rest, score)
  {
    forall j | 0 <= j < |rest| ensures score(rest[j]) <= score(s[0]) {
      assert rest[j] in multiset(rest);
      if rest[j] != x {
        assert rest[j] in multiset(s[1..]);
        var k :| 0 <= k < |s[1..]| && s[1..][k] == rest[j];
        assert s[k + 1] == rest[j];
      }
    }
  }

  /** The records of s, highest score first. */
  function SortByScore<T>(s: seq<T>, score: T -> real): (r: seq<T>)
    ensures NonIncreasing(r, score)
    ensures multiset(r) == multiset(s)
    ensures |r| == |s|
  {
    if s == [] then []
    else
      assert s == [s[0]] + s[1..];
      Insert(s[0], SortByScore(s[1..], score), score)
  }

  /** Sorting keeps exactly the records it was given. */
  lemma SortedMembers<T>(s: seq<T>, score: T -> real, x: T)
    ensures x in SortByScore(s, score) <==> x in s
  {
    var r := SortByScore(s, score);
    assert x in r <==> x in multiset(r);
    assert x in s <==> x in multiset(s);
  }
}
