// sort.SliceStable as the carrier and DPI engines use it: higher score first, then lower cost,
// then earlier position.
module Ranking {
  datatype Ranked<T> = Ranked(item: T, score: real, cost: real, known: bool)

  predicate Less<T>(a: Ranked<T>, b: Ranked<T>) {
    if a.score == b.score then a.cost < b.cost else a.score > b.score
  }

  function Insert<T>(x: Ranked<T>, s: seq<Ranked<T>>): (r: seq<Ranked<T>>)
    ensures |r| == |s| + 1
  {
    if s == [] || !Less(s[0], x) then [x] + s else [s[0]] + Insert(x, s[1..])
  }

  function StableSort<T>(s: seq<Ranked<T>>): (r: seq<Ranked<T>>)
    ensures |r| == |s|
  {
    if s == [] then [] else Insert(s[0], StableSort(s[1..]))
  }

  predicate Sorted<T>(s: seq<Ranked<T>>) {
    forall i, j :: 0 <= i < j < |s| ==> !Less(s[j], s[i])
  }

  lemma {:induction false} InsertIsPermutation<T>(x: Ranked<T>, s: seq<Ranked<T>>)
    ensures multiset(Insert(x, s)) == multiset(s) + multiset{x}
  {
    if s != [] {
      assert s == [s[0]] + s[1..];
      if Less(s[0], x) {
        InsertIsPermutation(x, s[1..]);
      }
    }
  }

  lemma {:induction false} SortIsPermutation<T>(s: seq<Ranked<T>>)
    ensures multiset(StableSort(s)) == multiset(s)
  {
    if s != [] {
      SortIsPermutation(s[1..]);
      InsertIsPermutation(s[0], StableSort(s[1..]));
      assert s == [s[0]] + s[1..];
    }
  }

  lemma {:induction false} InsertKeepsSorted<T>(x: Ranked<T>, s: seq<Ranked<T>>)
    requires Sorted(s)
    ensures Sorted(Insert(x, s))
  {
    var r := Insert(x, s);
    if s != [] && Less(s[0], x) {
      InsertKeepsSorted(x, s[1..]);
      InsertIsPermutation(x, s[1..]);
      forall j | 1 <= j < |r|
        ensures !Less(r[j], s[0])
      {
        assert r[j] == Insert(x, s[1..])[j - 1];
        assert r[j] in multiset(Insert(x, s[1..]));
        assert r[j] == x || r[j] in s[1..];
      }
    }
  }

  lemma {:induction false} SortIsSorted<T>(s: seq<Ranked<T>>)
    ensures Sorted(StableSort(s))
  {
    if s != [] {
      SortIsSorted(s[1..]);
      InsertKeepsSorted(s[0], StableSort(s[1..]));
    }
  }

  /** The index of the first element nothing else beats. */
  function FirstBest<T>(s: seq<Ranked<T>>): (i: nat)
    requires s != []
    ensures i < |s|
  {
    if |s| == 1 then 0
    else
      var j := FirstBest(s[1..]) + 1;
      if Less(s[j], s[0]) then j else 0
  }

  /** The sort puts it in front: it beats everything before it and is beaten by nothing after it. */
  lemma {:induction false} SortPutsFirstBestInFront<T>(s: seq<Ranked<T>>)
    requires s != []
    ensures var i := FirstBest(s);
      && StableSort(s)[0] == s[i]
      && (forall j :: 0 <= j < i ==> Less(s[i], s[j]))
      && (forall j :: i < j < |s| ==> !Less(s[j], s[i]))
  {
    if |s| > 1 {
      SortPutsFirstBestInFront(s[1..]);
      var j := FirstBest(s[1..]);
      assert forall k :: 0 < k < |s| ==> s[k] == s[1..][k - 1];
    }
  }

  /** No other score is higher, among equal scores no cost is lower, and among those none is earlier. */
  ghost predicate IsFirstBest<T>(s: seq<Ranked<T>>, i: nat) {
    && i < |s|
    && (forall j :: 0 <= j < |s| ==> s[j].score <= s[i].score)
    && (forall j :: 0 <= j < |s| && s[j].score == s[i].score ==> s[i].cost <= s[j].cost)
    && (forall j :: 0 <= j < i && s[j].score == s[i].score ==> s[i].cost < s[j].cost)
  }

  lemma FrontIsFirstBest<T>(s: seq<Ranked<T>>)
    requires s != []
    ensures IsFirstBest(s, FirstBest(s)) && StableSort(s)[0] == s[FirstBest(s)]
  {
    SortPutsFirstBestInFront(s);
  }

  function Without<T>(s: seq<T>, i: nat): seq<T>
    requires i < |s|
  {
    s[..i] + s[i + 1..]
  }

  lemma WithoutAt<T>(s: seq<T>, i: nat, q: nat)
    requires i < |s| && q < |s| - 1
    ensures |Without(s, i)| == |s| - 1 && Without(s, i)[q] == if q < i then s[q] else s[q + 1]
  {
  }

  /** Sorting takes the first best out, and sorts the rest. */
  lemma {:induction false} SortTakesBest<T>(s: seq<Ranked<T>>)
    requires s != []
    ensures StableSort(s) == [s[FirstBest(s)]] + StableSort(Without(s, FirstBest(s)))
  {
    if |s| == 1 {
      assert Without(s, 0) == [] && s[1..] == [];
    } else {
      var j := FirstBest(s[1..]);
      SortTakesBest(s[1..]);
      if Less(s[j + 1], s[0]) {
        assert Without(s, j + 1) == [s[0]] + Without(s[1..], j);
        assert Without(s, j + 1)[1..] == Without(s[1..], j);
      } else {
        assert Without(s, 0) == s[1..];
      }
    }
  }

  predicate Cheaper<T>(s: seq<Ranked<T>>, i: nat, p: nat)
    requires i < |s| && p < |s|
  {
    s[i].cost < s[p].cost || (s[i].cost == s[p].cost && i < p)
  }

  lemma FirstIsCheapest<T>(s: seq<Ranked<T>>, p: nat)
    requires s != [] && p < |s| && p != FirstBest(s) && s[p].score == s[FirstBest(s)].score
    ensures Cheaper(s, FirstBest(s), p)
  {
    FrontIsFirstBest(s);
  }

  /** Among equal scores the sort puts the two cheapest in front, earlier ones first. */
  lemma TwoCheapest<T>(s: seq<Ranked<T>>) returns (first: nat, second: nat)
    requires |s| >= 2 && forall p, q :: 0 <= p < |s| && 0 <= q < |s| ==> s[p].score == s[q].score
    ensures first < |s| && second < |s| && first != second
    ensures StableSort(s)[0] == s[first] && StableSort(s)[1] == s[second]
    ensures forall p: nat :: p < |s| && p != first ==> Cheaper(s, first, p)
    ensures forall p: nat :: p < |s| && p != first && p != second ==> Cheaper(s, second, p)
  {
    first := FirstBest(s);
    var rest := Without(s, first);
    var k := FirstBest(rest);
    second := if k < first then k else k + 1;
    SortTakesBest(s);
    SortTakesBest(rest);
    WithoutAt(s, first, k);
    forall p: nat | p < |s| && p != first
      ensures Cheaper(s, first, p)
    {
      FirstIsCheapest(s, p);
    }
    forall p: nat | p < |s| && p != first && p != second
      ensures Cheaper(s, second, p)
    {
      var q: nat := if p < first then p else p - 1;
      WithoutAt(s, first, q);
      FirstIsCheapest(rest, q);
    }
  }

  /** The best stays best when its score rises and nothing else changes. */
  lemma StillFirst<T>(r: seq<Ranked<T>>, r': seq<Ranked<T>>, i: nat, b: nat)
    requires |r| == |r'| && IsFirstBest(r, i) && IsFirstBest(r', b)
    requires forall j :: 0 <= j < |r| ==> r'[j].cost == r[j].cost
    requires forall j :: 0 <= j < |r| && j != i ==> r'[j].score == r[j].score
    requires r'[i].score >= r[i].score
    ensures b == i
  {
    assert r'[b].score >= r'[i].score && r[i].score >= r[b].score;
  }
}
