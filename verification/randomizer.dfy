/**
 The seven-bag randomizer. The bag is a sequence; a draw pops its last
 element, and a draw from an empty bag first restocks it with all seven
 kinds in a shuffled order. The shuffle itself is not modelled: each draw is
 handed the permutation the generator would produce, which is consulted
 only when the bag is empty.
 */
module Randomizer {
  import opened Catalog

  /** A restocked bag: seven entries holding every kind exactly once, in some order. */
  predicate IsShuffle(s: seq<PieceType>)
  {
    |s| == 7 && forall k :: multiset(s)[k] == 1
  }

  /** A shuffle is exactly a permutation of the seven kinds. */
  lemma ShuffleIsPermutation(s: seq<PieceType>)
    ensures IsShuffle(s) <==> multiset(s) == multiset(AllKinds)
  {
    forall k
      ensures multiset(AllKinds)[k] == 1
    {
      AllKindsIndexed(k);
    }
    if multiset(s) == multiset(AllKinds) {
      assert |s| == |multiset(AllKinds)| == 7;
    }
  }

  /** Every entry of `shuffles` is a shuffle. */
  ghost predicate AllShuffles(shuffles: seq<seq<PieceType>>)
  {
    forall i :: 0 <= i < |shuffles| ==> IsShuffle(shuffles[i])
  }

  /** What may remain in a bag between refills: some of the kinds, none twice. */
  predicate BagValid(bag: seq<PieceType>)
  {
    forall k :: multiset(bag)[k] <= 1
  }

  /** A shuffle holds seven kinds, no two alike. */
  lemma ShuffleDistinct(s: seq<PieceType>)
    requires IsShuffle(s)
    ensures |s| == 7
    ensures forall i, j :: 0 <= i < j < |s| ==> s[i] != s[j]
  {
    forall i, j | 0 <= i < j < |s|
      ensures s[i] != s[j]
    {
      RepeatCounts(s, i, j);
    }
  }

  /** A kind found at two positions occurs at least twice. */
  lemma RepeatCounts(s: seq<PieceType>, i: nat, j: nat)
    requires i < j < |s|
    ensures s[i] == s[j] ==> multiset(s)[s[i]] >= 2
  {
    assert s == s[..i] + [s[i]] + s[i + 1..j] + [s[j]] + s[j + 1..];
  }

  /** The result of one draw: the kind handed out and the bag left behind. */
  datatype Draw = Draw(piece: PieceType, bag: seq<PieceType>)

  /**
   Removes and returns one kind. An empty bag is first restocked with
   `shuffled`; otherwise `shuffled` is ignored and the last element is popped.
   */
  function GetNext(bag: seq<PieceType>, shuffled: seq<PieceType>): (d: Draw)
    requires IsShuffle(shuffled)
    ensures |bag| > 0 ==> d.piece == bag[|bag| - 1] && d.bag == bag[..|bag| - 1]
    ensures |bag| == 0 ==> d.piece == shuffled[6] && d.bag == shuffled[..6]
  {
    var full := if |bag| == 0 then shuffled else bag;
    assert |full| > 0 by {
      if |bag| == 0 {
        ShuffleDistinct(shuffled);
      }
    }
    Draw(full[|full| - 1], full[..|full| - 1])
  }

  /**
   A draw hands out one element of the (restocked if empty) bag and keeps
   the rest, so a bag never holds a kind twice.
   */
  lemma GetNextConserves(bag: seq<PieceType>, shuffled: seq<PieceType>)
    requires IsShuffle(shuffled)
    ensures multiset(GetNext(bag, shuffled).bag) + multiset{GetNext(bag, shuffled).piece}
         == multiset(if |bag| == 0 then shuffled else bag)
    ensures BagValid(bag) ==> BagValid(GetNext(bag, shuffled).bag)
  {
    var full := if |bag| == 0 then shuffled else bag;
    ShuffleDistinct(shuffled);
    var d := GetNext(bag, shuffled);
    assert full == d.bag + [d.piece];
    assert forall k :: multiset(d.bag)[k] <= multiset(full)[k];
  }

  /** The shuffle matters only when the bag is empty. */
  lemma RefillOnlyWhenEmpty(bag: seq<PieceType>, s1: seq<PieceType>, s2: seq<PieceType>)
    requires IsShuffle(s1) && IsShuffle(s2)
    requires |bag| > 0
    ensures GetNext(bag, s1) == GetNext(bag, s2)
  {
  }

  /** A run of draws: the kinds in the order handed out, and the bag left at the end. */
  datatype Drained = Drained(draws: seq<PieceType>, bag: seq<PieceType>)

  /** |shuffles| successive draws; the i-th draw is handed shuffles[i]. */
  function Drain(bag: seq<PieceType>, shuffles: seq<seq<PieceType>>): (r: Drained)
    requires AllShuffles(shuffles)
    ensures |r.draws| == |shuffles|
    decreases |shuffles|
  {
    if |shuffles| == 0 then Drained([], bag)
    else
      var d := GetNext(bag, shuffles[0]);
      var rest := Drain(d.bag, shuffles[1..]);
      Drained([d.piece] + rest.draws, rest.bag)
  }

  /** The elements of `s` from last to first: the order in which pops hand them out. */
  function Reverse<A>(s: seq<A>): (r: seq<A>)
    ensures |r| == |s|
    ensures forall i :: 0 <= i < |s| ==> r[i] == s[|s| - 1 - i]
  {
    if |s| == 0 then [] else [s[|s| - 1]] + Reverse(s[..|s| - 1])
  }

  lemma ReversePermutes<A>(s: seq<A>)
    ensures multiset(Reverse(s)) == multiset(s)
  {
    if |s| > 0 {
      assert s == s[..|s| - 1] + [s[|s| - 1]];
      ReversePermutes(s[..|s| - 1]);
    }
  }

  /** Draws made one run after another are the draws of the combined run. */
  lemma {:induction false} DrainSplit(bag: seq<PieceType>, a: seq<seq<PieceType>>, c: seq<seq<PieceType>>)
    requires AllShuffles(a) && AllShuffles(c)
    ensures AllShuffles(a + c)
    ensures Drain(bag, a + c) == Drained(Drain(bag, a).draws + Drain(Drain(bag, a).bag, c).draws, Drain(Drain(bag, a).bag, c).bag)
    decreases |a|
  {
    if |a| > 0 {
      var d := GetNext(bag, a[0]);
      assert (a + c)[0] == a[0];
      assert (a + c)[1..] == a[1..] + c;
      DrainSplit(d.bag, a[1..], c);
      assert Drain(bag, a + c) == Drained([d.piece] + Drain(d.bag, a[1..] + c).draws, Drain(d.bag, a[1..] + c).bag);
      assert Drain(bag, a) == Drained([d.piece] + Drain(d.bag, a[1..]).draws, Drain(d.bag, a[1..]).bag);
    } else {
      assert a + c == c;
    }
  }

  /**
   While the bag lasts no refill happens: draining `n` kinds from a bag
   holding at least `n` hands out its last `n` elements, back to front.
   */
  lemma {:induction false} DrainWithoutRefill(bag: seq<PieceType>, shuffles: seq<seq<PieceType>>)
    requires AllShuffles(shuffles)
    requires |shuffles| <= |bag|
    ensures Drain(bag, shuffles).draws == Reverse(bag[|bag| - |shuffles|..])
    ensures Drain(bag, shuffles).bag == bag[..|bag| - |shuffles|]
    decreases |shuffles|
  {
    if |shuffles| > 0 {
      var d := GetNext(bag, shuffles[0]);
      assert d.bag == bag[..|bag| - 1];
      DrainWithoutRefill(d.bag, shuffles[1..]);
      var tail := bag[|bag| - |shuffles|..];
      assert d.bag[|d.bag| - (|shuffles| - 1)..] == tail[..|tail| - 1];
    }
  }

  /**
   One refill cycle: starting from an empty bag, seven draws hand out the
   first shuffle's kinds, each exactly once, and leave the bag empty again.
   */
  lemma {:induction false} RefillCycle(shuffles: seq<seq<PieceType>>)
    requires AllShuffles(shuffles)
    requires |shuffles| == 7
    ensures Drain([], shuffles).draws == Reverse(shuffles[0])
    ensures IsShuffle(Drain([], shuffles).draws)
    ensures Drain([], shuffles).bag == []
  {
    var s := shuffles[0];
    ShuffleDistinct(s);
    var d := GetNext([], s);
    assert d.bag == s[..6] && d.piece == s[6];
    DrainWithoutRefill(d.bag, shuffles[1..]);
    assert Drain([], shuffles).draws == [s[6]] + Reverse(s[..6]);
    assert s[..6] == s[..|s| - 1];
    ReversePermutes(s);
  }

  /** Count and window facts about n-1 cycles extend to n when one more cycle is put in front. */
  lemma PrependCycle(d1: seq<PieceType>, d2: seq<PieceType>, n: nat)
    requires n > 0 && IsShuffle(d1) && |d2| == 7 * (n - 1)
    requires forall k :: multiset(d2)[k] == n - 1
    requires forall k :: 0 <= k < n - 1 ==> IsShuffle(d2[7 * k..7 * k + 7])
    ensures forall k :: multiset(d1 + d2)[k] == n
    ensures forall k :: 0 <= k < n ==> IsShuffle((d1 + d2)[7 * k..7 * k + 7])
  {
    var draws := d1 + d2;
    assert multiset(draws) == multiset(d1) + multiset(d2);
    forall k | 0 <= k < n
      ensures IsShuffle(draws[7 * k..7 * k + 7])
    {
      if k == 0 {
        assert draws[..7] == d1;
      } else {
        var lo := 7 * k;
        assert 7 * (k - 1) == lo - 7 && lo + 7 <= |draws|;
        assert draws[lo..lo + 7] == d2[lo - 7..lo];
      }
    }
  }

  /**
   Over n whole refill cycles from an empty bag, every kind is drawn
   exactly n times, each aligned window of seven draws is a permutation of
   the seven kinds, and the bag ends empty.
   */
  lemma {:induction false} RefillCycles(shuffles: seq<seq<PieceType>>, n: nat)
    requires AllShuffles(shuffles)
    requires |shuffles| == 7 * n
    ensures forall k :: multiset(Drain([], shuffles).draws)[k] == n
    ensures forall k :: 0 <= k < n ==> IsShuffle(Drain([], shuffles).draws[7 * k..7 * k + 7])
    ensures Drain([], shuffles).bag == []
  {
    if n > 0 {
      var first := shuffles[..7];
      var rest := shuffles[7..];
      assert shuffles == first + rest;
      RefillCycle(first);
      RefillCycles(rest, n - 1);
      DrainSplit([], first, rest);
      PrependCycle(Drain([], first).draws, Drain([], rest).draws, n);
    }
  }
}
