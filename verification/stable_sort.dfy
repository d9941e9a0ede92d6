/**
  A stable sort of transactions by amount, largest first: the order
  `Collections.sort` with `Comparator.comparing(Transaction::getAmount).reversed()`
  produces. Stability is stated through amount slices: for every amount `a`, the
  records of amount `a` appear in the sorted sequence in their input order.
 */
module StableSort {
  import opened Transactions

  predicate SortedByAmountDesc(s: seq<Transaction>)
  {
    forall i, j :: 0 <= i < j < |s| ==> s[j].amount <= s[i].amount
  }

  /** The records of `s` whose amount is `a`, in the order of `s`. */
  function AmountSlice(s: seq<Transaction>, a: int): (r: seq<Transaction>)
    ensures |r| <= |s|
    ensures forall t :: t in r <==> t in s && t.amount == a
  {
    if |s| == 0 then []
    else (if s[0].amount == a then [s[0]] else []) + AmountSlice(s[1..], a)
  }

  lemma {:induction false} AmountSliceAppend(s: seq<Transaction>, u: seq<Transaction>, a: int)
    ensures AmountSlice(s + u, a) == AmountSlice(s, a) + AmountSlice(u, a)
    decreases |s|
  {
    if |s| == 0 {
      assert s + u == u;
    } else {
      assert (s + u)[1..] == s[1..] + u;
      AmountSliceAppend(s[1..], u, a);
    }
  }

  lemma AmountSliceCons(x: Transaction, s: seq<Transaction>, a: int)
    ensures AmountSlice([x] + s, a) == (if x.amount == a then [x] else []) + AmountSlice(s, a)
  {
    assert ([x] + s)[1..] == s;
  }

  /**
    Puts `t` into `s` in front of the first record whose amount is not larger
    than its own, so `t` precedes the records of equal amount already in `s`.
   */
  function Insert(t: Transaction, s: seq<Transaction>): (r: seq<Transaction>)
    ensures multiset(r) == multiset(s) + multiset{t}
  {
    if |s| == 0 then [t]
    else if s[0].amount <= t.amount then [t] + s
    else
      assert s == [s[0]] + s[1..];
      [s[0]] + Insert(t, s[1..])
  }

  lemma {:induction false} InsertKeepsSorted(t: Transaction, s: seq<Transaction>)
    requires SortedByAmountDesc(s)
    ensures SortedByAmountDesc(Insert(t, s))
    decreases |s|
  {
    if |s| > 0 && t.amount < s[0].amount {
      var rest := Insert(t, s[1..]);
      assert SortedByAmountDesc(s[1..]);
      InsertKeepsSorted(t, s[1..]);
      forall x | x in rest
        ensures x.amount <= s[0].amount
      {
        assert x in multiset(rest);
        assert x == t || x in multiset(s[1..]);
      }
      ConsKeepsSorted(s[0], rest);
    }
  }

  /** A record no smaller than any in a sorted sequence may go in front of it. */
  lemma ConsKeepsSorted(x: Transaction, s: seq<Transaction>)
    requires SortedByAmountDesc(s)
    requires forall y :: y in s ==> y.amount <= x.amount
    ensures SortedByAmountDesc([x] + s)
  {
    forall i, j | 0 <= i < j < |[x] + s|
      ensures ([x] + s)[j].amount <= ([x] + s)[i].amount
    {
      assert ([x] + s)[j] == s[j - 1];
      if i > 0 {
        assert ([x] + s)[i] == s[i - 1];
      }
    }
  }

  lemma {:induction false} InsertIsStable(t: Transaction, s: seq<Transaction>, a: int)
    ensures AmountSlice(Insert(t, s), a) == if t.amount == a then [t] + AmountSlice(s, a) else AmountSlice(s, a)
    decreases |s|
  {
    if |s| == 0 {
      AmountSliceCons(t, [], a);
    } else if s[0].amount <= t.amount {
      AmountSliceCons(t, s, a);
    } else {
      InsertIsStable(t, s[1..], a);
      AmountSliceCons(s[0], Insert(t, s[1..]), a);
      AmountSliceCons(s[0], s[1..], a);
      assert s == [s[0]] + s[1..];
    }
  }

  /** Stable descending sort; earlier input records are inserted last, so they stay in front of equal ones. */
  function SortByAmountDesc(ts: seq<Transaction>): (r: seq<Transaction>)
    ensures SortedByAmountDesc(r)
    ensures multiset(r) == multiset(ts)
    ensures forall a :: AmountSlice(r, a) == AmountSlice(ts, a)
  {
    if |ts| == 0 then []
    else
      var rest := SortByAmountDesc(ts[1..]);
      InsertKeepsSorted(ts[0], rest);
      assert ts == [ts[0]] + ts[1..];
      assert forall a :: AmountSlice(Insert(ts[0], rest), a) == AmountSlice(ts, a) by {
        forall a
          ensures AmountSlice(Insert(ts[0], rest), a) == AmountSlice(ts, a)
        {
          InsertIsStable(ts[0], rest, a);
          AmountSliceCons(ts[0], ts[1..], a);
        }
      }
      Insert(ts[0], rest)
  }

  /**
    A stable descending sort has exactly one result: any two sequences that are
    sorted by amount, largest first, and have the same slice for every amount are
    equal. So the choice of sorting algorithm does not affect the outcome.
   */
  lemma {:induction false} StableSortIsUnique(s1: seq<Transaction>, s2: seq<Transaction>)
    requires SortedByAmountDesc(s1) && SortedByAmountDesc(s2)
    requires forall a :: AmountSlice(s1, a) == AmountSlice(s2, a)
    ensures s1 == s2
    decreases |s1| + |s2|
  {
    if |s1| > 0 {
      assert s1[0] in AmountSlice(s2, s1[0].amount);
    }
    if |s2| > 0 {
      assert s2[0] in AmountSlice(s1, s2[0].amount);
    }
    if |s1| > 0 {
      HeadsAgree(s1, s2);
      TailSlicesAgree(s1, s2);
      TailKeepsSorted(s1);
      TailKeepsSorted(s2);
      StableSortIsUnique(s1[1..], s2[1..]);
      assert s1 == [s1[0]] + s1[1..];
      assert s2 == [s2[0]] + s2[1..];
    }
  }

  lemma TailKeepsSorted(s: seq<Transaction>)
    requires |s| > 0 && SortedByAmountDesc(s)
    ensures SortedByAmountDesc(s[1..])
  {
  }

  /** Two sorted sequences with the same slices, the first non-empty, start with the same record. */
  lemma HeadsAgree(s1: seq<Transaction>, s2: seq<Transaction>)
    requires SortedByAmountDesc(s1) && SortedByAmountDesc(s2)
    requires forall a :: AmountSlice(s1, a) == AmountSlice(s2, a)
    requires |s1| > 0
    ensures |s2| > 0 && s1[0] == s2[0]
  {
    var a1 := s1[0].amount;
    assert s1[0] in AmountSlice(s2, a1);
    var a2 := s2[0].amount;
    assert s2[0] in AmountSlice(s1, a2);
    assert a1 == a2;
    assert AmountSlice(s1, a1)[0] == s1[0];
    assert AmountSlice(s2, a1)[0] == s2[0];
  }

  /** Two sequences with the same head and the same slices have tails with the same slices. */
  lemma TailSlicesAgree(s1: seq<Transaction>, s2: seq<Transaction>)
    requires |s1| > 0 && |s2| > 0 && s1[0] == s2[0]
    requires forall a :: AmountSlice(s1, a) == AmountSlice(s2, a)
    ensures forall a :: AmountSlice(s1[1..], a) == AmountSlice(s2[1..], a)
  {
    forall a
      ensures AmountSlice(s1[1..], a) == AmountSlice(s2[1..], a)
    {
      var h := if s1[0].amount == a then [s1[0]] else [];
      assert AmountSlice(s1, a) == h + AmountSlice(s1[1..], a);
      assert AmountSlice(s2, a) == h + AmountSlice(s2[1..], a);
      assert AmountSlice(s1[1..], a) == AmountSlice(s1, a)[|h|..];
      assert AmountSlice(s2[1..], a) == AmountSlice(s2, a)[|h|..];
    }
  }
}
