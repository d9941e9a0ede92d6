/**
  Properties relating the queries to independent reference definitions and to
  each other: filter-then-sum, case-insensitivity, last-record-wins grouping,
  in-order message filtering, independence of the sorting algorithm, and the
  top sender under first-seen order.
 */
module FetcherLemmas {
  import opened Wrappers
  import opened CaseFold
  import opened Transactions
  import opened StableSort
  import opened Fetcher

  // ---------------------------------------------------------------- sums

  lemma {:induction false} TotalTransactionAmountAppend(a: seq<Transaction>, b: seq<Transaction>)
    ensures TotalTransactionAmount(a + b) == TotalTransactionAmount(a) + TotalTransactionAmount(b)
    decreases |b|
  {
    if |b| > 0 {
      assert Init(a + b) == a + Init(b);
      TotalTransactionAmountAppend(a, Init(b));
    } else {
      assert a + b == a;
    }
  }

  lemma TotalTransactionAmountOfOne(t: Transaction)
    ensures TotalTransactionAmount([t]) == t.amount
  {
    assert Init([t]) == [];
  }

  /** The sent-by total is the total of exactly the records the case-insensitive sender test keeps. */
  lemma {:induction false} SentByIsTotalOfSenderRecords(ts: seq<Transaction>, name: string)
    ensures TotalTransactionAmountSentBy(ts, name) == TotalTransactionAmount(RecordsSentBy(ts, name))
    decreases |ts|
  {
    if |ts| > 0 {
      var init, t := Init(ts), ts[|ts| - 1];
      var last := if SentBy(t, name) then [t] else [];
      SentByIsTotalOfSenderRecords(init, name);
      TotalTransactionAmountAppend(RecordsSentBy(init, name), last);
      TotalTransactionAmountOfOne(t);
      assert ts == init + [t];
      RecordsSentBySnoc(init, t, name);
    }
  }

  lemma ConcatAssociates(x: seq<Transaction>, y: seq<Transaction>, z: seq<Transaction>)
    ensures (x + y) + z == x + (y + z)
  {
  }

  /** Filtering a run with one more record at its end appends that record when, and only when, it matches. */
  lemma RecordsSentBySnoc(ts: seq<Transaction>, t: Transaction, name: string)
    ensures RecordsSentBy(ts + [t], name) == RecordsSentBy(ts, name) + (if SentBy(t, name) then [t] else [])
  {
    assert Init(ts + [t]) == ts;
  }

  /** The filter of two record runs end to end is the first run's filter followed by the second's: record order is kept. */
  lemma {:induction false} RecordsSentByAppend(a: seq<Transaction>, b: seq<Transaction>, name: string)
    ensures RecordsSentBy(a + b, name) == RecordsSentBy(a, name) + RecordsSentBy(b, name)
    decreases |b|
  {
    if |b| == 0 {
      assert a + b == a;
    } else {
      var b0, t := Init(b), b[|b| - 1];
      assert b == b0 + [t];
      assert a + b == (a + b0) + [t];
      var last := if SentBy(t, name) then [t] else [];
      calc {
        RecordsSentBy(a + b, name);
        RecordsSentBy((a + b0) + [t], name);
        { RecordsSentBySnoc(a + b0, t, name); }
        RecordsSentBy(a + b0, name) + last;
        { RecordsSentByAppend(a, b0, name); }
        (RecordsSentBy(a, name) + RecordsSentBy(b0, name)) + last;
        { ConcatAssociates(RecordsSentBy(a, name), RecordsSentBy(b0, name), last); }
        RecordsSentBy(a, name) + (RecordsSentBy(b0, name) + last);
        { RecordsSentBySnoc(b0, t, name); }
        RecordsSentBy(a, name) + RecordsSentBy(b0 + [t], name);
        RecordsSentBy(a, name) + RecordsSentBy(b, name);
      }
    }
  }

  /** Two names equal up to case select the same records, so "tom shelby" and "Tom Shelby" give one total. */
  lemma {:induction false} SentByIgnoresCase(ts: seq<Transaction>, name1: string, name2: string)
    requires EqualsIgnoreCase(name1, name2)
    ensures TotalTransactionAmountSentBy(ts, name1) == TotalTransactionAmountSentBy(ts, name2)
    decreases |ts|
  {
    if |ts| > 0 {
      var t := ts[|ts| - 1];
      EqualsIgnoreCaseIsEquivalence(t.senderFullName, name1, name2);
      EqualsIgnoreCaseIsEquivalence(name2, name1, t.senderFullName);
      EqualsIgnoreCaseIsEquivalence(t.senderFullName, name2, name1);
      SentByIgnoresCase(Init(ts), name1, name2);
    }
  }

  // ---------------------------------------------------------------- distinct senders

  /** The count is the size of the set of sender names; beneficiaries play no part. */
  lemma CountUniqueClientsIsSenderSetSize(ts: seq<Transaction>)
    ensures CountUniqueClients(ts) == |set t | t in ts :: t.senderFullName|
  {
    assert SenderNames(ts) == set t | t in ts :: t.senderFullName;
  }

  /** Records that differ only outside the sender name give the same count. */
  lemma {:induction false} CountUniqueClientsIgnoresBeneficiaries(ts: seq<Transaction>, us: seq<Transaction>)
    requires |ts| == |us|
    requires forall i :: 0 <= i < |ts| ==> ts[i].senderFullName == us[i].senderFullName
    ensures SenderNames(ts) == SenderNames(us)
    ensures CountUniqueClients(ts) == CountUniqueClients(us)
    decreases |ts|
  {
    if |ts| > 0 {
      CountUniqueClientsIgnoresBeneficiaries(Init(ts), Init(us));
    }
  }

  // ---------------------------------------------------------------- grouping

  /** No record after position i shares its beneficiary and mtn. */
  predicate IsLastFor(ts: seq<Transaction>, i: int)
    requires 0 <= i < |ts|
  {
    forall j :: i < j < |ts| ==>
      !(ts[j].beneficiaryFullName == ts[i].beneficiaryFullName && ts[j].mtn == ts[i].mtn)
  }

  /** The entry at (beneficiary, mtn) summarises the last record in sequence order with that pair. */
  lemma {:induction false} LastRecordWins(ts: seq<Transaction>, i: int)
    requires 0 <= i < |ts|
    requires IsLastFor(ts, i)
    ensures ts[i].beneficiaryFullName in TransactionsByBeneficiaryName(ts)
    ensures ts[i].mtn in TransactionsByBeneficiaryName(ts)[ts[i].beneficiaryFullName]
    ensures TransactionsByBeneficiaryName(ts)[ts[i].beneficiaryFullName][ts[i].mtn] == Summarize(ts[i])
    decreases |ts|
  {
    if i < |ts| - 1 {
      assert Init(ts)[i] == ts[i];
      assert IsLastFor(Init(ts), i);
      LastRecordWins(Init(ts), i);
    }
  }

  /** The outer keys are exactly the beneficiary names. */
  lemma GroupingOuterKeys(ts: seq<Transaction>)
    ensures TransactionsByBeneficiaryName(ts).Keys == set t | t in ts :: t.beneficiaryFullName
  {
    GroupingKeysComeFromRecords(ts);
    OuterKeysFromCoverage(ts, TransactionsByBeneficiaryName(ts));
  }

  /** The inner keys of beneficiary b are exactly the mtns of the records naming b. */
  lemma GroupingInnerKeys(ts: seq<Transaction>, b: string)
    requires b in TransactionsByBeneficiaryName(ts)
    ensures TransactionsByBeneficiaryName(ts)[b].Keys == set t | t in ts && t.beneficiaryFullName == b :: t.mtn
  {
    GroupingKeysComeFromRecords(ts);
    InnerKeysFromCoverage(ts, TransactionsByBeneficiaryName(ts), b);
  }

  /** An index that covers every record and has no key without a record is keyed by exactly the beneficiaries. */
  lemma OuterKeysFromCoverage(ts: seq<Transaction>, r: map<string, map<int, TransactionSummary>>)
    requires forall t :: t in ts ==> t.beneficiaryFullName in r
    requires forall b :: b in r ==> exists t :: t in ts && t.beneficiaryFullName == b
    ensures r.Keys == set t | t in ts :: t.beneficiaryFullName
  {
    var names := set t | t in ts :: t.beneficiaryFullName;
    forall x | x in r
      ensures x in names
    {
      var t :| t in ts && t.beneficiaryFullName == x;
    }
  }

  /** The same for the mtn keys under one beneficiary. */
  lemma InnerKeysFromCoverage(ts: seq<Transaction>, r: map<string, map<int, TransactionSummary>>, b: string)
    requires b in r
    requires forall t :: t in ts ==> t.beneficiaryFullName in r && t.mtn in r[t.beneficiaryFullName]
    requires forall m :: m in r[b] ==> exists t :: t in ts && t.beneficiaryFullName == b && t.mtn == m
    ensures r[b].Keys == set t | t in ts && t.beneficiaryFullName == b :: t.mtn
  {
    var mtns := set t | t in ts && t.beneficiaryFullName == b :: t.mtn;
    forall m | m in r[b]
      ensures m in mtns
    {
      var t :| t in ts && t.beneficiaryFullName == b && t.mtn == m;
    }
  }

  // ---------------------------------------------------------------- issues

  lemma UnsolvedIssueIdsIsComprehension(ts: seq<Transaction>)
    ensures UnsolvedIssueIds(ts) == set t | t in ts && !t.issueSolved :: t.issueId
  {
  }

  /** The message list of a concatenation is the concatenation of the message lists: an in-order filter. */
  lemma {:induction false} AllSolvedIssueMessagesAppend(a: seq<Transaction>, b: seq<Transaction>)
    ensures AllSolvedIssueMessages(a + b) == AllSolvedIssueMessages(a) + AllSolvedIssueMessages(b)
    decreases |b|
  {
    if |b| > 0 {
      assert Init(a + b) == a + Init(b);
      AllSolvedIssueMessagesAppend(a, Init(b));
    } else {
      assert a + b == a;
    }
  }

  lemma AllSolvedIssueMessagesOfOne(t: Transaction)
    ensures AllSolvedIssueMessages([t]) == if HasSolvedMessage(t) then [t.issueMessage.value] else []
  {
    assert Init([t]) == [];
  }

  // ---------------------------------------------------------------- top three

  /**
    Any stable sort by amount, largest first, yields the same first three records:
    the result does not depend on `Collections.sort` being insertion sort or TimSort.
   */
  lemma Top3OfAnyStableSort(ts: seq<Transaction>, sorted: seq<Transaction>)
    requires SortedByAmountDesc(sorted)
    requires forall a :: AmountSlice(sorted, a) == AmountSlice(ts, a)
    ensures |sorted| == |ts|
    ensures sorted[..Min(|sorted|, 3)] == Top3TransactionsByAmount(ts)
  {
    var reference := SortByAmountDesc(ts);
    StableSortIsUnique(sorted, reference);
    assert multiset(sorted) == multiset(ts);
    assert |multiset(sorted)| == |sorted|;
  }

  // ---------------------------------------------------------------- top sender

  /** The sender names in the order of their first record, without repeats. */
  function FirstSeenSenders(ts: seq<Transaction>): (r: seq<string>)
    ensures forall s :: s in r <==> s in SenderNames(ts)
    ensures forall i, j :: 0 <= i < j < |r| ==> r[i] != r[j]
    decreases |ts|
  {
    if |ts| == 0 then []
    else
      var prev := FirstSeenSenders(Init(ts));
      var s := ts[|ts| - 1].senderFullName;
      if s in prev then prev else prev + [s]
  }

  /** getTopSender with ties broken towards the sender seen first. */
  function TopSenderFirstSeen(ts: seq<Transaction>): (r: Option<string>)
    ensures r.None? <==> |ts| == 0
    ensures r.Some? ==> exists t :: t in ts && t.senderFullName == r.value
    ensures r.Some? ==> forall t :: t in ts ==> SenderTotal(ts, t.senderFullName) <= SenderTotal(ts, r.value)
    ensures r.Some? ==> exists i :: 0 <= i < |FirstSeenSenders(ts)| && FirstSeenSenders(ts)[i] == r.value &&
                          forall j :: 0 <= j < i ==> SenderTotal(ts, FirstSeenSenders(ts)[j]) < SenderTotal(ts, r.value)
  {
    TopSender(ts, FirstSeenSenders(ts))
  }

  /** A: 10, B: 20, A: 15 gives A, whose total 25 exceeds B's 20. */
  lemma TopSenderExample()
    ensures var ts := [Transaction(1, 10, "A", "X", None, true, None),
                       Transaction(2, 20, "B", "X", None, true, None),
                       Transaction(3, 15, "A", "X", None, true, None)];
            TopSenderFirstSeen(ts) == Some("A")
  {
    var ts := [Transaction(1, 10, "A", "X", None, true, None),
               Transaction(2, 20, "B", "X", None, true, None),
               Transaction(3, 15, "A", "X", None, true, None)];
    assert Init(ts) == ts[..2];
    assert Init(ts[..2]) == ts[..1];
    assert Init(ts[..1]) == [];
    assert SenderTotal(ts, "A") == 25;
    assert SenderTotal(ts, "B") == 20;
    assert "A" != "B";
  }

  // ---------------------------------------------------------------- load failure

  /** A record sequence that failed to load is empty, and every query answers with its default. */
  lemma EmptyRecordsGiveDefaults(name: string, order: seq<string>)
    requires forall s :: s in order <==> s in SenderNames([])
    ensures TotalTransactionAmount([]) == 0
    ensures TotalTransactionAmountSentBy([], name) == 0
    ensures MaxTransactionAmount([]) == 0
    ensures CountUniqueClients([]) == 0
    ensures !HasOpenComplianceIssues([], name)
    ensures TransactionsByBeneficiaryName([]) == map[]
    ensures UnsolvedIssueIds([]) == {}
    ensures AllSolvedIssueMessages([]) == []
    ensures Top3TransactionsByAmount([]) == []
    ensures TopSender([], order) == None
  {
  }
}
