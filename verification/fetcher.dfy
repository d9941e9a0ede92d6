/**
  The ten read-only queries of `TransactionDataFetcher`, each a fold or filter
  over the ordered record sequence. A record sequence that failed to load is the
  empty sequence: every query then returns its zero, empty or absent value.
  Folds run over prefixes, record by record in sequence order, as the for-each
  loops do.
 */
module Fetcher {
  import opened Wrappers
  import opened CaseFold
  import opened Transactions
  import opened StableSort

  // ---------------------------------------------------------------- sums

  /** getTotalTransactionAmount */
  function TotalTransactionAmount(ts: seq<Transaction>): (r: int)
    ensures |ts| == 0 ==> r == 0
    ensures AllAmountsNonNegative(ts) ==> 0 <= r
    ensures AllAmountsNonNegative(ts) ==> forall t :: t in ts ==> t.amount <= r
    decreases |ts|
  {
    if |ts| == 0 then 0
    else TotalTransactionAmount(Init(ts)) + ts[|ts| - 1].amount
  }

  /** The sender test of getTotalTransactionAmountSentBy: `equalsIgnoreCase`. */
  predicate SentBy(t: Transaction, name: string)
  {
    EqualsIgnoreCase(t.senderFullName, name)
  }

  /** getTotalTransactionAmountSentBy */
  function TotalTransactionAmountSentBy(ts: seq<Transaction>, name: string): (r: int)
    ensures (forall t :: t in ts ==> !SentBy(t, name)) ==> r == 0
    ensures AllAmountsNonNegative(ts) ==> 0 <= r <= TotalTransactionAmount(ts)
    decreases |ts|
  {
    if |ts| == 0 then 0
    else
      var t := ts[|ts| - 1];
      TotalTransactionAmountSentBy(Init(ts), name) + (if SentBy(t, name) then t.amount else 0)
  }

  /**
    The records a sender-name filter keeps, in order: every matching record as
    often as it occurs, and no other record.
   */
  function RecordsSentBy(ts: seq<Transaction>, name: string): (r: seq<Transaction>)
    ensures |r| <= |ts|
    ensures forall t :: t in r <==> t in ts && SentBy(t, name)
    ensures forall t :: multiset(r)[t] == if SentBy(t, name) then multiset(ts)[t] else 0
    decreases |ts|
  {
    if |ts| == 0 then []
    else
      var t := ts[|ts| - 1];
      RecordsSentBy(Init(ts), name) + (if SentBy(t, name) then [t] else [])
  }

  /** Extending a prefix by one record adds its amount. */
  lemma TotalTransactionAmountStep(ts: seq<Transaction>, i: int)
    requires 0 <= i < |ts|
    ensures TotalTransactionAmount(ts[..i + 1]) == TotalTransactionAmount(ts[..i]) + ts[i].amount
  {
    PrefixInit(ts, i);
  }

  /** Extending a prefix by one record adds its amount exactly when its sender matches. */
  lemma TotalTransactionAmountSentByStep(ts: seq<Transaction>, name: string, i: int)
    requires 0 <= i < |ts|
    ensures TotalTransactionAmountSentBy(ts[..i + 1], name) ==
            TotalTransactionAmountSentBy(ts[..i], name) + (if SentBy(ts[i], name) then ts[i].amount else 0)
  {
    PrefixInit(ts, i);
  }

  // ---------------------------------------------------------------- maximum

  /** getMaxTransactionAmount: the largest amount, floored at 0 (the loop starts from 0). */
  function MaxTransactionAmount(ts: seq<Transaction>): (r: int)
    ensures 0 <= r
    ensures forall t :: t in ts ==> t.amount <= r
    ensures r == 0 || exists t :: t in ts && t.amount == r
    decreases |ts|
  {
    if |ts| == 0 then 0
    else
      var m := MaxTransactionAmount(Init(ts));
      var t := ts[|ts| - 1];
      if t.amount > m then t.amount else m
  }

  /** Extending a prefix by one record raises the maximum to its amount when that is strictly larger. */
  lemma MaxTransactionAmountStep(ts: seq<Transaction>, i: int)
    requires 0 <= i < |ts|
    ensures MaxTransactionAmount(ts[..i + 1]) ==
            if ts[i].amount > MaxTransactionAmount(ts[..i]) then ts[i].amount else MaxTransactionAmount(ts[..i])
  {
    PrefixInit(ts, i);
  }

  // ---------------------------------------------------------------- distinct senders

  /** The contents of the HashSet countUniqueClients fills: sender names only. */
  function SenderNames(ts: seq<Transaction>): (r: set<string>)
    ensures forall t :: t in ts ==> t.senderFullName in r
    ensures forall s :: s in r ==> exists t :: t in ts && t.senderFullName == s
    ensures |r| <= |ts|
    decreases |ts|
  {
    if |ts| == 0 then {}
    else
      var init, last := Init(ts), ts[|ts| - 1];
      var prev := SenderNames(init);
      assert forall t :: t in ts ==> t in init || t == last;
      assert |prev + {last.senderFullName}| <= |prev| + 1;
      prev + {last.senderFullName}
  }

  /** Extending a prefix by one record adds its sender's name. */
  lemma SenderNamesStep(ts: seq<Transaction>, i: int)
    requires 0 <= i < |ts|
    ensures SenderNames(ts[..i + 1]) == SenderNames(ts[..i]) + {ts[i].senderFullName}
  {
    PrefixInit(ts, i);
  }

  /** countUniqueClients, as written: the number of distinct sender names. */
  function CountUniqueClients(ts: seq<Transaction>): (r: nat)
    ensures r <= |ts|
    ensures |ts| > 0 ==> 1 <= r
  {
    assert |ts| > 0 ==> ts[0].senderFullName in SenderNames(ts);
    |SenderNames(ts)|
  }

  // ---------------------------------------------------------------- compliance

  /** The record test of hasOpenComplianceIssues, as written: exact beneficiary match and a solved issue. */
  predicate SolvedIssueFor(t: Transaction, beneficiaryFullName: string)
  {
    t.beneficiaryFullName == beneficiaryFullName && t.issueSolved
  }

  /** hasOpenComplianceIssues, as written: stops at the first matching record. */
  function HasOpenComplianceIssues(ts: seq<Transaction>, beneficiaryFullName: string): (r: bool)
    ensures r <==> exists t :: t in ts && t.beneficiaryFullName == beneficiaryFullName && t.issueSolved
    decreases |ts|
  {
    if |ts| == 0 then false
    else if SolvedIssueFor(ts[0], beneficiaryFullName) then true
    else
      assert ts == [ts[0]] + ts[1..];
      HasOpenComplianceIssues(ts[1..], beneficiaryFullName)
  }

  // ---------------------------------------------------------------- grouping

  /**
    getTransactionsByBeneficiaryName: beneficiary name, then mtn, to the summary
    of a record. Each record overwrites the entry at its (beneficiary, mtn).
   */
  function TransactionsByBeneficiaryName(ts: seq<Transaction>): (r: map<string, map<int, TransactionSummary>>)
    ensures |ts| == 0 <==> r == map[]
    ensures |ts| > 0 ==> var t := ts[|ts| - 1];
              t.beneficiaryFullName in r && t.mtn in r[t.beneficiaryFullName] &&
              r[t.beneficiaryFullName][t.mtn] == Summarize(t)
    ensures forall b :: b in r ==> r[b] != map[]
    decreases |ts|
  {
    if |ts| == 0 then map[]
    else PutSummary(TransactionsByBeneficiaryName(Init(ts)), ts[|ts| - 1])
  }

  /**
    Every record has an entry at its (beneficiary, mtn), and every beneficiary
    key and every (beneficiary, mtn) key comes from some record.
   */
  lemma {:induction false} GroupingKeysComeFromRecords(ts: seq<Transaction>)
    ensures forall t :: t in ts ==> t.beneficiaryFullName in TransactionsByBeneficiaryName(ts) && t.mtn in TransactionsByBeneficiaryName(ts)[t.beneficiaryFullName]
    ensures forall b :: b in TransactionsByBeneficiaryName(ts) ==> exists t :: t in ts && t.beneficiaryFullName == b
    ensures forall b, m :: b in TransactionsByBeneficiaryName(ts) && m in TransactionsByBeneficiaryName(ts)[b] ==>
              exists t :: t in ts && t.beneficiaryFullName == b && t.mtn == m
  {
    GroupingCoversRecords(ts);
    GroupingOuterKeysFromRecords(ts);
    GroupingInnerKeysFromRecords(ts);
  }

  lemma {:induction false} GroupingCoversRecords(ts: seq<Transaction>)
    ensures forall t :: t in ts ==> t.beneficiaryFullName in TransactionsByBeneficiaryName(ts) && t.mtn in TransactionsByBeneficiaryName(ts)[t.beneficiaryFullName]
    decreases |ts|
  {
    if |ts| > 0 {
      GroupingCoversRecords(Init(ts));
      var init, t := Init(ts), ts[|ts| - 1];
      assert ts == init + [t];
      GroupingStepCovers(init, TransactionsByBeneficiaryName(init), t);
    }
  }

  lemma {:induction false} GroupingOuterKeysFromRecords(ts: seq<Transaction>)
    ensures forall b :: b in TransactionsByBeneficiaryName(ts) ==> exists t :: t in ts && t.beneficiaryFullName == b
    decreases |ts|
  {
    if |ts| > 0 {
      GroupingOuterKeysFromRecords(Init(ts));
      var init, t := Init(ts), ts[|ts| - 1];
      assert ts == init + [t];
      GroupingStepOuterKeys(init, TransactionsByBeneficiaryName(init), t);
    }
  }

  lemma {:induction false} GroupingInnerKeysFromRecords(ts: seq<Transaction>)
    ensures forall b, m :: b in TransactionsByBeneficiaryName(ts) && m in TransactionsByBeneficiaryName(ts)[b] ==>
              exists t :: t in ts && t.beneficiaryFullName == b && t.mtn == m
    decreases |ts|
  {
    if |ts| > 0 {
      GroupingInnerKeysFromRecords(Init(ts));
      var init, t := Init(ts), ts[|ts| - 1];
      assert ts == init + [t];
      GroupingStepInnerKeys(init, TransactionsByBeneficiaryName(init), t);
    }
  }

  /** Stores the summary of `t` under its beneficiary and mtn, creating the inner map when missing. */
  function PutSummary(index: map<string, map<int, TransactionSummary>>, t: Transaction): (r: map<string, map<int, TransactionSummary>>)
    ensures r.Keys == index.Keys + {t.beneficiaryFullName}
    ensures t.mtn in r[t.beneficiaryFullName] && r[t.beneficiaryFullName][t.mtn] == Summarize(t)
    ensures t.beneficiaryFullName in index ==> r[t.beneficiaryFullName].Keys == index[t.beneficiaryFullName].Keys + {t.mtn}
    ensures t.beneficiaryFullName !in index ==> r[t.beneficiaryFullName].Keys == {t.mtn}
    ensures forall m :: t.beneficiaryFullName in index && m in index[t.beneficiaryFullName] && m != t.mtn ==>
              r[t.beneficiaryFullName][m] == index[t.beneficiaryFullName][m]
    ensures forall b :: b in index && b != t.beneficiaryFullName ==> r[b] == index[b]
  {
    var inner := if t.beneficiaryFullName in index then index[t.beneficiaryFullName] else map[];
    index[t.beneficiaryFullName := inner[t.mtn := Summarize(t)]]
  }

  /** One overwrite step keeps an entry for every record so far. */
  lemma GroupingStepCovers(init: seq<Transaction>, prev: map<string, map<int, TransactionSummary>>, t: Transaction)
    requires forall u :: u in init ==> u.beneficiaryFullName in prev && u.mtn in prev[u.beneficiaryFullName]
    ensures forall u :: u in init + [t] ==> u.beneficiaryFullName in PutSummary(prev, t) && u.mtn in PutSummary(prev, t)[u.beneficiaryFullName]
  {
  }

  /** One overwrite step adds only the record's own beneficiary as an outer key. */
  lemma GroupingStepOuterKeys(init: seq<Transaction>, prev: map<string, map<int, TransactionSummary>>, t: Transaction)
    requires forall b :: b in prev ==> exists u :: u in init && u.beneficiaryFullName == b
    ensures forall b :: b in PutSummary(prev, t) ==> exists u :: u in init + [t] && u.beneficiaryFullName == b
  {
    var r := PutSummary(prev, t);
    forall b | b in r
      ensures exists u :: u in init + [t] && u.beneficiaryFullName == b
    {
      if b == t.beneficiaryFullName {
        assert t in init + [t];
      } else {
        var u :| u in init && u.beneficiaryFullName == b;
        assert u in init + [t];
      }
    }
  }

  /** One overwrite step adds only the record's own (beneficiary, mtn) pair. */
  lemma GroupingStepInnerKeys(init: seq<Transaction>, prev: map<string, map<int, TransactionSummary>>, t: Transaction)
    requires forall b, m :: b in prev && m in prev[b] ==> exists u :: u in init && u.beneficiaryFullName == b && u.mtn == m
    ensures forall b, m :: b in PutSummary(prev, t) && m in PutSummary(prev, t)[b] ==>
              exists u :: u in init + [t] && u.beneficiaryFullName == b && u.mtn == m
  {
    var r := PutSummary(prev, t);
    forall b, m | b in r && m in r[b]
      ensures exists u :: u in init + [t] && u.beneficiaryFullName == b && u.mtn == m
    {
      if b == t.beneficiaryFullName && m == t.mtn {
        assert t in init + [t];
      } else {
        assert b in prev && m in prev[b];
        var u :| u in init && u.beneficiaryFullName == b && u.mtn == m;
        assert u in init + [t];
      }
    }
  }

  /** Extending a prefix by one record stores that record's summary. */
  lemma TransactionsByBeneficiaryNameStep(ts: seq<Transaction>, i: int)
    requires 0 <= i < |ts|
    ensures TransactionsByBeneficiaryName(ts[..i + 1]) == PutSummary(TransactionsByBeneficiaryName(ts[..i]), ts[i])
  {
    var p := ts[..i + 1];
    assert TransactionsByBeneficiaryName(p) == PutSummary(TransactionsByBeneficiaryName(Init(p)), p[|p| - 1]);
    PrefixInit(ts, i);
  }

  // ---------------------------------------------------------------- issues

  /** getUnsolvedIssueIds, as written: the id of every unsolved record, absent ids included. */
  function UnsolvedIssueIds(ts: seq<Transaction>): (r: set<Option<int>>)
    ensures forall t :: t in ts && !t.issueSolved ==> t.issueId in r
    ensures forall id :: id in r ==> exists t :: t in ts && !t.issueSolved && t.issueId == id
    ensures |r| <= |ts|
    decreases |ts|
  {
    if |ts| == 0 then {}
    else
      var t := ts[|ts| - 1];
      UnsolvedIssueIds(Init(ts)) + (if !t.issueSolved then {t.issueId} else {})
  }

  /** Extending a prefix by one record adds that record's id exactly when it is unsolved. */
  lemma UnsolvedIssueIdsStep(ts: seq<Transaction>, i: int)
    requires 0 <= i < |ts|
    ensures UnsolvedIssueIds(ts[..i + 1]) == UnsolvedIssueIds(ts[..i]) + (if !ts[i].issueSolved then {ts[i].issueId} else {})
  {
    PrefixInit(ts, i);
  }

  /** The record test of getAllSolvedIssueMessages: solved, with a present, non-empty message. */
  predicate HasSolvedMessage(t: Transaction)
  {
    t.issueSolved && t.issueMessage.Some? && t.issueMessage.value != ""
  }

  /** getAllSolvedIssueMessages: the messages of solved issues, in record order. */
  function AllSolvedIssueMessages(ts: seq<Transaction>): (r: seq<string>)
    ensures |r| <= |ts|
    ensures forall m :: m in r <==> exists t :: t in ts && HasSolvedMessage(t) && t.issueMessage.value == m
    decreases |ts|
  {
    if |ts| == 0 then []
    else
      var t := ts[|ts| - 1];
      AllSolvedIssueMessages(Init(ts)) + (if HasSolvedMessage(t) then [t.issueMessage.value] else [])
  }

  /** Extending a prefix by one record appends that record's message exactly when it has a solved one. */
  lemma AllSolvedIssueMessagesStep(ts: seq<Transaction>, i: int)
    requires 0 <= i < |ts|
    ensures AllSolvedIssueMessages(ts[..i + 1]) ==
            AllSolvedIssueMessages(ts[..i]) + (if HasSolvedMessage(ts[i]) then [ts[i].issueMessage.value] else [])
  {
    PrefixInit(ts, i);
  }

  // ---------------------------------------------------------------- top three

  function Min(a: int, b: int): int { if a <= b then a else b }

  /** getTop3TransactionsByAmount: the first min(n, 3) records of the stable descending sort. */
  function Top3TransactionsByAmount(ts: seq<Transaction>): (r: seq<Transaction>)
    ensures |r| == Min(|ts|, 3)
    ensures SortedByAmountDesc(r)
    ensures multiset(r) <= multiset(ts)
    ensures |r| > 0 ==> forall t :: t in multiset(ts) - multiset(r) ==> t.amount <= r[|r| - 1].amount
    ensures forall a :: AmountSlice(r, a) <= AmountSlice(ts, a)
  {
    var sorted := SortByAmountDesc(ts);
    assert |multiset(sorted)| == |sorted|;
    var k := Min(|sorted|, 3);
    PrefixKeepsSorted(sorted, k);
    PrefixSubMultiset(sorted, k);
    PrefixSlicesArePrefixes(sorted, k);
    if k > 0 then
      SortedPrefixIsTop(sorted, k);
      sorted[..k]
    else
      []
  }

  lemma PrefixKeepsSorted(s: seq<Transaction>, k: nat)
    requires k <= |s| && SortedByAmountDesc(s)
    ensures SortedByAmountDesc(s[..k])
  {
  }

  lemma PrefixSubMultiset(s: seq<Transaction>, k: nat)
    requires k <= |s|
    ensures multiset(s[..k]) <= multiset(s)
  {
    assert s == s[..k] + s[k..];
  }

  /** The records left out of a prefix of a sorted sequence are no larger than the prefix's last record. */
  lemma SortedPrefixIsTop(sorted: seq<Transaction>, k: nat)
    requires 0 < k <= |sorted|
    requires SortedByAmountDesc(sorted)
    ensures forall t :: t in multiset(sorted) - multiset(sorted[..k]) ==> t.amount <= sorted[k - 1].amount
  {
    var r, rest := sorted[..k], sorted[k..];
    assert sorted == r + rest;
    assert multiset(sorted) - multiset(r) == multiset(rest);
    forall t: Transaction | t in multiset(rest)
      ensures t.amount <= sorted[k - 1].amount
    {
      assert t in rest;
    }
  }

  /** The amount slices of a prefix are prefixes of the amount slices of the whole. */
  lemma PrefixSlicesArePrefixes(s: seq<Transaction>, k: nat)
    requires k <= |s|
    ensures forall a :: AmountSlice(s[..k], a) <= AmountSlice(s, a)
  {
    forall a
      ensures AmountSlice(s[..k], a) <= AmountSlice(s, a)
    {
      assert s == s[..k] + s[k..];
      AmountSliceAppend(s[..k], s[k..], a);
    }
  }

  // ---------------------------------------------------------------- top sender

  /** The total a sender's records sum to, matching the name exactly as the HashMap key does. */
  function SenderTotal(ts: seq<Transaction>, sender: string): (r: int)
    ensures (forall t :: t in ts ==> t.senderFullName != sender) ==> r == 0
    ensures AllAmountsNonNegative(ts) ==> 0 <= r
    decreases |ts|
  {
    if |ts| == 0 then 0
    else
      var t := ts[|ts| - 1];
      SenderTotal(Init(ts), sender) + (if t.senderFullName == sender then t.amount else 0)
  }

  /** One step of the getTopSender loop: add the record's amount to its sender's entry, creating it when missing. */
  function AddAmount(totals: map<string, int>, t: Transaction): (r: map<string, int>)
    ensures r.Keys == totals.Keys + {t.senderFullName}
    ensures r[t.senderFullName] == (if t.senderFullName in totals then totals[t.senderFullName] else 0) + t.amount
    ensures forall s :: s in totals && s != t.senderFullName ==> r[s] == totals[s]
  {
    if t.senderFullName in totals then totals[t.senderFullName := totals[t.senderFullName] + t.amount]
    else totals[t.senderFullName := t.amount]
  }

  /** The HashMap getTopSender fills: an entry for exactly the names that send. */
  function SenderTotals(ts: seq<Transaction>): (r: map<string, int>)
    ensures r.Keys == SenderNames(ts)
    decreases |ts|
  {
    if |ts| == 0 then map[]
    else AddAmount(SenderTotals(Init(ts)), ts[|ts| - 1])
  }

  /** Extending a prefix by one record adds its amount to its sender's entry. */
  lemma SenderTotalsStep(ts: seq<Transaction>, i: int)
    requires 0 <= i < |ts|
    ensures SenderTotals(ts[..i + 1]) == AddAmount(SenderTotals(ts[..i]), ts[i])
  {
    PrefixInit(ts, i);
  }

  /** Each entry of the totals map holds its sender's exact-name total. */
  lemma {:induction false} SenderTotalsAreSums(ts: seq<Transaction>)
    ensures forall s :: s in SenderTotals(ts) ==> SenderTotals(ts)[s] == SenderTotal(ts, s)
    decreases |ts|
  {
    if |ts| > 0 {
      var prev := SenderTotals(Init(ts));
      var t := ts[|ts| - 1];
      assert SenderTotals(ts) == AddAmount(prev, t);
      SenderTotalsAreSums(Init(ts));
      if t.senderFullName !in prev {
        assert forall u :: u in Init(ts) ==> u.senderFullName != t.senderFullName;
      }
      SenderTotalsStepValues(ts, prev, SenderTotals(ts));
    }
  }

  lemma SenderTotalsStepValues(ts: seq<Transaction>, prev: map<string, int>, r: map<string, int>)
    requires |ts| > 0
    requires forall s :: s in prev ==> prev[s] == SenderTotal(Init(ts), s)
    requires ts[|ts| - 1].senderFullName !in prev ==> SenderTotal(Init(ts), ts[|ts| - 1].senderFullName) == 0
    requires r == AddAmount(prev, ts[|ts| - 1])
    ensures forall s :: s in r ==> r[s] == SenderTotal(ts, s)
  {
  }

  /**
    `Stream.max` over the entries in iteration order `order`: a reduction that
    keeps the current entry unless the next one's total is strictly larger.
    The result is the first entry in `order` whose total is the largest.
   */
  function MaxByTotal(totals: map<string, int>, order: seq<string>): (r: Option<string>)
    requires forall s :: s in order ==> s in totals
    ensures r.None? <==> |order| == 0
    ensures r.Some? ==> r.value in order && forall s :: s in order ==> totals[s] <= totals[r.value]
    ensures r.Some? ==> exists i :: 0 <= i < |order| && order[i] == r.value &&
                          forall j :: 0 <= j < i ==> totals[order[j]] < totals[r.value]
    decreases |order|
  {
    if |order| == 0 then None
    else
      var init := order[..|order| - 1];
      var x := order[|order| - 1];
      assert order == init + [x];
      match MaxByTotal(totals, init)
      case None => Some(x)
      case Some(best) => if totals[best] >= totals[x] then Some(best) else Some(x)
  }

  /**
    getTopSender, for a HashMap iteration order `order` (any enumeration of the
    sender names; Java leaves it unspecified): absent exactly when there are no
    records, otherwise a sender whose total is at least every sender's total.
   */
  function TopSender(ts: seq<Transaction>, order: seq<string>): (r: Option<string>)
    requires forall s :: s in order <==> s in SenderNames(ts)
    ensures r.None? <==> |ts| == 0
    ensures r.Some? ==> r.value in SenderNames(ts) &&
                        forall s :: s in SenderNames(ts) ==> SenderTotal(ts, s) <= SenderTotal(ts, r.value)
    ensures r.Some? ==> exists i :: 0 <= i < |order| && order[i] == r.value &&
                          forall j :: 0 <= j < i ==> SenderTotal(ts, order[j]) < SenderTotal(ts, r.value)
  {
    var totals := SenderTotals(ts);
    SenderTotalsAreSums(ts);
    assert |ts| > 0 ==> ts[0].senderFullName in order;
    assert |order| > 0 ==> order[0] in SenderNames(ts);
    MaxByTotal(totals, order)
  }
}
