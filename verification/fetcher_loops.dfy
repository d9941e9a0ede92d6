/**
  The for-each loops of `TransactionDataFetcher`, statement by statement, each
  proved to compute its query. The invariant of every loop says the
  accumulator holds the query's answer for the records seen so far.
 */
module FetcherLoops {
  import opened Wrappers
  import opened CaseFold
  import opened Transactions
  import opened StableSort
  import opened Fetcher

  method GetTotalTransactionAmount(ts: seq<Transaction>) returns (totalAmount: int)
    ensures totalAmount == TotalTransactionAmount(ts)
  {
    totalAmount := 0;
    for i := 0 to |ts|
      invariant totalAmount == TotalTransactionAmount(ts[..i])
    {
      TotalTransactionAmountStep(ts, i);
      totalAmount := totalAmount + ts[i].amount;
    }
    assert ts[..|ts|] == ts;
  }

  method GetTotalTransactionAmountSentBy(ts: seq<Transaction>, senderFullName: string) returns (totalAmount: int)
    ensures totalAmount == TotalTransactionAmountSentBy(ts, senderFullName)
  {
    totalAmount := 0;
    for i := 0 to |ts|
      invariant totalAmount == TotalTransactionAmountSentBy(ts[..i], senderFullName)
    {
      TotalTransactionAmountSentByStep(ts, senderFullName, i);
      if EqualsIgnoreCase(ts[i].senderFullName, senderFullName) {
        totalAmount := totalAmount + ts[i].amount;
      }
    }
    assert ts[..|ts|] == ts;
  }

  method GetMaxTransactionAmount(ts: seq<Transaction>) returns (maxAmount: int)
    ensures maxAmount == MaxTransactionAmount(ts)
  {
    maxAmount := 0;
    for i := 0 to |ts|
      invariant maxAmount == MaxTransactionAmount(ts[..i])
    {
      MaxTransactionAmountStep(ts, i);
      if ts[i].amount > maxAmount {
        maxAmount := ts[i].amount;
      }
    }
    assert ts[..|ts|] == ts;
  }

  method CountUniqueClientsLoop(ts: seq<Transaction>) returns (count: nat)
    ensures count == CountUniqueClients(ts)
  {
    var uniqueClients := CollectSenderNames(ts);
    count := |uniqueClients|;
  }

  /** The loop of countUniqueClients: add every record's sender name to a set. */
  method CollectSenderNames(ts: seq<Transaction>) returns (uniqueClients: set<string>)
    ensures uniqueClients == SenderNames(ts)
  {
    uniqueClients := {};
    for i := 0 to |ts|
      invariant uniqueClients == SenderNames(ts[..i])
    {
      SenderNamesStep(ts, i);
      uniqueClients := uniqueClients + {ts[i].senderFullName};
    }
    assert ts[..|ts|] == ts;
  }

  method HasOpenComplianceIssuesLoop(ts: seq<Transaction>, beneficiaryFullName: string) returns (found: bool)
    ensures found == HasOpenComplianceIssues(ts, beneficiaryFullName)
  {
    for i := 0 to |ts|
      invariant forall j :: 0 <= j < i ==> !SolvedIssueFor(ts[j], beneficiaryFullName)
    {
      if ts[i].beneficiaryFullName == beneficiaryFullName && ts[i].issueSolved {
        return true;
      }
    }
    return false;
  }

  method GetTransactionsByBeneficiaryName(ts: seq<Transaction>)
    returns (transactionsByBeneficiary: map<string, map<int, TransactionSummary>>)
    ensures transactionsByBeneficiary == TransactionsByBeneficiaryName(ts)
  {
    transactionsByBeneficiary := map[];
    for i := 0 to |ts|
      invariant transactionsByBeneficiary == TransactionsByBeneficiaryName(ts[..i])
    {
      TransactionsByBeneficiaryNameStep(ts, i);
      transactionsByBeneficiary := PutTransaction(transactionsByBeneficiary, ts[i]);
    }
    assert ts[..|ts|] == ts;
  }

  /** The loop body of getTransactionsByBeneficiaryName: `containsKey`, a `put` of a new inner map when it is missing, then a `put` of the summary. */
  method PutTransaction(index: map<string, map<int, TransactionSummary>>, t: Transaction)
    returns (transactionsByBeneficiary: map<string, map<int, TransactionSummary>>)
    ensures transactionsByBeneficiary == PutSummary(index, t)
  {
    transactionsByBeneficiary := index;
    if t.beneficiaryFullName !in transactionsByBeneficiary {
      transactionsByBeneficiary := transactionsByBeneficiary[t.beneficiaryFullName := map[]];
    }
    var transactionMap := Summarize(t);
    transactionsByBeneficiary := transactionsByBeneficiary[t.beneficiaryFullName :=
      transactionsByBeneficiary[t.beneficiaryFullName][t.mtn := transactionMap]];
  }

  method GetUnsolvedIssueIds(ts: seq<Transaction>) returns (unsolvedIssueIds: set<Option<int>>)
    ensures unsolvedIssueIds == UnsolvedIssueIds(ts)
  {
    unsolvedIssueIds := {};
    for i := 0 to |ts|
      invariant unsolvedIssueIds == UnsolvedIssueIds(ts[..i])
    {
      UnsolvedIssueIdsStep(ts, i);
      if !ts[i].issueSolved {
        unsolvedIssueIds := unsolvedIssueIds + {ts[i].issueId};
      }
    }
    assert ts[..|ts|] == ts;
  }

  method GetAllSolvedIssueMessages(ts: seq<Transaction>) returns (allSolvedIssueMessages: seq<string>)
    ensures allSolvedIssueMessages == AllSolvedIssueMessages(ts)
  {
    allSolvedIssueMessages := [];
    for i := 0 to |ts|
      invariant allSolvedIssueMessages == AllSolvedIssueMessages(ts[..i])
    {
      AllSolvedIssueMessagesStep(ts, i);
      if ts[i].issueSolved {
        var issueMessage := ts[i].issueMessage;
        if issueMessage.Some? && issueMessage.value != "" {
          allSolvedIssueMessages := allSolvedIssueMessages + [issueMessage.value];
        }
      }
    }
    assert ts[..|ts|] == ts;
  }

  method GetTop3TransactionsByAmount(ts: seq<Transaction>) returns (top3Transactions: seq<Transaction>)
    ensures top3Transactions == Top3TransactionsByAmount(ts)
  {
    var sortedTransactions := SortByAmountDesc(ts);
    var count := if |sortedTransactions| < 3 then |sortedTransactions| else 3;
    top3Transactions := [];
    for i := 0 to count
      invariant top3Transactions == sortedTransactions[..i]
    {
      top3Transactions := top3Transactions + [sortedTransactions[i]];
    }
  }

  /** The first phase of getTopSender: add each record's amount to its sender's entry, creating it when missing. */
  method FillSenderTotals(ts: seq<Transaction>) returns (senderTotalAmounts: map<string, int>)
    ensures senderTotalAmounts == SenderTotals(ts)
  {
    senderTotalAmounts := map[];
    for i := 0 to |ts|
      invariant senderTotalAmounts == SenderTotals(ts[..i])
    {
      SenderTotalsStep(ts, i);
      senderTotalAmounts := AddToSenderTotal(senderTotalAmounts, ts[i]);
    }
    assert ts[..|ts|] == ts;
  }

  /** The loop body of the first phase: `containsKey`, then `put` of the sum or of the amount alone. */
  method AddToSenderTotal(senderTotalAmounts: map<string, int>, t: Transaction) returns (r: map<string, int>)
    ensures r == AddAmount(senderTotalAmounts, t)
  {
    var sender := t.senderFullName;
    var amount := t.amount;
    if sender in senderTotalAmounts {
      r := senderTotalAmounts[sender := senderTotalAmounts[sender] + amount];
    } else {
      r := senderTotalAmounts[sender := amount];
    }
  }

  /**
    The second phase of getTopSender: `Stream.max` over the entries in iteration
    order `order`, keeping the current entry unless the next total is strictly larger.
   */
  method MaxEntry(senderTotalAmounts: map<string, int>, order: seq<string>) returns (topSender: Option<string>)
    requires forall s :: s in order ==> s in senderTotalAmounts
    ensures topSender == MaxByTotal(senderTotalAmounts, order)
  {
    topSender := None;
    for k := 0 to |order|
      invariant topSender == MaxByTotal(senderTotalAmounts, order[..k])
    {
      assert order[..k + 1][..k] == order[..k];
      var entry := order[k];
      if topSender.None? || senderTotalAmounts[topSender.value] < senderTotalAmounts[entry] {
        topSender := Some(entry);
      }
    }
    assert order[..|order|] == order;
  }

  /** getTopSender: fill the totals map, then reduce its entries in the map's iteration order `order`. */
  method GetTopSender(ts: seq<Transaction>, order: seq<string>) returns (topSender: Option<string>)
    requires forall s :: s in order <==> s in SenderNames(ts)
    ensures topSender == TopSender(ts, order)
  {
    var senderTotalAmounts := FillSenderTotals(ts);
    SenderTotalsAreSums(ts);
    topSender := MaxEntry(senderTotalAmounts, order);
  }
}
