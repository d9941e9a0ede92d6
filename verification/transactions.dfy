/** The transaction record the queries read, and the summary the grouping query stores. */
module Transactions {
  import opened Wrappers

  /**
    One transfer. `amount` is exact (minor currency units). `issueId` and
    `issueMessage` are absent when the JSON field is null; `issueSolved` is
    carried as given, with no check against `issueId`.
   */
  datatype Transaction = Transaction(
    mtn: int,
    amount: int,
    senderFullName: string,
    beneficiaryFullName: string,
    issueId: Option<int>,
    issueSolved: bool,
    issueMessage: Option<string>)

  /** The inner value of the grouping query: mtn, amount and sender of one record. */
  datatype TransactionSummary = TransactionSummary(mtn: int, amount: int, senderFullName: string)

  function Summarize(t: Transaction): TransactionSummary
  {
    TransactionSummary(t.mtn, t.amount, t.senderFullName)
  }

  predicate AllAmountsNonNegative(ts: seq<Transaction>)
  {
    forall t :: t in ts ==> 0 <= t.amount
  }

  /** `ts` with its last record removed: the records a loop has seen before the last one. */
  function Init(ts: seq<Transaction>): (r: seq<Transaction>)
    requires |ts| > 0
    ensures |r| == |ts| - 1
    ensures ts == r + [ts[|ts| - 1]]
  {
    ts[..|ts| - 1]
  }

  /** The prefix of `i + 1` records is the prefix of `i` records followed by record `i`. */
  lemma PrefixInit(ts: seq<Transaction>, i: int)
    requires 0 <= i < |ts|
    ensures Init(ts[..i + 1]) == ts[..i]
    ensures ts[..i + 1][i] == ts[i]
  {
  }
}
