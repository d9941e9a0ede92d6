/**
  Three queries whose code disagrees with their documentation. For each, a
  concrete record sequence shows the as-written query giving the answer the
  documentation rules out, and a corrected query states the documented meaning.
 */
module DocumentedQueries {
  import opened Wrappers
  import opened Transactions
  import opened Fetcher

  /** One record: sender "A" pays beneficiary "B"; an unsolved issue 7 is attached. */
  function PaymentWithUnsolvedIssue(): seq<Transaction>
  {
    [Transaction(1, 100, "A", "B", Some(7), false, Some("check"))]
  }

  // ---------------------------------------------------------------- clients

  /** countUniqueClients as documented: every name that sent or received a transaction. */
  function ClientNames(ts: seq<Transaction>): (r: set<string>)
    ensures forall t :: t in ts ==> t.senderFullName in r && t.beneficiaryFullName in r
    ensures forall s :: s in r ==> exists t :: t in ts && (t.senderFullName == s || t.beneficiaryFullName == s)
    decreases |ts|
  {
    if |ts| == 0 then {}
    else
      var t := ts[|ts| - 1];
      ClientNames(Init(ts)) + {t.senderFullName, t.beneficiaryFullName}
  }

  /** The documented client set holds every sender and at most two names per record. */
  lemma {:induction false} ClientNamesBounds(ts: seq<Transaction>)
    ensures SenderNames(ts) <= ClientNames(ts)
    ensures |ClientNames(ts)| <= 2 * |ts|
    decreases |ts|
  {
    if |ts| > 0 {
      var t := ts[|ts| - 1];
      ClientNamesBounds(Init(ts));
      assert |{t.senderFullName, t.beneficiaryFullName}| <= 2;
    }
  }

  function CountClientsSentOrReceived(ts: seq<Transaction>): (r: nat)
    ensures CountUniqueClients(ts) <= r <= 2 * |ts|
  {
    ClientNamesBounds(ts);
    var senders, clients := SenderNames(ts), ClientNames(ts);
    assert clients == senders + (clients - senders);
    assert senders * (clients - senders) == {};
    |clients|
  }

  /** The documented count is the number of distinct names among all senders and beneficiaries. */
  lemma CountClientsIsClientSetSize(ts: seq<Transaction>)
    ensures CountClientsSentOrReceived(ts) ==
            |(set t | t in ts :: t.senderFullName) + (set t | t in ts :: t.beneficiaryFullName)|
  {
    assert ClientNames(ts) == (set t | t in ts :: t.senderFullName) + (set t | t in ts :: t.beneficiaryFullName);
  }

  /** A record whose beneficiary never sends is not counted: one record, two clients, count 1. */
  lemma UniqueClientsMissesBeneficiaries()
    ensures CountUniqueClients(PaymentWithUnsolvedIssue()) == 1
    ensures CountClientsSentOrReceived(PaymentWithUnsolvedIssue()) == 2
  {
    var ts := PaymentWithUnsolvedIssue();
    assert Init(ts) == [];
    assert SenderNames(ts) == {"A"};
    assert ClientNames(ts) == {"A", "B"};
    assert "A" != "B";
  }

  // ---------------------------------------------------------------- open compliance issues

  /** hasOpenComplianceIssues as documented: the client sent or received a record with an issue not yet solved. */
  function HasUnsolvedComplianceIssues(ts: seq<Transaction>, client: string): (r: bool)
    ensures r <==> exists t :: t in ts && (t.senderFullName == client || t.beneficiaryFullName == client) &&
                               t.issueId.Some? && !t.issueSolved
    decreases |ts|
  {
    if |ts| == 0 then false
    else
      var t := ts[0];
      assert ts == [t] + ts[1..];
      if (t.senderFullName == client || t.beneficiaryFullName == client) && t.issueId.Some? && !t.issueSolved then true
      else HasUnsolvedComplianceIssues(ts[1..], client)
  }

  /** The beneficiary of an unsolved issue gets false from the code, true from the documented test. */
  lemma OpenIssueCheckIsInverted()
    ensures !HasOpenComplianceIssues(PaymentWithUnsolvedIssue(), "B")
    ensures HasUnsolvedComplianceIssues(PaymentWithUnsolvedIssue(), "B")
  {
    var ts := PaymentWithUnsolvedIssue();
    assert ts[0] in ts;
  }

  // ---------------------------------------------------------------- unsolved issue ids

  /** getUnsolvedIssueIds as documented: the ids of open issues, records without an issue ignored. */
  function OpenIssueIds(ts: seq<Transaction>): (r: set<int>)
    ensures forall t :: t in ts && !t.issueSolved && t.issueId.Some? ==> t.issueId.value in r
    ensures forall id :: id in r ==> exists t :: t in ts && !t.issueSolved && t.issueId == Some(id)
    decreases |ts|
  {
    if |ts| == 0 then {}
    else
      var t := ts[|ts| - 1];
      OpenIssueIds(Init(ts)) + (if !t.issueSolved && t.issueId.Some? then {t.issueId.value} else {})
  }

  /** The corrected ids are exactly the present ids among the as-written ones. */
  lemma OpenIssueIdsArePresentUnsolvedIds(ts: seq<Transaction>)
    ensures forall id :: id in OpenIssueIds(ts) <==> Some(id) in UnsolvedIssueIds(ts)
  {
    forall id | Some(id) in UnsolvedIssueIds(ts)
      ensures id in OpenIssueIds(ts)
    {
      var t :| t in ts && !t.issueSolved && t.issueId == Some(id);
    }
  }

  /** A record with no issue and issueSolved false puts the absent id into the as-written result. */
  lemma UnsolvedIdsAdmitAbsentId()
    ensures var ts := [Transaction(2, 50, "A", "B", None, false, None)];
            None in UnsolvedIssueIds(ts) && OpenIssueIds(ts) == {}
  {
    var ts := [Transaction(2, 50, "A", "B", None, false, None)];
    assert ts[0] in ts;
    assert Init(ts) == [];
  }
}
