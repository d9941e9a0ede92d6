# Transaction queries — a Dafny model

This project models the query layer of `TransactionDataFetcher`, the class of the
`coding_test` repository that answers ten read-only aggregate queries over an
ordered sequence of financial `Transaction` records loaded from a JSON file:
total amount, total sent by a client (case-insensitive), largest amount, number
of distinct clients, open-compliance-issue test, transactions grouped by
beneficiary and mtn, unsolved issue ids, solved issue messages, top three
transactions by amount, and top sender.

Layout:

- `wrappers.dfy` — `Option`, standing in for Java's nullable values and `Optional`.
- `case_fold.dfy` — `String.equalsIgnoreCase` on ASCII letters, proved to be equality after lowering and an equivalence relation.
- `transactions.dfy` — the `Transaction` record and the `TransactionSummary` the grouping query stores.
- `stable_sort.dfy` — a stable sort by amount, largest first, and the proof that a stable sort has exactly one result.
- `fetcher.dfy` — the ten queries as pure functions, folding over the records in sequence order.
- `fetcher_loops.dfy` — the Java for-each loops as methods, each proved to compute its query.
- `fetcher_lemmas.dfy` — properties relating the queries to reference definitions.
- `documented_queries.dfy` — three documentation/code mismatches, each with a counterexample and a corrected query.

The queries are modelled as the code behaves, including three places where the
code does not do what its comment says (see "## Findings"). A record set that
failed to load (the array left null, every query's loop then failing and its
`catch` returning the initial value) is the empty sequence. Amounts are exact
integers. The Java code does not check that amounts are non-negative, so the
model accepts any integer and uses non-negativity only as a hypothesis where a
bound depends on it.

## Model

| member | source | states |
|---|---|---|
| CaseFold.EqualsIgnoreCase | coding_test/src/main/java/com/smallworld/TransactionDataFetcher.java:76 | the `equalsIgnoreCase` test (same length, per-character match) holds exactly when the two names' lower-cased forms are equal |
| CaseFold.EqualsIgnoreCaseIsEquivalence | coding_test/src/main/java/com/smallworld/TransactionDataFetcher.java:76 | matching ignoring case is reflexive, symmetric and transitive |
| Fetcher.TotalTransactionAmount | coding_test/src/main/java/com/smallworld/TransactionDataFetcher.java:54-65 | the total is 0 for no records; with non-negative amounts it is non-negative and no record's amount exceeds it |
| FetcherLemmas.TotalTransactionAmountAppend | coding_test/src/main/java/com/smallworld/TransactionDataFetcher.java:54-65 | the total of two record runs placed end to end is the sum of their totals |
| FetcherLoops.GetTotalTransactionAmount | coding_test/src/main/java/com/smallworld/TransactionDataFetcher.java:54-65 | the accumulating loop returns the total of all records |
| Fetcher.TotalTransactionAmountSentBy | coding_test/src/main/java/com/smallworld/TransactionDataFetcher.java:71-85 | 0 when no sender matches the name ignoring case; with non-negative amounts it lies between 0 and the overall total |
| Fetcher.RecordsSentBy | coding_test/src/main/java/com/smallworld/TransactionDataFetcher.java:75-79 | keeps exactly the records whose sender matches the name ignoring case, each as often as it occurs in the input, and drops every other record |
| FetcherLemmas.RecordsSentBySnoc | coding_test/src/main/java/com/smallworld/TransactionDataFetcher.java:75-79 | one more record at the end of the run is appended to the filter exactly when its sender matches |
| FetcherLemmas.RecordsSentByAppend | coding_test/src/main/java/com/smallworld/TransactionDataFetcher.java:75-79 | the filter of two runs end to end is the first run's filter followed by the second's, so record order is kept |
| FetcherLemmas.SentByIsTotalOfSenderRecords | coding_test/src/main/java/com/smallworld/TransactionDataFetcher.java:71-85 | the sent-by total is the total over exactly the records whose sender matches ignoring case |
| FetcherLemmas.SentByIgnoresCase | coding_test/src/main/java/com/smallworld/TransactionDataFetcher.java:76 | two names that match ignoring case ("tom shelby", "Tom Shelby") give the same sent-by total |
| FetcherLoops.GetTotalTransactionAmountSentBy | coding_test/src/main/java/com/smallworld/TransactionDataFetcher.java:71-85 | the filtering loop returns the sent-by total |
| Fetcher.MaxTransactionAmount | coding_test/src/main/java/com/smallworld/TransactionDataFetcher.java:90-109 | the result is at least 0 and at least every amount, and is either 0 or some record's amount: the largest amount floored at 0 |
| FetcherLoops.GetMaxTransactionAmount | coding_test/src/main/java/com/smallworld/TransactionDataFetcher.java:90-109 | the strict-greater update loop started at 0 returns that floored maximum |
| Fetcher.SenderNames | coding_test/src/main/java/com/smallworld/TransactionDataFetcher.java:116-124 | the set holds exactly the sender names of the records and has at most one name per record |
| Fetcher.CountUniqueClients | coding_test/src/main/java/com/smallworld/TransactionDataFetcher.java:114-131 | the count is at most the number of records and at least 1 when there is a record |
| FetcherLemmas.CountUniqueClientsIsSenderSetSize | coding_test/src/main/java/com/smallworld/TransactionDataFetcher.java:114-131 | the count is the number of distinct sender names |
| FetcherLemmas.CountUniqueClientsIgnoresBeneficiaries | coding_test/src/main/java/com/smallworld/TransactionDataFetcher.java:120-124 | record sequences with the same senders position by position have the same count, whatever their beneficiaries |
| FetcherLoops.CollectSenderNames | coding_test/src/main/java/com/smallworld/TransactionDataFetcher.java:116-124 | the loop adding every record's sender name to a set yields exactly the sender names |
| FetcherLoops.CountUniqueClientsLoop | coding_test/src/main/java/com/smallworld/TransactionDataFetcher.java:114-131 | the set-filling loop returns that count |
| Fetcher.HasOpenComplianceIssues | coding_test/src/main/java/com/smallworld/TransactionDataFetcher.java:137-157 | true exactly when some record has this beneficiary, compared exactly, and a solved issue |
| FetcherLoops.HasOpenComplianceIssuesLoop | coding_test/src/main/java/com/smallworld/TransactionDataFetcher.java:137-157 | the loop that returns at the first match gives the same answer |
| Fetcher.TransactionsByBeneficiaryName | coding_test/src/main/java/com/smallworld/TransactionDataFetcher.java:162-191 | empty exactly for no records; the last record's summary sits at its beneficiary and mtn; no beneficiary maps to an empty inner map |
| Fetcher.PutSummary | coding_test/src/main/java/com/smallworld/TransactionDataFetcher.java:173-183 | the beneficiary becomes a key if it was not one; its inner map gains the mtn with the record's summary; every other mtn of that beneficiary and every other beneficiary's map are unchanged |
| Fetcher.GroupingKeysComeFromRecords | coding_test/src/main/java/com/smallworld/TransactionDataFetcher.java:162-191 | every record has an entry at its beneficiary and mtn, and every key comes from some record |
| FetcherLemmas.GroupingOuterKeys | coding_test/src/main/java/com/smallworld/TransactionDataFetcher.java:169-177 | the outer keys are exactly the beneficiary names |
| FetcherLemmas.GroupingInnerKeys | coding_test/src/main/java/com/smallworld/TransactionDataFetcher.java:169-183 | the inner keys of a beneficiary are exactly the mtns of the records naming it |
| FetcherLemmas.LastRecordWins | coding_test/src/main/java/com/smallworld/TransactionDataFetcher.java:179-183 | the entry at a beneficiary and mtn holds the mtn, amount and sender of the last record with that pair |
| FetcherLoops.GetTransactionsByBeneficiaryName | coding_test/src/main/java/com/smallworld/TransactionDataFetcher.java:162-191 | the containsKey/put loop builds that grouping |
| FetcherLoops.PutTransaction | coding_test/src/main/java/com/smallworld/TransactionDataFetcher.java:171-183 | one loop iteration (create the inner map when missing, then put the summary) performs that store |
| Fetcher.UnsolvedIssueIds | coding_test/src/main/java/com/smallworld/TransactionDataFetcher.java:196-214 | the set holds the issue id, absent ones included, of exactly the unsolved records, duplicates collapsed |
| FetcherLemmas.UnsolvedIssueIdsIsComprehension | coding_test/src/main/java/com/smallworld/TransactionDataFetcher.java:202-206 | the set equals the set of ids of unsolved records |
| FetcherLoops.GetUnsolvedIssueIds | coding_test/src/main/java/com/smallworld/TransactionDataFetcher.java:196-214 | the set-filling loop returns that set |
| Fetcher.AllSolvedIssueMessages | coding_test/src/main/java/com/smallworld/TransactionDataFetcher.java:219-239 | a message is listed exactly when some solved record carries it non-empty; the list is no longer than the records |
| FetcherLemmas.AllSolvedIssueMessagesAppend | coding_test/src/main/java/com/smallworld/TransactionDataFetcher.java:225-233 | the messages of two record runs end to end are the first run's messages followed by the second's, so record order is kept |
| FetcherLemmas.AllSolvedIssueMessagesOfOne | coding_test/src/main/java/com/smallworld/TransactionDataFetcher.java:227-231 | a single record contributes its message exactly when it is solved with a present, non-empty message |
| FetcherLoops.GetAllSolvedIssueMessages | coding_test/src/main/java/com/smallworld/TransactionDataFetcher.java:219-239 | the appending loop returns that list |
| StableSort.SortByAmountDesc | coding_test/src/main/java/com/smallworld/TransactionDataFetcher.java:250-252 | the result is ordered by amount, largest first, is a permutation of the input, and keeps equal amounts in input order |
| StableSort.Insert | coding_test/src/main/java/com/smallworld/TransactionDataFetcher.java:252 | the result holds the input's records plus the inserted one, each as often as before |
| StableSort.InsertKeepsSorted | coding_test/src/main/java/com/smallworld/TransactionDataFetcher.java:252 | inserting a record into an amount-ordered sequence keeps it ordered |
| StableSort.InsertIsStable | coding_test/src/main/java/com/smallworld/TransactionDataFetcher.java:252 | an inserted record comes before the records of equal amount already present |
| StableSort.AmountSliceAppend | coding_test/src/main/java/com/smallworld/TransactionDataFetcher.java:252 | the records of one amount in a concatenation are those of the first part followed by those of the second |
| StableSort.StableSortIsUnique | coding_test/src/main/java/com/smallworld/TransactionDataFetcher.java:252 | two amount-ordered sequences that keep every amount's records in the same order are equal |
| Fetcher.Top3TransactionsByAmount | coding_test/src/main/java/com/smallworld/TransactionDataFetcher.java:244-264 | min(n, 3) records, ordered by amount largest first, drawn from the input, none left out larger than the last one kept, equal amounts in input order |
| Fetcher.SortedPrefixIsTop | coding_test/src/main/java/com/smallworld/TransactionDataFetcher.java:254-258 | the records after a prefix of an ordered sequence are no larger than the prefix's last record |
| Fetcher.PrefixSlicesArePrefixes | coding_test/src/main/java/com/smallworld/TransactionDataFetcher.java:254-258 | taking a prefix keeps, for each amount, a prefix of that amount's records |
| FetcherLemmas.Top3OfAnyStableSort | coding_test/src/main/java/com/smallworld/TransactionDataFetcher.java:250-258 | any stable largest-first sort gives the same first three records, so the sorting algorithm does not matter |
| FetcherLoops.GetTop3TransactionsByAmount | coding_test/src/main/java/com/smallworld/TransactionDataFetcher.java:244-264 | sorting then copying the first min(n, 3) records returns that selection |
| Fetcher.SenderTotal | coding_test/src/main/java/com/smallworld/TransactionDataFetcher.java:276-284 | a name no record was sent by totals 0; with non-negative amounts every total is non-negative |
| Fetcher.AddAmount | coding_test/src/main/java/com/smallworld/TransactionDataFetcher.java:279-283 | the sender becomes a key if it was not one; its entry grows by the amount, starting from 0 when missing; every other entry is unchanged |
| Fetcher.SenderTotals | coding_test/src/main/java/com/smallworld/TransactionDataFetcher.java:272-284 | the totals map has an entry for exactly the names that send |
| Fetcher.SenderTotalsAreSums | coding_test/src/main/java/com/smallworld/TransactionDataFetcher.java:272-284 | each entry of the totals map holds its sender's exact-name total |
| Fetcher.MaxByTotal | coding_test/src/main/java/com/smallworld/TransactionDataFetcher.java:286 | absent only for no entries; otherwise an entry with the largest total, and the first such in iteration order |
| Fetcher.TopSender | coding_test/src/main/java/com/smallworld/TransactionDataFetcher.java:270-299 | absent exactly when there are no records; otherwise a sender whose total is at least every sender's total, and no sender before it in iteration order has as large a total |
| FetcherLoops.AddToSenderTotal | coding_test/src/main/java/com/smallworld/TransactionDataFetcher.java:277-283 | one loop iteration (containsKey, then put of the sum or of the amount) performs that step |
| FetcherLoops.FillSenderTotals | coding_test/src/main/java/com/smallworld/TransactionDataFetcher.java:272-284 | the map-filling loop builds the totals map |
| FetcherLoops.MaxEntry | coding_test/src/main/java/com/smallworld/TransactionDataFetcher.java:286 | the strict-greater reduction over the entries in iteration order returns the first entry with the largest total |
| FetcherLoops.GetTopSender | coding_test/src/main/java/com/smallworld/TransactionDataFetcher.java:270-299 | the map-filling loop followed by the max reduction returns that sender |
| FetcherLemmas.TopSenderFirstSeen | coding_test/src/main/java/com/smallworld/TransactionDataFetcher.java:270-299 | under first-seen iteration order: absent exactly for no records, otherwise a sender of some record whose total is at least every record's sender's total, and no sender seen earlier has as large a total |
| FetcherLemmas.TopSenderExample | coding_test/src/main/java/com/smallworld/TransactionDataFetcher.java:270-299 | A 10, B 20, A 15 yields A |
| FetcherLemmas.EmptyRecordsGiveDefaults | coding_test/src/main/java/com/smallworld/TransactionDataFetcher.java:27-38 | with no records loaded every query returns its zero, empty or absent value |
| DocumentedQueries.UniqueClientsMissesBeneficiaries | coding_test/src/main/java/com/smallworld/TransactionDataFetcher.java:111-131 | one record from A to B counts 1 client as written and 2 as documented |
| DocumentedQueries.CountClientsSentOrReceived | coding_test/src/main/java/com/smallworld/TransactionDataFetcher.java:111-131 | the documented count: at least the sender count and at most two per record |
| DocumentedQueries.CountClientsIsClientSetSize | coding_test/src/main/java/com/smallworld/TransactionDataFetcher.java:111-112 | the documented count is the number of distinct names that sent or received a record |
| DocumentedQueries.ClientNames | coding_test/src/main/java/com/smallworld/TransactionDataFetcher.java:111-112 | exactly the names that sent or received a record |
| DocumentedQueries.ClientNamesBounds | coding_test/src/main/java/com/smallworld/TransactionDataFetcher.java:111-112 | the client names include every sender name and number at most two per record |
| DocumentedQueries.OpenIssueCheckIsInverted | coding_test/src/main/java/com/smallworld/TransactionDataFetcher.java:133-157 | the beneficiary of an unsolved issue gets false as written and true as documented |
| DocumentedQueries.HasUnsolvedComplianceIssues | coding_test/src/main/java/com/smallworld/TransactionDataFetcher.java:133-135 | true exactly when the client sent or received a record with an issue id that is not solved |
| DocumentedQueries.UnsolvedIdsAdmitAbsentId | coding_test/src/main/java/com/smallworld/TransactionDataFetcher.java:202-206 | a record with no issue and issueSolved false puts the absent id into the as-written set |
| DocumentedQueries.OpenIssueIds | coding_test/src/main/java/com/smallworld/TransactionDataFetcher.java:193-214 | exactly the present ids of unsolved records |
| DocumentedQueries.OpenIssueIdsArePresentUnsolvedIds | coding_test/src/main/java/com/smallworld/TransactionDataFetcher.java:193-214 | the corrected ids are exactly the present ids in the as-written set |

## Left out

- Loading: the constructor, `getTransactions`, the Gson parse and the fixed file path are I/O and a foreign library; a failed load is the empty record sequence.
- `main` and every `System.out`/`System.err` line are presentation and logging only.
- Null fields: names are assumed non-null, and null messages and ids are `Option`. With a null name the Java code behaves in three ways that are not modelled. A null sender dereferenced by `equalsIgnoreCase` (line 76) or a null beneficiary dereferenced by `equals` (line 143) throws, and the `catch` returns the partial result. A null sender is added to the `HashSet` at line 122 and counted as a client, and a null beneficiary becomes a `HashMap` null key at lines 171-175; these two outcomes are outside the model. A null message is handled by the check at line 229. `Optional.of` at line 291 throws on a null top sender name.
- Null query arguments: the model's name parameters are plain strings and cannot be null. In Java, `equalsIgnoreCase(null)` at line 76 is false, so `getTotalTransactionAmountSentBy(null)` returns 0, and `equals(null)` at line 143 is false, so `hasOpenComplianceIssues(null)` returns false. These two calls are outside the model.
- The `Transaction` class is not part of this model. Whether `getAmount` and `isIssueSolved` return primitives or boxed values, and so whether an absent amount or flag could throw, is not modelled: both are plain values here.
- Floating point: `double` sums and comparisons are exact integer arithmetic, so IEEE rounding is not modelled.
- `senderAge` and `beneficiaryAge` are not fields of the record, since no query reads them.
- The inner grouping map is keyed by the integer mtn rather than its decimal string; the conversion is injective, so the keys correspond one to one. The summary is a typed record instead of a `Map<String, Object>`.
- Fetcher.TopSender: HashMap iteration order is unspecified, so it is a parameter `order` (any enumeration of the sender names). The contract promises the first sender in `order` with the largest total, and `FetcherLemmas.TopSenderFirstSeen` instantiates `order` with first-seen order; which sender Java returns on a tie depends on the real hash order, which is not modelled.
- `equalsIgnoreCase` folds only the ASCII letters; full Unicode case mapping is not modelled.
- Top three: `Collections.sort` (TimSort) is replaced by a stable insertion sort; `FetcherLemmas.Top3OfAnyStableSort` shows every stable sort gives the same result.

## Findings

| source | as written | input that shows it | evidently intended | confidence | as-written member | corrected member |
|---|---|---|---|---|---|---|
| coding_test/src/main/java/com/smallworld/TransactionDataFetcher.java:111-131 | only sender names are added to the set | one record from "A" to "B" counts 1 | count every client that sent or received, here 2 | high, not executed | DocumentedQueries.UniqueClientsMissesBeneficiaries | DocumentedQueries.CountClientsSentOrReceived |
| coding_test/src/main/java/com/smallworld/TransactionDataFetcher.java:133-157 | tests `isIssueSolved()` true, and only the beneficiary name | that record with issue 7 unsolved gives false for "B" | true when the client, as sender or beneficiary, has an issue not yet solved | high, not executed | DocumentedQueries.OpenIssueCheckIsInverted | DocumentedQueries.HasUnsolvedComplianceIssues |
| coding_test/src/main/java/com/smallworld/TransactionDataFetcher.java:193-214 | adds `getIssueId()` even when it is null | a record with no issue and issueSolved false adds null | only ids of records that have an open issue | medium, not executed | DocumentedQueries.UnsolvedIdsAdmitAbsentId | DocumentedQueries.OpenIssueIds |
