# HeliosDB-Nano: verified models

A Dafny 4.11 project that models eight parts of HeliosDB-Nano and proves what they do on every input,
run or reachable state. `dafny verify dfyconfig.toml` checks all of it.

| files | part of the system |
|---|---|
| `JsonDocument`, `JsonSet`, `JsonDelete`, `JsonContains`, `JsonFunctions`, `SqlValues`, `Decimal` | the JSON document algebra of the expression evaluator: `jsonb_set`, `jsonb_delete`, `jsonb_concat`, `@>`, and the three path navigators |
| `Evaluator`, `Predicates` | expression evaluation, 32-bit arithmetic, AND/OR/NOT under the evaluator, under the selectivity estimate and under SQL's three-valued logic |
| `ProductQuantization` | the product quantizer, over the reals and with squared distances |
| `OfflineReseed`, `OfflineReseedLock`, `OfflineReseedProgress` | the offline reseed script as a state machine over three trees (source, staging directory, target) with interfering processes, failures, crashes and power loss |
| `OfflineReseedDisk`, `OfflineReseedHost`, `OfflineReseedRuns` | the same script on one disk with absolute paths, inodes, hard links and symbolic links, which refines that machine; the checks of its arguments |
| `ForeignKeys` | the foreign-key validator, its validation stack, and referential integrity over runs |
| `PlanVersions`, `PlanDiff` | the plan version store and the recursive plan diff |
| `Wire` | PostgreSQL message framing over a chunked stream, the DataRow decoder and the loop that drains a reply |
| `ExplainCache` | the TTL cache and metrics in front of the EXPLAIN planner, under interleaved calls |

Code that updates things in place is a method or a class, proved against a function; the laws are
lemmas about that function. Where a law fails, the lemma says exactly when it holds (names ending in
`Exactly`).

What the proofs bring out about the code:

- Without create_missing, `jsonb_set` still pads short arrays and still inserts a missing last key.
  Sets at diverging paths always commute then; with create_missing they commute only if the paths
  part at two indices or at two keys.
- `jsonb_set` reads a text that parses as `usize` (also `"+7"` and `"007"`) as an array index, while
  `jsonb_extract_path` reads it as a key; a negative Int4 is a key to the one and counts from the end
  to the other. `ExtractAfterSetExactly` is the resulting condition.
- A failed lookup in `validate_insert` leaves the table on `validation_stack`. A table that refers
  only to itself can then never again take a NULL-free row (`LockedOutForever`).
- The 102nd stored version of a query repeats the id of the 101st. From then on lookup by id and the
  timeline answer from the oldest retained version with that id (`LookupLands`, `TimelineSumExactly`).
- NOT over a NULL leaf keeps rows SQL would not keep. A form of predicate agrees with SQL on all rows,
  whatever columns it is used on, only if every leaf is under an even number of NOTs.
- `encode` stores centroid numbers in a byte, so it is optimal for every codebook only up to 256 centroids.
- The error counter of the EXPLAIN service is never advanced, however many planner calls fail.
- A source directory that has a directory named like the metadata file can never be reseeded.
- Each of four precautions of the reseed script is indispensable: the refusal of nested arguments and
  of symbolic links on their paths for the source (`SourceSafeExactly`), the refusal of hard links and
  the skipping of LOCK for the record lock (`LockHeldExactly`). Of the nesting check only the case of
  a target inside the source can come up (`NestedMeansInside`).

## Model

| member | source | states |
|---|---|---|
| JsonSet.SetRecursive | sql/evaluator.rs:833-891 | the recursive in-place walk computes `SetAt`, the function all set laws are about |
| JsonSet.ExtendArray | sql/evaluator.rs:857-859 | the padding loop grows the array with nulls to exactly index + 1 elements, and leaves a longer array alone |
| JsonSet.GetAfterSet | sql/evaluator.rs:833-891 | the value set is found at its path if and only if create_missing is on or the parent is already there with the right kind; otherwise nothing is found there |
| JsonSet.SetTwice | sql/evaluator.rs:833-891 | in both modes, for every document and path, the last set at a path wins |
| JsonSet.SetPresent | sql/evaluator.rs:833-891 | setting the value already reachable at a path changes nothing |
| JsonSet.SetsCommuteExactly | sql/evaluator.rs:833-891 | sets at two diverging paths commute if and only if create_missing is off or the paths part at steps of the same kind |
| JsonSet.SetFrame | sql/evaluator.rs:833-891 | a value reachable at a diverging path survives a set under exactly that condition; where nothing was reachable, null appears exactly when the path ends in the padding of the array the set extends, and otherwise there is still nothing |
| JsonDelete.DeleteRecursive | sql/evaluator.rs:978-1014 | the recursive in-place deletion computes `DeleteAt` |
| JsonDelete.GetAfterDelete | sql/evaluator.rs:978-1014 | after a delete every path through the parent finds exactly what was at its origin (array elements shifted by one, the deleted key gone), and paths that leave earlier find what they found before |
| JsonDelete.DeleteUndoesSetExactly | sql/evaluator.rs:833-1014 | deleting the path just set restores the document if and only if the set filled a fresh slot of an existing parent, or without create_missing could neither reach the parent nor pad |
| JsonDelete.ContainsDeleted | sql/evaluator.rs:978-1014 | every document contains what any deletion leaves of it |
| JsonDelete.ConcatInPlace | sql/evaluator.rs:917-932 | inserting the right operand's fields one by one, in any order, computes the merge `Concat` |
| JsonDelete.ConcatContainsRight | sql/evaluator.rs:917-932 | every concatenation contains its right operand |
| JsonDelete.ConcatChild | sql/evaluator.rs:917-932 | element by element and key by key what a concatenation holds: left elements then right ones, right fields over left ones, and the right operand alone unless both are containers of one kind |
| JsonDelete.ConcatAssociatesExactly | sql/evaluator.rs:917-932 | concatenation associates unless two containers of one kind surround something else and the right one lacks something of the left one |
| JsonContains.ShortcutOnlyForScalars | sql/evaluator.rs:2311-2335 | the equality shortcut changes no answer: the purely structural recursion decides the same relation |
| JsonContains.ContainsTransitive | sql/evaluator.rs:2311-2335 | containment is transitive on all documents |
| JsonContains.AntisymmetryExactly | sql/evaluator.rs:2311-2335 | containment both ways forces equality for a document if and only if all its arrays are empty, array-free documents in particular |
| JsonContains.ContainsExactly | sql/evaluator.rs:2311-2335 | an array-free document is contained if and only if the other has something at each of its paths, an object for an object and the same value for a scalar |
| JsonContains.ScalarArraysExactly | sql/evaluator.rs:2326-2330 | between arrays of scalars containment is inclusion of the elements |
| JsonFunctions.ExtractPathLoop | sql/evaluator.rs:330-380 | the cursor loop with its early returns computes `ExtractFrom`, missing steps as NULL and bad path elements as errors |
| JsonFunctions.ExtractComposes | sql/evaluator.rs:330-380 | extracting along p and then q from the answer is extracting along p followed by q, NULL and errors included |
| JsonFunctions.ChainAgreesWithExtract | sql/evaluator.rs:1771-1843 | a chain of `->` that does not fail gives what jsonb_extract_path gives; where it fails extraction is NULL or fails too |
| JsonFunctions.ChainFailsExactly | sql/evaluator.rs:1771-1843 | a chain of `->` fails if and only if some prefix of it finds a document of the wrong kind for the next key |
| JsonFunctions.NegativeCountsFromEnd | sql/evaluator.rs:356-362 | below 2^31 elements, index -n is element len - n, or NULL before the first |
| JsonFunctions.ExtractAfterSetExactly | sql/evaluator.rs:764-891 | extracting along the path just set gives the new value if and only if every path element is a non-negative Int4 or a text that does not read as an index |
| JsonFunctions.DeleteAfterSetExactly | sql/evaluator.rs:939-974 | the same condition for delete after set, stated for the SQL functions and their argument checks |
| JsonFunctions.SetAtNamedPlace | sql/evaluator.rs:764-891 | for a path of any length given as numbers, spelled numbers and keys, the new value is at the place those name if and only if create_missing is on or the parent is there, and every place reached by a path that leaves earlier is as it was, under the condition of `SetFrame` |
| JsonFunctions.DeleteAtNamedPlace | sql/evaluator.rs:939-1014 | `jsonb_delete` drops exactly the place the path names: elements behind it move down by one, all else is as it was |
| JsonFunctions.IndexNamesElement | sql/evaluator.rs:849-863 | in an array, n as Int4, Int8 or text in any spelling is element n counted from 0: set there, with nulls before it where the array was shorter, and removed there |
| JsonFunctions.NewValueForms | sql/evaluator.rs:809-822 | NULL, booleans, integers, text and JSON as new values are the JSON values of the same name |
| JsonFunctions.CreatesByDefault | sql/evaluator.rs:782-789 | only a boolean false as fourth argument turns create_missing off |
| JsonFunctions.JsonbConcatAssociatesExactly | sql/evaluator.rs:895-935 | when jsonb_concat associates on JSON-or-NULL operands, exactly |
| JsonFunctions.PathQuery | sql/evaluator.rs:581-610 | the loop over trimmed dot components finds exactly what navigating the steps of the path text finds |
| JsonFunctions.QueryPathRoundTrip | sql/evaluator.rs:582-607 | joining well-formed components with dots and reading the text gives the same steps back |
| JsonFunctions.PathQueryIsExtraction | sql/evaluator.rs:554-611 | jsonb_path_query on dot-joined well-formed components equals jsonb_extract_path along them |
| Decimal.ParseRender | sql/evaluator.rs:849 | a printed index below 2^64 reads back as itself |
| Decimal.ParseNegative | sql/evaluator.rs:796 | a printed negative number never reads as an index |
| Decimal.ParseExactly | sql/evaluator.rs:849 | a text reads as index n if and only if n is below 2^64 and the text is its decimal digits, with any leading zeros and at most one plus sign |
| Evaluator.LiteralOnlyIsConstant | sql/evaluator.rs:70-213 | an expression of literals that reads no clock has one value in all contexts and on all tuples |
| Evaluator.FoldingPreservesEvaluation | sql/evaluator.rs:70-326 | replacing any successful literal-only subexpressions by their values preserves value or failure on every tuple |
| Evaluator.InliningPreservesEvaluation | sql/evaluator.rs:74-93 | inlining supplied parameters preserves value or failure, also for an evaluator that has no parameters left |
| Evaluator.ProductFits | sql/evaluator.rs:1540-1543 | the i64 product of two Int4 values never overflows |
| Evaluator.TruncationDistributes | sql/evaluator.rs:1392-1395 | for every tree of +, - and * over Int4 leaves, truncating at each node equals truncating the exact result once |
| Evaluator.ArrowChainIsExtractPath | sql/evaluator.rs:1132 | as expressions, a chain of `->` operators that evaluates gives what the jsonb_extract_path call gives |
| Evaluator.ContainsDeletedEvaluates | sql/evaluator.rs:1134-1135 | as expressions, `d @> jsonb_delete(d, path)` and `jsonb_delete(d, path) <@ d` are true for all JSON expressions and readable paths |
| Evaluator.ConcatContainsEvaluates | sql/evaluator.rs:1134-1135 | `jsonb_concat(a, b) @> b` and `b <@ jsonb_concat(a, b)` are true for all JSON expressions |
| Evaluator.NullContainment | sql/evaluator.rs:1847-1859 | NULL contains nothing, not even NULL, and every document contains NULL |
| Evaluator.ExtractAfterSetEvaluates | sql/evaluator.rs:214-326 | the call of jsonb_extract_path on the call of jsonb_set gives the new value, for every document, value and path both read alike |
| Evaluator.NullTests | sql/evaluator.rs:123-128 | IS NULL is true exactly of NULL, and exactly one of IS NULL and IS NOT NULL is true of any value |
| Evaluator.SubscriptsCountFromOne | sql/evaluator.rs:2246-2276 | array subscripts count from 1, whatever their integer type, and find NULL outside the array |
| Evaluator.RowsRead | sql/evaluator.rs:74-197 | $n is the n-th parameter counted from 1; a column reads the tuple, NEW the new row and OLD the old row of the trigger |
| Predicates.PushNotReachesLeaves | sql/evaluator.rs:1097-1106 | pushed down, NOT stands only on leaves |
| Predicates.PushNotKeepsTruth | sql/evaluator.rs:1097-1158 | pushing NOT to the leaves keeps the truth value or error on every row, NULL leaves included |
| Predicates.PushNotKeepsSelectivity | sql/explain.rs:1148-1192 | and keeps the selectivity estimate, for any statistics |
| Predicates.SelectivityIsFraction | sql/explain.rs:1148-1210 | every estimate is in [0, 1] if the column estimates are |
| Predicates.EstimatesAreOrdered | sql/explain.rs:1168-1179 | an AND is estimated no higher and an OR no lower than either operand |
| Predicates.SelectivityIsProbability | sql/explain.rs:1148-1192 | for every predicate that mentions each leaf once, the estimate is the probability that the predicate is true, summed over the valuations of the leaves, when these are independent with their own estimates |
| Predicates.LeafEstimates | sql/explain.rs:1154-1203 | which column statistic a comparison and a NULL test are estimated from |
| Predicates.KeepsIsTruth | sql/evaluator.rs:1631-1640 | the two-valued reading compared with SQL below is what the evaluator answers |
| Predicates.AgreesWhenKnown | sql/evaluator.rs:1097-1158 | for every predicate the evaluator agrees with three-valued logic (section 6.34 of ISO/IEC 9075-2:2003) whenever that is not Unknown |
| Predicates.RowAgrees | sql/evaluator.rs:1097-1158 | row by row, for every predicate: if no leaf is NULL under an odd number of NOTs, the row is kept exactly if SQL keeps it |
| Predicates.EvenPredicatesAgree | sql/evaluator.rs:1097-1158 | if every leaf is under an even number of NOTs, exactly SQL's rows are kept |
| Predicates.NotFreeIsEven | sql/evaluator.rs:1097-1106 | which covers all NOT-free predicates |
| Predicates.FormAgreesExactly | sql/evaluator.rs:1097-1158 | for every predicate: exactly SQL's rows are kept on all rows, whatever columns the leaves mention and repeat, if and only if all leaves are under an even number of NOTs |
| Predicates.AgreementExactly | sql/evaluator.rs:1097-1158 | and for a predicate that mentions each column once that holds of the predicate itself, not only of its form |
| ProductQuantization.TableSumIsDistance | benches/phase3_benchmarks.rs:63-85 | for any codes, the summed table lookups are the squared distance from the query to the reconstructed vector |
| ProductQuantization.DistanceScales | benches/phase3_benchmarks.rs:101-103 | the distance grows with the square of the scale, for vectors of any lengths, and a unit step has distance one |
| ProductQuantization.EncodeIsOptimal | benches/phase3_benchmarks.rs:51-61 | with at most 256 centroids, the codes chosen per subspace reconstruct to a nearest vector among all code combinations |
| ProductQuantization.EncodeOptimalExactly | benches/phase3_benchmarks.rs:51-61 | for a given shape, that holds for all codebooks and vectors if and only if there are at most 256 centroids |
| ProductQuantization.NearestOf | benches/phase3_benchmarks.rs:87-98 | the first of the nearest centroids |
| ProductQuantization.ProductQuantizer.Train | benches/phase3_benchmarks.rs:37-49 | the nested loops make every centroid the matching slice of the drawn training vector and keep the shape |
| ProductQuantization.ProductQuantizer.ComputeDistanceWithTable | benches/phase3_benchmarks.rs:78-85 | the accumulated sum of the looked-up entries |
| ProductQuantization.ProductQuantizer.Encode | benches/phase3_benchmarks.rs:51-61 | the chosen codes, with their optimality up to 256 centroids |
| ProductQuantization.ProductQuantizer.QueryDistance | benches/phase3_benchmarks.rs:128-152 | table then lookup gives the true squared distance and changes nothing but the table |
| OfflineReseedDisk.WritesClearExactly | scripts/nano-offline-reseed.py:71-73 | no path at or below the staging directory or the target is at or below the source, if and only if source and target are neither equal nor nested |
| OfflineReseedRuns.ScriptSpares | scripts/nano-offline-reseed.py:56-152 | in every run on one disk no step of the script changes anything in the source, anything at or below a target that is there, or anything outside its staging directory and target; other processes may meanwhile change entries of the source under the lock and anything else, but leave the staging directory and a published target alone and put no symbolic link on the two paths once they are accepted |
| OfflineReseedRuns.SourceSafeExactly | scripts/nano-offline-reseed.py:21-26 | with every access following the links on its path, the source is safe from every step in every such run if and only if the script refuses both nested arguments and symbolic links on their paths; for each missing refusal a run makes the staging directory inside the source |
| OfflineReseedRuns.NestedMeansInside | scripts/nano-offline-reseed.py:71-80 | if the other checks pass, nested arguments are exactly a target inside the source, since a target above it would exist |
| OfflineReseedHost.FollowIsScript | scripts/nano-offline-reseed.py:21-26 | once the paths are accepted every access of the script is where its path says, and before that links make no difference to it |
| OfflineReseedHost.EventRefines | scripts/nano-offline-reseed.py:70-152 | every step on the disk, also of other processes, is a run of the machine of three trees on what source, staging directory and target show |
| OfflineReseedRuns.RunRefines | scripts/nano-offline-reseed.py:70-152 | and so is every whole run |
| OfflineReseedRuns.PublishedOnDisk | scripts/nano-offline-reseed.py:81-152 | on the disk, in every run, the record lock is held from lockf to the end, and a published target path holds a complete, digest-matched, fsynced copy |
| OfflineReseedRuns.PowerLossOnDisk | scripts/nano-offline-reseed.py:122-145 | on the disk, power loss after the rename leaves at the target path nothing or all of the published tree, byte for byte, and all of it for certain after the parent fsync |
| OfflineReseedLock.LockHeldThroughout | scripts/nano-offline-reseed.py:81-152 | in every run the record lock is ours exactly from the successful lockf to the end of the process, and with lock-respecting writers the source is unchanged meanwhile |
| OfflineReseed.OnlyLockHasItsInode | scripts/nano-offline-reseed.py:33-45 | after the inventory no other file shares LOCK's inode |
| OfflineReseedLock.LockHeldExactly | scripts/nano-offline-reseed.py:33-114 | the lock is held in every run from every start if and only if the script both refuses hard links and skips LOCK when copying; for each missing precaution a run drops it |
| OfflineReseed.PublishedIsComplete | scripts/nano-offline-reseed.py:93-139 | in every run a target of ours is exactly the listed tree with fresh LOCK and metadata, fsynced, each file with the digest recorded for it and read from its source; with lock-respecting writers each file is the content its source had at locking time, whatever the digest function |
| OfflineReseed.PublishesEveryFile | scripts/nano-offline-reseed.py:93-139 | path by path: every regular file but LOCK and an old metadata file is published under its path with its content, every directory is, and nothing else but a new LOCK and metadata file |
| OfflineReseed.PublishedHasManifest | scripts/nano-offline-reseed.py:94-100 | in every run with lock-respecting writers the CURRENT of a published tree names a manifest, by a single name that starts with MANIFEST-, which is a file of that tree |
| OfflineReseed.PowerLossIsSafe | scripts/nano-offline-reseed.py:122-145 | power loss at any point leaves nothing of ours or all of it, byte for byte, and all of it for certain after the parent fsync |
| OfflineReseedRuns.PublishesExactly | scripts/nano-offline-reseed.py:70-139 | undisturbed, the script can publish if and only if no symlink is on either path, source and target are not nested, the target is new, its parent and the source are directories, the lock is free and the source meets the checks of inventory, CURRENT and metadata file |
| ForeignKeys.ForeignKeyValidator.ValidateInsert | sql/constraints.rs:320-358 | accepts exactly NULL-carrying or found keys of tables not on the stack, and the new stack |
| ForeignKeys.StackHistory | sql/constraints.rs:340-349 | after any run of calls a table is on the stack if and only if its last call past the NULL and cycle checks ended in a lookup error |
| ForeignKeys.LockedOutForever | sql/constraints.rs:332-349 | tables left on the stack that refer only to each other stay on it and take no NULL-free row again |
| ForeignKeys.RunKeepsIntegrity | sql/constraints.rs:320-427 | every run of inserts, deletes and updates on both tables keeps each child row partly NULL or matched (section 11.8 of ISO/IEC 9075-2:2003), for any mix of NO ACTION, RESTRICT, CASCADE and SET NULL |
| ForeignKeys.ParentStatementsSpareOthers | sql/constraints.rs:363-427 | child rows that do not reference the key taken away are untouched, and rows go only by ON DELETE CASCADE |
| ForeignKeys.DeleteCarriesOut | sql/constraints.rs:363-390 | what becomes of the rows that reference a deleted parent, action by action: gone with CASCADE, all columns NULL with SET NULL, nothing changed with NO ACTION and RESTRICT; an unreferenced parent goes by itself |
| ForeignKeys.UpdateCarriesOut | sql/constraints.rs:394-427 | the same for a moved parent key: CASCADE gives every referencing row the new key |
| ForeignKeys.DeleteRefusedExactly | sql/constraints.rs:363-390 | with a unique parent key a delete is refused if and only if its action is NO ACTION or RESTRICT and the bare removal would break integrity |
| ForeignKeys.UpdateRefusedExactly | sql/constraints.rs:394-427 | the same for moving a parent key |
| ForeignKeys.ChildAcceptedExactly | sql/constraints.rs:320-358 | a child row, new or in the place of an old one, is accepted if and only if it keeps integrity and, unless partly NULL, its parent table is not on the stack |
| ForeignKeys.ChildStatements | sql/constraints.rs:320-358 | a child insert or update changes the table exactly if the row is accepted, and then only in that row |
| ForeignKeys.NullColumnsDecide | sql/constraints.rs:320-358 | a single NULL column lets a new row in unchecked; a row without any needs a parent row with just its key |
| PlanVersions.VersionIdInjective | sql/explain_advanced.rs:125-128 | the id format determines query and number |
| PlanVersions.PlanVersionManager.StoreVersion | sql/explain_advanced.rs:52-93 | appends one entry to the history and keeps each list equal to the last min(n, 100) stores |
| PlanVersions.IdsDistinctExactly | sql/explain_advanced.rs:85-128 | retained ids are distinct across all queries if and only if no query has more than 101 stores |
| PlanVersions.PlanVersionManager.GetVersion | sql/explain_advanced.rs:104-109 | whatever order the map is walked in, the first version with the id in some list, or None if there is none |
| PlanVersions.LookupLands | sql/explain_advanced.rs:104-128 | the lookup of a retained id lands on one determined store, the right one as long as there are at most 101 |
| PlanVersions.RepeatedIdFindsOlderPlan | sql/explain_advanced.rs:104-128 | from the 102nd store on the newest id belongs to an older version too, which is found instead |
| PlanVersions.PlanVersionManager.GetTimeline | sql/explain_advanced.rs:131-160 | one event per retained version, each priced by two id lookups |
| PlanVersions.TimelineSumExactly | sql/explain_advanced.rs:146-155 | the cost changes sum to last minus first if and only if the newest id finds a plan of the newest cost, always so up to 101 stores |
| PlanDiff.ComputeTreeDiff | sql/explain_advanced.rs:289-361 | the loops and the recursive call compute `Diff` |
| PlanDiff.ReportedExactly | sql/explain_advanced.rs:289-361 | for every kind and position, how often a change is reported: OperationChanged once per differing field of a node in both plans, NodeReordered once where such a node is not the root and its type differs, NodeAdded and NodeRemoved once where only one plan has a child of a node of both |
| PlanDiff.EmptyDiffExactly | sql/explain_advanced.rs:289-361 | the diff is empty if and only if types, operations and shape agree |
| PlanDiff.SwappedDiff | sql/explain_advanced.rs:289-361 | swapping the plans gives the same changes in the same order with added and removed exchanged |
| PlanDiff.DiffBalances | sql/explain_advanced.rs:311-334 | the node-count difference is the size of the added subtrees minus that of the removed ones |
| PlanDiff.AdditionsCoverExactly | sql/explain_advanced.rs:311-361 | a position of the later plan is new if and only if a reported addition is at or above it |
| PlanDiff.LocationInjective | sql/explain_advanced.rs:313-338 | no two locations are written alike |
| Wire.Socket.Exact | scripts/probe_standby_wire_writes.py:227-239 | exactly the next bytes of the stream in order, however it is chunked, unless the deadline passes or the peer closes early |
| Wire.Socket.Receive | scripts/probe_standby_wire_writes.py:241-248 | takes exactly one message off the stream, or reports the cause `Parse` gives |
| Wire.Socket.Send | scripts/probe_standby_wire_writes.py:222-224 | appends exactly the frame of the message |
| Wire.ParseExactly | scripts/probe_standby_wire_writes.py:222-248 | a stream parses to a message if and only if it starts with its frame and the message is within the limit |
| Wire.ParseRefusals | scripts/probe_standby_wire_writes.py:241-245 | an oversized frame is refused and a part of a frame never yields a message |
| Wire.ConversationRoundTrip | scripts/probe_standby_wire_writes.py:222-248 | any sequence of sent messages is received as it was, nothing left over |
| Wire.CopyAnswerReads | scripts/probe_standby_wire_writes.py:287-293 | what is sent on CopyInResponse reads as CopyData with the payload and then CopyDone, or as CopyFail if there is no payload, and nothing more |
| Wire.BigEndian | scripts/probe_standby_wire_writes.py:222-243 | integers have their most significant byte first |
| Wire.TwosComplement | scripts/probe_standby_wire_writes.py:263 | the first byte has the sign, and four bytes of ones are -1 |
| Wire.Socket.Drain | scripts/probe_standby_wire_writes.py:276-297 | unless the deadline passes, the loop succeeds exactly when ReadyForQuery comes within 512 messages and all are legible; it takes exactly those messages off the stream and sends exactly what COPY mode asks for |
| Wire.ReplyContents | scripts/probe_standby_wire_writes.py:277-295 | the rows are the decoded DataRow messages before the first ReadyForQuery, in order, errors, tags and COPY mode likewise, and the status is the payload of that ReadyForQuery |
| Wire.RepliedExactly | scripts/probe_standby_wire_writes.py:280-293 | a reply is refused if and only if one of its messages is illegible |
| Wire.StripsZeros | scripts/probe_standby_wire_writes.py:286 | a tag is the payload up to its last byte that is not zero |
| Wire.AnswerOfConversation | scripts/probe_standby_wire_writes.py:222-297 | messages sent frame by frame up to the first ReadyForQuery are what the loop answers from |
| Wire.Row | scripts/probe_standby_wire_writes.py:259-274 | the offset loop computes `DecodeRow` |
| Wire.DecodeRowExactly | scripts/probe_standby_wire_writes.py:259-274 | a body decodes to given fields if and only if it is their encoding (section 55.7 of the PostgreSQL 16 manual) |
| Wire.FieldBytes | scripts/probe_standby_wire_writes.py:262-271 | four bytes of ones decode to NULL, any other size below 2^31 to that many of the bytes that follow |
| ExplainCache.CacheKeyExactly | sql/explain_production.rs:175-178 | keys are equal if and only if the plans print alike and the modes agree |
| ExplainCache.ProductionExplainService.CheckCache | sql/explain_production.rs:180-197 | answers, and counts the hit, exactly if the entry is there and less than the TTL old; drops an expired one and leaves all other entries |
| ExplainCache.ProductionExplainService.Explain | sql/explain_production.rs:136-173 | answer, cache and metrics of one call, for hit, miss and planner error |
| ExplainCache.SoloCallIsRun | sql/explain_production.rs:136-173 | such a call is one of the interleaved runs the next results are about, made of its own locked sections |
| ExplainCache.HitsExactly | sql/explain_production.rs:180-207 | over runs: after a store, with no clear and no other store under the key, a lookup of any call with that key hits with the stored answer if and only if less than the TTL has passed; later it misses and the entry is gone; the entry counts its lookups |
| ExplainCache.MissesUnstored | sql/explain_production.rs:180-197 | with nothing stored under the key, or caching off, a lookup misses and changes nothing |
| ExplainCache.AnswersAgreeExactly | sql/explain_production.rs:136-238 | in every interleaving all answers are the planner's own and cached ones younger than the TTL, if and only if the planner sees nothing the Debug text hides (or the cache is off or its TTL zero) |
| ExplainCache.MetricsAddUp | sql/explain_production.rs:220-238 | in every interleaving the counters count what they name; once all calls have returned hits plus misses is calls, requests are misses without planner errors, and the latency total is the sum of the list |

## Left out

- JsonSet.SetRecursive: the `&mut` node is an in-parameter and a result; a Rust unique borrow has no aliases, so the model loses only that the update is in place. The same goes for deletion and concatenation.
- JsonFunctions.ExtractPathLoop: `->>`, `jsonb_extract_path_text` and the other JSON functions (building, listing, key existence) are not modelled; `as_text` only changes how a found value is printed.
- JSON text: a `Value::Json` is the document its text parses to, objects are maps, so parse errors, printing and key order do not appear.
- Evaluator.TruncationDistributes: Int8, Float, Numeric, division, unary minus, comparisons, casts, vectors and the remaining scalar functions are arbitrary total functions of a library record; floats never become JSON numbers in `ToDoc`.
- Evaluator.FoldingPreservesEvaluation: error texts are not modelled, only that an error occurs; name lower-casing is an arbitrary function.
- ProductQuantization.ProductQuantizer.ComputeDistanceWithTable: returns the radicand; the square root and f32 rounding are left out.
- ProductQuantization.ProductQuantizer.QueryDistance: likewise the squared distance.
- ProductQuantization.ProductQuantizer.Train: the random draws are a parameter.
- OfflineReseed.PublishedIsComplete: the digest and the metadata text are arbitrary functions, file modes are left out, and loops take elements in any order (directories from the top down). CURRENT is read in one step; other files may be read torn while writers that ignore the lock exist.
- OfflineReseedRuns.ScriptSpares: the arguments are absolute, normalised paths and links lead to absolute paths. The script does not look at the two paths again after its checks, so that no link is put on them later is assumed of the other processes (`MayChange`).
- OfflineReseedLock.LockHeldThroughout: other processes never replace the LOCK file itself.
- OfflineReseed.PowerLossIsSafe: what fsync promises is assumed as stated in `Survives`.
- ForeignKeys.RunKeepsIntegrity: SET DEFAULT, cascades through several tables and a foreign key of a table on itself depend on a caller whose code is elsewhere.
- DeferredConstraintTracker and LockFreeValidationQueue: a map of lists and a bounded list, only easy members.
- PlanDiff.ComputeTreeDiff: descriptions of changes, and the cost, row, feature and configuration parts of a plan diff.
- Wire.Row: text stays the bytes that Python's UTF-8 decoder accepts; that decoder is a predicate.
- Wire.Socket.Drain: an error keeps the bytes of its message, whose fields are decoded leniently and never fail.
- Wire.Socket.Exact: time is a deadline that may pass before any read; logging is left out.
- ExplainCache.AnswersAgreeExactly: a poisoned mutex is left out, as is concurrency finer than the locked sections.
- The cost model, all text and dashboard formatting, the canned EXPLAIN modules, query traces, the process handling of the Python harnesses, and the storage engine, transactions, branches, indexes and replication.
