# Mule Hunter core, modelled in Dafny

Mule Hunter is a system for spotting money-mule accounts in a network of transfers. Its four parts are modelled here, each on its own values and state.

- **Backend (Java, Spring WebFlux).**
  - `createTransaction` saves a transfer. It then updates the ledger of enriched nodes for the source (one outgoing call) and for the target (one incoming call). Each node keeps in- and out-degrees, totals and the out/in risk ratio.
  - `AnomalyScoreService.saveBatch` upserts scores by node id.
  - The SHAP and fraud explanation controllers append one record per DTO (data transfer object).
  - `GraphController` reads the node documents back. It applies `getOrDefault` defaults, Java number parsing (whose integer parsers read the decimal digits of every BMP script `Character.digit` knows) and the `findOne` query on a string id or any stored number equal to the parsed integer.
- **AI engine (Python, FastAPI).**
  - `load_assets_into_memory` loads the global state and two id maps that are inverse to each other.
  - `analyze_transaction` takes the source's feature row (shifted, or the defaults for an unknown account). It adds one edge, reads the network's risk, and derives the verdict, degree, ratio and linked accounts.
- **Visual analytics (Python and React).**
  - `build_fraud_explanation` is the reason list taken from the feature table. `attach_scores` joins nodes to scores. `score_single_node` is also modelled.
  - `run_node_pipeline` runs every node independently.
  - The dashboard's fraud-only filter, sphere styling, link colour and width, and node click are modelled.
  - The `useExplanations` hook builds its id-to-reasons map.
- **Control tower (Next.js and NextAuth).**
  - The user schema: required fields, the role enum and its default, and the hex text form of ObjectIds.
  - The create and delete server actions.
  - The credentials `authorize` and the `jwt` and `session` callbacks.
  - The middleware with its path matcher, the admin page's own guard, and the login form's state machine.

Each part takes the source's own form:

- Objects whose fields the source updates are Dafny classes with `modifies` frames. Examples are the ledger service, the repositories, the inference globals, the React state and the NextAuth token and session.
- Loops in the source are methods with invariants, proved against a specification function. Examples are the id-map comprehensions, the explanation loop, the score join, the node pipeline and the batch saves.
- Pure code is functions. Lemmas state what the source promises about them.

Python and JavaScript values are small datatypes. They carry the host language's truthiness, comparison, `dict.get` and property access, with the TypeError/KeyError paths modelled as results. The outside world is passed in as parameters:

- the GNN's probability, `Math.log` and the isolation-forest detector;
- bcrypt's `hash` and `compare`;
- the clocks (`Instant.now()`, `Date.now`);
- the backend client's fetch; its posts never fail, because the client logs and swallows every request error.

## Model

| member | source | states |
|---|---|---|
| Ledger.FindOrCreate | backend/src/main/java/com/mulehunter/backend/service/NodeEnrichedService.java:23-24 | the stored record for the node id, or createNew for an unknown one; its outcome is stated by FirstUpdateStartsFresh |
| Ledger.Replay | backend/src/main/java/com/mulehunter/backend/service/NodeEnrichedService.java:21-47 | the table after a sequence of handler calls, oldest first; its counts and sums are stated by ReplayAccumulates, ZeroWhenUntouched and DegreesCountCalls, its untouched records by NeverTouchedUnchanged |
| Ledger.CreateNew | backend/src/main/java/com/mulehunter/backend/service/NodeEnrichedService.java:50-63 | a new record has the given id and clock time, zero degrees and totals, zero velocity, age and balance, and ratio 1.0 |
| Ledger.RecalcRiskRatio | backend/src/main/java/com/mulehunter/backend/service/NodeEnrichedService.java:65-73 | only the ratio changes; afterwards it is outgoing/incoming, or 1.0 when nothing came in |
| Ledger.Step | backend/src/main/java/com/mulehunter/backend/service/NodeEnrichedService.java:25-30 | an outgoing call adds 1 to outDegree and the amount to totalOutgoing (incoming: inDegree and totalIncoming); the ratio matches the totals; id, velocity, age and balance are kept; updatedAt is the call's time |
| Ledger.Apply | backend/src/main/java/com/mulehunter/backend/service/NodeEnrichedService.java:21-47 | one handler call writes only the record keyed by its node id and adds that key |
| Ledger.NodeEnrichedService.HandleOutgoing | backend/src/main/java/com/mulehunter/backend/service/NodeEnrichedService.java:21-33 | the table becomes the old table with the found-or-created record stepped as outgoing; the call is appended to the history |
| Ledger.NodeEnrichedService.HandleIncoming | backend/src/main/java/com/mulehunter/backend/service/NodeEnrichedService.java:35-47 | the same for an incoming transfer |
| Ledger.ReplayAccumulates | backend/src/main/java/com/mulehunter/backend/service/NodeEnrichedService.java:21-47 | after any sequence of calls, an account's degrees and totals are its starting record plus the number of calls and the sum of amounts in each direction; its other fields are unchanged |
| Ledger.NeverTouchedUnchanged | backend/src/main/java/com/mulehunter/backend/service/NodeEnrichedService.java:23-30 | an account that no call names keeps exactly its record, or stays absent |
| Ledger.ZeroWhenUntouched | backend/src/main/java/com/mulehunter/backend/service/NodeEnrichedService.java:21-47 | an account no call names has zero counts and sums in both directions |
| Ledger.TouchedRatioConsistent | backend/src/main/java/com/mulehunter/backend/service/NodeEnrichedService.java:28 | once an account has been updated, its ratio agrees with its totals |
| Ledger.DegreesCountCalls | backend/src/main/java/com/mulehunter/backend/service/NodeEnrichedService.java:50-63 | each account in a ledger built from nothing has degrees equal to its call counts, totals equal to its call sums, zero velocity, age and balance, and a consistent ratio |
| Ledger.FirstUpdateStartsFresh | backend/src/main/java/com/mulehunter/backend/service/NodeEnrichedService.java:24 | the first call for an unknown account starts from createNew; the ratio becomes 0.0 after one non-zero incoming amount, else 1.0 |
| Transactions.Transaction.From | backend/src/main/java/com/mulehunter/backend/model/Transaction.java:30-43 | copies both accounts; a null amount becomes 0; the fraud flag is false, the score 0.0 and the verdict "PENDING"; no key yet |
| Transactions.Transaction.SetSuspectedFraud | backend/src/main/java/com/mulehunter/backend/model/Transaction.java:65-67 | writes its own field and nothing else |
| Transactions.Transaction.SetRiskScore | backend/src/main/java/com/mulehunter/backend/model/Transaction.java:73-75 | writes its own field and nothing else |
| Transactions.Transaction.SetVerdict | backend/src/main/java/com/mulehunter/backend/model/Transaction.java:81-83 | writes its own field and nothing else |
| Transactions.TransactionRepository.Save | backend/src/main/java/com/mulehunter/backend/service/TransactionService.java:33 | inserts the entity under a fresh key, writes the key back into it and returns it |
| Transactions.TransactionService.CreateTransaction | backend/src/main/java/com/mulehunter/backend/service/TransactionService.java:24-41 | fails exactly when an account string is not a Java long, naming the first bad one and changing nothing; otherwise it stores the document, appends one outgoing update for the source and one incoming update for the target with the amount (0 when missing), and returns the saved entity: the request's accounts, the amount, not suspected, risk 0.0 and verdict PENDING, the same fields as the document stored last |
| Transactions.TransactionService.Record | backend/src/main/java/com/mulehunter/backend/service/TransactionService.java:33-40 | the save, then the two ledger updates, in that order, with their effects |
| Transactions.MissingAmountMovesNoTotals | backend/src/main/java/com/mulehunter/backend/model/Transaction.java:34-35 | a transfer without an amount leaves both accounts' totals at their starting values |
| ResultStores.Upsert | backend/src/main/java/com/mulehunter/backend/service/AnomalyScoreService.java:26-35 | one DTO: the found record rewritten under its key, or a blank record added; stated by UpsertFacts and AnomalyScoreService.SaveOne |
| ResultStores.UpsertAll | backend/src/main/java/com/mulehunter/backend/service/AnomalyScoreService.java:23-38 | the DTOs upserted one after the other; stated by UpsertAllValid, UpsertAllKeepsOthers, LastDtoWins, BatchGrowth and AnomalyScoreService.SaveBatch |
| ResultStores.Assign | backend/src/main/java/com/mulehunter/backend/service/AnomalyScoreService.java:29-34 | the five DTO fields and the time are written; the key is kept |
| ResultStores.IndexOf | backend/src/main/java/com/mulehunter/backend/service/AnomalyScoreService.java:26 | finds the first record with the node id; None exactly when no record has it |
| ResultStores.UpsertFacts | backend/src/main/java/com/mulehunter/backend/service/AnomalyScoreService.java:26-35 | one upsert keeps node ids unique (with the store's key invariant); a known id is rewritten in place under the same key; a new id adds one blank-then-assigned record; other records are kept |
| ResultStores.UpsertAllValid | backend/src/main/java/com/mulehunter/backend/service/AnomalyScoreService.java:23-38 | a batch keeps the store valid and adds exactly the node ids it names |
| ResultStores.UpsertAllKeepsOthers | backend/src/main/java/com/mulehunter/backend/service/AnomalyScoreService.java:23-38 | a batch never drops a record or changes a key; a record whose node id the batch does not name stays as it was |
| ResultStores.LastDtoWins | backend/src/main/java/com/mulehunter/backend/service/AnomalyScoreService.java:28-35 | after a batch, the record for a named node id holds the fields and save time of the last DTO for it |
| ResultStores.UniqueCount | backend/src/main/java/com/mulehunter/backend/service/AnomalyScoreService.java:26-27 | with unique node ids there are as many records as ids |
| ResultStores.BatchGrowth | backend/src/main/java/com/mulehunter/backend/service/AnomalyScoreService.java:23-38 | a batch adds one record per new node id; repeating it adds nothing; an empty batch changes nothing |
| ResultStores.LastFor | backend/src/main/java/com/mulehunter/backend/service/AnomalyScoreService.java:25-35 | the last DTO carrying a node id, or None when no DTO does |
| ResultStores.AnomalyScoreService.FindByNodeId | backend/src/main/java/com/mulehunter/backend/service/AnomalyScoreService.java:26 | the scan returns the first index with that node id |
| ResultStores.AnomalyScoreService.SaveOne | backend/src/main/java/com/mulehunter/backend/service/AnomalyScoreService.java:26-35 | the store after one DTO is the upsert of the old store |
| ResultStores.AnomalyScoreService.SaveBatch | backend/src/main/java/com/mulehunter/backend/service/AnomalyScoreService.java:23-38 | the store after the batch is the sequential upsert of every DTO |
| ResultStores.ShapAppended | backend/src/main/java/com/mulehunter/backend/controller/ShapExplanationController.java:32-42 | one new record per DTO |
| ResultStores.ShapAppendedCopies | backend/src/main/java/com/mulehunter/backend/controller/ShapExplanationController.java:34-41 | the i-th new record copies the i-th DTO's five fields under key first+i at clock(i) |
| ResultStores.ShapExplanationController.SaveBatch | backend/src/main/java/com/mulehunter/backend/controller/ShapExplanationController.java:29-44 | appends exactly the copied records, uses one fresh key per DTO and answers with the success message |
| ResultStores.FraudAppended | backend/src/main/java/com/mulehunter/backend/controller/FraudExplanationController.java:31-39 | one new record per DTO |
| ResultStores.FraudAppendedCopies | backend/src/main/java/com/mulehunter/backend/controller/FraudExplanationController.java:33-37 | the i-th new record has the i-th DTO's node id, reasons (in order) and source |
| ResultStores.FraudExplanationController.SaveBatch | backend/src/main/java/com/mulehunter/backend/controller/FraudExplanationController.java:28-41 | appends exactly the copied records and answers with the success message |
| ResultStores.BatchNodeIdsBound | backend/src/main/java/com/mulehunter/backend/service/AnomalyScoreService.java:25 | a batch names at most as many node ids as it has DTOs |
| ResultStores.UpsertVersusAppend | backend/src/main/java/com/mulehunter/backend/controller/ShapExplanationController.java:32-42 | the score store grows by at most the number of distinct node ids (not at all when all are known), while the SHAP store grows by one per DTO |
| GraphRead.GetGraph | backend/src/main/java/com/mulehunter/backend/controller/GraphController.java:38-78 | the node list and the link list, or the first node's error; stated by GetGraphShape and GetGraphFirstError |
| GraphRead.NodeOf | backend/src/main/java/com/mulehunter/backend/controller/GraphController.java:42-61 | one node document mapped to a node, or the exception its fields raise; stated by MissingFieldsDefault, AnomalousExactlyOne and NodesOfShape |
| GraphRead.LinkOf | backend/src/main/java/com/mulehunter/backend/controller/GraphController.java:66-70 | one stored transfer as a link with its accounts and amount; stated by LinksOfShape |
| GraphRead.AnomalousFlag | backend/src/main/java/com/mulehunter/backend/controller/GraphController.java:49-50 | `Integer.parseInt(...) == 1` on the stored flag or "0"; stated by AnomalousExactlyOne |
| GraphRead.Render | backend/src/main/java/com/mulehunter/backend/controller/GraphController.java:44 | `toString` of a stored value; for integers it is read back by RenderedIdIsFound, and its nested-document text is under Left out |
| GraphRead.Matches | backend/src/main/java/com/mulehunter/backend/controller/GraphController.java:83-88 | the query's or: the string id, or a stored number equal to the parsed integer; stated by FindOne and RenderedIdIsFound |
| GraphRead.DetailOf | backend/src/main/java/com/mulehunter/backend/controller/GraphController.java:94-117 | a found document mapped to its detail; stated by DetailLists, DetailDefaults and DetailOfNeverNotFound |
| GraphRead.GetNodeDetail | backend/src/main/java/com/mulehunter/backend/controller/GraphController.java:80-118 | parse the id, find one document, map it; stated by NonNumericFailsFirst, NotFoundMessage, DetailDefaults and RenderedIdIsFound |
| GraphRead.GetGraphShape | backend/src/main/java/com/mulehunter/backend/controller/GraphController.java:38-78 | getGraph succeeds exactly when every document maps; it then has one node per document in order and one link per transfer with its accounts and amount |
| GraphRead.NodesOfShape | backend/src/main/java/com/mulehunter/backend/controller/GraphController.java:40-62 | the node list succeeds exactly when every document maps, and keeps length and order |
| GraphRead.LinksOfShape | backend/src/main/java/com/mulehunter/backend/controller/GraphController.java:64-71 | one link per stored transfer, in order |
| GraphRead.GetGraphFirstError | backend/src/main/java/com/mulehunter/backend/controller/GraphController.java:42-62 | a failed getGraph reports the error of the first document that does not map |
| GraphRead.NodesFirstError | backend/src/main/java/com/mulehunter/backend/controller/GraphController.java:42-61 | a failed node list carries the first failing document's error |
| GraphRead.MissingFieldsDefault | backend/src/main/java/com/mulehunter/backend/controller/GraphController.java:46-53 | missing score, flag and velocity default to 0.0, false and 0 |
| GraphRead.AnomalousExactlyOne | backend/src/main/java/com/mulehunter/backend/controller/GraphController.java:49-50 | absent means false; a stored int is true exactly when it is 1; a null throws NullPointerException; a stored double 1.0 throws NumberFormatException |
| GraphRead.FindOne | backend/src/main/java/com/mulehunter/backend/controller/GraphController.java:83-90 | the result matches the query (the node id is the path string, or a stored int, long or double numerically equal to the parsed int); it is Some exactly when a document matches |
| GraphRead.NonNumericFailsFirst | backend/src/main/java/com/mulehunter/backend/controller/GraphController.java:86 | a path id that `Integer.parseInt` rejects (it accepts a sign and the decimal digits of every BMP script `Character.digit` knows, within int range) fails with NumberFormatException whatever the store holds |
| GraphRead.NotFoundMessage | backend/src/main/java/com/mulehunter/backend/controller/GraphController.java:91-93 | with no match, the error is "Node not found: " + id |
| GraphRead.DetailLists | backend/src/main/java/com/mulehunter/backend/controller/GraphController.java:102-116 | the detail carries the stored lists unchanged, empty when the field is absent, and the rendered node id |
| GraphRead.DetailDefaults | backend/src/main/java/com/mulehunter/backend/controller/GraphController.java:80-118 | missing reasons and shap_factors become empty lists; the detail id is the path id (string match) or the parsed int's canonical text (integer match), or the stored double's own text, equal to the parsed int (double match) |
| GraphRead.RenderedIdIsFound | backend/src/main/java/com/mulehunter/backend/controller/GraphController.java:83-93 | a stored integer id, or a stored double equal to one, looked up by the integer's rendering is never "not found" |
| GraphRead.DetailOfNeverNotFound | backend/src/main/java/com/mulehunter/backend/controller/GraphController.java:94-117 | mapping a found document fails only on its fields |
| Text.DigitZero | backend/src/main/java/com/mulehunter/backend/service/TransactionService.java:28-29 | the zero of the decimal-digit run a character lies in, as `Character.digit` reads it; every result is -1 or a zero at most 9 below the character, and ASCII digits give '0' |
| Text.ParseJavaInteger | backend/src/main/java/com/mulehunter/backend/service/TransactionService.java:28-29 | the parse shared by parseInt and parseLong; stated by ParseRendered, ParsedShape and ScriptDigitsParse |
| Text.ParseInt | backend/src/main/java/com/mulehunter/backend/controller/GraphController.java:86 | `Integer.parseInt` over the int range; stated by ParseRendered and ScriptDigitsParse |
| Text.ParseLong | backend/src/main/java/com/mulehunter/backend/service/TransactionService.java:28-29 | `Long.parseLong` over the long range, a null argument failing too; stated by ParsedShape and ScriptDigitsParse |
| Text.NatToString | backend/src/main/java/com/mulehunter/backend/controller/GraphController.java:44 | the decimal rendering of a number: non-empty ASCII digits without a leading zero; its value is stated by NatToStringValue |
| Text.Trim | backend/src/main/java/com/mulehunter/backend/controller/GraphController.java:47 | the trim parseDouble applies first: never longer, and no character at or below U+0020 at either end (U+007F and the C1 controls are kept); TrimSegment states what is kept |
| Text.TrimSegment | backend/src/main/java/com/mulehunter/backend/controller/GraphController.java:47 | the trimmed string is the input with a leading and a trailing run of characters at or below U+0020 removed and nothing else changed |
| Text.FindAny | backend/src/main/java/com/mulehunter/backend/controller/GraphController.java:47 | the first position holding one of the characters, or the length, with none before it; parseDouble splits at the exponent and at the point with it |
| Text.ParseDouble | backend/src/main/java/com/mulehunter/backend/controller/GraphController.java:47 | `Double.parseDouble` on decimal notation; stated by ParseDoubleRendered, UnsignedDigits and ScriptDigitsNotDouble, with its range gap under Left out |
| Text.ParseRendered | backend/src/main/java/com/mulehunter/backend/controller/GraphController.java:86 | Java integer parsing reads back the rendering of any in-range integer |
| Text.NatToStringValue | backend/src/main/java/com/mulehunter/backend/controller/GraphController.java:44 | the decimal rendering of n has value n |
| Text.ParsedShape | backend/src/main/java/com/mulehunter/backend/service/TransactionService.java:28-29 | an accepted long has an optional sign followed by at least one decimal digit of a BMP script that `Character.digit` knows |
| Text.ScriptDigitsParse | backend/src/main/java/com/mulehunter/backend/service/TransactionService.java:28-29 | the int and long parsers read Arabic-Indic and full-width digits ("١٢" is 12, "-７" is -7) |
| Text.ScriptDigitsNotDouble | backend/src/main/java/com/mulehunter/backend/controller/GraphController.java:47 | `parseDouble` refuses those digits ("١٢" is a NumberFormatException) |
| Text.ParseDoubleRendered | backend/src/main/java/com/mulehunter/backend/controller/GraphController.java:47 | every rendered natural number reads back as itself |
| Text.UnsignedDigits | backend/src/main/java/com/mulehunter/backend/controller/GraphController.java:47 | a plain digit string parses as its value |
| Inference.IdMapOf | ai-engine/inference_service.py:102 | the id map: each loaded id to its last row; stated by LastIndex, IdMapsExtend, BuildIdMap and IdMapRoundTrip |
| Inference.ReverseOf | ai-engine/inference_service.py:103 | the reverse map: each row to its id; stated by ReverseExtend, BuildReverseMap and IdMapRoundTrip |
| Inference.ShiftedRatio | ai-engine/inference_service.py:260-261 | the source's ratio, 0.5 higher when the amount is over 10000; stated by KnownSourceShift |
| Inference.InferenceService.SourceIndex | ai-engine/inference_service.py:248-269 | the source's id_map row, or row 0 for an unknown source; stated by UnknownSourceIsRowZero and KnownSourceShift |
| Inference.InferenceService.TargetIndex | ai-engine/inference_service.py:250 | the target's id_map row, or 0; the new edge of InferenceService.Analyze ends there |
| Inference.LastIndex | ai-engine/inference_service.py:102 | the last row with the id: a later duplicate overwrites an earlier one |
| Inference.BuildIdMaps | ai-engine/inference_service.py:102-103 | the two comprehensions give the id map and the reverse map of the rows |
| Inference.BuildIdMap | ai-engine/inference_service.py:102 | the loop builds exactly the id-to-last-row map |
| Inference.BuildReverseMap | ai-engine/inference_service.py:103 | the loop builds exactly the row-to-id map |
| Inference.IdMapStep | ai-engine/inference_service.py:102-103 | one more row maps its id to its index and its index to its id |
| Inference.IdMapsExtend | ai-engine/inference_service.py:102 | the id map of a longer prefix is the shorter one updated with the last row |
| Inference.ReverseExtend | ai-engine/inference_service.py:103 | the reverse map of a longer prefix is the shorter one updated with the last row |
| Inference.IdMapRoundTrip | ai-engine/inference_service.py:102-103 | every loaded id maps to a row that maps back to it; with unique ids every row maps back to itself; the id map's keys are exactly the loaded ids |
| Inference.Verdict | ai-engine/inference_service.py:287-289 | "CRITICAL (MULE)" iff risk > 0.8, "SUSPICIOUS" iff 0.5 < risk ≤ 0.8, "SAFE" iff risk ≤ 0.5 |
| Inference.NeighborsOf | ai-engine/inference_service.py:291 | one neighbour per edge leaving the node |
| Inference.Linked | ai-engine/inference_service.py:292 | at most three labels, exactly min(3, out-edges), each "Acct_" + the reverse-map id or "?" |
| Inference.InferenceService.constructor | ai-engine/inference_service.py:80-86 | before loading there is no model, no graph, no features and empty maps |
| Inference.InferenceService.LoadAssets | ai-engine/inference_service.py:89-114 | missing files or a failed graph load leave everything as it was; a failed CSV keeps the new graph only; otherwise the features and both maps come from the CSV and the model is trained or, with bad weights, an untrained network |
| Inference.InferenceService.SourceFeatures | ai-engine/inference_service.py:252-268 | the source's feature row has five entries |
| Inference.InferenceService.Analyze | ai-engine/inference_service.py:236-304 | no model gives 503; a source row beyond the feature matrix gives IndexError; otherwise the risk is the network's output at the source on the patched features plus one new edge, and verdict, out-degree, ratio, population, ja3 flag, linked accounts and unsupervised score follow from it |
| Inference.UnknownSourceIsRowZero | ai-engine/inference_service.py:266-271 | an unknown source is analysed as row 0 with the default features |
| Inference.KnownSourceShift | ai-engine/inference_service.py:252-263 | a known source keeps age, balance and pagerank, gains one velocity, and its ratio rises by 0.5 exactly when the amount exceeds 10000 |
| Inference.OutDegreeCountsEdges | ai-engine/inference_service.py:264 | the counted out-degree is the number of edges whose source is the node |
| PyValues.Truthy | visual-analytics/app/services/node_pipeline.py:46-52 | Python truthiness; stated through SkipOnlyOnNothing and NormalizeNeverEmpty |
| PyValues.Get | visual-analytics/app/services/explainability/explanation_mapper.py:36 | `dict.get` with its default; stated through NormalizeRenames, NoMatchDefaults and ScoreSingleNode |
| PyValues.KeyOf | visual-analytics/app/services/anomaly_detection/score_nodes.py:24-27 | the dict key a hashable value stands for; stated through LastScoreWins |
| PyValues.Greater | visual-analytics/app/services/explainability/explanation_mapper.py:42 | `v > c` compares numbers and booleans and raises TypeError for anything else |
| ExplanationMapper.ReasonFor | visual-analytics/app/services/explainability/explanation_mapper.py:36-45 | one table entry: no reason for a missing or None feature, else the positive or negative text, or the comparison's error; stated by ReasonsLast and FeatureReasonsFail |
| ExplanationMapper.FeatureReasons | visual-analytics/app/services/explainability/explanation_mapper.py:33-45 | the loop over the table; stated by FeatureReasonsStep, ReasonsFollowTable, FeatureReasonsFail, FeatureReasonsBound and ErrorPersists |
| ExplanationMapper.Explanation | visual-analytics/app/services/explainability/explanation_mapper.py:27-55 | the whole function, fallback and score reason included; stated by ExplanationShape, TableSentences and BuildFraudExplanation |
| ExplanationMapper.BuildFraudExplanation | visual-analytics/app/services/explainability/explanation_mapper.py:27-55 | the loop returns exactly the specified reason list, or the error it raises |
| ExplanationMapper.FeatureReasonsStep | visual-analytics/app/services/explainability/explanation_mapper.py:35-45 | one more table entry appends its reason (if present) or propagates an error |
| ExplanationMapper.ErrorPersists | visual-analytics/app/services/explainability/explanation_mapper.py:42 | once a comparison raises, the whole call raises that error |
| ExplanationMapper.PresentIndices | visual-analytics/app/services/explainability/explanation_mapper.py:36-39 | the strictly increasing table positions of features that are present and not None, all of them |
| ExplanationMapper.ReasonsFollowTable | visual-analytics/app/services/explainability/explanation_mapper.py:35-45 | one reason per present feature, in table order: its positive text when the value is above 0, else its negative text |
| ExplanationMapper.ReasonsLast | visual-analytics/app/services/explainability/explanation_mapper.py:35-45 | the last table entry adds one reason and one index exactly when it is present |
| ExplanationMapper.FeatureReasonsFail | visual-analytics/app/services/explainability/explanation_mapper.py:42 | the loop raises exactly when a present value does not compare with 0 |
| ExplanationMapper.FeatureReasonsBound | visual-analytics/app/services/explainability/explanation_mapper.py:35-45 | at most one reason per table entry |
| ExplanationMapper.TextsAreDistinct | visual-analytics/app/services/explainability/explanation_mapper.py:4-25 | no table sentence is the fallback or the score reason |
| ExplanationMapper.ExplanationShape | visual-analytics/app/services/explainability/explanation_mapper.py:47-55 | the list has 1 to 6 entries; it opens with the fallback exactly when no feature is present; it ends with the score reason exactly when score > 0.8; otherwise it holds the table reasons |
| ExplanationMapper.TableSentences | visual-analytics/app/services/explainability/explanation_mapper.py:4-25 | every table reason is some entry's positive or negative sentence; none appear exactly when no feature is present |
| ScoreNodes.ScoreMap | visual-analytics/app/services/anomaly_detection/score_nodes.py:24-27 | the score_map comprehension; stated by ScoreMapBuilt, LastScoreWins and ScoreMapKeys |
| ScoreNodes.Lookup | visual-analytics/app/services/anomaly_detection/score_nodes.py:32-37 | one node's score entry or the default; stated by NoMatchDefaults |
| ScoreNodes.Merge | visual-analytics/app/services/anomaly_detection/score_nodes.py:40-44 | the merged dict; stated by MergeKeepsFields |
| ScoreNodes.MergeAll | visual-analytics/app/services/anomaly_detection/score_nodes.py:29-48 | the loop over the nodes; stated by MergeAllShape and MergeErrorPersists |
| ScoreNodes.Attached | visual-analytics/app/services/anomaly_detection/score_nodes.py:4-48 | attach_scores; stated by AttachedJoin and AttachScores |
| ScoreNodes.AttachScores | visual-analytics/app/services/anomaly_detection/score_nodes.py:4-48 | the loop returns exactly the specified join, or the error it raises |
| ScoreNodes.MergeErrorPersists | visual-analytics/app/services/anomaly_detection/score_nodes.py:31-34 | once a lookup raises, the whole join raises that error |
| ScoreNodes.MergeAllShape | visual-analytics/app/services/anomaly_detection/score_nodes.py:29-48 | the join keeps length and order; it fails exactly when a node id is unhashable |
| ScoreNodes.MergeKeepsFields | visual-analytics/app/services/anomaly_detection/score_nodes.py:40-44 | every field but the two score fields is kept, and exactly those two are added |
| ScoreNodes.NoMatchDefaults | visual-analytics/app/services/anomaly_detection/score_nodes.py:34-37 | a node with no score gets anomaly_score None and is_anomalous 0 |
| ScoreNodes.ScoreMapBuilt | visual-analytics/app/services/anomaly_detection/score_nodes.py:24-27 | the score map is built exactly when every entry has a hashable "node_id" |
| ScoreNodes.LastScoreWins | visual-analytics/app/services/anomaly_detection/score_nodes.py:24-27 | each entry's key is in the map, and it holds the last entry filed under that key |
| ScoreNodes.ScoreMapKeys | visual-analytics/app/services/anomaly_detection/score_nodes.py:24-27 | every key comes from some entry |
| ScoreNodes.AttachedJoin | visual-analytics/app/services/anomaly_detection/score_nodes.py:20-48 | no nodes gives []; otherwise output i is node i merged with its score entry or the default |
| ScoreNodes.ScoreSingleNode | visual-analytics/app/services/anomaly_detection/score_nodes.py:62-65 | the first entry's anomaly_score when the detector returns an entry that has one; 0.0 when it returns nothing or its first entry has none |
| NodePipeline.Normalize | visual-analytics/app/services/node_pipeline.py:14-31 | normalize_enriched_node; stated by NormalizeKeys, NormalizeRenames, NormalizeKeysFollowTable and NormalizeNeverEmpty |
| NodePipeline.ProcessNode | visual-analytics/app/services/node_pipeline.py:43-80 | the try block for one node; stated by SkipOnlyOnNothing, ShapRecordThreshold, CompletedPosts, CompletedScorePost, ShapOutputRaises and RunOne |
| NodePipeline.Persist | visual-analytics/app/services/node_pipeline.py:70-77 | the two posts, then the one-argument SHAP post; stated by ShapOutputRaises and CompletedPosts |
| NodePipeline.RunAll | visual-analytics/app/services/node_pipeline.py:34-80 | the loop over the nodes; stated by Outcomes, EachNodeRuns and RunNodePipeline |
| NodePipeline.NormalizeKeys | visual-analytics/app/services/node_pipeline.py:14-31 | the normalised dict has exactly the ten output keys |
| NodePipeline.NormalizeRenames | visual-analytics/app/services/node_pipeline.py:15-31 | each output key holds its camel-case input field or None; both id keys hold nodeId |
| NodePipeline.NormalizeKeysFollowTable | visual-analytics/app/services/node_pipeline.py:15-31 | the output keys are exactly the rename table's |
| NodePipeline.NormalizeNeverEmpty | visual-analytics/app/services/node_pipeline.py:49-52 | the normalised dict always holds both id keys, so it is truthy and the check never skips |
| NodePipeline.Outcomes | visual-analytics/app/services/node_pipeline.py:40 | one outcome per node |
| NodePipeline.RunOne | visual-analytics/app/services/node_pipeline.py:43-80 | running one node's try block gives its specified outcome and posts (the posts themselves never raise) |
| NodePipeline.RunNodePipeline | visual-analytics/app/services/node_pipeline.py:34-80 | the loop returns the specified outcomes and posts for every node |
| NodePipeline.EachNodeRuns | visual-analytics/app/services/node_pipeline.py:40-80 | outcome i is node i's own, whatever happened before it |
| NodePipeline.SkipOnlyOnNothing | visual-analytics/app/services/node_pipeline.py:45-52 | an empty fetch is skipped and posts nothing; a non-empty dict is never skipped |
| NodePipeline.ShapRecordThreshold | visual-analytics/app/services/node_pipeline.py:61-67 | the SHAP input keeps the normalised fields, with anomaly_score set to the score and is_anomalous 1 exactly when score > 0.5 |
| NodePipeline.CompletedPosts | visual-analytics/app/services/node_pipeline.py:70-75 | a completed node sent exactly two posts, its score then its reasons, both for its own id, and the SHAP runner returned nothing for it |
| NodePipeline.CompletedScorePost | visual-analytics/app/services/node_pipeline.py:55-71 | the score a completed node posts is the detector's first anomaly_score, or 0.0 when there is none |
| NodePipeline.ShapOutputRaises | visual-analytics/app/services/node_pipeline.py:70-75 | a node that reaches the posts sends both; it completes exactly when SHAP returned nothing, and otherwise fails with TypeError, because `post_shap_explanation` is called without its node id |
| JsValues.Truthy | visual-analytics/visualization/src/components/FraudGraph3D.jsx:178 | JavaScript truthiness; stated through LinkColorRule, LinkWidthRule and VisibleUnfiltered |
| JsValues.StrictEq | visual-analytics/visualization/src/components/FraudGraph3D.jsx:48 | `===` on values read from JSON; stated through Find, FlaggedNodesOnly and NodeStyleRule |
| JsValues.ToKey | visual-analytics/visualization/src/hooks/useExplanations.js:29 | `String(v)`, the key `map[item.node_id]` writes; stated through BuildMapKeys and ElementKeys |
| JsValues.Prop | visual-analytics/visualization/src/components/FraudGraph3D.jsx:54 | property access raises TypeError exactly on null and undefined |
| JsValues.ElementKeys | visual-analytics/visualization/src/hooks/useExplanations.js:29 | one rendered key per array element |
| FraudGraph.Filter | visual-analytics/visualization/src/components/FraudGraph3D.jsx:48-57 | `Array.prototype.filter`; stated by FilterMembers, FilterAppend and FilterAgree |
| FraudGraph.Flagged | visual-analytics/visualization/src/components/FraudGraph3D.jsx:48 | `n.is_anomalous === 1`; stated through FlaggedNodesOnly and VisibleFiltered |
| FraudGraph.FraudIds | visual-analytics/visualization/src/components/FraudGraph3D.jsx:47-49 | the set of ids of flagged nodes; stated through VisibleFiltered |
| FraudGraph.Resolves | visual-analytics/visualization/src/components/FraudGraph3D.jsx:54-55 | the endpoint read that throws only on a bare null; stated through VisibleFiltered |
| FraudGraph.VisibleGraph | visual-analytics/visualization/src/components/FraudGraph3D.jsx:43-59 | visibleGraph; stated by VisibleFiltered, VisibleUnfiltered, FlaggedNodesOnly and VisibleLinksJoinVisibleNodes |
| FraudGraph.NodeStyle | visual-analytics/visualization/src/components/FraudGraph3D.jsx:155-171 | the sphere's radius and glow; stated by NodeStyleRule |
| FraudGraph.EndId | visual-analytics/visualization/src/components/FraudGraph3D.jsx:181-182 | `link.source.id`; stated through LinkColorRule and BareLinksStayFaint |
| FraudGraph.LinkColor | visual-analytics/visualization/src/components/FraudGraph3D.jsx:177-194 | linkColor; stated by LinkColorRule and BareLinksStayFaint |
| FraudGraph.WidthKey | visual-analytics/visualization/src/components/FraudGraph3D.jsx:197-198 | `e.id ?? e`; stated through LinkWidthRule |
| FraudGraph.LinkWidth | visual-analytics/visualization/src/components/FraudGraph3D.jsx:195-202 | linkWidth; stated by LinkWidthRule |
| FraudGraph.FilterMembers | visual-analytics/visualization/src/components/FraudGraph3D.jsx:52-57 | filtering keeps exactly the elements satisfying the predicate |
| FraudGraph.FilterAppend | visual-analytics/visualization/src/components/FraudGraph3D.jsx:52-57 | filtering commutes with concatenation (it keeps order) |
| FraudGraph.FilterAgree | visual-analytics/visualization/src/components/FraudGraph3D.jsx:52 | two predicates that agree element by element select the same elements |
| FraudGraph.VisibleFiltered | visual-analytics/visualization/src/components/FraudGraph3D.jsx:43-59 | with the filter on, visible nodes share an id with a flagged node and visible links join two fraud ids; the filter fails only on a bare null endpoint |
| FraudGraph.VisibleUnfiltered | visual-analytics/visualization/src/components/FraudGraph3D.jsx:44-45 | nothing loaded shows nothing; with the filter off the raw graph is shown |
| FraudGraph.FlaggedNodesOnly | visual-analytics/visualization/src/components/FraudGraph3D.jsx:47-52 | with unique ids, the visible nodes are exactly the flagged ones, in order |
| FraudGraph.VisibleLinksJoinVisibleNodes | visual-analytics/visualization/src/components/FraudGraph3D.jsx:51-58 | every visible link joins two visible nodes |
| FraudGraph.NodeStyleRule | visual-analytics/visualization/src/components/FraudGraph3D.jsx:155-171 | radius 7 iff alerted, 6 iff selected and not alerted, else 3; glows in its own colour exactly when selected |
| FraudGraph.Find | visual-analytics/visualization/src/components/FraudGraph3D.jsx:187-189 | the first node strictly equal to the id, None exactly when there is none |
| FraudGraph.LinkColorRule | visual-analytics/visualization/src/components/FraudGraph3D.jsx:177-194 | no active id: strong grey; a resolving link is faint iff it misses the active node, and red iff it touches it and the node found is anomalous |
| FraudGraph.BareLinksStayFaint | visual-analytics/visualization/src/components/FraudGraph3D.jsx:180-184 | links with bare-id endpoints are never lit |
| FraudGraph.LinkWidthRule | visual-analytics/visualization/src/components/FraudGraph3D.jsx:195-202 | width ≤ 1.2 with no selection; otherwise 2.5 iff either end is the selected node, else 0.2 |
| FraudGraph.GraphView.constructor | visual-analytics/visualization/src/components/FraudGraph3D.jsx:12-14 | no graph, filter off, no active node |
| FraudGraph.GraphView.LoadGraph | visual-analytics/visualization/src/components/FraudGraph3D.jsx:16-41 | a successful JSON body replaces the graph; a failure keeps it |
| FraudGraph.GraphView.SetShowOnlyFraud | visual-analytics/visualization/src/components/FraudGraph3D.jsx:121 | the checkbox sets the filter |
| FraudGraph.GraphView.ClickNode | visual-analytics/visualization/src/components/FraudGraph3D.jsx:147-150 | hands on the node, makes it active and changes nothing visible |
| ExplanationsHook.BuildMap | visual-analytics/visualization/src/hooks/useExplanations.js:27-32 | the forEach over the items; stated by BuildMapFails, BuildMapKeys, LaterDuplicateWins and BuildErrorPersists |
| ExplanationsHook.MapOf | visual-analytics/visualization/src/hooks/useExplanations.js:28 | `data?.forEach`: null data gives {}; stated through LoadRules |
| ExplanationsHook.Loaded | visual-analytics/visualization/src/hooks/useExplanations.js:11-32 | one load: the map to install, or the error thrown; stated by LoadRules and ExplanationsState.Load |
| ExplanationsHook.NotOkNamesStatus | visual-analytics/visualization/src/hooks/useExplanations.js:16-18 | the error for a status that is not OK names that status: two different statuses give two different messages |
| ExplanationsHook.BuildErrorPersists | visual-analytics/visualization/src/hooks/useExplanations.js:28-32 | once an item raises, the walk raises that error |
| ExplanationsHook.BuildMapFails | visual-analytics/visualization/src/hooks/useExplanations.js:28-32 | the walk succeeds exactly when no item is null or undefined |
| ExplanationsHook.BuildMapKeys | visual-analytics/visualization/src/hooks/useExplanations.js:29 | the map's keys are exactly the items' stringified node ids |
| ExplanationsHook.LaterDuplicateWins | visual-analytics/visualization/src/hooks/useExplanations.js:29-31 | each key holds the reasons of the last item filed under it |
| ExplanationsHook.LoadRules | visual-analytics/visualization/src/hooks/useExplanations.js:16-28 | a status outside 200–299 fails with "Backend returned " and the status; a non-JSON content type, a bad body or data that is neither null nor an array fails; null data gives {} |
| ExplanationsHook.ExplanationsState.Load | visual-analytics/visualization/src/hooks/useExplanations.js:9-40 | success replaces the map; failure keeps it and reports the error |
| UserModel.RequiredString | control-tower/models/User.ts:4-6 | the `required` validator on a string; stated through ValidateRules |
| UserModel.RoleValue | control-tower/models/User.ts:7-11 | the role's default and enum; stated through ValidateRules and FormRoleNeverDefaults |
| UserModel.Validate | control-tower/models/User.ts:3-13 | schema validation with defaults; stated by ValidateRules |
| UserModel.IdToString | control-tower/auth.ts:25 | `_id.toString()`, 24 hex digits; stated by ObjectIdRoundTrip |
| UserModel.ParseObjectId | control-tower/app/actions/user.ts:35 | the cast of a string to an ObjectId; stated by ObjectIdRoundTrip and DeleteUserRules |
| UserModel.RoleOf | control-tower/models/User.ts:7-11 | an accepted role name is the name of the role returned |
| UserModel.RoleNames | control-tower/models/User.ts:9 | names and roles correspond one to one; exactly the three enum names are accepted |
| UserModel.ValidateRules | control-tower/models/User.ts:3-13 | validation succeeds exactly when name, email and password are non-empty and the role is omitted or one of the three; the document carries them, "viewer" for an omitted role, and the creation time |
| UserModel.HexStringValue | control-tower/auth.ts:25 | reading back the hex rendering gives the number when it fits |
| UserModel.ObjectIdRoundTrip | control-tower/auth.ts:25 | every ObjectId survives the round trip through its 24-hex-digit text |
| UserActions.Created | control-tower/app/actions/user.ts:18-23 | `User.create`: validation, then the unique email index; stated through CreateUserRules |
| UserActions.FormInput | control-tower/app/actions/user.ts:11-22 | the document handed to `User.create`; stated by StoresHashOnly and FormRoleNeverDefaults |
| UserActions.CreateUser | control-tower/app/actions/user.ts:8-30 | createUserAction; stated by CreateUserRules, UserCollection.CreateUserAction and ActionsKeepEmailsUnique |
| UserActions.DeleteUser | control-tower/app/actions/user.ts:32-43 | deleteUserAction; stated by DeleteUserRules, UserCollection.DeleteUserAction and DeleteByRenderedId |
| UserActions.Without | control-tower/app/actions/user.ts:35 | deleting never adds documents |
| UserActions.UserCollection.constructor | control-tower/models/User.ts:15 | an empty collection |
| UserActions.UserCollection.Create | control-tower/app/actions/user.ts:18-23 | the collection after the create is the specified result: the new document appended on success, nothing changed otherwise |
| UserActions.UserCollection.DeleteById | control-tower/app/actions/user.ts:35 | removes exactly the documents with that id |
| UserActions.AppendKeepsUnique | control-tower/models/User.ts:5 | appending a fresh email under the next id keeps emails and ids unique |
| UserActions.WithoutMembers | control-tower/app/actions/user.ts:35 | after a delete, a document remains exactly when it was there and has another id |
| UserActions.WithoutKeepsUnique | control-tower/app/actions/user.ts:35 | deleting keeps emails and ids unique |
| UserActions.WithoutNoMatch | control-tower/app/actions/user.ts:35 | deleting an id that no document has changes nothing |
| UserActions.WithoutRemovesOne | control-tower/app/actions/user.ts:35 | with unique ids, deleting an existing id removes exactly one |
| UserActions.CreateUserAction | control-tower/app/actions/user.ts:8-30 | the response and the new collection are the specified createUserAction |
| UserActions.DeleteUserAction | control-tower/app/actions/user.ts:32-43 | the response and the new collection are the specified deleteUserAction |
| UserActions.CreateUserRules | control-tower/app/actions/user.ts:8-30 | success exactly when the form has a password with a non-empty hash, a name, an email, an enum role and an unused email; it stores the hash and the form fields; otherwise the one error message and no change |
| UserActions.FormRoleNeverDefaults | control-tower/app/actions/user.ts:14-22 | a form without a role sends null, which the enum rejects: the create fails |
| UserActions.StoresHashOnly | control-tower/app/actions/user.ts:17-21 | the stored password is the hash, never the plaintext |
| UserActions.ActionsKeepEmailsUnique | control-tower/models/User.ts:5 | both actions keep emails unique |
| UserActions.DeleteUserRules | control-tower/app/actions/user.ts:32-43 | a malformed id fails with the one message and changes nothing; a well-formed id succeeds, removes that id's documents and keeps the rest |
| UserActions.DeleteByRenderedId | control-tower/app/actions/user.ts:35 | deleting by a user's own rendered id succeeds and removes them |
| Auth.Authorize | control-tower/auth.ts:12-30 | the credentials `authorize`; stated by AuthorizeRules and NamesAndRolesIgnored |
| Auth.JwtRole | control-tower/auth.config.ts:7-12 | the token's role after the jwt callback; stated by Token.Jwt and CallbackRules |
| Auth.SessionAfter | control-tower/auth.config.ts:13-18 | `session.user` after the session callback; stated by Session.Refresh and CallbackRules |
| Auth.FindByEmail | control-tower/auth.ts:14 | the first document with the email, None exactly when none has it |
| Auth.AuthorizeRules | control-tower/auth.ts:12-30 | null when no user has the email or the password does not match; otherwise exactly that user's id text, email, name and role |
| Auth.NamesAndRolesIgnored | control-tower/auth.ts:14-22 | whether, and as whom, credentials are accepted depends only on ids, emails and hashes |
| Auth.Token.Jwt | control-tower/auth.config.ts:7-12 | the token's role becomes the user's role when there is a user, else stays |
| Auth.Session.Refresh | control-tower/auth.config.ts:13-18 | the session user's role becomes the token's role when there is a user |
| Auth.CallbackRules | control-tower/auth.config.ts:7-18 | jwt with a user sets the role and later calls keep it; the session copies the role and keeps name and email |
| Auth.SignedInRoleIsStored | control-tower/auth.config.ts:7-18 | after sign-in, any number of token refreshes and the session callback, the session role is the stored role |
| Auth.RefreshKeepsRole | control-tower/auth.config.ts:8-11 | refreshing without a user never changes the role |
| Auth.SignIn | control-tower/auth.ts:15-22 | the sign-in response carries an error exactly when authorize refuses |
| AccessGuard.Middleware | control-tower/middleware.ts:9-28 | the decision for one request; stated by MiddlewareRules |
| AccessGuard.Matched | control-tower/middleware.ts:30-32 | the matcher; stated by AdminPathsMatched, ExcludedPathsSkipped and FaviconWildcardSkipped |
| AccessGuard.Route | control-tower/middleware.ts:9-32 | the middleware applied to matched paths only; stated by AdminPathsMatched |
| AccessGuard.AdminPage | control-tower/app/admin/page.tsx:8-21 | the admin page's guard and panel; stated by AdminPageRules |
| AccessGuard.MiddlewareRules | control-tower/middleware.ts:9-28 | paths outside "/admin" pass; "/admin…" redirects to "/login" without a session and to "/" with a non-admin role; it passes exactly when the path is not admin or the role is "admin" |
| AccessGuard.AdminPathsMatched | control-tower/middleware.ts:31 | every "/admin…" path is matched, so the middleware always guards it |
| AccessGuard.ExcludedPathsSkipped | control-tower/middleware.ts:31 | "/api…", "/_next/static…", "/_next/image…" and paths not starting with "/" skip the middleware |
| AccessGuard.FaviconWildcardSkipped | control-tower/middleware.ts:31 | the unescaped dot of "favicon.ico" skips "/favicon" + any non-newline character + "ico…" |
| AccessGuard.AdminPageRules | control-tower/app/admin/page.tsx:8-26 | redirect or not depends only on the session; the panel appears exactly for role "admin" and gets every stored user; a non-admin goes to "/login", where the middleware sends them to "/" |
| LoginForm.Destination | control-tower/app/components/LoginForm.tsx:25-35 | where the form navigates; stated by DestinationRules and TabDecidesLanding |
| LoginForm.ButtonLabel | control-tower/app/components/LoginForm.tsx:88 | the submit button's text; stated by ButtonLabelShowsTab |
| LoginForm.ButtonLabelShowsTab | control-tower/app/components/LoginForm.tsx:88 | two tabs give two labels, and the loading text is neither |
| LoginForm.Submission | control-tower/app/components/LoginForm.tsx:15-23 | a submit gets through exactly when not loading and both fields are non-empty; it asks for a credentials sign-in with redirect off |
| LoginForm.DestinationRules | control-tower/app/components/LoginForm.tsx:25-35 | a failure goes nowhere; success goes to "/admin" for the admin tab and "/" for the other two |
| LoginForm.TabDecidesLanding | control-tower/app/components/LoginForm.tsx:31-35 | the landing is chosen by the tab; the middleware lets it through exactly when the tab is not admin or the stored role is admin; otherwise it redirects to "/" |
| LoginForm.LoginFormState.constructor | control-tower/app/components/LoginForm.tsx:7-10 | tab "admin" (also as the submitted tab), empty fields, not loading, no alerts, navigations or refreshes |
| LoginForm.LoginFormState.SelectRole | control-tower/app/components/LoginForm.tsx:49-53 | the tab becomes the clicked role |
| LoginForm.LoginFormState.SetEmail | control-tower/app/components/LoginForm.tsx:70 | sets the email |
| LoginForm.LoginFormState.SetPassword | control-tower/app/components/LoginForm.tsx:78 | sets the password |
| LoginForm.LoginFormState.Submit | control-tower/app/components/LoginForm.tsx:15-23 | returns the specified request; when a request goes out, sets loading and records the tab selected at that moment, otherwise keeps the recorded tab |
| LoginForm.LoginFormState.Resolve | control-tower/app/components/LoginForm.tsx:25-37 | on error: one alert and loading cleared; otherwise one navigation to the destination of the tab recorded at submit time (a later tab click does not change it) and one refresh, with loading left set |

## Left out

- The trained models themselves are not modelled: the GNN (MuleSAGE), SHAP and the isolation forest. The network's probability and the detector's output are parameters.
- Reactive and async concurrency is modelled sequentially in source order: WebFlux `flatMap`, `Mono.when`, `Mono.zip`, async/await and React effects. Interleavings of parallel saves are not modelled.
- Floating point is modelled as real arithmetic:
  - IEEE doubles, `BigDecimal` and `round(…, 4)` are reals;
  - `Inference.InferenceService.Analyze`: does not model the rounding of risk, ratio and unsupervised score, because the rounding does not affect any verdict, flag or threshold.
- `Text.ParseUnsignedDecimal`: `Double.parseDouble` is modelled on decimal text with sign, fraction, exponent and f/d suffix. NaN, Infinity and hexadecimal floats are not accepted.
- Clocks become parameters: `Instant.now()`, `Date.now` and `clock(i)` for the i-th save of a batch.
- bcrypt is abstract: its `hash` and `compare` are parameter functions. MongoDB and the Spring repositories become sequences or maps with counter keys.
  - ObjectIds are numbers below 16^24. Casting a 12-byte string to an ObjectId is not modelled.
  - Connection failures of `dbConnect` are not modelled.
- Network I/O and logging are left out or recorded as logs: fetch, the backend client, AbortController, `console.log`, `print`, `revalidatePath`, `alert` and `router.refresh`.
- The FraudExplanation entity class is not part of this model. Its record holds the fields the controller assigns.
- JS numbers in positions the model does not type (such as link amounts) are reals. References are not modelled: `JsValues.StrictEq` never holds between objects or arrays, even when the source would compare an object with itself. The `__proto__` key is ordinary.
- Ledger.Step: in- and out-degrees are unbounded integers. Java's `long` wrap-around after 2^63 - 1 calls is not modelled.
- GraphRead.Render: a nested document renders as `{...}` rather than as Java's `{key=value, ...}`. Both texts start with `{`, so every parse of them fails either way; only the text of an id or of an error differs.
- Text.ParseDouble: a value beyond the double range, such as `1e400`, is its exact real, where Java gives Infinity or 0.0.
- Inference.InferenceService.Analyze: a target row index beyond the loaded graph's rows is handed to the network parameter as it is. The index error the graph network would raise for that edge is not modelled.
- Text.DigitZero: the decimal digits are those of Unicode 7 and later, the 37 runs in the Basic Multilingual Plane. An older Java runtime knows fewer of them.
- The FraudGraph3D camera, ResizeObserver, labels and particles are left out, because they only affect rendering.
- `authorize` with missing credential fields is not modelled: credentials always hold an email and a password.
- The browser's `type="email"` format check is left out: the form only requires non-empty fields.
- NextAuth's token signing, cookies and JWT expiry are not modelled. The Next.js matcher's data-route and locale handling is not modelled.
- `NodePipeline.NormalizeNeverEmpty`: states non-emptiness through the two id keys only; `NodePipeline.NormalizeKeys` gives the full ten-key set.
- The `run_internal_generator` and `run_internal_trainer` endpoints and the other ai-engine routes are not part of the core modelled here.
