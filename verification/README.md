# Verification of the evidence, release and reconciliation machinery

This project models the parts of the repository that decide what counts as proof: the OCR envelope
and evidence pipeline, the backup tree commitment, content-addressed publication, the formal
acceptance run, remote index reconciliation, and the life of a run's scratch resources. It states
what those parts promise and proves it for all inputs, all listing orders, all interleavings and all
failure patterns that the model admits. `dafny verify dfyconfig.toml` checks everything.

| module | models |
|---|---|
| `Wrappers`, `Bytes`, `Sorting`, `Json`, `JsonText` | optional values; octets, hexadecimal and UTF-8; sorting by string keys; the canonical JSON printer, its parser, and the text it prints |
| `Envelope`, `HeaderObjects`, `Coordinates` | the length-prefixed binary envelope with its canonical header; which JSON objects are headers, and which numbers they may spell |
| `Jpeg`, `JpegMarkers` | the marker scanner, and the markers it knows |
| `Ocr`, `OcrMeaning` | the summariser, the block passes, the adapter, and the consumer that recomputes the summary; what blocks, counts and streams say of the recogniser's result |
| `Responses` | the response loop of the F0-F and F0-H runners |
| `Tree`, `TreeCounts`, `TreeReader`, `Backup`, `ManifestMeaning` | the tree commitment and a reader of its stream; the manifest, creation and verification of a backup; which manifests are valid |
| `Batches`, `Pointers`, `Publication`, `PublicationProgress` | publishers that share one directory, and a reader of what they publish |
| `Verdict`, `GateMeaning`, `EvidenceMeaning`, `Material` | gate records, evidence summary and the layered verdict; what gates ask for, and the cause of each blocker |
| `Formal`, `Documents`, `Rejection`, `EvaluatedRejection`, `RunOrder`, `FormalRun` | the gate state machine, the fail-closed rejection and those that evaluation renders, the order of a run, and the whole run |
| `RejectionReader`, `EvaluatedReader`, `Tokens` | a reader of rejections: what it finds in the payload and on the status page; the success token |
| `Remote`, `RemoteContent`, `RemoteDelete`, `RemoteHonest` | snapshots of a remote index, what they take of content, the delete loop, and a remote side on which it passes |
| `Lifecycle`, `Names` | scratch database, secret directory and buckets of an ingestion run; the shapes of names, texts and events |
| `Unwrap`, `ScannerBuffer` | the walk over linked exceptions, and the grouping event buffer |
| `Limits` | what becomes of input beyond the limits |

SHA-256 is an arbitrary function `h` from bytes to 32 bytes, a parameter everywhere. No theorem assumes
that it has no collisions: a theorem that needs two inputs told apart says so about those two inputs.
What a file system, a process, a network or a remote service answers is arbitrary: a parameter, so that
results can be stated in terms of it. Only how a stream splits its reads is drawn anew at each call. The
protocol of the publishers is a state machine over single file-system calls; the scheduler is the list
of actions, so a statement about every list is a statement about every interleaving.

## What the code does not meet

Where a promise is false of the code, the code is kept and the exact condition is proved.

- The scratch run of `infra/f1/local_ingestion_verify.py` leaves its world as it was, on a return or on an
  error other than the two that announce a failed cleanup, if and only if no resource was created behind
  its handlers' back (`Lifecycle.Run`). There are two such resources: a directory of secrets whose first
  `chmod` raises, since that call stands between `mkdtemp` and the handler (`Lifecycle.ChmodLeak`), and a
  database whose creation took effect but whose answer was lost (`Lifecycle.LostCreation`).
- The consumer in `src/platform_foundation/f0h/contracts.py` recomputes the same summary from the blocks
  of every result that the runner accepts, but it takes the result only if every rounded box has a width
  and a height and no coordinate passes one million (`Ocr.ConsumerAgrees`, `Ocr.ThinBoxRefused`, `Ocr.FarBoxRefused`).
- After an internal error, F0-F reports `INTERNAL_ERROR` even when the temporary files could not be
  removed; F0-H reports the failed cleanup. `Responses.Report` and `Responses.Run` state the code
  as a function of the failure and the answers; `Responses.HiddenLeftovers` and
  `Responses.ReportedLeftovers` are the same run under each.
- A stack whose entry fails is closed, except exactly when the clean-up in its entry raises
  (`RunOrder.Stack.Enter`, `RunOrder.OpenStack`). Publication stays blocked all the same (`RunOrder.RunFormalAcceptance`).
- Three guards can never fire: the token guard on the files of a rejected candidate that the run renders
  (`Rejection.FailClosedIsScreened`, `EvaluatedRejection.EvaluatedIsScreened`), the one on its pointer
  (`Rejection.RejectedPointerHasNoToken`), and the last unit check of a remote snapshot
  (`Remote.EveryUnitSeen`).

## Model

| member | source | states |
|---|---|---|
| Publication.EveryRunIsSafe | infra/f1/artifacts_v03.py:503-588 | for every interleaving of any number of publishers, with calls that fail and publishers that stop anywhere: at each moment every batch is a complete file set named by the hash of its manifest, and reading its manifest as JSON finds the digests of the other three files; reading `current.json`, if present, finds under `batch_id` the name of a batch that is there and under `files` the digest of each of its four files; from each moment to every later one no installed batch is removed or changed |
| Publication.DoneMeansInstalled | infra/f1/artifacts_v03.py:547-588 | a publisher that returned has its batch in place then and at every later moment, and there is a `current.json` |
| Publication.RejectedRunsShowNoToken | infra/f1/formal_acceptance.py:2084-2085 | a run of rejected candidates only installs no file with the success token, and leaves `current.json` as it was or pointing at a rejected batch |
| Publication.AcceptedPointerIsEarned | infra/f1/artifacts_v03.py:468-588 | in runs of any mixture of candidates, a new `current.json` in which a reader finds the conclusion of acceptance is the pointer of an accepted candidate whose batch is installed |
| Publication.AcceptedPointer | infra/f1/formal_acceptance.py:2125-2131 | a reader of the pointer finds the conclusion of acceptance if and only if its candidate is accepted |
| Publication.LegacyRetiredAfterCurrent | infra/f1/artifacts_v03.py:477-488 | superseded top-level files go only once there is a `current.json`; only the three known names ever go, and nothing is added |
| Publication.RunKeeps | infra/f1/artifacts_v03.py:468-588 | every list of actions keeps the invariant that ties the shared directory to what each publisher has achieved so far |
| Publication.ApplyKeeps | infra/f1/artifacts_v03.py:468-588 | one action of any publisher keeps that invariant |
| Publication.AdvanceGood | infra/f1/artifacts_v03.py:547-582 | one call of one publisher, at each place of the protocol: what it achieves, that it changes only its own stage, its own temporary file, a batch that did not exist, or the pointer to an installed batch |
| Publication.RenameGood | infra/f1/artifacts_v03.py:556-565 | while the batch name is free, a rename that succeeds installs exactly the planned files there, takes the stage away and touches neither pointer nor superseded files; where the name is taken, the rename loses: the directory is unchanged and the publisher goes on to verify what is there |
| Publication.VerifyFileGood | infra/f1/artifacts_v03.py:491-500 | verification succeeds only when the file set and every digest of the installed batch are as expected |
| Publication.ReplaceCurrentGood | infra/f1/artifacts_v03.py:468-475 | the pointer is replaced as a whole, and only by one in which a reader finds the name of an installed batch and the digests of its files |
| PublicationProgress.PublisherFinishes | infra/f1/artifacts_v03.py:503-588 | a publisher whose calls succeed reaches its end from any directory whose batch of that name, if there is one, has the planned digests: it installs its batch or reuses that one, points `current.json` at it, leaves no stage and retires the superseded files |
| PublicationProgress.PublisherFinishesInSound | infra/f1/artifacts_v03.py:503-588 | in every sound directory, a publisher of a screened candidate that is scheduled alone finishes with its batch installed and current, unless its manifest and that of a batch of the same name are a collision of the hash |
| PublicationProgress.SameNameInstalled | infra/f1/artifacts_v03.py:491-500 | in a sound directory, a batch under the planned name is the planned batch, unless the two manifests collide |
| PublicationProgress.InstallNew | infra/f1/artifacts_v03.py:550-571 | staging, writing and renaming end with exactly the planned files under the batch name and no stage left |
| PublicationProgress.ReuseInstalled | infra/f1/artifacts_v03.py:548-549 | an installed batch with matching digests is verified and reused without any change to the directory |
| PublicationProgress.WriteAll | infra/f1/artifacts_v03.py:554-555 | the stage is filled file by file to exactly the planned contents |
| PublicationProgress.MakeCurrent | infra/f1/artifacts_v03.py:468-488 | the pointer becomes the planned bytes and the three superseded files go; batches and stages stay |
| PublicationProgress.RunSolo | infra/f1/artifacts_v03.py:503-588 | scheduling only one publisher leaves all others as they are |
| Batches.PlanComplete | infra/f1/formal_acceptance.py:2086-2093 | the planned files are a complete batch: manifest of the three digests, name the hash of the manifest |
| Pointers.PointerRead | infra/f1/artifacts_v03.py:572-577 | parsing the pointer as JSON gives the batch name, the conclusion, and the digest of each of the four files under its name |
| Pointers.ManifestRead | infra/f1/formal_acceptance.py:2086-2090 | parsing the manifest as JSON gives the digest of each of the three files under its name |
| Pointers.CurrentParses | infra/f1/artifacts_v03.py:103-106 | the indented text of `current.json` parses to exactly its fields, in order |
| Batches.ManifestHasNoToken | infra/f1/formal_acceptance.py:2084-2090 | the manifest, which no guard looks at, cannot hold the success token |
| Rejection.RejectedPointerHasNoToken | infra/f1/formal_acceptance.py:2125-2133 | the pointer of a rejected candidate never holds the success token, so its guard never fires |
| Verdict.ParseExactMetrics | infra/f1/formal_acceptance.py:1562-1581 | succeeds if and only if exactly one line mentions an expected name and that line lists each expected name once and nothing else; the result holds every pair of that line and nothing else |
| Verdict.CheckMetrics | infra/f1/formal_acceptance.py:1636-1639 | clean exactly when there is one exact metrics line and every value that stands on it is zero |
| Verdict.GateRecord | infra/f1/formal_acceptance.py:1610-1690 | the exit is zero if and only if the gate has no blocker of its own, which is if and only if its commands all exited zero and their outputs are what the gate asks for; exactly which blockers are raised; otherwise the exit is that of the first command that failed, 127 where nothing ran, and 2 where only the output is red; the reverse metrics are the pairs of the one exact line, or nothing |
| Verdict.RecordRaises | infra/f1/formal_acceptance.py:1610-1690 | each blocker of a record, from its cause: which gate, and which command, exit or output is red |
| GateMeaning.GateCleanMeans | infra/f1/formal_acceptance.py:1583-1690 | a gate is clean if and only if it has results, all with exit zero, and the last result under each name it is judged by shows what is asked, in numbers: one run of at least 300 tests without skips, one of at least 875 with three, all metrics zero, one marker, no canary hit, one digest |
| GateMeaning.ResultIsLast | infra/f1/formal_acceptance.py:1630-1630 | looking up results by name finds the last one of that name |
| GateMeaning.MarkerMeans | infra/f1/formal_acceptance.py:1669-1687 | the digest of a rebuild or inventory record is the one that its last result printed, and INVALID where that did not print exactly one |
| Verdict.MigrationBlockers | infra/f1/formal_acceptance.py:1631-1639 | exactly which blocker is raised: one where a migration did not announce itself once, the other where the database verifier does not report all zeroes |
| Verdict.SummarizeGate | infra/f1/artifacts_v03.py:327-367 | which blockers one gate entry raises, exactly, and its summary line: exit, digests or the word INVALID, and the metric counts |
| Verdict.SummarizeMetrics | infra/f1/artifacts_v03.py:342-356 | no blocker exactly when the metric names are the expected ones and all values are zero; which of the two blockers otherwise; how many expected metrics are not zero |
| EvidenceMeaning.SummaryRaises | infra/f1/artifacts_v03.py:311-372 | every blocker of the evidence has its cause and every cause its blocker: schema, forbidden material, gates that are missing or undeclared, and what each entry lacks |
| EvidenceMeaning.RecordRead | infra/f1/artifacts_v03.py:326-366 | a gate record, written as JSON and looked up by key, is the entry on which the evidence layer and the orchestrator are compared |
| EvidenceMeaning.LineOfRecord | infra/f1/artifacts_v03.py:331-366 | a summary line shows the record's own exit and digests |
| EvidenceMeaning.GateNamesAgree | infra/f1/formal_acceptance.py:1623-1623 | a gate is named in reason codes as in the evidence, in capitals |
| EvidenceMeaning.FaultsDiffer | infra/f1/formal_acceptance.py:1710-1741 | the reason codes of faulty evidence tell the faults apart |
| Verdict.EvidenceSummary | infra/f1/artifacts_v03.py:311-372 | no blocker if and only if the evidence is clean: shape, every gate, equal rebuild digests; the blockers, exactly; every line shows the exit, the metric counts, and the digests, or the word INVALID, of its entry |
| Verdict.AcceptanceBlockers | infra/f1/artifacts_v03.py:375-414 | no blocker if and only if the evidence is clean, the orchestrator ran, and the inventory digest in the evidence is the one just built; the blockers, exactly |
| Verdict.PublishedDirectly | infra/f1/artifacts_v03.py:503-518 | publishing serialized evidence directly can never accept |
| Verdict.GateLayersAgree | infra/f1/formal_acceptance.py:1688-1690 | for a record of the orchestrator, the evidence layer is satisfied exactly when the gate raised no blocker, and reports a nonzero exit exactly otherwise |
| Verdict.EvidenceLayerAgrees | infra/f1/artifacts_v03.py:311-372 | over all gates: the evidence layer is satisfied if and only if every gate is clean and the two rebuild markers are equal |
| Verdict.FormalVerdict | infra/f1/formal_acceptance.py:1956-1993 | accepted if and only if the union of blockers is empty, which is if and only if the orchestrator has none, every gate is clean, the rebuilds agree and the inventory is unchanged; the blockers of all layers, exactly; a gate-exit blocker appears for exactly the gates with blockers of their own |
| Material.PathIsForbidden | infra/f1/artifacts_v03.py:121-136 | whatever offends, a forbidden key or a path at any depth, is found |
| Material.ForbiddenHasPath | infra/f1/artifacts_v03.py:121-136 | and nothing is found where nothing offends |
| Names.PathTextMeans | infra/f1/artifacts_v03.py:132-136 | which texts count as paths, by what they start with or hold |
| Names.ForbiddenNames | infra/f1/artifacts_v03.py:75-78 | the fourteen keys that evidence must not have |
| Material.RecordAllowed | infra/f1/formal_acceptance.py:1624-1690 | the record of any gate that shows digests, or the word INVALID, where it promises digests is never forbidden material |
| Material.EvidenceAllowed | infra/f1/formal_acceptance.py:2342-2342 | the whole evidence built from the gate records is never forbidden material, whatever the commands printed |
| Formal.EvaluateFormal | infra/f1/formal_acceptance.py:2159-2376 | over everything the surroundings answer: accepted if and only if no observation drifted, no command was missing, every gate's outputs are clean, the rebuilds agree, the documents bind and the inventory is unchanged; what was observed is what was answered, so a calm and deserving run is accepted; an accepted one ran every registered command exactly once in registry order with exit zero, source and checkout were looked at after each; after a halting observation no command runs |
| GateMeaning.AcceptanceIsPossible | infra/f1/formal_acceptance.py:2159-2376 | for every setup with a full registry there are answers on which the run is accepted, so that none of the conditions excludes another |
| GateMeaning.RegistryRegistered | infra/f1/formal_acceptance.py:315-389 | the registry has every command that a gate is judged by |
| Formal.TraceRaises | infra/f1/formal_acceptance.py:2194-2284 | which blocker each look and each missing command gives cause for |
| Formal.RunGates | infra/f1/formal_acceptance.py:2188-2289 | the gate loop: halted exactly when something halted it; nothing runs after that; no blocker exactly when all observations are calm and no gate has blockers, and every look that is not calm has its blocker; a calm, clean run ran all gates' commands |
| Formal.RunGate | infra/f1/formal_acceptance.py:2189-2284 | one gate, halted before it or not |
| Formal.RunCommands | infra/f1/formal_acceptance.py:2216-2272 | the command loop of a gate, which stops at the first drift |
| Formal.RunCommand | infra/f1/formal_acceptance.py:2217-2272 | one command: missing, run and calm, or run and halting; a calm one is followed by looks at source and checkout |
| Formal.StartGate | infra/f1/formal_acceptance.py:2191-2216 | a gate without commands, or behind a broken boundary, runs nothing and is blocked |
| Formal.WatchGate | infra/f1/formal_acceptance.py:2273-2284 | the look that ends each gate, with exactly the blockers of the drift it saw |
| Formal.CheckDocuments | infra/f1/formal_acceptance.py:2301-2363 | no blocker exactly when the first rebuild digest is a digest, equals the second, both rounds' documents load and project, and the runtime inventory binds; the blockers, exactly |
| GateMeaning.DocumentsMean | infra/f1/formal_acceptance.py:2301-2363 | the cause of each of these blockers |
| Formal.RegistryInGateOrder | infra/f1/formal_acceptance.py:315-389 | taking the registry gate by gate gives registry order |
| Formal.RegistryNamesDistinct | infra/f1/formal_acceptance.py:315-389 | no command is registered twice |
| Formal.Conclude | infra/f1/formal_acceptance.py:2291-2373 | a finished gate loop ends in acceptance if and only if every look was calm and the commands' and documents' answers deserve it |
| RunOrder.RunFormalAcceptance | infra/f1/formal_acceptance.py:2435-2461 | for every placement of exceptions: exactly one verdict is published, last; it is the evaluated candidate if and only if nothing raised, nothing had changed and nothing was left, and then it comes after evaluation, the stack's exit, the clean assertion and the removal of the directory, in that order; otherwise it is the rejection for that failure's code, which passes the token guard; an entered stack is closed by then |
| RunOrder.RunEvaluation | infra/f1/formal_acceptance.py:2435-2461 | with what evaluation ended with, rendered, every run publishes one verdict that passes the token guard, so an older pointer never stays for a rejection that could not be published; it accepts if and only if the evaluation did and all went well |
| FormalRun.Run | infra/f1/formal_acceptance.py:2435-2461 | the whole run, from the answers of gates, looks and documents to what is published: exactly one verdict, last, which passes the guard; it accepts if and only if nothing around the evaluation went wrong, the evaluation did not raise, every look was calm, and commands and documents deserve it |
| FormalRun.Evaluate | infra/f1/formal_acceptance.py:2159-2376 | evaluation with its rendered candidate: a rejection is rendered from exactly the blockers and the gate summary that it computes, with a blocker for every look that was not calm; it rejects exactly when there is a blocker; every candidate passes the guard |
| EvaluatedReader.RunReads | infra/f1/formal_acceptance.py:1956-2011 | the rejection that a run renders, read back: `acceptance.json` says that nothing is accepted, for each gate the exit, digests and counts of its line, the digests of registry, configuration, source and inventories; its reason codes are those of exactly the blockers and faults that were found, each once, and the status page lists the same |
| EvaluatedReader.EvaluatedReads | infra/f1/formal_acceptance.py:1996-2011 | every field of a rejected payload that a reader looks up is the one it was rendered from |
| EvaluatedRejection.CodesListed | infra/f1/formal_acceptance.py:1969-1969 | reason codes are listed once each, in code-point order, and none is lost |
| RunOrder.PrepareAndEvaluate | infra/f1/formal_acceptance.py:2442-2456 | there is no error if and only if all goes well; then every step ran in order and the stack is closed and verified |
| RunOrder.EvaluateInStack | infra/f1/formal_acceptance.py:2450-2453 | the stack is left whenever it was entered, and there is no error exactly when entry, evaluation and exit all went well |
| RunOrder.Stack.Enter | tests/f111_clean_rebuild.py:7131-7202 | a failed entry closes the stack, except exactly when its clean-up raises; a stack is entered once at most |
| RunOrder.OpenStack | tests/f111_clean_rebuild.py:7195-7197 | that exception: the entry failed, its clean-up raised, and the stack is open |
| RunOrder.Stack.Exit | tests/f111_clean_rebuild.py:7204-7229 | leaving closes the stack whatever it finds; it passes and verifies exactly when nothing had changed, the clean-up did not raise and nothing was left |
| Rejection.FailClosedIsScreened | infra/f1/formal_acceptance.py:2392-2432 | whatever code the error carries and whatever the configuration digest, none of the three rendered files holds the success token |
| Tokens.ReportedReads | infra/f1/formal_acceptance.py:2379-2432 | what a reader of a fail-closed rejection finds: `acceptance.json` parses to a document that is not accepted and lists one reason, and the status page lists the same; it is the error's own code if and only if that has the fixed format and holds no token |
| RejectionReader.RejectionReads | infra/f1/formal_acceptance.py:1996-2011 | a reader of a rejection finds in `acceptance.json` that it is not accepted, the digest of the evidence, and exactly the reason codes it was rendered from, in order |
| RejectionReader.PrettyThenRead | infra/f1/artifacts_v03.py:103-106 | indented JSON is read back to the document it was printed from, and reading stops where the document ends |
| RejectionReader.StatusLists | infra/f1/artifacts_v03.py:417-431 | the list items of the status page are exactly the reason codes, in order |
| Tokens.ReadyIsPart | infra/f1/artifacts_v03.py:578-579 | a file holds the token exactly when it can be cut around it |
| Tokens.ReportableMeans | infra/f1/formal_acceptance.py:2382-2387 | which codes may be shown, by their characters and length, and that the word READY is no part of them |
| Tokens.SerialIsUuid | infra/f1/artifacts_v03.py:450-451 | the serial number of the bill of materials spells the first half of the inventory digest in groups of 8, 4, 4, 4 and 12 digits |
| EvaluatedRejection.EvaluatedIsScreened | infra/f1/formal_acceptance.py:1956-2011 | a rejected candidate of an evaluation passes the token guard, whatever its blockers, gate summary, rebuild projection, build inputs and digests |
| EvaluatedRejection.CodeTextQuiet | infra/f1/formal_acceptance.py:1610-1690 | no reason code that evaluation can list holds the token |
| Rejection.RenderRejectedHasNoToken | infra/f1/formal_acceptance.py:1996-2011 | the three files of a rejection hold the token only where a text that they are given does |
| Rejection.PrettySealed | infra/f1/artifacts_v03.py:103-106 | pretty-printing makes no token that no text of the value holds |
| Rejection.StatusHasNoToken | infra/f1/artifacts_v03.py:417-431 | the status page of a rejection holds no token |
| Rejection.FailureBlockerReportable | infra/f1/formal_acceptance.py:2379-2389 | the reported reason has the fixed format and holds no token |
| Envelope.DecodeIffEncode | infra/f0e/runner.py:294-318 | the reader accepts a stream if and only if it is the print of the pair it returns: header valid, canonical and of the right size, source of the declared size and digest, nothing after it |
| Coordinates.PdfDecodes | infra/f0e/runner.py:243-318 | for every source and every numbers for pages, boxes and rotation: the header that spells them describes the source if and only if the numbers are in range, left below right and bottom below top, and then its envelope decodes to exactly that header and source |
| Coordinates.JpegDecodes | infra/f0e/runner.py:243-318 | the same for an image, by its width and height |
| Coordinates.SpelledReads | infra/f0e/runner.py:366-371 | a coordinate printed with a sign and three places is read as the number it was printed from, for every integer of thousandths |
| Coordinates.CoordinateIsPrinted | infra/f0e/runner.py:227-236 | the texts taken as coordinates are exactly the printed numbers from minus to plus a million, and "-0.000" |
| Coordinates.PrintedValid | infra/f0e/runner.py:227-240 | a printed box is valid if and only if its numbers are in range, left below right and bottom below top; negative ones included |
| Coordinates.HexIsDigest | infra/f0e/runner.py:83-83 | 64 hexadecimal digits are exactly the spellings of the 32 byte digests |
| Limits.HeaderLength | infra/f0e/runner.py:296-299 | the length of a header is refused exactly when it is zero or above 4096, whatever follows |
| Envelope.EncodeInjective | infra/f0e/synthetic_probe.py:63-106 | two pairs never share a stream |
| Envelope.TruncationRefused | infra/f0e/runner.py:215-224 | every proper prefix of a printed envelope is refused as truncated |
| Envelope.ExtensionRefused | infra/f0e/runner.py:314-315 | every proper extension is refused for its trailing bytes |
| Envelope.ReadEnvelope | infra/f0e/runner.py:294-318 | the result depends on the bytes the stream delivers and not on how it splits its reads |
| Envelope.ReadSized | infra/f0e/runner.py:297-318 | behind the length prefix, the result is a function of the length and the bytes that follow, for any split |
| Envelope.ReadExact | infra/f0e/runner.py:215-224 | exactly the next bytes, or truncation, for any split |
| Envelope.ReadSource | infra/f0e/runner.py:311-318 | the checks behind the header, on what is left of the stream |
| Envelope.Stream.Read | infra/f0e/runner.py:215-224 | a read returns some beginning of what is left, empty only at the end |
| Envelope.HeaderRoundTrip | infra/f0e/runner.py:243-291 | validating the fields of a valid header gives it back |
| HeaderObjects.HeaderIffFields | infra/f0e/runner.py:243-291 | a header is read from exactly the JSON objects that hold the fields of that valid header, in any order, with nothing missing and nothing more |
| Envelope.HeaderKeysAscend | infra/f0e/runner.py:108-111 | the fields are listed in the order that sorted keys give |
| Envelope.HeaderPrints | infra/f0e/runner.py:297-300 | every valid header prints within the 4096 bytes that the reader accepts |
| Json.LoadsOfPrint | infra/f0e/runner.py:108-111 | parsing the canonical print of a value gives the value (sections 4 and 7 of RFC 8259) |
| Json.PrintThenParse | infra/f0e/runner.py:206-212 | so does parsing it where something follows |
| Json.PrintInjective | infra/f0e/runner.py:108-111 | a stream of printed values can be cut up in one way only |
| JsonText.EscapeIsShortest | infra/f0e/runner.py:108-111 | a character is printed by a spelling that reads back as it, and no text of visible characters that reads back as it is shorter |
| JsonText.PrintVisible | infra/f0e/runner.py:108-111 | a printed document has no line break and no character outside visible ASCII |
| JsonText.SpaceAround | infra/f0e/runner.py:302-305 | white space before and after a document makes no difference to what is parsed |
| JsonText.EscapesRead | infra/f0e/runner.py:302-305 | the escapes of quote, backslash and slash read as that character |
| JsonText.ControlsRead | infra/f0e/runner.py:302-305 | the five two-character escapes of control characters read as those |
| Json.PrintAscii | infra/f0e/runner.py:108-111 | the canonical print is ASCII |
| Jpeg.ScanIffFrame | infra/f0e/runner.py:485-531 | the scanner returns a size if and only if the bytes are a start of image, then fill bytes, standalone markers and sized segments, then a first frame header of that size before any scan (sections B.1.1 and B.2.2 of ITU-T T.81) |
| Jpeg.ScanComplete | infra/f0e/runner.py:485-531 | every byte string of that grammar is accepted |
| Jpeg.ScanSound | infra/f0e/runner.py:485-531 | and a decomposition is found for every accepted one |
| Jpeg.FrameSizeUnique | infra/f0e/runner.py:520-527 | the grammar gives a byte string one size at most |
| Jpeg.TailIgnored | infra/f0e/runner.py:520-527 | nothing after the frame header matters |
| Jpeg.JpegDimensions | infra/f0e/runner.py:485-531 | the loop over positions computes that function, within bounds and with termination |
| Jpeg.SkipFillAt | infra/f0e/runner.py:507-508 | the position behind the fill bytes |
| Jpeg.ReadSegment | infra/f0e/runner.py:511-531 | one turn of the loop behind a marker: result, or position to go on from |
| JpegMarkers.FrameMarkers | infra/f0e/runner.py:489-503 | the thirteen markers that start a frame; tables and application data are none of them |
| JpegMarkers.StandaloneMarkers | infra/f0e/runner.py:513-514 | the eleven markers without a length |
| JpegMarkers.TablesMayPrecede | infra/f0e/runner.py:504-531 | whatever application data, quantisation tables and Huffman tables stand before a frame header, the height and width written in it are found, and whatever follows |
| JpegMarkers.ScanFirstRefused | infra/f0e/runner.py:529-531 | a file whose scan comes before any frame header is refused |
| Tree.TreeSummary | infra/f1/local_backup.py:219-261 | whatever order directories are listed in, the summary is that of the one sorted list that names every descendant once |
| Tree.ListTree | infra/f1/local_backup.py:219-245 | the worklist records every descendant exactly once, with its kind, size and digest |
| Tree.VisitEntry | infra/f1/local_backup.py:231-245 | one directory entry keeps the worklist invariant |
| Tree.HashRecords | infra/f1/local_backup.py:247-261 | the loop over the sorted records feeds exactly the framed stream and counts |
| Tree.SortedListUnique | infra/f1/local_backup.py:250-250 | a tree has one sorted list |
| Tree.TreeStreamInjective | infra/f1/local_backup.py:247-259 | the byte stream can be decoded in one way only |
| Tree.PosixInjective | infra/f1/local_backup.py:205-216 | the spelled paths of two entries differ |
| Tree.SameTreeSameList | infra/f1/local_backup.py:219-261 | two trees have the same list if and only if they have the same paths, kinds, sizes and content digests |
| Tree.SummaryIffSameTree | infra/f1/local_backup.py:533-550 | equal summaries if and only if the same tree, unless the two streams are a collision of the hash |
| Tree.SameTreeEqual | infra/f1/local_backup.py:219-261 | the same tree means the same contents, unless two files collide |
| TreeReader.ReadOfStream | infra/f1/local_backup.py:247-259 | a reader that is told nothing about the tree finds in the hashed stream the path, kind, size and digest of every record, in order |
| TreeReader.SplitOfPosix | infra/f1/local_backup.py:205-216 | a spelled path splits at its slashes into the names it was made of |
| TreeReader.NameIsPart | infra/f1/local_backup.py:205-216 | an entry is named by one part of a path, and by neither of the names that stand for directories themselves |
| TreeCounts.CountsOfTree | infra/f1/local_backup.py:248-261 | the counts are the number of regular files and the sum of their sizes |
| Backup.CreatedVerifies | infra/f1/local_backup.py:430-530 | every manifest that can be written verifies on the dump and tree it describes, and comes back as it was |
| Backup.Stage.CreateThenVerify | infra/f1/local_backup.py:430-530 | creating a manifest and then verifying on one unchanged stage, with its listings in any order: the stage holds the text of the manifest that describes it, and verification returns that manifest; this is how it ends wherever a manifest can be made and no call fails; where none can be made, nothing is written |
| TreeReader.CreateAndTell | infra/f1/local_backup.py:430-530 | what the created manifest says of the stage itself: the dump's digest and length, the number of the tree's files and their total size, the digest of a stream in which a reader finds the tree's entries, and the given names, counts and time |
| Backup.ManifestPrints | infra/f1/local_backup.py:354-364 | every valid manifest whose integers the interpreter can print, 4300 digits at most, prints within the 64 KiB that verification reads |
| Backup.VerifiedDocument | infra/f1/local_backup.py:484-530 | a document verifies as a manifest if and only if that manifest can be written, the document is its canonical text, under the same identifiers, and it describes the dump and tree at hand |
| Backup.ChangesAreCaught | infra/f1/local_backup.py:508-530 | a dump or tree that still passes is the one described, unless it exhibits a collision of the hash |
| Backup.Stage.AtomicWriteManifest | infra/f1/local_backup.py:383-427 | a crash or failure at any call leaves `manifest.json` absent or complete, an existing one is never replaced, and only the own temporary file can be left; the write succeeds if and only if there was no manifest and no call fails |
| Backup.Stage.CreateManifest | infra/f1/local_backup.py:430-472 | what is written is the manifest that describes the stage, or nothing; one is made exactly where it can be, and creation returns exactly where no call of its write fails |
| Backup.Stage.ComputeManifest | infra/f1/local_backup.py:430-468 | a manifest is computed if and only if the arguments are valid, the stage holds exactly dump and tree, the tree fits its stream and the integers can be printed; it describes that dump and tree |
| Backup.Stage.VerifyBackup | infra/f1/local_backup.py:484-530 | verification of the stage is the check of its document against dump and tree |
| Backup.Stage.RequireExactRoot | infra/f1/local_backup.py:375-380 | passes exactly for the expected set of names |
| Backup.VerifyRestored | infra/f1/local_backup.py:533-550 | succeeds exactly when the restored tree is the backed-up one, up to a collision of the hash |
| Backup.ManifestRoundTrip | infra/f1/local_backup.py:311-351 | validating the fields of a valid manifest gives it back |
| ManifestMeaning.ManifestMeans | infra/f1/local_backup.py:311-351 | which manifests are valid, in characters, numbers and dates: names, digests, counts, one of three table counts, and a moment of the calendar |
| ManifestMeaning.TimestampMeans | infra/f1/local_backup.py:345-350 | a text is a timestamp exactly when it spells a moment of the calendar, leap years included |
| Limits.ManifestLength | infra/f1/local_backup.py:167-176 | a manifest file is refused for its size exactly when it has more than 65536 bytes |
| Backup.ManifestKeysAscend | infra/f1/local_backup.py:354-364 | the fields are listed in the order that sorted keys give |
| Backup.ParseManifestText | infra/f1/local_backup.py:475-507 | reading the written text gives the manifest |
| Ocr.SummarizeOcr | infra/f0e/runner.py:397-482 | refuses exactly the results that are not acceptable, and computes a function of the blocks of an acceptable one |
| Ocr.NormalizeBlocks | infra/f0f/runner.py:181-223 | the block pass succeeds exactly where the summariser does, with those blocks |
| Ocr.SummarizeItem | infra/f0e/runner.py:414-460 | one item of the summariser: refused exactly for what makes the result unacceptable, and otherwise all running totals stay those of the blocks so far |
| Ocr.NormalizeItem | infra/f0f/runner.py:188-222 | one item of the block pass, a pass of its own: refused only where the result is unacceptable, and otherwise the next block |
| Ocr.AdaptOutput | infra/f0h/runner.py:233-263 | accepts exactly three missing lists, or three parallel ones with convertible boxes, and zips them |
| Ocr.RoundedBox | infra/f0e/runner.py:374-394 | four finite points, each rounded and clamped to the page |
| Ocr.ConsumerAgrees | src/platform_foundation/f0h/contracts.py:307-373 | on every result the runner accepts, the consumer recomputes the same summary from the blocks; it takes the result if and only if every rounded box has a width and a height and no coordinate passes one million |
| Ocr.ThinBoxRefused | src/platform_foundation/f0h/contracts.py:255-256 | a box thinner than a pixel is accepted by the runner and refused by the consumer |
| Ocr.FarBoxRefused | src/platform_foundation/f0h/contracts.py:171-176 | and so is a box beyond the millionth pixel of a wide page |
| Ocr.ValidateResult | src/platform_foundation/f0h/contracts.py:354-362 | takes exactly the results whose blocks are valid on the page and whose summary is recomputed |
| Ocr.SummarizeBlocks | src/platform_foundation/f0h/contracts.py:223-287 | the recomputed summary is that function of the reread blocks, for valid blocks with proper boxes |
| Ocr.ValidatedBlocks | src/platform_foundation/f0h/contracts.py:195-220 | which received blocks are valid, exactly |
| Ocr.SummaryBounds | infra/f0e/runner.py:397-482 | the union lies in the page and is absent only for an empty list; the confidences are absent exactly when nothing but blanks was read, and otherwise least, mean, greatest and one million ascend |
| Ocr.UnionIsLeast | infra/f0e/runner.py:439-450 | a rectangle covers every corner of every box if and only if the union lies within it |
| Ocr.ConfidenceBounds | infra/f0e/runner.py:462-466 | twice the distance of count times mean from the sum is at most the count, and the mean is between the least and the greatest value |
| Ocr.ClampedMonotone | infra/f0e/runner.py:390-391 | rounding with clamping keeps the order, and moves values in range by at most one half |
| Ocr.RoundIsNearest | infra/f0e/runner.py:390-391 | rounding goes to a nearest integer, ties to the even one |
| Ocr.TextPreimageInjective | infra/f0e/runner.py:403-432 | equal text preimages hold the same normalised texts in the same order and number |
| Ocr.BoxPreimageInjective | infra/f0e/runner.py:408-438 | equal box preimages hold the same rounded boxes in the same order and number |
| Ocr.FramedInjective | infra/f0e/runner.py:430-438 | a stream of index, length and item can be read in one way only |
| Ocr.NormalizeIdempotent | infra/f0e/runner.py:420-422 | normalising a normalised text changes nothing |
| Ocr.NewlinesInOnePass | infra/f0e/runner.py:421-421 | the two replacements treat CR LF, CR and LF as one line end each |
| OcrMeaning.NormalizeIsOnePass | infra/f0e/runner.py:420-422 | normalising is NFC after one pass that makes each CR LF, CR or LF one line feed |
| OcrMeaning.LineEndsDoNotShow | infra/f0e/runner.py:397-482 | two results whose texts differ only in their line ends have the same blocks and the same summary |
| OcrMeaning.LineEnds | infra/f0e/runner.py:421-421 | each of the three line ends, at the end of a first line, becomes one line feed |
| OcrMeaning.BlockSays | infra/f0f/runner.py:188-222 | a block is that of an item if and only if its corners are the nearest pixels of the page to the points, its confidence the nearest millionth to the score within zero and one, and its text the normalised text |
| OcrMeaning.CountsOfJoined | infra/f0e/runner.py:423-428 | the counts are the length of all texts joined, and of what is not blank in them |
| OcrMeaning.MeanRoundsUp | infra/f0e/runner.py:462-466 | the mean is the nearest whole number to the quotient, upwards from the middle |
| OcrMeaning.PreimagesRead | infra/f0e/runner.py:403-438 | a reader of the two hashed streams finds behind their prefixes the texts and the boxes of all blocks, in order |
| OcrMeaning.BoxReads | infra/f0e/runner.py:433-438 | the text of a box parses to its four corners, x before y |
| OcrMeaning.UnframeOfFramed | infra/f0e/runner.py:430-438 | a framed stream is read back to its items |
| Limits.ResultTaken | infra/f0e/runner.py:397-422 | a result is taken exactly when it is absent or a list of at most 1024 items of four finite points, a text and a finite score, whose normalised texts come to at most a million characters |
| Responses.Emit | infra/f0h/runner.py:517-531 | one response within the limit goes out, whatever the short writes: all of it if and only if each write takes at least a byte, and otherwise exactly what the writes before the failing one took; the exit is the one asked for exactly when all of it went out and it did not have to be replaced |
| Responses.AllSent | infra/f0h/runner.py:523-528 | whatever pattern the writes follow, everything is sent if and only if each of them takes something; in particular when none ever fails |
| Responses.WriteAll | infra/f0h/runner.py:522-530 | the loop writes exactly what those calls take, in exactly that many calls |
| Responses.Run | infra/f0h/runner.py:534-565 | exactly one response goes out, the prepared success if and only if no step failed, and otherwise the first failure's; all of it if and only if each write takes something; exit zero if and only if the success was prepared, fits the limit and its writes all took something, and then every step ran in order and the temporary roots were cleaned after the worker had finished; which code is reported, as a function of what the surroundings answer |
| Responses.Report | infra/f0f/runner.py:435-448 | the code that is reported, exactly: that of a cleanup the handler attempts in vain, except that F0-F keeps INTERNAL_ERROR; else the failure's own; files that an ended worker left behind are reported but for that exception |
| Responses.HiddenLeftovers | infra/f0f/runner.py:442-448 | the witness: a worker that fails unexpectedly and leaves a file that cannot be removed, and F0-F reports INTERNAL_ERROR |
| Responses.ReportedLeftovers | infra/f0h/runner.py:558-565 | on the same answers F0-H reports the failed cleanup |
| Responses.Prepare | infra/f0f/runner.py:424-434 | the error is that of the first step that failed; a success is only prepared after the second cleaning, with the worker ended and no file left |
| Responses.Stdout.Write | infra/f0f/runner.py:411-416 | call k takes what the surroundings answer for it, at most what it is offered, or raises |
| Responses.Workspace.RunWorker | infra/f0f/runner.py:313-342 | an answer is returned only from a worker that has ended |
| Remote.RemoteSnapshot | infra/f1/local_material_rag_verify.py:3824-4024 | succeeds if and only if datasets, documents and chunks reconcile with the expectations, in any listing order, and returns the sorted snapshot |
| Remote.SnapshotsAgree | infra/f1/local_material_rag_verify.py:1810-1873 | two successful snapshots for the same expectations and dataset have the same fingerprint, whatever the order of versions, documents and chunks and whatever the physical ids |
| Remote.FingerprintCanonical | infra/f1/local_material_rag_verify.py:1810-1873 | the fingerprint is a function of the expectations and the dataset |
| Remote.UnitHeld | infra/f1/local_material_rag_verify.py:3932-4010 | every expected unit is held by a chunk of its version's document |
| Remote.ChunkHolds | infra/f1/local_material_rag_verify.py:3932-4010 | every chunk holds an expected unit |
| Remote.HoldsOneToOne | infra/f1/local_material_rag_verify.py:3932-4010 | two chunks are the same if and only if their units are |
| Remote.SnapshotCounts | infra/f1/local_material_rag_verify.py:1860-1866 | a snapshot counts one document a version and one chunk a unit |
| Remote.EveryUnitSeen | infra/f1/local_material_rag_verify.py:4011-4017 | the last check cannot fail: the document checks already cover every unit |
| Remote.ReadDocuments | infra/f1/local_material_rag_verify.py:3916-4010 | the document loop succeeds exactly when all documents pass, whatever their order |
| Remote.ReadChunks | infra/f1/local_material_rag_verify.py:3923-3998 | a document's chunks pass exactly when they match the version's units one to one and nothing before used their ids |
| Remote.ReadChunk | infra/f1/local_material_rag_verify.py:3933-3994 | a chunk passes exactly when it is a unit of the version (see `RemoteContent.MatchesMeans`), with ids and unit not seen before; what its snapshot holds |
| RemoteContent.MatchesMeans | infra/f1/local_material_rag_verify.py:3933-3994 | a chunk matches a version if and only if its detail is its own, it has content, and some unit of the version agrees with each of its tags, field by field, and has for body digest the digest of the chunk's content |
| RemoteContent.AlteredContentRefused | infra/f1/local_material_rag_verify.py:3954-3990 | in an index that reconciles, altering the content of any one chunk breaks the reconciliation, unless the two contents collide |
| RemoteContent.FaithfulReconciles | infra/f1/local_material_rag_verify.py:3824-4024 | an index that holds every version in a document of its name, with one chunk for each unit and its content, reconciles |
| RemoteContent.SnapMeans | infra/f1/local_material_rag_verify.py:3955-3966 | a chunk's snapshot holds its tags, field by field, and the digest of its content |
| Remote.ExpectedDocuments | infra/f1/local_material_rag_verify.py:3894-3905 | the names index the versions exactly when each version has one source and no two share a name |
| Remote.ListingSize | infra/f1/local_material_rag_verify.py:3876-3882 | the dataset map has as many entries as the list exactly when names are distinct |
| RemoteDelete.DeleteAll | infra/f1/local_material_rag_verify.py:5003-5143 | on whatever the remote side lists and the jobs answer, the loop completes if and only if every step passes, the first deletion leaves documents, the last none, and the closing queries find nothing |
| RemoteDelete.PassedLoop | infra/f1/local_material_rag_verify.py:5003-5143 | what a completed loop has shown: every version was deleted exactly once; after each deletion but the last, what the remote side listed is the starting snapshot less the documents deleted so far, with the same physical ids; the deletions named every document |
| RemoteDelete.ListedCounts | infra/f1/local_material_rag_verify.py:5042-5056 | the listing at each step reconciles with the versions left, and its document and chunk counts are the numbers of versions and of their units left |
| RemoteHonest.HonestPasses | infra/f1/local_material_rag_verify.py:5003-5143 | and the loop asks for no more: it passes on every remote side that reconciles at the start and takes out exactly the document of each deletion |
| RemoteHonest.DropReconciled | infra/f1/local_material_rag_verify.py:3824-4024 | without a version and its document, what is left still reconciles |
| RemoteHonest.DropSnapshot | infra/f1/local_material_rag_verify.py:5031-5040 | the snapshot of what is left is the snapshot before without that document |
| RemoteDelete.DeleteOne | infra/f1/local_material_rag_verify.py:5012-5123 | one turn passes exactly when the version was left, its job was done, and what is listed then is the snapshot before less that document; its effect on the loop's variables |
| RemoteDelete.CheckAfterDelete | infra/f1/local_material_rag_verify.py:5042-5056 | passes exactly when what is listed after that deletion reconciles with the versions left, is the expected snapshot, and counts their documents and units |
| RemoteDelete.OthersKeep | infra/f1/local_material_rag_verify.py:5031-5040 | a document stays, unchanged, unless its name was deleted |
| RemoteDelete.CountRemoved | infra/f1/local_material_rag_verify.py:5029-5030 | removing a version takes away exactly its units |
| Unwrap.UnwrapErrors | infra/f1/local_material_rag_verify.py:493-513 | ends on any graph of links, cycles included, begins with the given error, and lists exactly the reachable exceptions, each once |
| Unwrap.ClosedHoldsReachable | infra/f1/local_material_rag_verify.py:493-513 | a set that holds the start and follows every link holds all that is reachable |
| ScannerBuffer.Buffer.Record | infra/f1/local_material_rag_verify.py:1653-1659 | the group stays the longest suffix of one operation of the valid events since the last clear |
| ScannerBuffer.Buffer.Clear | infra/f1/local_material_rag_verify.py:1650-1651 | the history starts anew |
| ScannerBuffer.Buffer.EmitForReason | infra/f1/local_material_rag_verify.py:1664-1674 | reports the last event with the capped length of its run, exactly under the reason of its code |
| ScannerBuffer.LastStartIsLongest | infra/f1/local_material_rag_verify.py:1653-1659 | a suffix has a single operation if and only if it starts no earlier than the group |
| Names.RecordedPayloads | infra/f1/local_material_rag_verify.py:1608-1631 | which payloads are recorded: 1 to 64 attempts, a known code, operation, phase and response |
| Lifecycle.Run | infra/f1/local_ingestion_verify.py:1696-1762 | whatever fails, the bucket names are restored, foreign buckets are untouched, and every object that goes from what the API run left in the run's buckets passed validation against the one task that the database names, with none gone when it names several; a normal return, or any error but the two cleanup reasons, means that all objects left had passed validation, and leaves the world as it was if and only if no resource was created behind the handlers' back |
| Lifecycle.CleanupErrors | infra/f1/local_ingestion_verify.py:1736-1762 | the error of a run announces a failed cleanup exactly when one failed: dropping the database, removing the directory, or the probe's own |
| Lifecycle.ExecuteScratchProbe | infra/f1/local_ingestion_verify.py:1581-1693 | the probe restores the bucket names; where it owns the buckets, exactly then, objects left in them go only if they pass validation against the given identities, and unless the error says so all of them passed and no bucket of the run is left; otherwise no bucket changes; the error is that of a failed cleanup exactly when a call of it failed, an object was invalid or several tasks were found |
| Lifecycle.Probe | infra/f1/local_ingestion_verify.py:1608-1658 | the buckets are owned and used exactly when all steps before succeeded and all three were found absent |
| Lifecycle.CleanupBuckets | infra/f1/local_ingestion_verify.py:1506-1542 | goes through exactly when every call on the three buckets succeeds and every object is valid, and then all three are gone; others are untouched, and nothing goes without validation |
| Lifecycle.CleanupBucket | infra/f1/local_ingestion_verify.py:1512-1536 | goes through exactly when every call succeeds and every object is valid; an object that fails validation stops it before anything in its bucket is removed |
| Lifecycle.RemoveObjects | infra/f1/local_ingestion_verify.py:1526-1531 | only objects of that bucket go, and only valid ones |
| Lifecycle.SecretDirectory | infra/f1/local_ingestion_verify.py:568-610 | an error leaves no directory behind, except exactly when the chmod after its creation raises |
| Lifecycle.ChmodLeak | infra/f1/local_ingestion_verify.py:572-573 | that exception: the directory stays and the error does not say so |
| Lifecycle.LostCreation | infra/f1/local_ingestion_verify.py:419-451 | the other exception: a database whose creation took effect but whose answer was lost stays |
| Lifecycle.PreviewOwner | infra/f1/local_ingestion_verify.py:1470-1489 | a preview object may be removed exactly when its name starts with a task of the run |
| Names.RemovableObjects | infra/f1/local_ingestion_verify.py:1470-1489 | what a run may remove, bucket by bucket: the object keys of its identities, previews that are named after one of its tasks and an id, and nothing elsewhere |
| Names.PreviewIsTwoIds | infra/f1/local_ingestion_verify.py:50-50 | a preview name is two ids of 32 hexadecimal digits, a slash and `.json` |
| Names.HexDigit | infra/f1/local_ingestion_verify.py:50-50 | the sixteen digits that ids are made of |
| Lifecycle.NamesApart | infra/f1/local_ingestion_verify.py:232-248 | the three bucket names of a run differ from each other and from those of every run whose project or nonce starts differently |
| Names.BucketsTell | infra/f1/local_ingestion_verify.py:232-248 | the name of each bucket tells the run and whether it holds quarantined, preview or released objects |

## Left out

- Docker, Compose, databases, object storage, the retrieval service, identity provider, HTTP and browser runners: external systems, here only as arbitrary answers.
- OCR inference, PDF rendering, image decoding and numpy: foreign code; the summariser is given an arbitrary result list.
- Floating point: coordinates and scores are real numbers, so the rounding of products and quotients of floats is not modelled; NaN and infinities are one case of their own.
- Unicode NFC, the blank test and `str.lower` are parameters; NFC is asked to be idempotent and to add no carriage return. Lone surrogates, which the strict encoder refuses, are not representable.
- JSON numbers with fractions, booleans and null parse as malformed in the header and the manifest, and so do escaped surrogates; their schemas have no place for them.
- Python's typing quirks, such as booleans and floats that equal integers in the rotation, exit and metric checks: those fields have integer type.
- Regular expressions over command output: which matches they find is given; which of them must exist is modelled, and that a digest they match is one.
- Timestamps accept ASCII digits only, where the original's pattern also admits other decimal digits.
- File modes, owners, link counts, inode identity and symbolic links: one abstract precondition a file.
- Names of temporary files and stages, made by `mkdtemp` and `uuid4`, are taken not to come back.
- Error codes are merged where the source raises the same exception for several reasons: the manifest's validation codes, the two reasons of a remote snapshot, the codes of clean evidence; `IntegerTooLong` of a manifest stands for the uncaught ValueError.
- Helpers that are not shown in the modelled files, such as the clean rebuild, its evidence documents and the canary scanner, are opaque: whether they accept is given.
- Formal.EvaluateFormal: exceptions that escape from inside the gate loop are not modelled; they end the evaluation and reach RunOrder.RunFormalAcceptance like every other failure; look number k of a kind answers what the answers say for k.
- Responses.Run: the early `MODE_INVALID` response of F0-H, which is one more call of the same emit, is not modelled.
- Lifecycle.Run: an interrupt that strikes between two statements is not modelled; every failing call is.
- Remote.RemoteSnapshot: `remote_document_name` is a total function here; in the source it refuses a source digest that is not one.
- ScannerBuffer.Buffer.EmitForReason: returns the event that is printed; the 1024 byte limit on its line is not modelled.
- RemoteDelete.DeleteAll: the snapshots of the other scopes and the jobs on their documents are one answer, and so are the three residual counts and the closing queries.
- EvaluatedRejection.EvaluatedIsScreened: that the digests of the run are digests is given, as the loaders check it; so is the class name of an exception that keeps the inventory from being built, which must not hold the token.
- EvaluatedReader.RunReads: that class name is made of letters, digits and underscores; the build inputs and the projected rebuild evidence are read back with the payload, but not looked up field by field.
- The outer framing of a page request over pipes, the retrieval and question answering phases, fixture text, document styling, argument parsing and the lifecycle wrappers in `deploy/` and `scripts/`: they would add easy members only.
- `_emit` of `infra/f0e/runner.py` makes one unchecked write, so nothing is claimed about its short writes.
