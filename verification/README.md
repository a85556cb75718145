# A verified model of AlertMind's offline logic

AlertMind assists security analysts with Wazuh alerts and ships the operator tools that
prepare and supervise a patched Wazuh Dashboard. This project models, in Dafny, the parts of
both that decide something by themselves, and proves what they are there for:

* **The model-data boundary** (`assistant/`). Alerts are JSON trees of attacker-controlled text.
  `Json` writes out the three serialisations the assistant uses, with string escaping as in section 7
  of RFC 8259, and `JsonReading` proves that they can be read in one way only; `Injection` has the
  tree scanner and the gate, `Prompts` the framing, `Redact` and `Views` the two transformations.
  `JsonParts` gives the values of a tree with their paths, and `ScanParts`, `RedactParts` and
  `ViewParts` say in those terms what scanner, redaction and view make of each. `ProseCodes`,
  `CodeLeaks` and `TidyTexts` are about the view's passes over a string, `LeakCheck` about the check
  that looks for what they left. `PasteCore` is the composition. `Regex` gives the
  ordered-choice semantics of the few pattern operators that the technique-code patterns use.
* **The broker-TLS operator library** (`siem/rbac/broker_tls/`). `Kernel` is an operating system
  in which others may change files, directories and names between any two calls;
  `OperatorFs` is the descriptor-relative reader on it, `StillFiles` what it returns when nobody
  interferes, `DoubleCollect` the "read twice and compare" pattern. `VendorNames`, `OperatorCore`,
  `InstalledReader`, `InstalledBytes` and `InstalledSnapshot` are the chain from the manifest to the
  installed files, `Bootstrap` the other user of the reader. `ProcStat` and
  `ProcessSnapshot` observe a process whose PID may pass to others, with `ProcessChecks` on what an
  accepted snapshot vouches for and `StillProcess` on when a snapshot is accepted;
  `ServiceConfiguration` reads the manager's properties, `ServiceProcess` both together, and
  `StillObservers` says when the two observers report. `Recovery` is the
  rollback decision inside a world with crashes and partial observations. `PackageStatus`,
  `PosixPath` and `BuildCandidate` are the package-database parser and the dependency closure.
* **The server inventory client** (`siem/rbac/collect_server_inventory.py`). `ServerClient` is the
  session, `ServerBody` the body reader, `ServerPaging` the paginator, `Relationships`,
  `RoleInventory` and `InventoryAcceptance` the checks on the catalog, `ServerInventory` a whole run,
  `InventorySnapshot` what its two passes show and `StillServer` when a run succeeds. The server may
  answer anything.
* **Setting resolution** (`siem/rbac/collect_dashboard_inventory.py`): `Settings`.

Code that changes state is a method or a class here, proved to compute a recursive function of its
inputs or of the old state; the properties are lemmas about those functions. Time is a natural
number, the schedule of everybody else is an arbitrary function of it, and the outcome of a call is
a function of the time at which it is made, so a statement for all inputs is a statement for all
interleavings. `None` and `Err` stand for the program's exceptions, with the program's own codes.

## What the proofs say beyond the code

* Equal metadata before and after a read makes it a snapshot exactly as far as stamps are not
  reused: `OperatorFs.ReadIsSnapshot` proves it under that assumption, `OperatorFs.TornReadPasses`
  is a run without it in which every check passes on bytes that the file never held. The same pair
  exists for double collection (`EqualPassesAreSnapshot`, `EqualPassesWithoutInstant`), for the
  installed files (`AcceptedTogether`, `AcceptedApart`) and for process snapshots
  (`OneSnapshotOneProcess`, `SameStartMixes`).
* The code says of its double collections that equal passes are not an atomic snapshot. They are one,
  taken when the first pass ends, if nothing that is read goes back to an earlier value: for the
  installed files on a changing file system (`InstalledSnapshot.VerifiedTogether`), the manager's
  properties (`ServiceConfiguration.ObservationIsSnapshot`), the main process
  (`ServiceProcess.ObservedProcessIsMain`) and the server inventory, whose requests depend on earlier
  answers (`InventorySnapshot.CollectedTogether`).
* A check that always fails would be safe. So for each of these readers the other half is proved too: on
  files, properties, a process and a server that stay as they are, they succeed exactly when what is
  there is as demanded, and return it (`StillFiles.StillReadSucceedsExactly`,
  `Bootstrap.StillBootstrapLoadsExactly`, `InstalledSnapshot.StillVerifiedExactly`,
  `StillObservers.StillConfigurationExactly`, `StillObservers.StillProcessExactly`,
  `StillServer.StillRunSucceedsExactly`).
* `assistant/views.py` describes the evaluation view as stripping any surviving technique codes. It
  does not always: from `T1T1234234` the second pass removes the inner `T1234`, and the `T1` and `234`
  around it join to `T1234` again (`CodeLeaks.RemovalCanJoinACode`). `CodeLeaks.LeafLeaksExactly` gives
  the exact condition, which a scan of the text before that pass can check: a letter T that starts no
  code is followed by four digits once the codes in between are skipped.
* The same file says of `evaluation_view_leaks` that it proves that nothing slipped through. It fails
  both ways: a tab before four digits is reported without being a code (`LeakCheck.TabIsReported`), and
  a code with other digits than the ASCII ones is escaped and not reported
  (`LeakCheck.DisguisedIsNotReported`). `LeakCheck.LeaksExactly` says what is reported, and
  `LeakCheck.PlainViewsAreDecided` for which views the docstring is right.
* The rollback decision is safe if startup is observed before the service and the service before its
  files. The source fixes no order: that is an assumption on its adapter. `Recovery.WrongOrderIsUnsafe`
  is a run with the first two exchanged in which a restore hits a running Dashboard.

## Model

| member | source | states |
|---|---|---|
| Json.CountThroughEscape | assistant/injection.py:83-91 | In raw-Unicode and in ASCII-escaped output alike, a text's escaped form holds a delimiter-like tag exactly as often as the text does. |
| Json.CountDump | assistant/prompts.py:98-105 | A serialised tree holds a tag exactly as often as its keys and string leaves do one by one: quotes, separators, line breaks and escapes neither create, hide nor join one. |
| JsonReading.PrintedAlikeExactly | assistant/prompts.py:98-105 | Two trees are printed alike if and only if they are the same tree, where escaped output tells texts apart up to their UTF-16 code units; so every serialisation can be read in one way only, wherever it ends. |
| JsonReading.SurrogatesPrintAlike | assistant/prompts.py:98-105 | A concrete pair of different trees that escaped output does not tell apart. |
| Injection.HitList.ScanText | assistant/injection.py:44-51 | The rule loop appends one bounded row per matching rule, in rule order, and nothing else. |
| Injection.HitList.Walk | assistant/injection.py:54-67 | The recursive walk appends to the shared list exactly the rows of the tree in document order, keys before the values below them. |
| Injection.ScanMarked | assistant/injection.py:54-80 | For every tree, path and set of other rules, the scan reports a broken boundary exactly when some single key or string leaf contains a delimiter. |
| Injection.GateAgreement | assistant/injection.py:70-91 | For every tree the gate on the compact serialisation, the tree itself and the scanner give the same answer. |
| ScanParts.ScanTellsOfEach | assistant/injection.py:54-75 | The scan's rows are those of every key and every string of the tree, in document order, each under its own path. |
| ScanParts.RulesTellExactly | assistant/injection.py:44-51 | A text has a row for a rule if and only if the rule's pattern is found in it. |
| ScanParts.SnippetShows | assistant/injection.py:46-51 | A snippet is bounded and shows the text around the place where the pattern was found. |
| Prompts.CountPrompt | assistant/prompts.py:98-105 | A prompt holds each delimiter once from the frame plus as often as the alert's own strings do. |
| Prompts.FramingMatchesGate | assistant/prompts.py:98-105 | The prompt, serialised differently from what the gate looked at, holds exactly one opening and one closing delimiter if and only if the gate lets the alert through. |
| Prompts.FramingIsUnambiguous | assistant/prompts.py:98-105 | When the gate is clear, wherever the two delimiters are found, cutting between them gives back exactly the serialised alert. |
| Prompts.PromptsAlikeExactly | assistant/prompts.py:98-105 | Two alerts have the same prompt if and only if they are the same tree up to the encoding of their texts. |
| Redact.RedactNode | assistant/redact.py:109-145 | With or without a trace the recursion returns the same redacted tree; with one it appends exactly the tree's evidence rows in document order. |
| Redact.RedactionHidesSecrets | assistant/redact.py:109-154 | Trees that differ only in values under sensitive keys, at any depth and of any type, have the same redaction. |
| Redact.TraceIsTopmost | assistant/redact.py:113-130 | The sensitive-key rows of a trace are exactly those of the topmost sensitive keys, in document order. |
| Redact.TraceHidesValues | assistant/redact.py:72-96 | Without a fingerprint key the trace tells of a withheld value its type and its length and nothing else: trees that agree in those have equal traces. |
| RedactParts.RedactionKeepsParts | assistant/redact.py:109-154 | The values of the redacted alert are exactly those of the alert outside sensitive keys, in order and where they were, every string rewritten and everything else untouched, and one marker for each topmost sensitive key. |
| RedactParts.TraceTellsOfEach | assistant/redact.py:109-145 | The trace has, in document order and under their own paths, the rows of every string that is rewritten and one row for every marker. |
| RedactParts.EveryMatchHasItsRow | assistant/redact.py:136-144 | Each match of a pattern has a row of its own, which calls it removed if and only if it occurs nowhere in the rewritten string. |
| RedactParts.WithheldHasItsRow | assistant/redact.py:113-130 | A withheld value has one row, whose mask is the same for every value of that length. |
| Views.CodePatternMatches | assistant/views.py:33-35 | The loose pattern matches at a position exactly when a letter T and four digits stand there. |
| Views.ProsePatternMatches | assistant/views.py:28-32 | The anchored pattern matches only at a code, or at a bracket before one, on a word boundary. |
| ProseCodes.ProsePatternExactly | assistant/views.py:28-32 | The anchored pattern matches exactly where a code stands between word boundaries, with a bracket and dashes before it when they are there. |
| ProseCodes.FirstPassChangesExactly | assistant/views.py:46-47 | The first pass leaves a string as it is if and only if the pattern matches nowhere in it. |
| Views.PiecesHoldNoCode | assistant/views.py:47-51 | No piece that the second pass leaves between its removals contains a technique code. |
| Views.CodesStraddle | assistant/views.py:47-51 | In a text joined from code-free pieces every code straddles a seam. |
| Views.SurvivorsStraddle | assistant/views.py:46-52 | Every code left in a string leaf stems from a code of the joined text that straddles a place where the second pass removed one; collapsing and trimming spaces create none. |
| CodeLeaks.MatchEnds | assistant/views.py:33-35 | A match of the loose pattern takes a letter T, four digits, and a dot or underscore with three more when they follow. |
| CodeLeaks.LeafLeaksExactly | assistant/views.py:46-52 | A string leaf of the view holds a code if and only if, in the text before the second pass, a letter T that starts no code is followed by four digits once the codes in between are skipped. |
| Views.CodeFreeLeafKept | assistant/views.py:46-52 | A string without a code passes unchanged except that spaces are collapsed and trimmed. |
| TidyTexts.TidyChangesOnlyBlanks | assistant/views.py:52-52 | Collapsing and trimming keep all characters other than blanks in order, and leave no blank at either end. |
| CodeLeaks.RemovalCanJoinACode | assistant/views.py:47-52 | A concrete string whose stripped form contains a technique code. |
| Views.DropLabelSubkeys | assistant/views.py:65-85 | The loops that rebuild the tree produce exactly the tree without label fields. |
| Views.ViewHasNoDeniedKey | assistant/views.py:88-94 | No denylisted key survives in the evaluation view, at any depth and in any case. |
| TidyTexts.DroppedExactly | assistant/views.py:56-82 | A field is dropped at any depth if and only if its name is denylisted or names a key, in any case, and in the second case its value is a string with a technique code. |
| TidyTexts.LabelKeysExactly | assistant/views.py:38-38 | The label fields removed at the top are these four names. |
| ViewParts.ViewKeepsEvidence | assistant/views.py:65-94 | The values of the view, containers and empty ones included, are exactly the alert's values outside label fields, in order and at their own paths, strings stripped and everything else untouched. |
| CodeLeaks.ViewLeaksExactly | assistant/views.py:88-94 | The whole evaluation view shows a code if and only if some string of the alert outside its label fields meets that condition. |
| CodeLeaks.ViewCanShowACode | assistant/views.py:88-94 | Every alert with the concrete string outside its label fields has a view that shows a code. |
| LeakCheck.ReportsPrintedCodes | assistant/views.py:97-100 | The search over the printed view reports something exactly when the printed text holds a code. |
| LeakCheck.LeaksExactly | assistant/views.py:97-100 | The check reports something if and only if some key or string of the view has a letter T or a tab in front of four ASCII digits. |
| LeakCheck.PlainViewsAreDecided | assistant/views.py:97-100 | On views without tabs and without other digits than the ASCII ones the check decides whether a key or string holds a code. |
| LeakCheck.TabIsReported | assistant/views.py:97-100 | A concrete view without a code about which the check reports something. |
| LeakCheck.DisguisedIsNotReported | assistant/views.py:88-100 | The evaluation view of a concrete alert holds a code about which the check reports nothing. |
| PasteCore.DepthDecides | assistant/paste_core.py:103-110 | Stopping the descent past the limit does not change which trees are too deep, and below the limit the depth is the true one. |
| PasteCore.NodesCountParts | assistant/paste_core.py:113-118 | The node count is the number of values in the tree, containers included. |
| PasteCore.InputIsKept | assistant/paste_core.py:121-135 | Whatever was pasted is found unchanged in the alert that is inspected: as the object itself, or under its own field. |
| PasteCore.UsableExactly | assistant/paste_core.py:103-142 | Input is refused if and only if it is blank, longer than the limit, nested too deep or made of too many values. |
| PasteCore.RunPastePipeline | assistant/paste_core.py:121-216 | From the pasted text on, the stage-by-stage updates of the result end in exactly the specified outcome, for unusable, blocked, unconsented, uncalled, answered, unparsed, invalid and failed runs; an exception after the answer keeps the answer's metadata. |
| PasteCore.NonInterference | assistant/paste_core.py:145-216 | Two accepted inputs whose alerts differ only under sensitive keys give the same redacted alert, view, markers, gate decision, message, model call, parsed output, errors and metadata: all but the trace. |
| PasteCore.BlocksExactlyDelimiters | assistant/paste_core.py:182-191 | A run is blocked exactly when some string of the model-bound alert contains a delimiter, which is exactly when the markers report one. |
| PasteCore.CallsExactlyWhenAllowed | assistant/paste_core.py:182-205 | A model is called if and only if calls are allowed, no string of the model-bound alert holds a delimiter, and consent was given where required; otherwise the status says which of these was missing, and the call is the configured provider's, model's and system text's. |
| PasteCore.RecordsWhatItIs | assistant/paste_core.py:175-186 | The record shows the redacted alert, the view exactly when evaluation asks for it, its markers and its prompt. |
| PasteCore.CallIsRecorded | assistant/paste_core.py:201-216 | After a call the status is ok exactly when the answer came and could be parsed and validated; then output, errors and validity are those of the validation, else the error is the failure's. |
| PasteCore.SentMessagesAreFramed | assistant/paste_core.py:183-202 | A message that is sent had consent where that is required, and frames exactly the redacted, view-applied alert. |
| OperatorFs.ReadHeld | siem/rbac/broker_tls/operator_fs.py:81-123 | The program's loops make the same calls and give the same result as the nested specification, for every interleaving, and leave exactly the descriptors open that were open before, on every exit. |
| OperatorFs.ReadRoot | siem/rbac/broker_tls/operator_fs.py:135-142 | The same from the root directory, which is opened and closed again whatever happens. |
| OperatorFs.ReadIsSnapshot | siem/rbac/broker_tls/operator_fs.py:81-123 | If no inode reuses a stamp, a successful read returned the leaf's whole content, of its first-seen size and within the limit, at one instant when every name on the path led to the opened inodes and all were trusted. |
| OperatorFs.RootReadIsSnapshot | siem/rbac/broker_tls/operator_fs.py:130-142 | The same as a statement about the content of an absolute path at an instant of the call. |
| OperatorFs.TornReadPasses | siem/rbac/broker_tls/operator_fs.py:110-122 | A run with a reused stamp in which every check passes and the bytes returned were the content at no time. |
| OperatorFs.TrustedExactly | siem/rbac/broker_tls/operator_fs.py:50-60 | A node is trusted if and only if it has the expected kind and an accepted owner, nobody else may write it, and it changes nobody's identity. |
| StillFiles.ReadIsLookup | siem/rbac/broker_tls/operator_fs.py:81-142 | On files that do not change, for every schedule and every way of cutting up the reads, a read gives exactly what looking the path up gives, bytes or the first failure. |
| StillFiles.StillReadSucceedsExactly | siem/rbac/broker_tls/operator_fs.py:81-142 | Such a read returns some bytes if and only if the path leads over trusted nodes to a file with these bytes, of its stated size and within the limit. |
| DoubleCollect.Observe | siem/rbac/broker_tls/operator_service.py:216-228 | The two-pass loop returns the values exactly when both passes are equal. |
| DoubleCollect.EqualPassesAreSnapshot | siem/rbac/broker_tls/operator_service.py:224-227 | If no value returns after changing, equal passes imply that all values held together when the first pass ended. |
| ServiceConfiguration.ObserveServiceConfiguration | siem/rbac/broker_tls/operator_service.py:170-228 | Tool check, two reads of both groups with the validation of every value, comparison and summary compute the specified observation or the first failure, and leave no descriptor open. |
| ServiceConfiguration.ObservationIsSnapshot | siem/rbac/broker_tls/operator_service.py:207-228 | If no property goes back to an earlier value, what is reported is the summary of all 18 properties as they were together when the first pass ended. |
| ServiceConfiguration.SummarizesExactly | siem/rbac/broker_tls/operator_service.py:170-193 | A configuration is summarised if and only if it is the loaded unit's, needs no reload, is in a settled state and has a well-formed environment without repeats, all by the names of the properties. |
| ServiceConfiguration.ReportsTheUnit | siem/rbac/broker_tls/operator_service.py:170-193 | State, fragment and drop-ins are reported as those properties have them. |
| ServiceConfiguration.ReportsTheAccount | siem/rbac/broker_tls/operator_service.py:186-192 | User, group, directory and alternate roots are reported as those properties have them. |
| ServiceConfiguration.ReportsTheCommand | siem/rbac/broker_tls/operator_service.py:175-187 | The number of start commands, their flags and the kind of the only one are reported as that property has them. |
| ServiceConfiguration.ReportsTheEnvironment | siem/rbac/broker_tls/operator_service.py:180-187 | The environment is counted, and an override is reported if and only if some entry has a name of the list. |
| ServiceConfiguration.ReportsTheLists | siem/rbac/broker_tls/operator_service.py:186-188 | The three other lists are counted, each for itself. |
| StillObservers.ObservedWithRootsTool | siem/rbac/broker_tls/operator_service.py:195-223 | If stamps are not reused, nothing is reported unless the tool's path led through nodes of root's alone to a whole content at one instant before the first query. |
| StillObservers.StillConfigurationExactly | siem/rbac/broker_tls/operator_service.py:195-228 | With files and properties that stay as they are, a configuration is reported if and only if root asks on a supported platform, the tool can be read, and the properties can be summarised; and their summary is what is reported. |
| DoubleCollect.StillValuesAccepted | siem/rbac/broker_tls/operator_service.py:224-227 | Values that hold still are accepted, whatever the delays. |
| DoubleCollect.EqualPassesWithoutInstant | siem/rbac/broker_tls/operator_service.py:216-221 | A run with equal passes and no such instant. |
| Bootstrap.LoadBootstrap | siem/rbac/broker_tls/operator_bootstrap.py:69-86 | The loop over two passes computes the specified pair or failure, and closes what it opens. |
| Bootstrap.BootstrapIsSnapshot | siem/rbac/broker_tls/operator_bootstrap.py:69-86 | If stamps are not reused and neither file returns to earlier content, an accepted pair passed both checks and was on disk, both files together, when the first pass ended. |
| Bootstrap.StillBootstrapLoadsExactly | siem/rbac/broker_tls/operator_bootstrap.py:69-86 | On files that do not change, a pair is loaded if and only if root asks on a supported platform and both paths hold these bytes within their limits and pass their checks. |
| OperatorCore.InstalledChecks | siem/rbac/broker_tls/operator_core.py:66-110 | The loop that grows the checks and the total gives the specified checks or the first failure's code, for every decoded manifest. |
| OperatorCore.AcceptedExactly | siem/rbac/broker_tls/operator_core.py:66-110 | A manifest is accepted if and only if it is in bounds, repeats all eight contract values, has the pinned digest of its files, lists both clients, and every entry is well formed, either a client with its pinned digest or a dependency file. |
| OperatorCore.ContractExactly | siem/rbac/broker_tls/operator_core.py:80-80 | The contract is met if and only if these eight fields have the pinned values. |
| VendorNames.DependencyNameExactly | siem/rbac/broker_tls/operator_core.py:101-104 | A file is accepted as a dependency if and only if its name is two or more ordinary names joined by slashes, the first of them `node_modules`. |
| VendorNames.SafePartExactly | siem/rbac/broker_tls/operator_core.py:102-104 | An ordinary name is not empty, a dot or two, and consists of visible characters other than backslash and colon. |
| OperatorCore.ChecksAreCalledFor | siem/rbac/broker_tls/operator_core.py:85-110 | A check is demanded if and only if it is the one of some listed file, the original apart, with that file's own digest and size, or that of the pinned node or header. |
| OperatorCore.DependencyCheckedOnce | siem/rbac/broker_tls/operator_core.py:100-105 | For an accepted manifest with distinct names, exactly one check is at each dependency's path, with its own digest, its own size and the file limit. |
| OperatorCore.ClientIsCandidate | siem/rbac/broker_tls/operator_core.py:69-99 | Exactly one check of an accepted manifest is of the installed client, and it demands the candidate: the original is never the allowed client. |
| OperatorCore.AcceptedManifest | siem/rbac/broker_tls/operator_core.py:85-110 | An accepted manifest with n files yields n + 1 checks with distinct paths, each inside the vendor tree and rebuilt exactly by joining its parsed components. |
| InstalledReader.LimitsKeepAll | siem/rbac/broker_tls/operator_fs.py:152-153 | A path map over checks with distinct paths has one entry per check, with that check's limit. |
| InstalledReader.NewInstalledReader | siem/rbac/broker_tls/operator_fs.py:152-157 | Construction succeeds exactly if every path's components are acceptable, and then gives every check's path its limit. |
| InstalledReader.ReadInstalled | siem/rbac/broker_tls/operator_fs.py:159-167 | A call outside the map or with another limit fails without any input or output, then an unsuitable platform, caller or account does; any other is the guarded read of that path under the service's ownership rule, its failures as fixed codes. |
| InstalledReader.InstalledReadIsSnapshot | siem/rbac/broker_tls/operator_fs.py:126-167 | If stamps are not reused, a read that succeeds was of a listed path, made by root, and gave the whole content that the path held at one instant of the call, within its own limit. |
| InstalledReader.ReaderCoversManifest | siem/rbac/broker_tls/operator_fs.py:45-47 | The reader of an accepted manifest knows each of the n + 1 paths with its own limit, and every one lies in the subtree that the service account may own. |
| InstalledBytes.VerifyInstalledBytes | siem/rbac/broker_tls/operator_core.py:113-136 | The nested loops give the outcome of two passes over all checks, after the version, runtime and manifest checks in that order. |
| InstalledBytes.AcceptedTogether | siem/rbac/broker_tls/operator_core.py:126-134 | For every callback whose reads are truthful: if no file returns to an earlier digest, all files of an accepted run had their pinned digests together when the first pass ended. |
| InstalledBytes.AcceptedApart | siem/rbac/broker_tls/operator_core.py:119-121 | Without that assumption two files that are never right together are accepted, though every read is truthful. |
| InstalledBytes.SteadyFilesPass | siem/rbac/broker_tls/operator_core.py:126-134 | Files whose content at every time meets its check pass both times. |
| InstalledBytes.MeetsExactly | siem/rbac/broker_tls/operator_core.py:132-134 | Bytes pass a check if and only if they are within its limit, of its size if it has one, and of its digest. |
| InstalledBytes.DecidedPasses | siem/rbac/broker_tls/operator_core.py:126-134 | If whether a read meets its check never changes, both passes succeed if and only if every check is met. |
| InstalledSnapshot.NativeIsTruthful | siem/rbac/broker_tls/operator_fs.py:145-167 | If stamps are not reused, what InstalledReader returns was at its path, on trusted nodes, at some time during the read. |
| InstalledSnapshot.VerifiedTogether | siem/rbac/broker_tls/operator_core.py:113-136 | If moreover no installed file goes back to an earlier digest, a verification that succeeds shows one instant of the call at which all n + 1 files of the manifest, on distinct paths of the vendor tree, held trusted content with the digests and sizes that the manifest itself gives for them, the candidate as the client, and the pinned node and header. |
| InstalledSnapshot.StillInstalledReadExactly | siem/rbac/broker_tls/operator_fs.py:145-167 | On files that do not change, the installed reader returns bytes if and only if path and limit are those of the map, root reads for a proper service account, and the path holds them on trusted nodes. |
| InstalledSnapshot.StillVerifiedExactly | siem/rbac/broker_tls/operator_core.py:113-136 | On files that do not change, verification succeeds if and only if every path holds trusted content of its check's digest, size and limit. |
| Recovery.RunKeepsSeen | siem/rbac/broker_tls/operator_core.py:139-148 | Over every run, "inhibited, then stopped" as observed stays true, and under it so does everything observed about the files. |
| Recovery.RestoresOnlyCandidate | siem/rbac/broker_tls/operator_core.py:151-181 | After any run with crashes, partial observations and failing actions, an action changes the client's bytes only when startup is inhibited, the Dashboard stopped, the client the candidate and the verified backup the original, and it restores the original; unknown bytes are never overwritten. |
| Recovery.HoldsExactly | siem/rbac/broker_tls/operator_core.py:151-176 | An unknown client is held for if and only if the Dashboard is seen inhibited and stopped and the client is neither pinned one; an unverified backup if and only if the client is a pinned one and the backup is not the verified original. |
| Recovery.UnseenIsNotDone | siem/rbac/broker_tls/operator_core.py:167-181 | What was not observed is answered as if it had not been done. |
| Recovery.FinalAnswerIsTrue | siem/rbac/broker_tls/operator_core.py:176-181 | When the final answer is given the world is stopped, inhibited and fully restored. |
| Recovery.StopIsPermanent | siem/rbac/broker_tls/operator_core.py:141-142 | Once inhibited and stopped, the Dashboard stays so over every continuation. |
| Recovery.WrongOrderIsUnsafe | siem/rbac/broker_tls/operator_core.py:141-144 | A run in which the service is looked at before the inhibitor and a restore hits a running Dashboard. |
| Recovery.RoundMakesProgress | assistant/tests/test_broker_tls_operator.py:249-267 | A complete observation and a successful action outside the hold answers bring the world strictly closer, whatever others do during the observation, or find it rolled back and leave it so. |
| Recovery.RollbackConverges | assistant/tests/test_broker_tls_operator.py:249-267 | From any world, outside the hold answers, at most four actions are taken and five rounds reach the rolled-back state. |
| PackageStatus.ParsePackageStatus | siem/rbac/broker_tls/operator_runtime.py:27-65 | The line loop over `fields`, `matches` and `previous` computes the line-by-line specification, diagnostics included. |
| PackageStatus.LoopAccepts | siem/rbac/broker_tls/operator_runtime.py:41-58 | The loop gets through exactly when every stanza is well formed, no field repeated ignoring case, and at most one names the package; what it keeps is that stanza's fields. |
| PackageStatus.ParseMeetsSpecification | siem/rbac/broker_tls/operator_runtime.py:27-65 | The parser returns an identity exactly when the database is readable, all its stanzas are well formed, exactly one names the package, and that stanza has the pinned version, architecture and an installed or held status. |
| PackageStatus.ContinuationsIgnored | siem/rbac/broker_tls/operator_runtime.py:49-51 | Replacing one continuation line by another never changes the outcome. |
| PackageStatus.FieldLineReads | siem/rbac/broker_tls/operator_runtime.py:49-58 | Reading a written field gives back its name without case and its value without the blanks around it, and it is a header exactly if the name is one. |
| PackageStatus.CaseDoesNotMatter | siem/rbac/broker_tls/operator_runtime.py:49-58 | Two names are one field if and only if they differ at most in the case of letters. |
| PackageStatus.LineEndsDoNotMatter | siem/rbac/broker_tls/operator_runtime.py:36-38 | A database with either kind of line end is read as the same lines. |
| BuildCandidate.ResolvesNearest | siem/rbac/broker_tls/build_candidate.py:114-122 | Resolution picks the nearest enclosing directory, never a `node_modules` itself, whose `node_modules` holds the package. |
| BuildCandidate.CandidateIsBelow | siem/rbac/broker_tls/build_candidate.py:114-122 | What is looked for is the package's own path below the directory's `node_modules`. |
| BuildCandidate.Builder.Visit | siem/rbac/broker_tls/build_candidate.py:124-131 | The recursion ends on cyclic graphs because every root it goes on from uses up an archive member of its own; it adds a complete set of roots, none that a closed set could do without, and fails only when no closed set exists. |
| BuildCandidate.CollectRoots | siem/rbac/broker_tls/build_candidate.py:111-133 | On success the roots are the least set that contains axios and is closed under resolving each declared dependency; on failure no such set exists. |
| ProcStat.StartTimeInverts | siem/rbac/broker_tls/operator_process.py:26-36 | For every command name, `) ` and line ends included, parsing a rendered stat line gives the start time if and only if the line is within the limit, the state accepted and the number in range. |
| ProcStat.CheckEntries | siem/rbac/broker_tls/operator_process.py:56-62 | The loop with its set of names accepts exactly the entries that set well-named variables, none twice. |
| ProcStat.ArgumentsExactly | siem/rbac/broker_tls/operator_process.py:46-55 | A command line parses to exactly the arguments whose NUL-terminated form it is. |
| ProcStat.EnvironmentExactly | siem/rbac/broker_tls/operator_process.py:46-63 | The same for an environment, which may be empty and names no variable twice. |
| ProcStat.CredentialsExactly | siem/rbac/broker_tls/operator_process.py:39-43 | A status text with one line of user numbers and one of group numbers among any other lines is accepted if and only if it is within the limit and both lines give the account's number four times. |
| ProcessSnapshot.ReadSmall | siem/rbac/broker_tls/operator_process.py:79-97 | The bounded read between two checks computes the specified bytes or failure, call by call, and closes its descriptor on every way out. |
| ProcessSnapshot.Executed | siem/rbac/broker_tls/operator_process.py:100-122 | The same for the executable: linked from the pinned path before and after, stamped, of the first-seen size, with the pinned digest. |
| ProcessSnapshot.NativeSnapshot | siem/rbac/broker_tls/operator_process.py:133-154 | The whole pass computes the specified snapshot or the first failure, and closes exactly the descriptors that it opened, however it ends. |
| ProcessSnapshot.StartedIsBirth | siem/rbac/broker_tls/operator_process.py:143 | A start time that was read is that of an instance that had the PID during the read. |
| ProcessSnapshot.OneSnapshotOneProcess | siem/rbac/broker_tls/operator_process.py:133-154 | If a reused PID gets a later start time, then for every interleaving of exits and reuse the command line, environment and executable of a snapshot belong to one instance, which had the PID throughout. |
| ProcessSnapshot.EqualSnapshotsOneProcess | siem/rbac/broker_tls/operator_process.py:192-195 | Two equal snapshots, whatever happens between them, are of one instance that had the PID from the first to the last read. |
| ProcessChecks.SnapshotIsVouched | siem/rbac/broker_tls/operator_process.py:133-154 | If moreover executables do not reuse stamps, that instance ran under the service's account before and after its memory and executable were read, was linked to the packaged path before and after, and in between had a trusted executable of the pinned digest; its command line and environment are well formed, and the directory and files it was read from had the same keys afterwards. |
| StillProcess.StillSnapshotExactly | siem/rbac/broker_tls/operator_process.py:79-154 | For every schedule and every way of cutting up the reads, a snapshot of a process that stays as it is succeeds if and only if the PID is in range, everything on the way is trusted and within its limit, its texts are well formed and show the account, and the executable is the pinned one; and it then holds what is there. |
| ServiceProcess.ObserveRunningProcess | siem/rbac/broker_tls/operator_process.py:157-202 | The loop of snapshots and anchors computes the specified observation or the first failure, and leaves nothing open. |
| ServiceProcess.ObservedProcessIsMain | siem/rbac/broker_tls/operator_process.py:181-202 | If no property goes back to an earlier value and a reused PID gets a later start time, what is reported was counted in the memory of one process instance, which had the PID, and was the manager's main process under one configuration, during the whole window. |
| ProcessChecks.ObservedProcessIsVouched | siem/rbac/broker_tls/operator_process.py:181-202 | What is reported rests on a process instance that passed all these checks during the observation. |
| ServiceProcess.AnchorsExactly | siem/rbac/broker_tls/operator_process.py:157-165 | A configuration anchors an observation if and only if the unit is active under the service's account, with a main PID in range and a start time. |
| StillObservers.ProcessObservedWithRootsTool | siem/rbac/broker_tls/operator_process.py:181-189 | Nothing is reported of a process either unless the tool was root's. |
| StillObservers.StillProcessExactly | siem/rbac/broker_tls/operator_process.py:181-202 | With files, properties and a main process that stay as they are, an observation is reported if and only if tool, account, configuration and process are as demanded, and it counts what is in that process's memory. |
| StillObservers.CountsExactly | siem/rbac/broker_tls/operator_process.py:197-202 | The counts are those of the NUL-terminated parts; the first argument matches if and only if the command line starts with the packaged path and a NUL, and an override is reported if and only if some entry starts with a listed name and an equals sign. |
| ProcessSnapshot.SteadyMemory | siem/rbac/broker_tls/operator_process.py:145-146 | Memory that does not change while it is read is returned exactly. |
| ProcessSnapshot.SteadyProcessIsSeen | siem/rbac/broker_tls/operator_process.py:133-154 | In a calm kernel a process that keeps the PID during the pass is returned exactly as it is, even if a later process gets the PID afterwards; the assumptions of `OneSnapshotOneProcess` hold there. |
| ProcessSnapshot.SameStartMixes | siem/rbac/broker_tls/operator_process.py:143-151 | Any two processes with the same start time: a run that returns the command line of one with the environment of the other, with every check passed. |
| ServerClient.PagesAllowed | siem/rbac/collect_server_inventory.py:133-140 | Every page route of a known collection with an offset below 1000 is on the allowlist. |
| ServerClient.AllowedExactly | siem/rbac/collect_server_inventory.py:133-140 | A path may be asked for if and only if it is one of the fixed ones or a page route with an offset of one to three digits. |
| ServerClient.Client.Send | siem/rbac/collect_server_inventory.py:132-204 | The request, the loop over its body included, updates budget, login flag and wire as specified: nothing is sent before the peer's certificate is checked on that connection. |
| ServerClient.RequestSucceedsExactly | siem/rbac/collect_server_inventory.py:132-168 | A request gives a value exactly when it is permitted, within budget, on a connection to the pinned peer, in time and answered as expected; only the root without a token must be refused, and then nothing is read. |
| ServerClient.Client.LogIn | siem/rbac/collect_server_inventory.py:206-215 | Unusable inputs leave the whole session as it was; otherwise at most one connection is opened, credentials go only to the pinned peer, and the token is afterwards the old one or has the shape of a token. |
| ServerClient.LoginSucceedsExactly | siem/rbac/collect_server_inventory.py:206-215 | A login succeeds if and only if its inputs are usable, no login was tried and no token is held, the request budget lasts, the pinned peer answers in time with status 200, and the token that it sends has the right shape. |
| ServerClient.TokenShapeExactly | siem/rbac/collect_server_inventory.py:206-215 | A token is accepted if and only if it is three non-empty texts of its alphabet joined by dots, within the limit. |
| ServerClient.Client.ProbeHostname | siem/rbac/collect_server_inventory.py:122-130 | The probe passes if and only if TLS rejects the wrong hostname for the hostname itself; it opens one connection, sends nothing on it, and changes nothing else. |
| ServerClient.SessionKeeps | siem/rbac/collect_server_inventory.py:89-168 | Over any calls in any order and any answers: at most one login is attempted even if it fails, at most 100 connections are opened for requests, every GET is allowlisted, none but `/` is sent without a token, and credentials go only to the pinned peer. |
| ServerBody.ReadBody | siem/rbac/collect_server_inventory.py:170-204 | The result depends on the headers and the stream alone, however it is cut up: the declared number of leading bytes, or the whole stream; a short body fails, none exceeds the limit, no byte past the declared length is requested, and the loop ends. |
| ServerBody.ReceivedIsExpected | siem/rbac/collect_server_inventory.py:170-204 | What is received is what the headers and the stream determine, or a failure of one of the reads. |
| ServerBody.ReceivedExactly | siem/rbac/collect_server_inventory.py:170-204 | A body is received if and only if its framing headers are usable and no read fails, and then it is the declared number of leading bytes or the whole stream, within the limit. |
| ServerPaging.ReadCollection | siem/rbac/collect_server_inventory.py:233-251 | The paging loop stops against every responder and computes the specified collection or failure. |
| ServerPaging.CollectionIsWhatPagesHeld | siem/rbac/collect_server_inventory.py:233-251 | Whatever the server answers, a result has strictly increasing identifiers below 2^31, is the items of consecutive page requests in order, each answered completely, and has exactly the total that each of those pages reported. |
| ServerPaging.OffsetsStayAllowed | siem/rbac/collect_server_inventory.py:237-238 | No page request of a known collection is ever refused by the allowlist. |
| ServerPaging.ServedListIsReturned | siem/rbac/collect_server_inventory.py:233-251 | Against a server that pages a fixed sorted list, with page sizes of its own, the client returns that list, in exactly as many requests as there are pages. |
| ServerPaging.CollectionCost | siem/rbac/collect_server_inventory.py:233-251 | With full pages one collection takes at most ten requests, however it ends. |
| Relationships.EdgesAgreeExactly | siem/rbac/collect_server_inventory.py:309-318 | On ordered collections the loops in both directions pass if and only if all lists are valid and the item side and the role side record the same relation. |
| RoleInventory.AcceptedLinksAgree | siem/rbac/collect_server_inventory.py:309-318 | In an accepted catalog users, policies and rules record the same links as the roles do. |
| RoleInventory.PolicyCheckExactly | siem/rbac/collect_server_inventory.py:331-336 | Policies with distinct names pass exactly when they are as many as the table's rows and each has the definition of a row. |
| RoleInventory.ReadonlyRoleIsPinned | siem/rbac/collect_server_inventory.py:331-336 | In an accepted catalog the readonly role lists exactly the 13 pinned policies, each with its row's definition, and its action and resource grants are exactly the table's. |
| InventoryAcceptance.SummarizeAcceptsExactly | siem/rbac/collect_server_inventory.py:291-349 | An ordered catalog is accepted if and only if both modes are white and the operator's grants unfiltered, names and links are valid, exactly one administrator and one readonly role, one operator and one broker that may run as others exist, the operator is alone the one who asks and an administrator, neither the service user nor the mapping exists, the readonly role is the table, and every rule and policy can be recorded. |
| ServerInventory.CollectInventory | siem/rbac/collect_server_inventory.py:371-386 | Version, context, catalog, summary, second catalog and second context in the code's order, with the first failure's code. |
| ServerInventory.RunSession | siem/rbac/collect_server_inventory.py:397-427 | A whole run on a new client computes the specified session and ends without a token. |
| ServerInventory.SessionBudget | siem/rbac/collect_server_inventory.py:371-386 | With full pages a whole run makes at most 89 of the 100 allowed requests, however it ends. |
| ServerInventory.RunKeeps | siem/rbac/collect_server_inventory.py:397-427 | Every run keeps the session's promises against any server. |
| ServerInventory.ContextOnWire | siem/rbac/collect_server_inventory.py:372-376 | Before the catalog exactly four requests go out with the token, for the version, the user, the user's policies and the configuration; the version answered is the pinned one and the context is what was answered. |
| ServerInventory.RecheckOnWire | siem/rbac/collect_server_inventory.py:382-384 | The last three requests ask again for configuration, policies and user, and bring the same data. |
| ServerInventory.AcceptedInventory | siem/rbac/collect_server_inventory.py:371-386 | An accepted inventory was read twice with equal results, in identifier order, with the links agreeing on both sides and the readonly role as pinned. |
| InventorySnapshot.ReadTwiceShown | siem/rbac/collect_server_inventory.py:233-251 | With full pages, a collection read twice with equal results is what its page routes showed, all pages together, at every connection in between, if no route goes back to an earlier answer. |
| InventorySnapshot.CollectedTogether | siem/rbac/collect_server_inventory.py:371-386 | The same for all four collections, the user, the user's policies and the configuration: all that an accepted inventory rests on was there together at the connection between the two passes. |
| StillServer.StillCollectAcceptsExactly | siem/rbac/collect_server_inventory.py:371-386 | Against a server whose data stay as they are, with any page sizes that fit the budget, a collection succeeds if and only if version and catalog are approved, and gives the summary of what the server holds. |
| StillServer.StillRunSucceedsExactly | siem/rbac/collect_server_inventory.py:397-427 | A whole run against such a server succeeds if and only if it presents the pinned certificate, rejects the wrong hostname, lets the operator in and holds an approved catalog. |
| Settings.FindCandidates | siem/rbac/collect_dashboard_inventory.py:58-71 | The recursive loop that grows `found` computes the specified candidates or the static error. |
| Settings.Resolve | siem/rbac/collect_dashboard_inventory.py:51-76 | Splitting, searching and the uniqueness decision together compute the specified resolution. |
| Settings.CandidatesMeetGroupings | siem/rbac/collect_dashboard_inventory.py:58-71 | The search returns one entry for every grouping of the name's parts that leads through nested mappings to a value, counting duplicates, and fails exactly when some grouping needs a mapping where there is none. |
| Settings.ResolveDecides | siem/rbac/collect_dashboard_inventory.py:51-76 | Missing, unique, ambiguous and malformed are decided exactly, by how many distinct groupings lead to a value. |
| Settings.EveryEncodingResolves | siem/rbac/collect_dashboard_inventory.py:51-76 | Written with any grouping, flat, nested or mixed, and with any unrelated entries beside it, a setting resolves to its value. |
| Settings.NestResolves | siem/rbac/collect_dashboard_inventory.py:51-76 | The same for the document that holds nothing else: resolution inverts every encoding. |

## Left out

- The Streamlit interface, provider HTTP calls, audit records, response schema and scoring: input, output, rendering and finite tables.
- Endpoint classification and consent hashing: whether consent is required is a parameter. The identifier, times, hashes and settings that the result record repeats are not in the outcome.
- PasteCore.RunPastePipeline: JSON parsing, the provider, response parsing and response validation are arbitrary functions.
- Credential patterns, masking of matches and the other marker patterns: arbitrary functions of the text; `str.lower` and Python's character tables are parameters with the few facts that are used.
- Hashing, HMAC, TLS, base64, certificate parsing, YAML and tar decoding: uninterpreted functions, parameters or already decoded values.
- `atime` and the errno values outside the diagnostic table: not part of the calls that are modelled.
- `operator_launch.py` and `collect_broker_code_inventory.py`: further users of the bracketed read and the path walk proved here.
- DoubleCollect.Observe: the pattern by itself; the tool check, failing queries and the validation of values are in ServiceConfiguration.ObserveServiceConfiguration.
- ServiceConfiguration.ObserveServiceConfiguration: the pipe to busctl and the JSON lines it prints are given as an outcome and decoded values.
- `observe_package_runtime`: a further double collection around the parser and the file reader proved here.
- Subprocess handling, timeouts and wall-clock deadlines: a deadline is a possible outcome of a connection.
- Payload selection, versions and the manifest that `build_from_tar` writes: file output after the closure proved here.
- The sanitized record that `summarize` returns and the digests in it: a rendering of the accepted catalog.
- Recursion limits of the interpreter: trees and graphs of any depth are covered.
- Lone surrogates outside the assistant: byte strings and file names there are texts of ordinary characters.
- Bootstrap.BootstrapIsSnapshot: the manifest and certificate checks are arbitrary functions of the bytes.
- OperatorCore.InstalledChecks: JSON decoding is not modelled, and the digest of the printed files is given with the decoded manifest.
- Recovery.RestoresOnlyCandidate: the private backup is never written by anybody, which the source requires of its adapter.
- Recovery.RollbackConverges: the action names are shortened, and what an action does to the world is the meaning of its name, since the source applies no action itself.
- ServerClient.Client.Send: the decoding of a JSON body and base64 are arbitrary functions.
