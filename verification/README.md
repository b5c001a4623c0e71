# Verified model of the Venus OS observability service and its release tools

The observability service turns D-Bus signals of a Venus OS device into metrics. The repository also
carries the tools that number, prepare, check and publish its releases. This project models the parts
whose correctness depends on interleavings, offsets, graphs or arithmetic, and proves what they are for.

| file | what it models |
|---|---|
| `Selection`, `Batches`, `OwnerState`, `OwnerTracker` | the D-Bus owner tracker: a class with the source's fields and methods, each proved equal to a function on values |
| `OwnerProtocol`, `OwnerAgreement`, `OwnerEarlyClose`, `OwnerHistory`, `OwnerOvertaking`, `OwnerInvalidation`, `OwnerRules` | the tracker with the bus daemon, the signal queue and outstanding replies as one state machine, over all runs; which services are invalidated; when it asks, queues and lets go |
| `Decimal`, `Versions`, `Plans`, `VersionForms` | decimal numerals, release identities and their projections, release plans; how each is spelt |
| `Ledger`, `LedgerRules`, `LedgerRuns` | the version ledger, and many workflow runs writing it by compare-and-swap |
| `JsonTokens`, `JsonGrammar`, `JsonText`, `JsonEdits`, `JsonDocument`, `JsonEditor`, `JsonSpelling` | the span-keeping JSON parser and the version editor, down to characters |
| `Sync`, `SyncFields`, `EffectiveInputs` | preparing, checking and writing all declared version fields, which of them can be synchronised together, and the digest of the result |
| `Prepare` | choosing the next release base |
| `WorkflowGraph` | the walk over callable workflows |
| `TreeDiff`, `TreeLocations` | the toolchain diff with its explicit stack, and every place it reports |
| `MetricPaths`, `MetricPlaces`, `Metrics`, `MetricStores` | the table of metric paths, and the OpenTelemetry and Prometheus stores |
| `ListenerState`, `ListenerRuns`, `ListenerRules` | start and stop of the listener's worker thread |
| `MarkdownSpans`, `MarkdownComments`, `MarkdownSections`, `MarkdownFences`, `MarkdownReread` | code spans and comments in a line of release notes, masking the comments, fences, cutting the notes into sections, and reading masked text again |
| `OciArchive`, `OciAcceptance`, `OciMerge` | walking and merging OCI archives |
| `Wrappers`, `Sequences`, `Lexicographic` | options and results; laws of sequences; Python's order on strings, `min` and `sorted` |

`dafny verify dfyconfig.toml` checks everything.

## How the source is read

* A method that changes an object's fields is a method of a class here; its contract equates the new
  state with a function of the old one, and lemmas are about that function. Protocols between threads,
  runs or processes are state machines whose events are the stretches nothing can interrupt.
* Exceptions are `None`, `false` or `Failure`. Where an exception leaves an object half changed and the
  program gives it up, nothing is said of the object afterwards.
* The clock, the daemon's answers, the sets of tags and releases seen on GitHub, and whether a call
  raised are parameters or events.
* A function that both a method and its specification use is pinned by a lemma that names neither: it says on
  fields, characters and numbers when each outcome occurs. These lemmas stand in `OwnerInvalidation`,
  `OwnerRules`, `VersionForms`, `LedgerRules`, `JsonGrammar`, `MetricPlaces`, `TreeLocations`, `ListenerRules`,
  `MarkdownFences` and `OciAcceptance`, and at the end of `JsonEditor`, `MarkdownComments`, `MarkdownSections`, `Prepare` and
  `WorkflowGraph`.

## Results that are not simply positive

* **Early end of a refresh.** A `GetNameOwner` call that raises inside the loop may end the refresh while
  later lookups are outstanding. `WindowStaysOpen` says exactly when the window survives, and
  `SignalBeatsStaleReply` what it is for. The agreement theorem is about runs in which it survives.
  `WindowDecides` says that nothing less will do: at every state after a refresh without loss, an event that
  ends the window early, and no other, can be continued to a lasting disagreement. `SomeRunDisagrees` gives
  a whole run. Conservation, limits and order need no such care and hold of all runs.
* **Subscribing does not replay.** `SubscribingKeepsQuiet` and `SubscribingGloballyKeepsQuiet` say exactly
  when a new subscription leaves no deliverable batch in the queue. Otherwise order is lost: the next batch
  overtakes it (`SubscribingLetsBatchesOvertake`) and it is delivered after that one as soon as its sender
  gets another name (`OvertakenGoesLate`); `SomeRunDisorders` gives a whole run.
* **An abandoned ledger branch.** A run that stops between making the branch and its first write leaves a
  ledger no run can read again (`AbandonedBranchIsStuck`).
* **Stable tags** can be reserved by two runs (`StableTagsMayRepeat`). Two reservations share a tag if and
  only if both are stable and of one base (`TagsAreDistinct`).
* **An edit that renames its owner** cannot be repeated; every other successful JSON edit is stable
  (`EditIsStable`, if and only if). `RenamedIsRefused` gives the manifest and the two edits.
* **The digest of synchronised files depends on where they started**, although the docstring of
  `effective_inputs_digest` says otherwise: a field that already spells its new value with an escape keeps
  that spelling. `SyncsEndAlike` says, for two sets of files and any declarations, exactly when both
  synchronisations end the same, file by file (`JsonFilesEndAlike`, from the texts before), and
  `DigestsEndAlike` carries this to the digest. It fails for every version: a manifest whose field spells
  the version with its first digit escaped ends apart from one that held another version
  (`SpellingSurvives`, `ApartIsToldApart`).
* **Short service names.** The two metric exporters give a service name of two or three dotted parts
  different serial labels (`SerialsAgree`, if and only if). A finite value under such a name makes the stores
  differ after any history (`ShortNamesDiffer`). `StoresAgree` is exact: the stores agree at every moment if
  and only if no value under such a name is finite or takes a shown one away.
* **Masking is not stable.** `release_notes` reads masked text again, and a masked line can open a code
  fence that was not there. There are two kinds of such lines: a comment closes before the fence, or a line
  of backticks has its other backticks in comments alone. `MaskedOpensFence` tells from the original line
  when its masked form opens a fence; `RereadingIsSafe` says that the second reading keeps all fences, hence
  all headings, exactly when no line outside a fence gains one; `SectionReread` says the same of a section.
* **The order of merged archives.** Leaves of equal key keep the order of the inputs. `OrderOfArchives` says
  exactly when swapping the archives changes nothing, and `TiesAreAttestations` that images never tie.
* **Lost quit.** A quit issued before the loop runs has no effect (`EarlyQuitIsLost`); polling makes up for it.

## Model

| member | source | states |
|---|---|---|
| Selection.Select | src/venus_observability/dbus_listener.py:172-181 | Finds a name exactly when some candidate is eligible, and then the least eligible one |
| OwnerTracker.ServiceOwnerTracker.constructor | src/venus_observability/dbus_owners.py:29-53 | Starts with empty maps and queue, in a valid state |
| OwnerTracker.ServiceOwnerTracker.Start | src/venus_observability/dbus_owners.py:55-67 | Subscribes and refreshes once, never after stop |
| OwnerTracker.ServiceOwnerTracker.Submit | src/venus_observability/dbus_owners.py:69-101 | Delivers, ignores or queues a batch; keeps `owners` the exact inverse of `services` and `pending_items` the summed sizes |
| OwnerTracker.ServiceOwnerTracker.MakeRoom | src/venus_observability/dbus_owners.py:93-98 | Drops from the head exactly as many batches as the limits demand |
| OwnerState.ExcessIsLeast | src/venus_observability/dbus_owners.py:93-98 | The number dropped is the least that makes room for the new batch |
| OwnerRules.DropsAsFewAsFit | src/venus_observability/dbus_owners.py:93-100 | What stays keeps 256 batches and 4096 items with the new batch if and only if at least that many are dropped |
| OwnerTracker.ServiceOwnerTracker.NameOwnerChanged | src/venus_observability/dbus_owners.py:103-109 | Records a changed name while a refresh runs and applies the change |
| OwnerTracker.ServiceOwnerTracker.SetOwner | src/venus_observability/dbus_owners.py:111-123 | Rebinds one name, invalidates a lost service, replays for the new owner |
| OwnerTracker.ServiceOwnerTracker.Rebind | src/venus_observability/dbus_owners.py:112-122 | Changes both maps so that they stay inverse with no empty set left |
| OwnerTracker.ServiceOwnerTracker.Replay | src/venus_observability/dbus_owners.py:132-146 | Delivers exactly the queued batches that became eligible, in order, and keeps the rest |
| OwnerTracker.ServiceOwnerTracker.CallDaemon | src/venus_observability/dbus_owners.py:148-182 | Registers a request, or completes at once when the call raises |
| OwnerTracker.ServiceOwnerTracker.Refresh | src/venus_observability/dbus_owners.py:184-191 | Opens a window at most once an interval and asks for the names |
| OwnerTracker.ServiceOwnerTracker.ListedNames | src/venus_observability/dbus_owners.py:193-198 | Forgets absent names and looks up present ones, sparing those changed since |
| OwnerTracker.ServiceOwnerTracker.FoundOwner | src/venus_observability/dbus_owners.py:200-203 | Applies an owner unless a signal came first |
| OwnerTracker.ServiceOwnerTracker.Complete | src/venus_observability/dbus_owners.py:154-165 | One reply or error: its request goes, the retry time is set, the window closes with the last request |
| OwnerTracker.ServiceOwnerTracker.Expire | src/venus_observability/dbus_owners.py:214-218 | Popping only from the head removes exactly all expired batches |
| OwnerTracker.ServiceOwnerTracker.Tick | src/venus_observability/dbus_owners.py:220-226 | Expires, and refreshes while something is queued |
| OwnerTracker.ServiceOwnerTracker.Stop | src/venus_observability/dbus_owners.py:228-246 | Clears both maps, the requests and the queue, discarding what was queued |
| Batches.SplitConserves | src/venus_observability/dbus_owners.py:136-143 | Splitting the queue loses and duplicates no batch |
| Batches.ReplayKeepsChannel | src/venus_observability/dbus_owners.py:138-146 | Taking one sender's batches of an interface out of the queue leaves each channel's order as it was |
| OwnerAgreement.WindowStaysOpen | src/venus_observability/dbus_owners.py:154-165 | Exactly when the refresh window stays open while a lookup is outstanding |
| OwnerAgreement.SignalBeatsStaleReply | src/venus_observability/dbus_owners.py:200-203 | A signal beats an older lookup reply if and only if it comes inside the window |
| OwnerAgreement.SignalArrivesKeeps | src/venus_observability/dbus_owners.py:103-109 | Applying a lifecycle signal keeps every name either agreed, due a signal, or still asked for |
| OwnerAgreement.SnapshotArrives | src/venus_observability/dbus_owners.py:193-198 | Applying a name snapshot, however stale, keeps the same |
| OwnerAgreement.LookupCompletes | src/venus_observability/dbus_owners.py:200-203 | Applying a lookup reply, however stale, keeps the same |
| OwnerAgreement.StepKeeps | src/venus_observability/dbus_owners.py:103-203 | Every event of daemon, signals, replies and timeouts, in any order, keeps the invariant |
| OwnerAgreement.Agreement | src/venus_observability/dbus_owners.py:55-67 | In runs that end no refresh too early, after one refresh without loss the table equals the daemon's owners up to signals still to arrive |
| OwnerEarlyClose.WindowDecides | src/venus_observability/dbus_owners.py:154-203 | After a refresh without loss, an event keeps the window if and only if every continuation that ends no later refresh too early leaves the tables equal up to signals still to arrive |
| OwnerEarlyClose.EarlyEndIsReached | src/venus_observability/dbus_owners.py:184-203 | A run from the start after which the next reply ends a refresh too early |
| OwnerEarlyClose.SomeRunDisagrees | src/venus_observability/dbus_owners.py:154-203 | A run from the start, with one refresh without loss, that ends with the tables different and no signal due |
| OwnerHistory.ReplayKeeps | src/venus_observability/dbus_owners.py:132-146 | Replay keeps the accounts and the order and leaves nothing eligible of that owner queued |
| OwnerHistory.SubmitKeeps | src/venus_observability/dbus_owners.py:69-101 | Submitting keeps limits, accounts and order |
| OwnerHistory.StopKeeps | src/venus_observability/dbus_owners.py:228-246 | Stopping accounts for every queued batch as discarded |
| OwnerInvalidation.StepTold | src/venus_observability/dbus_owners.py:111-123 | Each event but stop invalidates exactly the names that had an owner before and have none or another after, read off the tables |
| OwnerInvalidation.LossesAreTold | src/venus_observability/dbus_owners.py:111-123 | Over every run each loss or replacement of an owner is invalidated once, and nothing else |
| OwnerRules.AsksWhenPrompted | src/venus_observability/dbus_owners.py:184-191 | A `ListNames` goes out exactly at the first start, a tick with a batch younger than 10 s queued, or a batch that must wait, and then only with none under way and the last attempt 60 s ago; a raising call is retried after 5 s |
| OwnerRules.ReplySettles | src/venus_observability/dbus_owners.py:154-165 | What a reply leaves outstanding: one lookup for each listed service not signalled meanwhile, in order, and the retry time of an error |
| OwnerRules.SubmissionSettles | src/venus_observability/dbus_owners.py:69-101 | What becomes of a batch: delivered under the least eligible name, ignored, refused for its size, or queued after dropping what is 10 s old and as few others as fit |
| OwnerRules.TickSettles | src/venus_observability/dbus_owners.py:220-226 | A tick drops exactly what is 10 s old |
| OwnerRules.StopIsFinal | src/venus_observability/dbus_owners.py:228-246 | Whatever comes after a stop, nothing is asked, queued, delivered, dropped or invalidated |
| OwnerHistory.EveryBatchAccountedFor | src/venus_observability/dbus_owners.py:86-101 | Over every run each batch is once delivered, dropped, ignored, discarded or queued; 256 batches and 4096 items are never exceeded |
| OwnerHistory.DeliveredInOrder | src/venus_observability/dbus_owners.py:132-146 | Over every steady run a channel's deliveries are a subsequence of its submissions, and no eligible batch stays queued |
| OwnerHistory.DeliveredUnderOwnName | src/venus_observability/dbus_owners.py:125-130 | Each delivery goes out under the least eligible name its sender owns at that moment |
| OwnerHistory.SubscribingKeepsQuiet | src/venus_observability/dbus_listener.py:94-120 | Exactly when a new subscription makes nothing already queued eligible, whatever was subscribed before |
| OwnerHistory.SubscribingGloballyKeepsQuiet | src/venus_observability/dbus_listener.py:73-92 | Exactly when subscribing to all bus items does: no sender that owns a name has a batch of them waiting |
| OwnerHistory.SubscribingLetsBatchesOvertake | src/venus_observability/dbus_listener.py:94-120 | Otherwise the sender's next batch is delivered while the older one stays queued |
| OwnerOvertaking.OvertakenGoesLate | src/venus_observability/dbus_owners.py:103-146 | And the older one is delivered after it when the sender gets any further name before it expires |
| OwnerOvertaking.WaitingDisorders | src/venus_observability/dbus_owners.py:69-146 | From every state with such a batch waiting a run leads to two deliveries out of order |
| OwnerOvertaking.SomeRunDisorders | src/venus_observability/dbus_listener.py:94-120 | Such a run from the start: queue, resolve, subscribe, submit, resolve again |
| Decimal.NumberOfDigits | scripts/version_plan.py:44-46 | Writing a number in decimal and reading it back gives the number, without leading zeros |
| Versions.IdentityInjective | scripts/version_plan.py:291-319 | Equal version strings have equal base, channel and sequence |
| Versions.SplitOfSuffix | scripts/version_plan.py:472-477 | A nightly suffix splits back into its timestamp, run and attempt |
| Versions.DevNumberOrders | scripts/version_plan.py:473-482 | The PEP 440 development number is injective and ordered by run, then attempt |
| Versions.AppleIsBijective | scripts/version_plan.py:483-487 | Build numbers 1 to 99,990,000 and Apple triples correspond one to one |
| Versions.AppleIsOrdered | scripts/version_plan.py:483-487 | A greater build number has a greater triple |
| Versions.ValidatorAgrees | scripts/validate_setuphelper_archive.py:45-68 | The archive validator's mapping equals the PEP 440 projection, both refusing alike, unless the plan is a final-build candidate |
| VersionForms.TimestampsAreMoments | scripts/version_plan.py:303-311 | A nightly time stamp is fourteen digits that name a day of the Gregorian calendar and a time of it |
| VersionForms.NightliesAreStamped | scripts/version_plan.py:298-311 | A nightly suffix is exactly such a stamp and two positive numerals |
| VersionForms.VersionsAreSpelt | scripts/version_plan.py:291-319 | The version of each channel, character by character, and when there is one |
| VersionForms.PythonPackages | scripts/version_plan.py:464-471 | The PEP 440 form of stable releases, betas and final-build candidates |
| VersionForms.NightlyPackages | scripts/version_plan.py:472-482 | That of a nightly, refused exactly when run and attempt do not fit below 2^64 - 1 |
| VersionForms.PlainPackages | scripts/version_plan.py:454-464 | A byte-promoted candidate is packaged under its base, any other SemVer package under its version |
| VersionForms.ValidatorMaps | scripts/validate_setuphelper_archive.py:45-68 | The texts the archive validator accepts, each with its Python version |
| Plans.CreatedPlansAreBound | scripts/version_plan.py:322-429 | A created plan validates against its policy and source and no other |
| VersionForms.PlansAreCreated | scripts/version_plan.py:322-361 | Exactly when a plan is created and what its fields then are |
| VersionForms.AcceptedIffRecreated | scripts/version_plan.py:363-429 | A plan is accepted for a policy and source if and only if creating it anew gives that plan |
| VersionForms.ValidIffCreated | scripts/version_plan.py:363-410 | Without them, if and only if some policy and source could have created it, but for the declared files |
| Plans.TagsTellPlansApart | scripts/version_plan.py:363-429 | A valid plan's tag determines its base, channel and sequence |
| Ledger.TagNumberOfPlan | scripts/release_control.py:1565-1569 | The scan for used numbers reads a beta or candidate plan's own tag back as its sequence |
| Ledger.FreshNumberExceedsAll | scripts/release_state.py:193-214 | A fresh beta or candidate number exceeds every reserved and every tagged one of its line |
| Ledger.ReservedIsReadable | scripts/release_state.py:98-149 | What a reservation writes, the next reader accepts |
| Ledger.RepeatIsBound | scripts/release_state.py:180-192 | A run that has reserved gets its plan back exactly when it asks for the same base, channel, source, parent and policy |
| Ledger.FreshIsFree | scripts/release_state.py:193-215 | A new run gets a plan exactly when its tag is not taken, the next number is in range and every file can carry it; the plan is for what was asked |
| LedgerRules.ReadsSoundLedgers | scripts/release_state.py:98-149 | A file is read exactly when counter and floor are in order and every record is a run with a valid plan the counter has reached; none, only before the branch exists |
| LedgerRules.TagsAreNumbered | scripts/release_control.py:1565-1569 | The tags that carry a number, and which |
| LedgerRules.SequencesFollow | scripts/release_state.py:193-204 | A beta or candidate gets the number after the greatest used one, from one on; a nightly its stamp, run and attempt; a stable release none |
| LedgerRules.PublicationsBegin | scripts/release_state.py:305-330 | Exactly when an ordinary publication begins over an accepted ledger, and that it moves the floor alone |
| LedgerRules.PromotionsBegin | scripts/release_state.py:273-302 | The same for a byte promotion |
| Ledger.LedgerState.FindNextSequence | scripts/release_control.py:1558-1570 | One more than the greatest number any tag of that base and channel carries |
| Ledger.LedgerState.GreatestReserved | scripts/release_state.py:196-202 | The greatest reserved number of a base and channel, or zero |
| Ledger.LedgerState.ReservePlan | scripts/release_state.py:166-215 | A repeat returns the stored plan; a new run gets the next number; a refusal changes nothing |
| Ledger.LedgerState.VerifyPromotionOrder | scripts/release_state.py:273-302 | Accepts exactly a published promote-bytes candidate that nothing newer has followed |
| Ledger.LedgerState.BeginPublication | scripts/release_state.py:305-330 | Moves the floor to the plan's number exactly when the check for its kind passes |
| LedgerRuns.HistoriesAreSequential | scripts/release_state.py:152-161 | For every interleaving of clients, with writes that commit unseen, the committed writes are a lawful sequential history |
| LedgerRules.CommitsIffCurrent | scripts/release_state.py:152-161 | A write commits exactly when the branch is there and the file is what its client read |
| LedgerRules.FirstCommits | scripts/release_state.py:166-215 | The first reservation of all is committed once the branch is made, and read back |
| LedgerRuns.OnlyGrows | scripts/release_state.py:212-214 | Reservations are append-only and neither counter nor floor goes back |
| LedgerRuns.BuildNumbersIncrease | scripts/release_state.py:205-215 | Allocated numbers strictly increase in commit order, above the policy floor and up to the counter |
| LedgerRuns.TagsAreDistinct | scripts/release_state.py:193-215 | Two reservations have the same tag if and only if both are stable and of one base |
| LedgerRuns.CommittedTagsWereFree | scripts/release_state.py:209-209 | No commit of any history reserves a tag its run saw taken, or for anything but what was asked |
| LedgerRuns.StableTagsMayRepeat | scripts/release_state.py:193-215 | Two runs can reserve the same stable tag |
| LedgerRuns.RepeatReturnsSamePlan | scripts/release_state.py:180-192 | A run that asks again gets the plan it committed, whatever came between |
| LedgerRuns.PublicationsNeverGoBack | scripts/release_state.py:305-330 | Ordinary publications strictly increase, promotions never decrease, and the floor stays within the counter |
| LedgerRuns.PublishedOnce | scripts/release_state.py:305-330 | A number once consumed is refused to every later ordinary publication |
| LedgerRuns.PublishableIffNewest | scripts/release_state.py:229-259 | After any history, publication is allowed if and only if the plan is the one reserved for this run and source and its number exceeds every number published so far and every reserved number whose tag is released |
| LedgerRuns.PromotableIffNewest | scripts/release_state.py:273-302 | After any history, byte promotion is allowed if and only if the plan is a reserved promote-bytes candidate with its tag released, and neither a publication nor another released tag has a greater number |
| LedgerRuns.AbandonedBranchIsStuck | scripts/release_state.py:102-108 | A branch made and never written blocks every later run |
| JsonTokens.DumpReadsBack | scripts/version_plan.py:661-661 | What `json.dumps` writes for text or a whole number scans as one token with that value |
| JsonTokens.ScanLocal | scripts/version_plan.py:600-602 | Where a scalar ends is decided by the scalar and the one character after it |
| JsonGrammar.StringsAreSpelt | scripts/version_plan.py:600-602 | A string is read exactly from the spellings of its characters and the quote after them (RFC 8259, section 7) |
| JsonGrammar.ScalarsAreRead | scripts/version_plan.py:600-602 | The scanner reads exactly strings, literals and numbers as long as they go, with their values (RFC 8259, sections 3, 6 and 7) |
| JsonGrammar.StringsAreWritten | scripts/version_plan.py:661-661 | The one spelling `json.dumps` gives each character |
| JsonText.BlanksAreSkipped | scripts/version_plan.py:548-551 | Spaces, tabs, line feeds and carriage returns are skipped and nothing else |
| JsonText.DocumentsAreTheirText | scripts/version_plan.py:540-613 | The parser accepts a text exactly when it is the text of a well-formed tree with distinct keys, and that tree is unique |
| JsonDocument.JsonDocument.Whitespace | scripts/version_plan.py:548-551 | Skips exactly the leading white space |
| JsonDocument.JsonDocument.Parse | scripts/version_plan.py:593-602 | Returns the value and end, and records the span of every scalar below the path and nothing else |
| JsonDocument.JsonDocument.ParseMembersAt | scripts/version_plan.py:558-576 | The object loop reads the members, refuses a repeated key, and records their spans |
| JsonDocument.JsonDocument.ParseElementsAt | scripts/version_plan.py:583-591 | The array loop reads the elements and records their spans by position |
| JsonEdits.SpanWithin | scripts/version_plan.py:600-601 | Recorded spans are non-empty and lie inside the text |
| JsonEdits.SpansDisjoint | scripts/version_plan.py:600-601 | Spans of different paths do not overlap |
| JsonEditor.SpanIffScalar | scripts/version_plan.py:656-658 | A span is recorded for a path of keys exactly when looking it up finds a scalar |
| JsonEdits.RewriteIsSplice | scripts/version_plan.py:663-664 | Cutting a span out and putting a token in gives the document with that one token replaced, every other character kept |
| JsonEdits.SpanStays | scripts/version_plan.py:663-664 | Replacing a token leaves every span before it where it was |
| JsonEdits.SpliceAllIsRewrite | scripts/version_plan.py:663-664 | Splicing from the back at offsets of the original text replaces exactly the prepared tokens |
| JsonEdits.RewriteValue | scripts/version_plan.py:660-664 | The rewritten document means the old value with exactly those scalars replaced |
| JsonEditor.EditJson | scripts/version_plan.py:630-665 | The parse, target, prepare, sort and splice steps yield exactly the rewritten document and the values found before |
| JsonEditor.EditCommutesWithParse | scripts/version_plan.py:630-665 | Parsing the edited text gives the original value with exactly the selected changed fields replaced |
| JsonEditor.FieldsTakeValue | scripts/version_plan.py:616-627 | Afterwards every owned field has the projected value, text staying text and numbers numbers |
| JsonEditor.ManifestEdits | scripts/version_plan.py:645-665 | A manifest is edited exactly when it bears its owner's name, if one is required, and its field can take the value; the field then reads it |
| JsonEditor.LockEdits | scripts/version_plan.py:632-665 | A lock file is edited exactly when it is the package's, its root package, if there are packages, is too, and both versions can take the value; both then read it |
| JsonEditor.EditIsStable | scripts/version_plan.py:630-665 | Editing again changes nothing, if and only if the edit did not rename its own owner |
| JsonSpelling.RenamedIsRefused | scripts/version_plan.py:630-665 | A manifest whose owned field is its own required name: the edit succeeds and the second one is refused |
| JsonSpelling.EditSettles | scripts/version_plan.py:655-664 | What stands in each owned field afterwards: its old token if that already means the value, else the plain spelling |
| JsonSpelling.NumberedMeans | scripts/version_plan.py:600-601 | Spelling the first character of a text by its number gives a token of the same value |
| Sync.SyncVersions | scripts/version_plan.py:1041-1099 | Prepares in order, demands that every declaration holds of the result, then checks or writes the drift |
| Sync.CheckIffAllHold | scripts/version_plan.py:1092-1096 | A check passes exactly when every declared edit would change nothing |
| Sync.SyncIsAFixpoint | scripts/version_plan.py:1041-1099 | Success leaves a simultaneous fixpoint: the next check and the next synchronisation change nothing, other files are untouched |
| Sync.ConflictsAreRefused | scripts/version_plan.py:1072-1081 | Declarations no text satisfies together are always refused |
| Sync.TwoVersionsConflict | scripts/version_plan.py:1072-1081 | Two versions for targets that share a JSON field, npm lock files included, are such declarations |
| Sync.OtherFieldKeepsHolding | scripts/version_plan.py:1051-1060 | Setting another field of a manifest does not undo a declaration that held |
| Sync.OneEachSyncs | scripts/version_plan.py:1051-1081 | With one field to a file, success means every edit succeeds and is stable |
| Sync.JsonFieldSyncs | scripts/version_plan.py:1041-1099 | For a JSON field: success if and only if the edit succeeds and does not rename the owner |
| SyncFields.JsonFileSyncs | scripts/version_plan.py:1051-1081 | For any number of JSON fields of one file: possible if and only if each edit succeeds in its turn, no field is to have two versions, and no owner is renamed away |
| SyncFields.CompatibleSyncs | scripts/version_plan.py:1051-1081 | When each edit succeeds on the file as it is, the last two conditions are exactly what is needed |
| SyncFields.SyncsFileByFile | scripts/version_plan.py:1041-1099 | Whatever the editors, synchronising succeeds if and only if it does for each declared file alone |
| SyncFields.JsonFieldsSync | scripts/version_plan.py:1041-1099 | Hence for JSON fields in any number of files: success if and only if those three conditions hold of each file |
| EffectiveInputs.JsonFilesEndAlike | scripts/version_plan.py:1051-1081 | Two texts synchronised for one list of JSON fields end as the same text if and only if they agree around those fields and each field held one token, or its kind with no odd spelling of the version |
| EffectiveInputs.SyncsEndAlike | scripts/version_plan.py:1041-1099 | Two synchronisations of one list of declarations end with equal files if and only if every declared file ends alike |
| EffectiveInputs.DigestsEndAlike | scripts/version_plan.py:438-451 | With injective hash and rendering, the digest is the same on exactly the same condition |
| EffectiveInputs.SpellingSurvives | scripts/version_plan.py:1041-1099 | For every version, two manifests that differ only in the field synchronise successfully and end as different texts |
| EffectiveInputs.ApartIsToldApart | scripts/version_plan.py:438-451 | The digest tells such results apart |
| Prepare.NextFree | scripts/prepare_version.py:167-170 | The loop ends at the first patch no tag has taken |
| Prepare.SomeFree | scripts/prepare_version.py:167-170 | Whatever finite set of tags is taken, some patch is free |
| Prepare.NextFreeUnique | scripts/prepare_version.py:167-170 | There is only one such patch |
| Prepare.ChooseVersion | scripts/prepare_version.py:145-171 | Which version is chosen, or why a request is refused |
| Prepare.NextPatchIsAboveHistory | scripts/prepare_version.py:56-76 | The next patch never fails, is not below the current base, is above every stable tag, and skips no free version |
| Prepare.RequestsAreNotMoved | scripts/prepare_version.py:154-166 | A request or another bump is taken as it is or refused, never moved |
| Prepare.RequestsInFull | scripts/prepare_version.py:154-166 | Exactly when an explicit request is taken, and for which reason it is refused |
| Prepare.BumpsInFull | scripts/prepare_version.py:68-76 | The major, minor and patch bump, refused exactly when that tag exists |
| Prepare.NextPatchInFull | scripts/prepare_version.py:56-67 | The next patch is the first free one from an unreleased base on, and else after the greatest stable tag |
| WorkflowGraph.Walk.Callable | scripts/workflow_contracts.py:214-232 | Ends; returns normally only with the file and all it reaches finished and sound, else shows a path to the problem |
| WorkflowGraph.PathsDescend | scripts/workflow_contracts.py:216-219 | Among finished files every path runs down the order they were finished in |
| WorkflowGraph.FinishedHasNoFault | scripts/workflow_contracts.py:214-232 | From a finished file no path closes a cycle or meets an unsound file |
| WorkflowGraph.ValidateGraph | scripts/workflow_contracts.py:235-241 | Succeeds exactly when the reachable graph is sound and acyclic, and then returns exactly the reachable files |
| WorkflowGraph.CalleesAreNamedLast | scripts/workflow_contracts.py:228-230 | A file calls exactly the files named after the last slash of its jobs' local references |
| WorkflowGraph.SoundFiles | scripts/workflow_contracts.py:220-232 | Which files have nothing wrong with themselves |
| WorkflowGraph.FileProblems | scripts/workflow_contracts.py:220-232 | Which of its problems may be reported of a file, and exactly when |
| TreeDiff.ToolchainChanges | scripts/release_versioned.py:99-125 | The explicit stack ends and reports exactly what the recursive diff reports, in its order |
| TreeDiff.QueueMapping | scripts/release_versioned.py:61-78 | Pushes the keys of both sides so that they pop in ascending order |
| TreeDiff.QueueList | scripts/release_versioned.py:81-96 | Pushes the positions of both sides so that they pop in ascending order |
| TreeDiff.SilentIffSame | scripts/release_versioned.py:99-125 | Nothing is reported if and only if the values are equal as Python compares them |
| TreeLocations.DiffTellsWhereTheyPart | scripts/release_versioned.py:99-125 | The report lists every location at which the two values part, once, in depth-first order, with its name and the way they part, and nothing else |
| TreeLocations.KeysReadBack | scripts/release_versioned.py:68-74 | A key in a path is a reference token (RFC 6901, section 4) that reads back as the key |
| TreeLocations.LabelsAreOrdinary | scripts/release_versioned.py:54-58 | Which names are kept and which replaced by a digest |
| MetricPaths.PlacesAgree | src/venus_observability/metrics.py:251-270 | The two exporters, trying paths in different orders, always choose the same gauge and labels |
| MetricPaths.SerialsAgree | src/venus_observability/metrics.py:319-326 | Their serial labels agree exactly for names not of two or three dotted parts |
| MetricPlaces.PlacesAreTold | src/venus_observability/metrics.py:247-289 | A value is recorded under a gauge and labels if and only if the table of paths, spelt out, says so |
| MetricPlaces.SectionsAreTold | src/venus_observability/metrics.py:281-289 | A section's power paths and the phase each names |
| MetricPlaces.CellsAreTold | src/venus_observability/metrics.py:255-264 | The cell paths and their numbers, repeated prefixes included |
| MetricPlaces.SerialsAreTails | src/venus_observability/metrics.py:319-326 | The serial number is what follows the last dot, with at least three dots in one exporter and with any in the other |
| MetricPlaces.SeriesAreTold | src/venus_observability/metrics.py:222-270 | The labels of both series |
| Metrics.VictronMetrics.UpdateGauge | src/venus_observability/metrics.py:291-309 | A finite value is sampled with its publisher, anything else removes both |
| Metrics.VictronMetrics.UpdateFromDbus | src/venus_observability/metrics.py:222-270 | Updates exactly the series of the service and path |
| Metrics.VictronMetrics.InvalidateService | src/venus_observability/metrics.py:311-317 | Removes exactly the series last published by the lost service |
| MetricStores.PrometheusGauges.UpdateFromDbus | src/venus_observability/metrics.py:380-414 | Sets one child, infinities and not-a-number included, and its publisher |
| MetricStores.PrometheusGauges.InvalidateService | src/venus_observability/metrics.py:340-345 | Blanks exactly the children of the lost service and makes none |
| MetricStores.OtelShowsLastWriters | src/venus_observability/metrics.py:291-317 | Over every history samples and active gauges have the same series and show exactly the last writers |
| MetricStores.ExposedShowsLastWriters | src/venus_observability/metrics.py:333-345 | Over every history a child that shows a number is exactly the last write of a service not lost since |
| MetricStores.StoresAgree | src/venus_observability/dbus_listener.py:237-256 | Over every history the two stores show the same finite values from the same publishers at every moment, if and only if no value from a name of two or three parts is finite or takes a shown one away |
| MetricStores.ShortNamesDiffer | src/venus_observability/metrics.py:384-385 | After any history, one finite value from a name of two or three parts makes them differ |
| ListenerState.DbusListener.Start | src/venus_observability/dbus_listener.py:262-279 | Starts a worker only if there is none and stop was not requested; a failed start takes the handle back |
| ListenerRuns.NoneAfterStop | src/venus_observability/dbus_listener.py:262-279 | In every run there is at most one worker, and none appears after stop |
| ListenerRuns.StopIsTruthful | src/venus_observability/dbus_listener.py:313-346 | A normal return of stop off the worker means the worker has ended for good or never was; clean-up happens once |
| ListenerRuns.NothingUndoesProgress | src/venus_observability/dbus_listener.py:330-346 | After stop the worker's distance to its end never grows and its own steps shrink it |
| ListenerRuns.OnlyTheLoopWaits | src/venus_observability/dbus_listener.py:281-297 | The worker can always go on, except while its loop runs and nobody has quit it |
| ListenerRuns.RoundMakesProgress | src/venus_observability/dbus_listener.py:330-346 | A polling round begun while the loop runs brings the end nearer, whatever happens in between |
| ListenerRuns.EarlyQuitIsLost | src/venus_observability/dbus_listener.py:335-342 | A quit before the loop runs changes nothing |
| ListenerRules.StartsOnce | src/venus_observability/dbus_listener.py:262-279 | After any run a start makes the worker exactly when there is none, no stop was asked for and the thread can be made |
| ListenerRules.RunStartsOrWaits | src/venus_observability/dbus_listener.py:299-311 | A run starts the worker on the same condition and waits for whatever worker there is, unless it is that itself |
| ListenerRules.WorkerReachesLoop | src/venus_observability/dbus_listener.py:281-297 | Left alone, a new worker makes, registers and runs its loop |
| ListenerRules.StoppedInTime | src/venus_observability/dbus_listener.py:281-292 | Once stop is asked for, a worker that has not registered its loop never runs it |
| ListenerRules.RoundQuits | src/venus_observability/dbus_listener.py:330-338 | An uninterrupted round of stop makes a running loop quit and changes nothing otherwise |
| ListenerRules.WaitEnds | src/venus_observability/dbus_listener.py:338-346 | After waiting, stop returns exactly when every worker has ended or is the caller, gives up exactly past its deadline, and else starts another round |
| ListenerRules.WaitingEnds | src/venus_observability/dbus_listener.py:299-311 | A run's wait ends only with the worker, or by an interrupt, which begins a stop |
| MarkdownSpans.CodeSpanEnds | scripts/release_control.py:1671-1681 | The reverse pass records for each run the end of the next run of its length |
| MarkdownSpans.EndsAreClosings | scripts/release_control.py:1671-1681 | These are exactly the code span closings of CommonMark, "Code spans" |
| MarkdownComments.CommentLine | scripts/release_control.py:1684-1706 | Blanks exactly the comments of the line, keeping every other character and all line ends in place, and says whether the line ends inside one |
| MarkdownComments.ClosesAtFirst | scripts/release_control.py:1690-1697 | A comment ends with the first arrow, its own opening's hyphens included |
| MarkdownComments.EscapedIsOdd | scripts/release_control.py:1698-1699 | Escaped is what an odd number of backslashes stands right before |
| MarkdownComments.LineEndsStay | scripts/release_control.py:1691-1696 | Line ends stay, and every other character stays or is blanked |
| MarkdownComments.TakenIsRead | scripts/release_control.py:1684-1706 | The pieces the loop takes are the comments and code spans of the line: each runs from its opening to the first close, they do not overlap, and outside them nothing begins |
| MarkdownComments.ReadingIsUnique | scripts/release_control.py:1684-1706 | A line has only one such reading |
| MarkdownComments.OpeningsAreRead | scripts/release_control.py:1684-1706 | Every opening outside a comment is escaped or inside a closed code span, and a comment begins at none of those |
| MarkdownComments.MaskingIsIdempotent | scripts/release_control.py:1684-1706 | A masked line has no comment left: masking it again changes nothing |
| MarkdownSections.ReleaseLines | scripts/release_control.py:1720-1742 | Each line's text, heading and guidance marks follow from the fence and comment it starts in |
| MarkdownFences.FencesStart | scripts/release_control.py:1659-1668 | Outside fences and comments a line starts a fence exactly when it has at most three spaces and then three or more of a marker, and after backticks no other |
| MarkdownFences.FenceRuns | scripts/release_control.py:1709-1742 | A fence runs to, and only to, the first later line of at most three spaces, at least as many of the same marker and white space; none of its lines is a heading or masked |
| MarkdownFences.EligibleLines | scripts/release_control.py:1720-1742 | Exactly which lines may be headings |
| MarkdownFences.LinesEndAtFeeds | scripts/release_control.py:1724-1724 | Lines are cut at line feeds and nowhere else |
| MarkdownSections.HeadingIsLine | scripts/release_control.py:1754-1771 | A heading's offsets cut exactly its line out of the original text, which shows at most three spaces, as many hashes as its level, and its title |
| MarkdownSections.HeadingsAreMarked | scripts/release_control.py:1754-1771 | The headings found are exactly those of the eligible lines with at most three spaces, one to six hashes and then white space or the end, each where its line stands |
| MarkdownSections.TitleIsWithin | scripts/release_control.py:1745-1751 | A title is one stretch of the heading's text: white space is cut before it, white space and closing hashes after it |
| MarkdownSections.TitleIsCut | scripts/release_control.py:1745-1751 | Which title: the text without white space at its ends, less its last hashes and the blanks before them when a blank or nothing stands before the hashes |
| MarkdownSections.ReleaseSections | scripts/release_control.py:1774-1782 | Yields for each heading of the level its title, its stripped body and its masked text |
| MarkdownSections.RowsAreUnique | scripts/release_control.py:1720-1742 | A text has exactly one reading into rows, so its sections are determined |
| MarkdownSections.StripCuts | scripts/release_control.py:1781-1781 | A stripped body is one stretch of the text with no white space at its ends, and only white space was cut |
| MarkdownSections.PartsAreStretches | scripts/release_control.py:1774-1782 | Each part yielded: the title of a heading of the level, the original text from its end to the next heading of the level or above without the white space around it, and what shows of that text |
| MarkdownSections.SectionsSplitTheText | scripts/release_control.py:1774-1782 | Sections of a level are disjoint, ordered, one after each heading, up to the next of that level or above |
| MarkdownReread.MaskedOpensFence | scripts/release_control.py:1659-1668 | The masked line opens a fence if and only if the original, read with its comments, shows one |
| MarkdownReread.RereadingIsSafe | scripts/release_control.py:1899-1899 | Reading masked text again finds the same fences if and only if no line gains one, and then the same headings |
| MarkdownReread.GainedFenceHides | scripts/release_control.py:1899-1899 | The first line that gains a fence hides every later heading until a line closes it |
| MarkdownReread.SectionReread | scripts/release_control.py:1774-1782 | The same for the masked text of one section, whose headings then are the headings found before |
| MarkdownReread.ClosedCommentGainsFence | scripts/release_control.py:1720-1742 | Such a line: a comment closes and three backticks follow |
| MarkdownReread.HiddenBacktickGainsFence | scripts/release_control.py:1720-1742 | Another: three backticks whose only later backtick stands in a comment |
| OciArchive.Archive.LayerDigest | scripts/merge_oci_archives.py:378-422 | A memoised layer digest is the recomputed one, and its size counts each time |
| OciArchive.Archive.Image | scripts/merge_oci_archives.py:316-376 | Accepts exactly an image for the wanted platform, version and revision with all its blobs, whose every layer expands to what the configuration says, within the size budget |
| OciArchive.Archive.Attest | scripts/merge_oci_archives.py:424-528 | Accepts exactly an attestation with all its blobs whose document, reference and statements name one subject, and records that subject |
| OciArchive.Archive.Walk | scripts/merge_oci_archives.py:273-314 | Ends; succeeds exactly when all under the descriptor is sound and new and fits the budgets, and then appends exactly the manifests under it and counts exactly its visits |
| OciArchive.Archive.WalkIndex | scripts/merge_oci_archives.py:254-271 | The same for a list of 1 to 1024 descriptors |
| OciArchive.SoundIffImage | scripts/merge_oci_archives.py:316-376 | What is accepted as an image, on fields: descriptor and configuration name the wanted system, the configuration the wanted version and revision, and every layer expands to its digest |
| OciArchive.AttestedIffAbout | scripts/merge_oci_archives.py:424-528 | What is accepted as an attestation, and about which manifest, on fields |
| OciArchive.LeafIsImageOrAbout | scripts/merge_oci_archives.py:286-309 | Which manifests are accepted, as the one or the other |
| OciAcceptance.AcceptedIffAcceptable | scripts/merge_oci_archives.py:129-314 | The whole condition on an archive's graph with every limit written out, from the list of descriptors a walk meets |
| OciAcceptance.LeavesAreOrdered | scripts/merge_oci_archives.py:573-581 | The merged index lists the leaves of both, images before attestations, each by architecture and then digest |
| OciMerge.OpenArchive | scripts/merge_oci_archives.py:129-207 | Accepts exactly an archive whose blobs have their own digests and whose graph is sound, within the budgets, and of one image that all attestations are about; such an archive is closed under its descriptors |
| OciMerge.MergeBlobs | scripts/merge_oci_archives.py:602-609 | The union of both stores, refused when a shared name differs in size |
| OciMerge.MergeArchives | scripts/merge_oci_archives.py:568-609 | The sorted leaves become one index, whose blob joins the union of both stores |
| OciMerge.OneOrder | scripts/merge_oci_archives.py:573-581 | The order of the leaves depends only on which leaves each archive has |
| OciMerge.SortedAlike | scripts/merge_oci_archives.py:573-581 | Two lists sort alike if and only if leaves of equal key stand in the same order in both |
| OciMerge.OrderOfArchives | scripts/merge_oci_archives.py:573-581 | Swapping the archives changes nothing if and only if leaves of both with equal key are equal |
| OciMerge.TiesAreAttestations | scripts/merge_oci_archives.py:573-581 | Between two accepted archives only attestations of one digest have equal keys |
| OciMerge.EverythingResolves | scripts/merge_oci_archives.py:568-627 | Every descriptor reachable in the merged index names an output blob of its size and digest |
| OciMerge.MergedIsWanted | scripts/merge_oci_archives.py:568-627 | The merged index lists one image for each of the two systems, of the wanted version and revision, and attestations about one or the other, all of it in the output |

## Left out

* GLib, dbus-python, the OpenTelemetry SDK and prometheus_client: environment steps or plain maps.
* Tracker: one clock reading serves a whole callback; callbacks do not call back into the tracker;
  `_epoch` changes only together with `_closed` and is not kept; logging and the warning throttle.
* Ledger: HTTP and base64, the 4 MB limit, and the policy digest, which is given; comparing blob digests is
  comparing contents. A channel outside the four known ones is not modelled.
* JSON: decoding UTF-8, Python's limit on the digits of an integer, and floats, which stay text.
* TOML, Python, plist, pbxproj and plain text editors are one function parameter of `Sync`; the recheck of
  files between preparing and writing, and file system confinement.
* Workflow files after YAML loading only; the other contract checks of that module.
* Toolchain diff: NaN and infinities. Metrics: Unicode case and digits, extra attributes, concurrency of
  collection. Listener: details of removing match rules, and failures of the worker before its loop runs.
* Release notes: which characters are white space, a parameter where bodies are stripped.
* OCI: tar reading; the schema checks on a single JSON document, which the `parse` parameter stands for; labels
  beyond version and revision.
* Metric counters, histograms and traces; argument parsing; the alert bridge; TLS and mail.
- OwnerAgreement.Agreement: is about runs in which no refresh ends too early, because it fails otherwise (`WindowDecides`, `SomeRunDisagrees`).
- OciMerge.OpenArchive: takes the blobs as read, so it does not model the checks on tar members and the byte budgets of metadata, which only refuse more.
- JsonText.DocumentsAreTheirText: refuses an escape that names one half of a surrogate pair alone, which no text of characters can hold; pairs are read.
- MarkdownSections.ReleaseLines: takes lines ended by a line feed, as the notes are normalised before.
- Prepare.ChooseVersion: takes the current base already parsed, as every caller has validated it.
