# draiver: verified models

draiver keeps every attempt at a ticket as an append-only, hash-chained log of events and derives its control
decisions from that log. This project models the parts of it whose correctness does not follow from reading
one function, and proves properties of them with Dafny 4.11. `dafny verify dfyconfig.toml` checks everything.

Code that changes state is modelled by methods and classes, each proved against a specification function or a
step relation; the lemmas are about those. Code that only computes is modelled by functions.

| file | what it models |
|---|---|
| `Attempts.dfy` | callers that race to create attempts on one ticket: an interleaved step relation, and the retry loop run on it |
| `Events.dfy`, `Audit.dfy` | one event's canonical content, hash and file form; appending to the chain, verifying it, re-reading it |
| `LogRace.dfy` | any number of writers appending to one log: an interleaved step relation, the retry loop run on it, and the log read back from its directory |
| `Knowledge.dfy`, `Graph.dfy` | the fold that decides which facts are live, and the closure over the supersedes edges |
| `Gates.dfy`, `Session.dfy` | the limit, completion, protocol and permission gates on one stream and one log, and whole runs of a session |
| `Pyramid.dfy`, `Evidence.dfy` | rungs, the climb and the review gate; histories of commits, edits, checkouts and test runs, also while a climb is running |
| `Gherkin.dfy`, `FeatureTree.dfy`, `FeatureText.dfy` | the feature reader with its aliasing step pointer, the tree it stands for, and printed trees |
| `Canary.dfy` | the cache canary: grouping, ordering, judging |
| `RunKeys.dfy` | the keys of captured test runs, their cleaning, and which groups of runs are apart |
| `Artefacts.dfy`, `CaptureRace.dfy` | captures and retention on a path-level file system; captures that run at the same time |
| `Cycles.dfy`, `Depends.dfy`, `DependsRace.dfy` | the cycle finder, the command that authors dependency edges, and such commands running at the same time |
| `Frontmatter.dfy` | setting a title or a type by line surgery |
| `Commas.dfy`, `Ordering.dfy` | the two thousands-grouping routines; zero-padded names |
| `Text.dfy`, `Decimal.dfy`, `Sorting.dfy` | byte order, trimming, searching, lines; numerals; sorted names |

## What the code does not promise

Some properties hold only under a condition. In each case the code is modelled as it is, and the condition is
proved to be exact, or the failing family is exhibited.

* `Create` reports "gave up after 8 id collisions" also when a plain file named like the next number stands in
  the attempts directory, for `Mkdir` reports such a file as an existing name (internal/attempt/attempt.go:180-186).
  Without such a file the report is honest (`Attempts.HonestyExactlyWithoutStrays`).
* The review gate folds results over the pyramid in the working tree, not over the one in the commit
  (cmd/review.go:125). It can be trusted over exactly those trees whose required rungs demand what the
  commit's do (`Evidence.TrustworthyExactly`).
* `test --log` loads the pyramid and checks for a dirty tree before the climb and reads HEAD after it
  (cmd/test.go:186), so a commit, an edit or a checkout between rungs or under one can be credited with scripts that
  did not run on it. Which changes are harmless whatever the rungs' outcomes is known before the climb
  (`Evidence.SafeSchedule`). From every state, when the gate admits and when the claim is proven are two exact
  conditions (`Evidence.InterruptedClimb`; `Evidence.LandedCommit` and `Evidence.EditedCheckout` are the cases of one
  commit and of one edit). They differ: a landed commit that requires a rung the climb did not have, or had with
  other scripts, is admitted without a run of it (`Evidence.ChangedRungIsUnproven`).
* The comment at cmd/test.go:94-102 says that `default_test_rung` narrows the target down. The code accepts any
  rung that exists; it takes the target above the highest required rung exactly when it names a rung above
  (`Evidence.ConfiguredTarget`).
* Two log writers that read the same tail both succeed when the second or the type differs, for the file name holds
  both (internal/ticketlog/ticketlog.go:81-102). The log then has two events of one number and no longer verifies:
  over every run, the log read back is intact if and only if no writer created its file after another had come to be
  since it read the tail (`LogRace.ReadBackIntactExactly`, `LogRace.CrossingBreaks`). The comment on `Append` speaks of a "seq
  collision", but it is names that collide.
* The completion gate checks the log and writes to it in two steps, so it escalates over a hand-off exactly when
  one was filed in between (`Session.EscalatesOver`).
* Two captures at the same time can share a run directory, each having looked before the other's was made
  (`CaptureRace.SharingNeedsOverlap`). Two that have the store to themselves can if and only if their first free
  candidates are one place (`CaptureRace.SharingExactly`).
* A capture that fails leaves its directory behind, and retention counts it as a run if a source was captured under
  the manifest's name (`Artefacts.FailedCaptureIsRun`).
* Two commands that author edges at the same time can close a cycle: when both check before either writes, exactly if
  each one's written edges lead to the other's ticket (`DependsRace.CrossingExactly`). On one ticket they close none,
  but what the first one added to a relation of both is lost (`DependsRace.FirstAdditionIsLost`).
* Cutting events off the end of a log is not noticed by `Verify` (`Audit.IntactPrefix`).
* `injectType` can push a title line out of the front matter, and `injectTitle` a type line, when the front
  matter opens with a second fence and does not set the key (`Frontmatter.OtherKeyKept`, `Frontmatter.RestKept`).
* The cycle check trims stored ids that the edit then leaves untrimmed, so it can refuse an edit for a cycle
  that would not have been written (`Depends.UncleanRefusal`). For a command and a ticket's edges the refusal is
  exact on every store if and only if the relations left alone are trimmed, or the ticket points at itself either
  way (`Depends.RefusalExactly`). The store stays acyclic all the same.
* Retention removes a run together with any kept run inside it (`Artefacts.LeavesKeep`,
  `Artefacts.NestedRunIsLost`); which groups that can happen to is `Artefacts.AlwaysLeavesKeep`.
* A rung, environment, commit or stamp named "." or ".." survives sanitizing, and dots let some run of another group
  into every group (`RunKeys.NoGroupIsApart`), also a plain one (`RunKeys.DottedNeighbour`). Which runs those are is
  `RunKeys.InsideExactly` for a group of plain names and every run, suffixed or not, `RunKeys.InsideByNames` the same
  on the names of a run with a plain key, and `RunKeys.InsideByKeys` for any group and keys that stay below the
  artefact directory; among runs of plain names, which groups are safe is `RunKeys.GroupsApart`.
* Among runs that share a stamp, "-10" counts as older than "-2" (`RunKeys.SuffixOrder`).
* Attempt ids and event numbers of more than four digits are no longer in numeric order
  (`Ordering.LatestIsNewest`, `Ordering.FilenameOrder`).

## Model

| member | source | states |
|---|---|---|
| Attempts.NextID | internal/attempt/attempt.go:257-269 | the proposed id is one more than the largest number among the listed names; names that are not numbers do not count |
| Attempts.MaxNumberExactly | internal/attempt/attempt.go:257-269 | the number it exceeds by one bounds what every listed name reads as, and is zero or read from one of them |
| Attempts.NextIsFresh | internal/attempt/attempt.go:257-269 | a proposed id is not among the names it was computed from, and reading it back gives its number |
| Attempts.OpensExactly | internal/attempt/attempt.go:131-153 | a call is refused for a blank repo, then for a name that is not a slug, then for a name that exists, and otherwise goes on; nothing else changes |
| Attempts.SuccessesDiffer | internal/attempt/attempt.go:171-213 | in every interleaving of any number of named and numbered calls, two calls that succeed return different ids |
| Attempts.SuccessIsRecorded | internal/attempt/attempt.go:180-212 | a success made a directory that was not there at the start and wrote one attempt.md and one created event for it |
| Attempts.OnlyOwnersWrite | internal/attempt/attempt.go:180-212 | every claimed id has one owner, and only that owner's records exist for it |
| Attempts.GiveUpIsHonest | internal/attempt/attempt.go:167-214 | without a stray numeric file, a call that gives up implies that at least 8 distinct ids were claimed by other callers during the call |
| Attempts.StrayBreaksHonesty | internal/attempt/attempt.go:180-186 | with one, a single caller can give up though nobody claimed anything |
| Attempts.HonestyExactlyWithoutStrays | internal/attempt/attempt.go:167-214 | giving up is honest in every run if and only if no stray numeric file above the largest id exists |
| Attempts.Disk.Try | internal/attempt/attempt.go:171-188 | one try claims an id, fails, or loses one more id; the eighth loss is the last |
| Attempts.Disk.Create | internal/attempt/attempt.go:127-215 | the retry loop, run while others act, is a run of the step relation and ends in a final phase; a named success has the name asked for |
| Events.CanonExactly | internal/event/event.go:113-144 | two events hash the same content if and only if every stored field but the hash agrees: whole seconds, body without trailing line feeds, all else as it is |
| Events.NormalHashesAlike | internal/event/event.go:113-144 | truncating to whole seconds and dropping trailing line feeds does not change what is hashed |
| Events.CloserFound | internal/event/event.go:168-193 | the closing fence of a written file is found at the end of its front matter, whatever the body contains |
| Events.ParseMarshal | internal/event/event.go:139-193 | parsing a marshalled event gives the event in whole seconds without trailing line feeds, for every body |
| Events.ParseUnterminated | internal/event/event.go:168-193 | the same when the file has lost its last line feed |
| Events.UnfencedIsRefused | internal/event/event.go:168-184 | a file is refused for its opening fence exactly when it does not start with one, and for its closing fence exactly when there is none |
| Events.MarshalNormal | internal/event/event.go:148-166 | storing a stored event changes nothing |
| Audit.AppendKeepsChain | internal/ticketlog/ticketlog.go:66-118 | one writer at a time: appending to an intact, consecutively numbered log leaves one |
| Audit.AppendAllKeepsChain | internal/ticketlog/ticketlog.go:66-118 | one writer at a time: so does any sequence of appends, which keeps the old log as a prefix |
| Audit.AppendedIsDraft | internal/ticketlog/ticketlog.go:66-96 | what an append adds is the draft but for the next number, the tail's hash, its own hash and the fraction of a second |
| Audit.Verify | internal/audit/audit.go:24-48 | ok exactly on intact logs; otherwise the report names the first event that breaks the chain and why |
| Audit.IntactExactly | internal/audit/audit.go:24-48 | a log is intact if and only if every event carries the hash of its own content and the hash of the event before it, the first one none |
| Audit.IntactPrefix | internal/audit/audit.go:24-48 | every prefix of an intact log is intact |
| Audit.LastHashPinsLog | internal/audit/audit.go:24-48 | two intact logs with one last hash have the same length and contents, or exhibit a collision of the digest |
| Audit.LastHashDeterminesLog | internal/audit/audit.go:24-48 | with a collision-free digest whose values are not empty, equal last hashes if and only if equal contents |
| Audit.EditIsReported | internal/audit/audit.go:24-48 | an edit of any stored field of event i that keeps its hash is reported at i with the reason, unless the digest collides on the two contents |
| Audit.StoredEditPasses | internal/audit/audit.go:24-48 | an edit that changes nothing that is stored passes |
| Audit.RehashedEditIsReported | internal/audit/audit.go:24-48 | an edit of any stored field that recomputes the hash is reported at i if it touched the link, at the next event otherwise, and passes only on the last event, unless the digest collides on the two contents |
| Audit.ReadBack | internal/ticketlog/ticketlog.go:21-44 | reading the files of a written log in log order gives the stored log |
| Audit.ReadBackSorted | internal/ticketlog/ticketlog.go:21-47 | whatever order the directory lists the files of a numbered log in, read and sorted by number they are the stored log and nothing else |
| Audit.RereadVerifiesAlike | internal/audit/audit.go:24-48 | a log that was written and re-read verifies if and only if it did before, with the same break and reason |
| LogRace.ReadBackIntactExactly | internal/ticketlog/ticketlog.go:21-118 | over every run of any number of writers, with a collision-free digest, the log read back from its directory in any order verifies if and only if no writer created its file after another had come to be since it read the tail; equivalently, no two writers filed events after reading tails of one number |
| LogRace.TwinsByStale | internal/ticketlog/ticketlog.go:81-102 | two files come to carry one number if and only if some file was created on a tail that was no longer the last |
| LogRace.TwinsExactly | internal/ticketlog/ticketlog.go:81-102 | two files carry one number if and only if two different writers filed them after reading tails of one number |
| LogRace.TwinsDiffer | internal/ticketlog/ticketlog.go:97-104 | files of one number differ in second or type |
| LogRace.CrossingBreaks | internal/ticketlog/ticketlog.go:81-102 | two writers that both read before either creates: both files come to be, and the second breaks the chain with a link fault, if and only if their second or type differs |
| LogRace.SameNameTakesTurns | internal/ticketlog/ticketlog.go:80-104 | writers of one type within one second collide on the name and take turns: over every run the log stays intact and consecutively numbered |
| LogRace.LoneAppend | internal/ticketlog/ticketlog.go:66-118 | a writer with nobody else about appends as the sequential operation does |
| LogRace.GaveUpIsHonest | internal/ticketlog/ticketlog.go:80-117 | in every run an append that gives up saw at least 8 files come to be since it began |
| LogRace.Directory.Append | internal/ticketlog/ticketlog.go:66-118 | the retry loop, run while others act, is a run of the step relation; it ends with its event as the last file, with 8 collisions, or with a file-system error |
| Knowledge.Retirements | internal/kb/kb.go:73-85 | the two maps hold every event's targets in log order and the first event to retire each number |
| Knowledge.Fold | internal/kb/kb.go:72-102 | every fact's liveness and retirer, the index by number and the edges agree with the log |
| Knowledge.RetirerIsEarliest | internal/kb/kb.go:75-85 | the recorded retirer is an event that retires the fact, and the earliest of them |
| Knowledge.FoldChangesOnlyTargets | internal/kb/kb.go:72-102 | one more event changes only facts that it retires and that nothing retired before; no retired fact comes back |
| Knowledge.LiveSetStep | internal/kb/kb.go:72-113 | on ascending logs whose targets are older than their retirers, the live set after one more event is the old one without its targets, plus the event |
| Knowledge.LiveCountStep | internal/kb/kb.go:104-113 | on such logs the number of live facts grows by one and shrinks by the live targets |
| Knowledge.BridgedResolution | internal/kb/kb.go:61-68 | a resolution with refs only folds as an event that supersedes the same numbers explicitly, and the two logs retire the same numbers event by event |
| Knowledge.Live | internal/kb/kb.go:105-113 | the live facts, in log order |
| Knowledge.LivePicks | internal/kb/kb.go:105-113 | these are the facts that are live, each once and in log order |
| Knowledge.LiveEscalations | internal/kb/kb.go:118-126 | the live facts that are escalations, in log order |
| Knowledge.EscalationsPick | internal/kb/kb.go:118-126 | these are the live facts of type escalation, each once and in log order |
| Knowledge.Walker.Walk | internal/kb/kb.go:145-155 | on every graph, cycles and dangling targets included, the walk ends; it marks only reachable numbers and leaves no marked number with an unmarked successor |
| Knowledge.Closure | internal/kb/kb.go:145-156 | the marked numbers are exactly the reachable ones |
| Knowledge.Chain | internal/kb/kb.go:141-165 | the recorded facts reachable from a number, each once, strictly ascending; empty for an unknown number |
| Knowledge.ChainEndsAtItself | internal/kb/kb.go:137-165 | when every target is older than its retirer, recorded or not, the last fact is the one asked for |
| Knowledge.BridgedChains | internal/kb/kb.go:61-165 | logs that retire the same numbers event by event give every fact a history of the same events |
| Gates.CompletionGate.constructor | internal/completion/completion.go:91-110 | the baseline is the number of the last event |
| Gates.CompletionGate.HandedOff | internal/completion/completion.go:230-248 | true exactly when a review or escalation newer than the baseline is in the log, or a park is and a wake source exists |
| Gates.CompletionGate.ConsiderEvent | internal/completion/completion.go:143-222 | the fields, the log, the acts, the outcome and the error are those of the decision function, in every interleaving with other writers |
| Gates.LimitGate.ConsiderEvent | internal/limit/limit.go:90-120 | the same for the context limit |
| Gates.ProtocolGate.ConsiderEvent | internal/protocol/protocol.go:185-209 | the same for the protocol gate: pass on, or deny without a rationale on the log |
| Gates.ProtocolGate.FindRationale | internal/protocol/protocol.go:213-227 | true exactly when a decision or gotcha newer than the gate's start is in the log |
| Gates.PermissionGate.ConsiderEvent | internal/gate/gate.go:90-129 | the same for a permission request: escalate, then deny, then halt |
| Session.PermitsExactly | internal/gate/gate.go:90-129 | for every policy and event: approved if and only if a tool is asked for, the policy allows it and the answer goes out; denied if and only if one is asked for, it is not allowed and the escalation was filed, which is then in the log before the answer and the halt |
| Session.WithholdsExactly | internal/protocol/protocol.go:185-227 | a request passes if and only if the policy does not bind the tool or a decision or gotcha newer than the start was read; otherwise it is denied, or an error is reported |
| Session.NudgesAndParksExactly | internal/completion/completion.go:143-214 | when the completion gate nudges, when it lets an attempt suspend, what it counts and latches, and what it files |
| Session.EscalationActs | internal/completion/completion.go:192-222 | an escalation is filed as the gate's event and then the session is halted if there is a way to; an ignored event leaves no act |
| Session.ErrsExactly | internal/completion/completion.go:143-222 | the gate reports an error exactly when what it needed could not be read, sent, filed or halted |
| Session.RunIsSound | internal/reconcile/reconcile.go:807-862 | over every run, with others filing any events between any two accesses, the log and the acts only grow, and each nudge, write, answer and halt had its reason in the log at its time |
| Session.HaltsFollowEscalations | internal/reconcile/reconcile.go:807-862 | the completion, limit and permission gates halt the session, and the permission gate denies a tool, only after an escalation newer than the baseline is in the log |
| Session.VetoesWantRationale | internal/protocol/protocol.go:172-227 | the protocol gate denies a tool only while no decision or gotcha newer than its start is in the log |
| Session.AnswersFollowPolicy | internal/reconcile/reconcile.go:852-861 | over every run, each approval is the permission gate's and for a tool its policy allows, each of its denials for one that it does not, and each veto for one that is bound |
| Session.DispatchApprovesExactly | internal/reconcile/reconcile.go:807-862 | a request is approved if and only if its event does not stop the session, the tool needs no rationale or one is on the log by then, the policy allows it and the answer goes out |
| Session.DispatchLatchesLimit | internal/reconcile/reconcile.go:820-826 | every frame that reaches a set threshold latches the limit gate, and one that stops the session reaches no other gate |
| Session.OneAnswerPerRequest | internal/reconcile/reconcile.go:852-861 | from every state, dispatching one permission request adds at most one answer of the two gates that may give one, and nothing else adds any |
| Session.AnswersAreBounded | internal/reconcile/reconcile.go:852-861 | so over every run there are no more answers than requests |
| Session.RunIsBounded | internal/completion/completion.go:143-222 | over every run, at most maxNudges nudges, one event from the completion gate and one from the limit gate |
| Session.HandOffSilences | internal/completion/completion.go:148-164 | once a review or escalation newer than the baseline is in the log, whoever wrote it, the completion gate never nudges, writes or halts again |
| Session.EscalatesExactly | internal/completion/completion.go:143-222 | the gate escalates if and only if it has not latched, the turn succeeded, nothing was handed off, no wake source exists, the budget is spent or there is no nudger, and the read and the write succeed |
| Session.StopsExactly | internal/limit/limit.go:90-120 | the limit gate stops exactly on the first frame that reaches a set threshold, if the escalation can be written, files it with its tag and halts; it is latched from then on |
| Session.EscalatesOver | internal/completion/completion.go:158-214 | when the gate files its escalation, a hand-off is already in the log if and only if somebody filed one between its check and its write |
| Session.LatchesInTime | internal/completion/completion.go:166-222 | after more unmet success turns than nudges allowed, the gate has latched |
| Pyramid.LevelExactly | internal/pyramid/pyramid.go:40-78 | a rung is required unless it says otherwise; it has its environment's checks, and its up script if that is not blank |
| Pyramid.RunRung | cmd/test.go:391-438 | up, checks and body run in order up to the first failure, the teardown comes last if it is not blank and its outcome is ignored; the verdict tells infrastructure, dependency and code apart |
| Pyramid.AttemptedInOrder | cmd/test.go:391-428 | up comes first if there is one, then the checks from the first one on, then the body |
| Pyramid.GreenMeansAllPassed | cmd/test.go:391-438 | a rung is green exactly when its environment's up script, its checks and its own script succeeded; the body runs exactly when the verdict is green or red |
| Pyramid.SameScriptsSameGreen | cmd/test.go:391-438 | rungs of one name that run the same scripts are green alike, whatever they say about being required and about teardown |
| Pyramid.VerdictMeans | cmd/test.go:376-438 | an infrastructure fault exactly when up ran and failed, a block exactly when a check ran and failed, red exactly when the body did |
| Pyramid.LevelsUpTo | cmd/test.go:590-599 | the levels up to and including the first one of that name, if there is one |
| Pyramid.HighestRequiredIsTop | internal/pyramid/pyramid.go:307-317 | no rung above the highest required one is required |
| Pyramid.TargetExactly | cmd/test.go:103-111 | an explicit rung wins over a configured one, and a configured one that exists over the highest required one |
| Pyramid.Climb | cmd/test.go:357-374 | stops at the first required rung that is not green, passes over red advisory rungs and reports them, and tells whether the target was green |
| Pyramid.AdvisoryRedsPick | cmd/test.go:357-374 | what is reported is the name of every red advisory rung on the way, once and in order |
| Pyramid.HaltMeans | cmd/test.go:357-374 | every required rung below the stop is green, and the stop is a required rung that is not |
| Pyramid.RequiredStatus | internal/pyramid/pyramid.go:377-402 | the two lists are the required rungs that a result at this commit covers, by naming them or one above, and those that none does, each rung once and in order |
| Pyramid.RefusalLists | cmd/review.go:158-171 | a refusal names exactly the required rungs that are not covered, and those that are, each once and in order |
| Pyramid.GatedExactly | cmd/review.go:98-162 | there is a verdict exactly when a live checkout with a pyramid was found, and it admits exactly when every required rung is covered |
| Pyramid.SelectEmpty | cmd/review.go:158-162 | nothing is outstanding if and only if every required rung is covered |
| Pyramid.ResultsAreLogged | cmd/review.go:145-150 | the results are the logged events of type test-result whose outcome is not fail |
| Pyramid.ReviewGate | cmd/review.go:98-171 | not gated without a repo, checkout or pyramid; otherwise admitted or refused by the outstanding rungs |
| Evidence.ClimbProves | cmd/test.go:142-182 | a climb that reached its target ran the scripts of every required rung up to it green at the commit under test |
| Evidence.RefusesExactly | cmd/test.go:69-136 | a run that is to log one rung alone, to log over a dirty tree, or to climb to a rung that does not exist does nothing; a lone rung and a run without --log log nothing |
| Evidence.AdmittedIsProven | cmd/review.go:145-171 | over all histories of commits, edits, checkouts, test runs in every mode and fail results, with changes during climbs whose results are still credible, an admitted claim over a tree that demands what the commit does means that the scripts of every required rung ran green at that very commit |
| Evidence.UndisturbedIsCredible | cmd/test.go:142-210 | what a logged climb records is credible when nothing changes the checkout during it |
| Evidence.CredibleExactly | cmd/test.go:184-210 | in general exactly when the commit that HEAD then names has the logged rung, and the scripts of every rung it requires up to there ran green on a clean checkout of it from start to end |
| Evidence.CleanCheckoutIsProven | cmd/review.go:145-171 | over all histories of undisturbed climbs, an admitted claim on a clean checkout means that the scripts of every required rung ran green at HEAD |
| Evidence.AdmittedExactly | cmd/review.go:125-171 | the gate admits if and only if one green result at HEAD names a rung at or above the tree's highest required one |
| Evidence.TrustworthyExactly | cmd/review.go:125-162 | the gate is sound over a working tree's pyramid if and only if that pyramid demands what the commit's does |
| Evidence.SafeSchedule | cmd/test.go:142-210 | for every schedule of changes before and under the rungs of a logged climb: each recorded result is proven, whatever the outcomes, if and only if each rung the last commit requires has its scripts on record for it or on a required or target rung that starts and ends on that commit |
| Evidence.InterruptedClimb | cmd/test.go:184-210 | from every state and for every change during a logged climb: the gate admits if and only if it did before or the logged rung reaches the new tree's requirements, and the claim is proven if and only if the scripts of every rung the new commit requires ran green on a clean checkout of it |
| Evidence.LandedCommit | cmd/test.go:184-210 | one commit landing before, between or under rungs: admitted if and only if the logged rung reaches the landed pyramid's requirements, proven if and only if the scripts of every rung it requires are those of a green rung that started after it landed |
| Evidence.ChangedRungIsUnproven | cmd/test.go:184-210 | a landed commit that requires a rung the climb did not have, or had with another script, up script or checks, is admitted without a run of them |
| Evidence.EditedCheckout | cmd/test.go:184-210 | one edit before, between or under rungs: the claim is proven if and only if every rung HEAD requires had ended before the edit or ran in an earlier run |
| Evidence.CleanClimbAdmits | cmd/test.go:142-218 | after a clean logged climb through the highest required rung with green required rungs the gate admits whenever the checkout is at that commit with that pyramid, whatever happens in between |
| Evidence.StaysAdmitted | cmd/test.go:142-218 | after such a climb the gate admits at once and goes on admitting over any runs and fail results that leave the checkout alone |
| Evidence.DefaultTargetSuffices | cmd/test.go:103-108 | the default target is such a rung |
| Evidence.ConfiguredTarget | cmd/test.go:103-108 | a configured default takes the target above the highest required rung if and only if it names a rung above it |
| Commas.CliCommas | cmd/ctl.go:397-414 | the digit loop equals the recursive routine on every integer |
| Commas.GroupedIsWritten | internal/limit/limit.go:138-146 | the recursive routine writes the same digits with the same commas |
| Commas.Ungroup | internal/limit/limit.go:138-146 | deleting the commas and reading the digits gives the number back |
| Commas.CommaPlaces | cmd/ctl.go:397-414 | a comma stands at every fourth place from the right and nowhere else |
| Gherkin.ParseTags | internal/acceptance/gherkin.go:203-211 | the fields of the line that start with an at sign, each as often as it occurs and in order |
| Gherkin.OnlyTagsPick | internal/acceptance/gherkin.go:203-211 | the words kept are those at the places where a word starts with an at sign, in order |
| Gherkin.Reader.OpenScenario | internal/acceptance/gherkin.go:166-183 | a new scenario starts with the backgrounds in scope and becomes the step target; nothing read before changes |
| Gherkin.Reader.AppendStep | internal/acceptance/gherkin.go:184-189 | a step goes to what the pointer aliases: a background or the last scenario, and to nothing else |
| Gherkin.Reader.Line | internal/acceptance/gherkin.go:132-193 | one line changes the reader as the machine's step does |
| Gherkin.ParseFeature | internal/acceptance/gherkin.go:112-200 | the reader on the heap returns the machine's result on every file |
| FeatureTree.ReadScenario | internal/acceptance/gherkin.go:166-189 | a scenario's lines append it with the feature background, the rule background and its own steps, and alter no earlier scenario |
| FeatureTree.ReadFeature | internal/acceptance/gherkin.go:112-200 | the machine on a tree's tokens gives the flattened tree |
| FeatureText.TokenRead | internal/acceptance/gherkin.go:134-223 | a trimmed line is read as a token if and only if it spells that token: any white space after a title's colon or a step's keyword, and between the words of a tag line |
| FeatureText.AllTagsRead | internal/acceptance/gherkin.go:203-211 | a line of tags only reads as exactly those words |
| FeatureText.ReadPrinted | internal/acceptance/gherkin.go:112-200 | reading a printed feature tree, however indented and spaced, with tags on one line or several, gives the flattened tree with its line numbers |
| FeatureText.LayoutIsIrrelevant | internal/acceptance/gherkin.go:134-137 | files that differ only in blank and comment lines read the same but for line numbers |
| FeatureText.ReadLaidOut | internal/acceptance/gherkin.go:112-200 | a printed tree with blank and comment lines put anywhere reads as the flattened tree but for line numbers |
| Canary.Group | internal/canary/canary.go:151-158 | each repo's observations in the order given, and no others |
| Canary.AnalyzeRepo | internal/canary/canary.go:168-251 | rows, findings and verdict over the repo's ordered attempts |
| Canary.JudgesExactly | internal/canary/canary.go:181-251 | a repo's rows tell of each attempt what was measured, whether it is the baseline, cold or without caching; its findings are those of its attempts, with the reason; it is judged from the least number of attempts on |
| Canary.FiresExactly | internal/canary/canary.go:241-249 | a repo fires if and only if it is judged and enough of its later attempts were cold, or caching was off for one that worked |
| Canary.ReusedExactly | internal/canary/canary.go:224-230 | an attempt reused the prefix if and only if its first turn read at least the least number of tokens and the floor's part of all its prompt tokens |
| Canary.ShareMeans | internal/canary/canary.go:137-145 | the read share times the prompt tokens is the tokens read; an empty prompt has share zero |
| Canary.FindingsInOrder | internal/canary/canary.go:206-232 | each attempt adds its findings at the end, caching before reuse |
| Canary.OrderedInTime | internal/canary/canary.go:171-179 | for all observations, distinct or not, a repo's attempts are listed by time, then ticket, then attempt, so the baseline is the earliest |
| Canary.ColdRowsCounted | internal/canary/canary.go:183-236 | the rows marked cold are the ones the verdict counts |
| Canary.DefaultFires | internal/canary/canary.go:75-83 | with the shipped thresholds a repo of two attempts or more fires if and only if half of its later attempts are cold or some attempt never engaged caching |
| Canary.Analyze | internal/canary/canary.go:150-166 | one result for each repo, in lexical order |
| Canary.GroupAscends | internal/canary/canary.go:171-179 | distinct attempts are strictly ordered by time, ticket and attempt |
| Canary.PermutationsAgree | internal/canary/canary.go:150-179 | every permutation of observations of distinct attempts gives the same report |
| Canary.EveryObservationListedOnce | internal/canary/canary.go:150-166 | the report lists each observation as often as it was given |
| Canary.OneBaselinePerRepo | internal/canary/canary.go:168-236 | a repo's rows are its listed observations one for one, and exactly the first is its baseline |
| Canary.ReusedStays | internal/canary/canary.go:137-145 | an attempt that reused the prefix still does when its turn-1 cache read is raised |
| Canary.RaisingReadsKeepsQuiet | internal/canary/canary.go:205-251 | raising turn-1 cache reads of any attempts, all else fixed, never makes a quiet repo fire |
| RunKeys.SanitizeExactly | internal/bddartefact/bddartefact.go:235-254 | trimmed, each character is kept if it may stand in a key and becomes a dash if not; a blank name becomes "none" |
| RunKeys.SanitizeKeepsSafe | internal/bddartefact/bddartefact.go:235-254 | safe names are kept as they are, and sanitizing twice is sanitizing once |
| RunKeys.KeyOfSafeNames | internal/bddartefact/bddartefact.go:64-82 | safe names are the segments of the keys they make: prefix, rung, environment or "none", commit and stamp |
| Artefacts.StatExactly | internal/bddartefact/bddartefact.go:213-219 | a look-up finds what is there and fails exactly below a file |
| Artefacts.Artefact.UniqueRunDir | internal/bddartefact/bddartefact.go:206-222 | on every finite store the search ends at the first candidate that is not there, and fails only where a file bars the way |
| RunKeys.CandidatesDiffer | internal/bddartefact/bddartefact.go:208-212 | different suffixes name different directories, also where cleaning changes the key |
| Artefacts.Artefact.Capture | internal/bddartefact/bddartefact.go:92-135 | the store gains the run directory, the copies and, when every copy succeeded, the manifest; nothing is removed |
| Artefacts.CapturedExactly | internal/bddartefact/bddartefact.go:92-135 | a free place gains itself and all above it, the copies, and the manifest exactly when all went well |
| Artefacts.FailedCaptureIsRun | internal/bddartefact/bddartefact.go:102-133 | a capture that fails leaves its directory, which counts as a run if and only if a source was copied there under the manifest's name |
| Artefacts.CapturesAreDistinct | internal/bddartefact/bddartefact.go:92-135 | any sequence of captures, one after another, gets pairwise distinct keys and directories |
| CaptureRace.SharingNeedsOverlap | internal/bddartefact/bddartefact.go:92-97 | in every interleaving of captures, two share a directory only if each looked for a free key before the other made its directory |
| CaptureRace.SharingExactly | internal/bddartefact/bddartefact.go:92-97 | two captures with the store to themselves can both succeed in one directory, by some interleaving, if and only if the first free candidates of their contexts are one place and a directory can be made there |
| Artefacts.Artefact.SortRuns | internal/bddartefact/bddartefact.go:197-200 | the run directories in the order of their last segments, ties in any order |
| Artefacts.StampOfRun | internal/bddartefact/bddartefact.go:197-200 | a run of plain names is ranked by its stamp with the suffix that made its key free |
| Artefacts.Artefact.Prune | internal/bddartefact/bddartefact.go:142-166 | all but the newest keep runs of the group are removed with everything inside; no kept run has a smaller last segment than a removed one; keep of zero or less removes nothing |
| Artefacts.RunsExactly | internal/bddartefact/bddartefact.go:172-196 | a directory is a run of the group exactly if it holds a manifest within the group's directory |
| Artefacts.PruneRemovesExactly | internal/bddartefact/bddartefact.go:142-166 | everything at or below a removed run is gone, and nothing else |
| Artefacts.LeavesKeep | internal/bddartefact/bddartefact.go:152-163 | at most min(n, keep) runs are left, and exactly that many if and only if no kept run lies inside a removed one |
| Artefacts.FlatGroupKeeps | internal/bddartefact/bddartefact.go:152-163 | exactly min(n, keep) when no run of the group lies inside another |
| Artefacts.AlwaysLeavesKeep | internal/bddartefact/bddartefact.go:152-163 | exactly keep of more runs, in whatever order equal stamps come, if and only if no run inside another can outlive it by its rank |
| Artefacts.NestedRunIsLost | internal/bddartefact/bddartefact.go:172-196 | a run inside a captured tree is lost with the outer one |
| Artefacts.PruneAgain | internal/bddartefact/bddartefact.go:142-166 | the same retention again removes nothing |
| Artefacts.OutsideIsKept | internal/bddartefact/bddartefact.go:146-163 | nothing outside the group's directory is touched |
| RunKeys.InsideExactly | internal/bddartefact/bddartefact.go:64-82 | for a group of plain names and every other run, dots and suffix included: the walk of the group meets the run if and only if the group's key is a prefix of the run's |
| RunKeys.InsideByNames | internal/bddartefact/bddartefact.go:64-82 | for a group of plain names and a run that got its plain key: if and only if the run's four names, with what dots remove left out, start with the group's two |
| RunKeys.InsideByKeys | internal/bddartefact/bddartefact.go:64-82 | for any two runs whose plain keys stay below the artefact directory, suffix included: the walk of the one's group meets the other if and only if the one's group key is a prefix of the other's key |
| RunKeys.NoGroupIsApart | internal/bddartefact/bddartefact.go:64-82 | whatever its names, every group's walk meets a run of some other group |
| RunKeys.DottedNeighbour | internal/bddartefact/bddartefact.go:64-82 | for a plain group, that of a rung named "." with the group's names as environment and commit |
| RunKeys.PlainRunsApart | internal/bddartefact/bddartefact.go:64-82 | with plain names all round, a run and every key tried for it lie in its own group and in no other plain one |
| RunKeys.GroupsApart | internal/bddartefact/bddartefact.go:64-82 | against runs of plain names, the walk of one group meets no run of another if and only if its environment is a plain name and its rung is one too, or is ".." with an environment other than the prefix |
| RunKeys.SuffixOrder | internal/bddartefact/bddartefact.go:197-212 | two runs with one stamp are ranked in order of capture if and only if the smaller suffix, scaled to the width of the larger, does not exceed it |
| Cycles.Search.Visit | internal/project/edges.go:343-366 | the visit of a node ends with every reachable node finished after its successors, or with a cycle |
| Cycles.CheckCycle | internal/project/edges.go:331-389 | no path if and only if the graph is acyclic; a path is a cycle of the graph |
| Cycles.MixtureIsAcyclic | cmd/depends.go:98-123 | if neither of two edge lists of a node closes a cycle, no mixture of them does |
| Depends.CleanIDs | internal/repo/meta.go:128-140 | the list trimmed, without blanks and repetitions, in first-seen order |
| Depends.UnionIDs | cmd/depends.go:137-151 | the same over both lists, the existing ids first |
| Depends.CleanedHoldsMentions | cmd/depends.go:134-151 | exactly the non-blank ids named, each once |
| Depends.CleanedPicks | cmd/depends.go:134-151 | each non-blank id once, at the place where it was first seen, trimmed |
| Depends.CleanedExtends | cmd/depends.go:134-151 | later ids never move or drop earlier ones |
| Depends.CleanedTwice | cmd/depends.go:134-151 | adding in two steps is adding in one |
| Depends.SpecStore.Depends | cmd/depends.go:36-131 | the refusals in their order; otherwise the touched relations of one ticket are written |
| Depends.RefusesFirst | cmd/depends.go:43-77 | nothing asked for, an unknown ticket and a self-edge are refused in this order and exactly then; every refusal leaves the store alone |
| Depends.StepKeepsAcyclic | cmd/depends.go:95-123 | no command closes a cycle in the union of the three relations |
| Depends.RunKeepsAcyclic | cmd/depends.go:59-123 | over every sequence of commands in both modes the tickets stay a DAG |
| Depends.WrittenIsChecked | cmd/depends.go:80-123 | the checked edges are the written ones, as lists, if and only if the relations left alone are clean |
| Depends.SameMembersExactly | cmd/depends.go:76-123 | they have the same members if and only if the relations left alone are trimmed |
| Depends.RefusalExactly | cmd/depends.go:76-123 | for a command and a ticket's edges, the refusal is exact on every store if and only if the relations left alone are trimmed or the ticket points at itself both as checked and as written |
| Depends.RefusalIsExact | cmd/depends.go:95-105 | with trimmed relations the edit is refused if and only if the graph it would write has a cycle, and the path is a cycle of that graph |
| Depends.UncleanRefusal | cmd/depends.go:89-105 | without that, an edit can be refused though its result would be acyclic |
| Depends.AddKeepsEdges | cmd/depends.go:76-123 | add mode changes one ticket only, keeps what each relation named in its order and adds what was passed |
| Depends.SetReplacesEdges | cmd/depends.go:76-123 | with --set each relation that was passed holds exactly the non-blank ids passed, each once as first seen, and nothing of before; the others and every other ticket are unchanged |
| DependsRace.TimelyWritesKeepAcyclic | cmd/depends.go:59-123 | over every interleaving of checks and writes of any commands in which no spec is written between a check and its write, the tickets stay a DAG |
| DependsRace.TwoUpdates | cmd/depends.go:95-103 | in any graph, two updates of different nodes that are harmless alone close a cycle together if and only if the new edges of each lead to the other node |
| DependsRace.CrossingExactly | cmd/depends.go:95-123 | two commands on different tickets that both check before either writes close a cycle if and only if the written edges of each lead to the other's ticket |
| DependsRace.SameTicketStaysAcyclic | cmd/depends.go:95-123 | on one ticket they close none |
| DependsRace.FirstAdditionIsLost | cmd/depends.go:105-123 | on one ticket and relation, what the first command added is gone after the second, unless the second names it too |
| Frontmatter.Inject | cmd/new.go:290-346 | the two routines, which differ in the key only, compute the specified document |
| Frontmatter.LastWriteWins | cmd/new.go:290-346 | setting a key twice is setting it once to the last line, on every document |
| Frontmatter.Idempotent | cmd/new.go:290-346 | setting the same line again changes nothing |
| Frontmatter.InjectedIsSet | cmd/new.go:290-346 | afterwards the front matter's first line for the key is the one that was set |
| Frontmatter.ReplacedExactly | cmd/new.go:302-314 | of the lines only the first that sets the key changes, or else the new line comes before them all |
| Frontmatter.InjectWhole | cmd/new.go:302-314 | outside the torn case the line replaces the first one for the key or comes first, other lines keep their order, and everything from the closing fence on is kept |
| Frontmatter.RestKept | cmd/new.go:302-314 | what follows the front matter is kept byte for byte if and only if the case is not the torn one |
| Frontmatter.OtherKeyKept | cmd/new.go:317-346 | the other key's line is undisturbed if and only if torn front matter had not set it |
| Frontmatter.TornLosesTitle | cmd/new.go:317-346 | a family of documents whose title a type line hides |
| Ordering.LatestIsNewest | internal/attempt/attempt.go:222-232 | with automatic ids only, the last id in lexical order is the largest number if and only if every smaller number, scaled to its width, does not exceed it |
| Ordering.LatestUpTo9999 | internal/attempt/attempt.go:222-232 | which holds up to 9999 |
| Ordering.LatestMissesTenThousand | internal/attempt/attempt.go:222-232 | and fails at 10000 |
| Ordering.FilenameOrder | internal/event/event.go:195-200 | the exact lexical order of two event files |
| Ordering.FilenameInjective | internal/event/event.go:195-200 | a file name tells the second, the number and the type |
| Ordering.FilesSortCausally | internal/event/event.go:195-200 | event files list in sequence order when time does not run backwards and the numbers have four digits |

## Left out

* SHA-256 is a function of the canonical content of which nothing is assumed; the theorems about tampering name the collision they would need.
* YAML is an encoder and decoder pair with stated requirements; the one-line entries that front-matter surgery inserts are parameters.
* Git, worktrees, subprocesses, shells, HTTP and printed messages are oracle results or parameters; so are clocks and the calendar.
* File-system errors are one nondeterministic failure at each access; a process that dies between two accesses is a caller that takes no further step.
* Audit.AppendKeepsChain: for one writer at a time; several are the subject of LogRace, where the property has an exact condition.
* Audit.AppendAllKeepsChain: for one writer at a time, for the same reason.
* Artefacts.CapturesAreDistinct: for captures one after another; concurrent ones are the subject of CaptureRace.
* RunKeys.InsideByKeys: keys that climb out of the artefact directory are excluded, because what the groups of dotted names then meet depends on the names of its parents; groups of plain names have no such exception in InsideExactly.
* Depends.RunKeepsAcyclic: for one command after another; concurrent ones are the subject of DependsRace, in which a command's check reads every spec at once and its write rereads and rewrites one at once.
* An event file is created and filled in one step; a reader that meets a half-written file, which fails the whole read, is not modelled. An append without a type, or to an attempt that does not exist, is refused before anything is read.
* Making a run directory and filling it is one step in CaptureRace; a file that comes to bar the path in between is not modelled.
* In a session, an append by a gate is its last try: it takes the number after the highest it read, and what others file before that read and before its file exists is arbitrary. Its earlier tries leave nothing behind.
* The pending wake sources of an attempt are an arbitrary set chosen by the environment at each check.
* Which tools the protocol and permission policies name is arbitrary; the stream recognizer and the watcher are steps that append arbitrary events.
* The detached test runner is represented by the fail results it may log; its passing results are those of an ordinary logged climb.
* Capturing artefacts inside `test --log`, provenance and overlays do not change a verdict and are not part of it.
* Fact headlines, metric formulas and the wording of findings are not modelled; a finding is a value that says which and why.
* The scanner's limit on line length in the feature reader, doc strings, tables and examples, which the reader treats as prose, have no model of their own.
* Machine integers and floating point are mathematical integers and reals.
* A key may be used again after its run was pruned; distinctness is stated for captures.
* The rewriting of a spec's list fields as text (internal/repo/meta.go:147-204) is represented by its effect on the edges.
* Config layering, permission policies, link validation and slug rules would only add easy members.
