# kenward: a model of its guarantees, with proofs

kenward is a household assistant. What a household is asked to trust in it rests on a few
state machines and list algorithms: who agreed before anything was written to anyone's memory,
who is bound to which Telegram account across crashes and restarts, that one turn runs at a
time, that member-written text cannot forge the frame it is shown in, that a configuration that
passes validation keeps its members apart. This project models those parts of the Go code and
proves what they are for.

Telegram, lore, the filesystem, the clock and the model are not modelled: each is a reply, and
a reply can be anything. A save either replaces the whole file or fails and leaves it alone.

`dafny verify dfyconfig.toml` checks everything.

## How it is laid out

| files | what they hold |
|---|---|
| `Text`, `Titles`, `Optionals` | strings, what trimming, words and title comparison come to |
| `Capture`, `Offer`, `OfferProofs`, `Declines`, `Recency` | the capture engine's critical sections and the steps of one offer, and what each step keeps |
| `CaptureRuns`, `CaptureTheorems`, `CaptureAnswers`, `CaptureTurns`, `Crowding`, `Remember`, `CaptureExample` | any number of offers in flight, interleaved in any order: the invariant of every run, consent, budgets and refusals over whole runs, what each answer makes happen, how many conversations that is good for, and two runs it applies to |
| `Engine` | the engine object whose methods are those critical sections |
| `Household`, `HouseholdRuns`, `HouseholdTheorems`, `Restarts`, `Merge`, `Binder` | enrolment: the binder and its file, under failing saves and restarts |
| `Invites`, `HostPod`, `Enrolment`, `PodClaims`, `PodStart`, `Purging` | claim codes and revocations between the host and the pods |
| `TurnSlot` | the slot, the queue and their handlers, interleaved |
| `Lines`, `Framing`, `Wording` | the renderers whose delimiters a reader must be able to trust, that reader, and the words it finds |
| `Messages`, `Assembly`, `Estimates` | the message layout, the token estimate, and trimming to a budget |
| `Ranking`, `Rarity`, `Aliases` | retrieval: the weighted union and what it prefers, the search terms, the publish target; the alias line |
| `Config`, `Limits`, `Validation`, `Separation`, `Pods`, `Secrets` | the configuration file: one-pass validation against a row-against-row specification, and what follows for budgets, pods and secrets |
| `History`, `Wrapping` | the history ring and its schedule; greedy line breaking |

Code that changes state step by step is a method or a class, proved against a function that
says what it does; the theorems are about those functions. The capture engine, the turn slot
and the host with its pods are protocols, and are modelled as state machines over their steps.

## What the proofs need, and what the code does that its comments do not say

* **Forgotten conversations.** The engine remembers the 32 conversations most recently touched.
  One that was forgotten starts its turn counter at zero again, so the theorems about budgets and
  refusals are about conversations never forgotten. `ThirtyTwoIsExact`: every budget holds in
  every run over at most n conversations exactly when n is at most 32. `RecycledTurnOverspends` is
  the run over 33 that shows it.
* **What silences a title.** A refusal is recorded over a no, a lapse, an Undo, and also over a
  write that failed, which is not the member's doing. `RefusalsAreExact` says that it is recorded
  over those and nothing else.
* **Where "shared" is.** In a member's own chat the shared space is another readable one or the
  one the engine was built with, and the code does not check that the latter is not the member's
  own. `SharedIsElsewhere` says exactly when it is; elsewhere a publication leaves the space it
  is in.
* **Distinct accounts at the start.** Opening a household does not check that the accounts in
  its configuration are distinct; validation does. `OneHolder` and `OneRow` are kept, not
  established.
* **A declared `telegram_id` outlives a revocation.** `RestartReproduces` and
  `CorrectionIsReload` say exactly when memory and a reload agree; where the configuration file
  declares an account itself, they do not.
* **The first turn of a process can announce a reset.** The comment on the ring says it never
  does. It does exactly when a message was overheard before it (`FirstTurnTells`).
* **A household without a group chat has no pod that makes the shared space**
  (`EverySpaceIsMade`): the group's pod is the one that creates it, and it is started only where
  there is a group chat.
* **Reminders files are named from the raw id, and it is the trimmed id that is checked**, so ids
  with white space around them can share a file (`SpacedIdsShareAFile`); no others can
  (`RemindersPathsAreApart`).
* **An entry's confidence and a member's name are written as they come.** A rendered section has
  its heading and its frame at column zero and nothing else there exactly where the subject and
  every shown confidence are free of line breaks (`SectionColumnZero`). Validation lets a name
  have one. `BrokenConfidenceForges`, `BrokenNameForges` and `AForgingName` show what one does.
* **Naming each secret once can drop a second source** of a secret that states two; where no
  secret does, which validation asks for, nothing is dropped (`NothingEverLost`,
  `CleanSourcesLoseNothing`).
* **A purge can undo a spent mark** (`PurgeUndoesASpentMark`). No command purges.
* **The estimate is not monotone along the trim.** Dropping an entry adds a note. The request then
  costs more exactly when the entry is the first its section loses and the note is dearer than the
  entry (`DroppingSharedCostsIff`, `DroppingPrivateCostsIff`): among entries all of ASCII, every one
  of 63 characters or fewer, none of 66 or more (`ByLength`); `DroppingCanCost` is a prompt in which
  it does, and the drop that leaves no entry shown never is one (`LastDropNeverCosts`). So assembly
  promises the first fit; among history turns the first fit is the largest (`LongestHistoryKept`).
* **An entry without an id is known by its title and body with null characters around them**, so
  that two such entries are one exactly where they say the same, unless a title has a null
  character in it itself (`KeysTellEntries`, `NullsConfuse`).
* **The remember call acted on is the first that carries arguments**, not the first.

## Model

| member | source | states |
|---|---|---|
| EngineObject.Matches | internal/capture/capture.go:1343-1351 | the scan finds a refusal exactly when one of that title, by that speaker, is still in date |
| EngineObject.Prune | internal/capture/capture.go:1353-1361 | pruning keeps the refusals in date and their order |
| EngineObject.FindOldest | internal/capture/capture.go:1385-1394 | the conversation forgotten is one no other was touched before |
| EngineObject.Engine.Touch | internal/capture/capture.go:1370-1394 | looking a conversation up stamps it, creates it if need be, and evicts the least recently touched one only to make room |
| EngineObject.Engine.BeginTurn | internal/capture/capture.go:443-454 | a new token starts a turn: counter up, budgets cleared, refusals pruned; a repeated token changes nothing but recency |
| EngineObject.Engine.Reserve | internal/capture/capture.go:502-549 | a duplicate is turned away before the budget is looked at and costs nothing; otherwise one slot of that speaker's is taken or refused |
| EngineObject.Engine.RefundOffer | internal/capture/capture.go:1298-1305 | a refund credits its speaker only in the turn the slot was taken in |
| EngineObject.Engine.RecordDecline | internal/capture/capture.go:1333-1341 | a refusal is appended and the list cut to its last 32 |
| OfferProofs.LaunchOk | internal/capture/capture.go:483-600 | an offer that has just been admitted is at a stage its trace justifies |
| OfferProofs.LaunchPromotionOk | internal/capture/capture.go:799-880 | so is a promotion |
| OfferProofs.AdvanceOk | internal/capture/capture.go:483-880 | whatever the outside answers, each effect is justified by what came before it, each stored entry is announced, and an outcome tells the truth about the store; what each answer makes happen is in `CaptureAnswers` |
| Declines.NothingInvented | internal/capture/capture.go:1333-1361 | the list never holds a refusal that is not in the full log, in date |
| Declines.NothingLost | internal/capture/capture.go:1333-1361 | a refusal in date is missing only once 32 newer ones have been recorded |
| Declines.PruneTracks | internal/capture/capture.go:1353-1361 | pruning keeps the list a faithful cut of the log at a later turn |
| Declines.RefuseTracks | internal/capture/capture.go:1333-1341 | recording one more does too, late or not |
| Recency.TouchRemembers | internal/capture/capture.go:1370-1394 | a lookup keeps stamps distinct and the remembered set the most recent 32 |
| Recency.RememberedIff | internal/capture/capture.go:1370-1394 | a conversation is remembered exactly when fewer than 32 others have been touched since it last was |
| CaptureRuns.StepKeeps | internal/capture/capture.go:443-880 | every step of every run keeps the invariant over budgets, refusals, recency and flights |
| CaptureRuns.RunKeeps | internal/capture/capture.go:443-880 | and so does every run |
| CaptureTheorems.ConsentBeforeEveryWrite | internal/capture/capture.go:483-664 | one write at most, of what was shown; with no question before it, only to the member's own space under the save policy; otherwise only after that member's answer, in time, naming where it goes |
| CaptureTheorems.SharedChatsAlwaysAsk | internal/capture/capture.go:883-970 | outside a member's own chat nothing is written but to the conversation's space, after the asked member's tap, and nothing is published |
| CaptureTheorems.ConsentBeforeEveryPublication | internal/capture/capture.go:799-880 | a publication goes from the member's own space to the shared one, after that member tapped Publish; the two are one space only where the engine was built with that member's for the shared one and no other is readable |
| CaptureTheorems.SharedIsElsewhere | internal/capture/capture.go:947-970 | in a member's own chat the shared space is their own exactly when nothing else is readable and the engine was built with it |
| CaptureTheorems.SharedMeansShared | internal/capture/capture.go:565-575 | elsewhere, what goes to the member's own space was saved under the policy or answered Personal, and what goes to the shared one was answered Shared |
| CaptureTheorems.OnlyUndoDeletes | internal/capture/capture.go:689-739 | only the entry this call stored is deleted, and only on its member's Undo |
| CaptureTheorems.OutcomesAreTruthful | internal/capture/capture.go:622-783 | what a finished call reports is what it left in the store, and nothing was stored in silence |
| CaptureTheorems.BudgetIsExact | internal/capture/capture.go:502-549 | the counter is the number of offers made this turn and not handed back, and never over the limit, with any number in flight |
| CaptureTheorems.AskedIsCharged | internal/capture/capture.go:549-600 | a slot is handed back only where nothing was written and the question could not be put |
| CaptureTheorems.OffersSpendOnlyTheirOwn | internal/capture/capture.go:502-549 | an offer leaves every other speaker's count alone, and one turned away leaves everybody's |
| CaptureTheorems.RefusedIsSuppressed | internal/capture/capture.go:502-530 | a title its speaker refused in date, and no 32 refusals ago, is not put again |
| CaptureTheorems.SuppressedWasRefused | internal/capture/capture.go:1343-1351 | an offer is suppressed only over a recorded refusal of that title by that speaker, in date |
| CaptureTheorems.NoSilenceWithoutRefusal | internal/capture/capture.go:502-530 | over every run an offer is suppressed only over a call of that speaker's about that title, in date, that they turned down, let lapse or took back, or whose write failed |
| CaptureTheorems.RefusalsAreExact | internal/capture/capture.go:555-783 | over every run the refusals recorded are exactly those of such calls: none for one saved and left standing, answered by somebody else, or a promotion |
| CaptureTheorems.SavedAndNothing | internal/capture/capture.go:689-739 | where such a call's entry still stands, its member had tapped Undo |
| CaptureTheorems.TurningDownIsRecorded | internal/capture/capture.go:555-600 | of all the answers there can be a refusal is recorded over a no, a lapse and an Undo, at the turn the offer was made in, and over no other |
| CaptureTheorems.DeclinedIsNotPutAgain | internal/capture/capture.go:483-739 | the whole-run statement: through anything in between, what a member turned down is not put to them again within the window unless 32 newer refusals displaced it |
| CaptureTheorems.RemembersTheMostRecent | internal/capture/capture.go:1370-1394 | at most 32 conversations, and which |
| CaptureTheorems.FewScopesForgetNone | internal/capture/capture.go:1385-1394 | an engine that has seen no more than 32 conversations has forgotten none |
| CaptureAnswers.SharedSpaceIs | internal/capture/capture.go:951-970 | the shared space is the conversation's own outside a member's chat, and in one the first readable space that is another, or else the one the engine was built with |
| CaptureAnswers.NothingToOffer | internal/capture/capture.go:483-492 | an offer is considered, and its conversation looked up, exactly where the conversation is resolved and the title is more than white space |
| CaptureAnswers.GoingAhead | internal/capture/capture.go:483-547 | an offer that goes ahead is written unasked exactly in a member's own chat, called personal, under the save policy; otherwise it is put with the buttons its scope allows, except where it could only be shared and there is nowhere |
| CaptureAnswers.PromotionOpens | internal/capture/capture.go:799-811 | a promotion reads the entry from the member's own space exactly in their own chat with somewhere shared to publish to |
| CaptureAnswers.AnswersAreActedOn | internal/capture/capture.go:549-585 | at the question what was shown is put to the own space on Personal where there is one, to the shared one on Shared where there is one, and nowhere otherwise; a refusal is for a no and a lapse alone, and a choice that cannot be honoured is told |
| CaptureAnswers.UndoIsActedOn | internal/capture/capture.go:656-664 | under the announcement Undo deletes that entry and records a refusal, and whatever else comes back the write stands |
| CaptureAnswers.PublishIsActedOn | internal/capture/capture.go:842-848 | under a promotion's question Publish shares that entry, and nothing else does |
| CaptureAnswers.FailuresAreTold | internal/capture/capture.go:549-783 | every failure ends the call and is told, with nothing else done; only an unasked question gives its slot back and only a failed write is kept from coming up again |
| CaptureAnswers.NoButtonOnlyFails | internal/capture/capture.go:883-945 | over every run a question waiting shows the buttons its scope allows; its member's tap in time on a destination is written there, and on the way out is recorded |
| CaptureAnswers.UnaskedIsAnnounced | internal/capture/capture.go:602-783 | over every run a write that lands where it was sent is told to whoever was asked and announced with Undo to a member who was not; one that lands elsewhere is told, and that alone recorded |
| Crowding.RecycledTurnOverspends | internal/capture/capture.go:1298-1305 | under any options, a run over 33 conversations in which one speaker has one offer more than allowed in one turn, a late refund having landed on a turn number in its second use |
| Crowding.ThirtyTwoIsExact | internal/capture/capture.go:1370-1394 | every run over at most n conversations keeps every speaker within budget exactly when n is at most 32 |
| CaptureTurns.BegunOnce | internal/capture/capture.go:434-454 | beginning a turn twice under one token begins it once |
| CaptureTurns.FreshTurnIsUnspent | internal/capture/capture.go:443-454 | a turn under a new token has every speaker's whole budget in it, whatever is still in flight |
| CaptureTurns.GoesAheadIff | internal/capture/capture.go:502-549 | an offer nobody refused in date goes ahead exactly when fewer than the allowed number of its speaker's offers this turn have not been handed back |
| CaptureTurns.TurnsCount | internal/capture/capture.go:443-454 | a conversation's turn moves on by one when one begins in it under a new token, and never otherwise |
| CaptureTurns.DeclinedForTheWindow | internal/capture/capture.go:1343-1351 | what a member turned down in its own turn is not put to them again before as many turns have begun there as the window says, unless 32 newer refusals displaced it |
| Titles.TitlesAlike | internal/capture/capture.go:1363-1367 | two titles are taken for one exactly when they have the same words in the same order but for the case of their letters |
| Titles.ComparedOnce | internal/capture/capture.go:1363-1367 | comparing again, or having trimmed first, changes nothing |
| Titles.FieldsOfBreak | internal/capture/capture.go:1363-1367 | white space ends one text's words and begins another's |
| CaptureExample.OneNoIsEnough | internal/capture/capture.go:483-600 | a run in which a question, a no and the same fact again come to a duplicate |
| CaptureExample.SavedFirst | internal/capture/capture.go:602-664 | a run in which a fact called personal is written without a question |
| Remember.ExtractProposal | internal/assistant/remember.go:152-226 | a proposal comes of the first remember call that carries arguments, if they are usable, in that call's own words and for the target it names, or left open; a warning says exactly that a call was to no known tool, that there was a second, or that the first was flawed |
| Remember.UnaskedWritesWereCalledPersonal | internal/assistant/remember.go:152-226 | over every run, a write without a question was called "personal" by the model, in that word, in a household that saves before asking |
| HouseholdRuns.RowForFinds | internal/config/state.go:148-160 | the lookup finds a row exactly when one records the account, and zero finds nobody |
| HouseholdRuns.StaleRowIsNobodys | internal/config/binder.go:241-250 | the row a claim drops is never a member's |
| HouseholdRuns.StepSound | internal/config/binder.go:210-349 | each claim, revocation and answer, saved or not, keeps the order listing the members once each, one account to one member in memory and in the file, own spaces, and memory saying what the file says |
| HouseholdRuns.RunSound | internal/config/binder.go:210-349 | and so does every run of them |
| HouseholdRuns.OpensSound | internal/config/binder.go:136-189 | opening a household with distinct accounts establishes all of that |
| HouseholdRuns.RestartReproduces | internal/config/binder.go:136-349 | after any run a restart gives every declared member the live account and time exactly when no member with a declared account has left it |
| HouseholdRuns.RestartIsSound | internal/config/binder.go:136-189 | and the household it gives is sound again |
| Restarts.AnyLifeIsSound | internal/config/binder.go:136-349 | through claims, revocations, answers and restarts in any order, no declared account having been left at a restart, the household stays sound and one more restart reproduces it exactly when none has been |
| Restarts.UndeclaredSurvivesAnything | internal/config/binder.go:136-349 | where the configuration declares no accounts that holds of every run with restarts |
| HouseholdTheorems.ClaimRefusedIff | internal/config/binder.go:191-265 | a claim is refused, and changes nothing, exactly when it names nobody or no account, the account is another member's, the member cannot be created, or there is something to save and the save fails |
| HouseholdTheorems.ClaimTakes | internal/config/binder.go:191-265 | a claim that goes through gives that member the account in memory and in the file, keeps the time of one already recorded, and changes nobody else |
| HouseholdTheorems.NewcomerIs | internal/config/binder.go:382-407 | somebody unknown is taken in exactly where they have a name, there are tiers for them and the space they would have is nobody's; it is their id's, set apart from the shared one, and they join the order last |
| HouseholdTheorems.RetriedClaim | internal/config/binder.go:203-206 | claiming again what one holds succeeds and changes nothing, whatever the clock and the disk say |
| HouseholdTheorems.OldAccountIsNobodys | internal/config/binder.go:200-203 | a member who claims from another account leaves the old one to nobody |
| HouseholdTheorems.RevocationFrees | internal/config/binder.go:315-349 | a revocation returns the member as they were, leaves them and their account nothing, and changes nobody else |
| HouseholdTheorems.RevocationRefusedIff | internal/config/binder.go:321-349 | a revocation is refused, and changes nothing, exactly where nobody has that id or what is to be taken back cannot be saved; otherwise other rows and every persona stay |
| HouseholdTheorems.AnswersAreKept | internal/config/binder.go:280-299 | a persona answer is in memory and in the file exactly where it is a member's and could be saved, and changes nobody else's and nobody's account |
| HouseholdTheorems.RevocationUndoesClaim | internal/config/binder.go:315-349 | revoking a first claim leaves the household as it was before it |
| HouseholdTheorems.FreedAccountCanBeClaimed | internal/config/binder.go:315-349 | an account given up can be claimed by another member |
| MergeState.Merge | internal/config/state.go:364-404 | the rows become the merged rows in place, and the conflicts reported are the rows that disagree |
| MergeState.OwnAnswersStand | internal/config/state.go:364-387 | field by field the member's own answer stands wherever they gave one, and the file's wherever they did not |
| MergeState.RecordedAccountsStand | internal/config/state.go:388-400 | the recorded account and time are taken where none or the same is declared, and a row that disagrees is left as it was |
| MergeState.ConflictsAre | internal/config/state.go:388-404 | the rows reported are all of those that disagree, once each, in order |
| MergeState.MergeIsIdempotent | internal/config/state.go:364-404 | merging again changes nothing and finds the same conflicts |
| MergeState.MergingFirstChangesNothing | internal/config/binder.go:136-189 | a merged configuration opens to the same household, and is refused exactly when the other is |
| BinderObject.SmallestId | internal/config/state.go:162-169 | the id scanned next is the least of those left |
| BinderObject.MemberByTelegramId | internal/config/state.go:148-160 | the sorted scan finds the first row for the account |
| BinderObject.Binder.Open | internal/config/binder.go:136-189 | refuses exactly where the file disagrees or a row is malformed, and otherwise holds the opened household |
| BinderObject.Binder.HolderFor | internal/config/binder.go:411-418 | finds the member holding the account, in order |
| BinderObject.Binder.ProvisionFor | internal/config/binder.go:382-407 | provisions a member nobody declared, or says why not |
| BinderObject.Binder.Bind | internal/config/binder.go:210-265 | a claim's whole effect on memory and file, by whether its save works |
| BinderObject.Binder.Unbind | internal/config/binder.go:321-349 | a revocation's |
| BinderObject.Binder.SetMemberPersona | internal/config/binder.go:280-299 | a persona answer's |
| Invites.FileStore.Save | internal/enrol/filestore.go:96-118 | a code is added unless its digest is held or the write fails |
| Invites.FileStore.Consume | internal/enrol/filestore.go:120-140 | by the last record of the digest: unknown exactly where there is none, used where it is spent, too late where it is unspent and past its date, broken where the mark cannot be written, and redeemed exactly where none of these; the store changes in that one mark, and only then |
| Invites.CopyInvites | cmd/kenward/enrolwiring.go:169-188 | a copy adds what is wanted and not known, in order, until a write fails, and counts what it added |
| Invites.CopyKeepsWhatWasThere | cmd/kenward/enrolwiring.go:169-188 | nothing already in the destination moves or loses its spent mark, and what is new was wanted and unknown |
| Invites.CopyLeavesNothingOut | cmd/kenward/enrolwiring.go:169-188 | a copy goes through exactly where nothing wanted is left unknown, and one that does not has used every write there was |
| HostPod.RedeemedOnce | cmd/kenward/singleunit.go:127-157 | over any run of mints, exports, starts, revocations and claims no code is redeemed twice |
| HostPod.SpentForGood | cmd/kenward/singleunit.go:127-157 | a record marked spent in a pod's store is spent ever after, whatever is imported over it |
| HostPod.SpentIsNotLiveAnywhere | cmd/kenward/enrolwiring.go:169-188 | a digest one pod has spent is live in no pod |
| Enrolment.OnlyLiveCodesAreRedeemed | internal/enrol/store.go:42-65 | over every run the steps that redeem anything are exactly the claims at a pod that is up, of a digest it holds unspent and in date, whose mark could be written; and they mark that one record |
| Enrolment.MintedCodeIsGood | cmd/kenward/singleunit.go:127-157 | a code minted in any run, and exported, is good in its member's pod from any start that comes up, through anything in between, until it is redeemed or past its date |
| PodClaims.StartsHonourRevocations | cmd/kenward/singleunit.go:179-218 | a pod that comes up serves its member only under a claim strictly after the recorded revocation |
| PodClaims.ClaimsSurviveRestarts | cmd/kenward/singleunit.go:179-218 | a claim newer than the last revocation survives every later start and every redemption that fails, and is the one served |
| PodClaims.LastClaimIsServed | cmd/kenward/singleunit.go:179-218 | from any run's redemption that binds, later than the last revocation, every start that comes up serves that account since that time, until another claim goes through or another revocation is made |
| PodClaims.CorrectionIsReload | cmd/kenward/singleunit.go:203-217 | the configuration corrected in memory is what a reload gives exactly when the file declares no account for that member |
| Purging.PurgeUndoesASpentMark | internal/enrol/filestore.go:142-160 | a spent code the seed still carries comes back exactly when the purge is later than the redemption and the code has not expired |
| PodStart.FindMember | cmd/kenward/singleunit.go:186-196 | the row found is the first with that id |
| PodStart.ApplyRevocation | cmd/kenward/singleunit.go:179-218 | somebody else's record stops the start and touches nothing; otherwise rows and file become what the record makes them, and a failed write stops the start |
| TurnSlot.StepKeeps | internal/assistant/assistant.go:404-529 | every step of any handler keeps slot and waiter count in step with who holds and who waits |
| TurnSlot.OneTurnAtATime | internal/assistant/assistant.go:485-529 | over all interleavings one turn runs at most, the slot is full exactly while one handler holds it, and waiters are counted and bounded |
| TurnSlot.DroppedIffQueueIsFull | internal/assistant/assistant.go:496-506 | a message that finds the slot taken waits exactly where the queue has room for it, and is dropped exactly where as many as may wait are waiting |
| TurnSlot.EndingsAreEarned | internal/assistant/assistant.go:404-529 | over every step a handler comes to each place only from where it should: dropped only at a full queue, cancelled only out of the queue, running only from an empty slot or from having waited for it |
| TurnSlot.ReleasesAreSafe | internal/assistant/assistant.go:485-529 | no release blocks; the first empties its own turn's slot, the second empties nobody's |
| TurnSlot.EndsOneWay | internal/assistant/assistant.go:404-456 | a message ends once, having had the slot once or never |
| TurnSlot.NeverStuck | internal/assistant/assistant.go:485-529 | while a message is unfinished somebody can move |
| TurnSlot.EveryStepIsProgress | internal/assistant/assistant.go:485-529 | every step but an arrival brings the end nearer |
| TurnSlot.RunsAreBounded | internal/assistant/assistant.go:485-529 | so a run without arrivals is no longer than that measure |
| TextLines.LinesRejoin | internal/assistant/prompt.go:973-976 | splitting at line breaks and joining again gives the text back, and no line has a break in it |
| TextLines.LinesOfBreak | internal/assistant/prompt.go:973-976 | a break between two texts is a break between their lines |
| Framing.RenderEntry | internal/assistant/prompt.go:960-980 | an entry's lines are a delimiter, the bullet, the body's lines indented, a delimiter |
| Framing.RenderMemorySection | internal/assistant/prompt.go:921-947 | the section is its heading, its entries' lines or what stands for having none, and the note of what was dropped |
| Framing.RenderPersona | internal/assistant/prompt.go:854-876 | nothing where nothing was asked for, otherwise the block's lines |
| Framing.BulletIsOneLine | internal/assistant/prompt.go:960-989 | the bullet is one line exactly when the confidence has no line break |
| Framing.EntryColumnZero | internal/assistant/prompt.go:949-980 | whatever title, body and markers say, an entry has its two delimiters and its bullet at column zero exactly where its confidence has no line break |
| Framing.SectionsReadBack | internal/assistant/prompt.go:907-980 | from a rendered section, heading and all, a reader of the delimiters gets every body it shows back, whole and in order, and nothing else |
| Framing.SectionColumnZero | internal/assistant/prompt.go:907-980 | any rendered section has its heading, three lines for each entry it shows or what stands for none, and the node's own note at column zero, exactly where neither subject nor confidence has a line break |
| Framing.BrokenNameForges | internal/assistant/prompt.go:808-812 | a member's name with an entry in it forges that entry in the heading of their memory |
| Framing.AForgingName | internal/assistant/prompt.go:808-812 | such a name, over a memory in which nothing was found |
| Framing.BrokenConfidenceForges | internal/assistant/prompt.go:966 | of one entry whose confidence closes it and opens another, the reader makes two |
| Framing.PersonasReadBack | internal/assistant/prompt.go:842-876 | at column zero the block has its delimiters and the labels of what was stated, and each label's value reads back |
| Wording.SameWordsOnOneLine | internal/assistant/prompt.go:982-989 | a text put on one line has the words it had on many |
| Wording.BulletSays | internal/assistant/prompt.go:960-971 | a bullet says the title's words, the confidence as it is written, and the markers' words where there are any |
| Wording.StatedAre | internal/assistant/prompt.go:854-876 | what is stated of a persona is every field that says anything and no other |
| Wording.ValuesSay | internal/assistant/prompt.go:854-876 | the value read back under a label says the words stated for it |
| Messages.BuildMessages | internal/assistant/prompt.go:1001-1027 | the messages are the grouping by role of every piece that is not empty, and the member's message |
| Messages.RunsAreGrouped | internal/assistant/prompt.go:991-1027 | the groups hold every piece in order, each is one speaker's, and neighbours differ |
| Messages.GroupingIsUnique | internal/assistant/prompt.go:991-1027 | nothing else is such a grouping |
| Messages.LayoutIs | internal/assistant/prompt.go:991-1027 | the first message is the system prompt alone, the last is the member's and ends with what they said, and roles alternate |
| Messages.TurnsInOrder | internal/assistant/prompt.go:1015-1024 | every turn is told, in the order the turns were had, what was said before its answer and nothing of what was not |
| Messages.EstimateTokens | internal/assistant/budget.go:28-38 | a token for every three ASCII characters or part of three and one for each other character |
| Messages.EstimateRequestTokens | internal/assistant/budget.go:42-48 | the sum over messages, with eight for each one's framing |
| Messages.TokensOfJoin | internal/assistant/budget.go:28-38 | a join by a line break costs at most one more than the parts |
| Messages.MergingSaves | internal/assistant/prompt.go:991-1027 | each piece merged into an earlier message saves seven tokens at least |
| Messages.OldestTurnCosts | internal/assistant/prompt.go:660-664 | a conversation without its oldest turn never costs more |
| Assembly.Assemble | internal/assistant/prompt.go:649-733 | the request is the first along the trim that fits or the last there is, rendered from the input returned; the private section shows the best of the first group and counts the rest, the shared one those of the second, or of the first where there is no private memory, and absent groups have no section |
| Assembly.SectionsKeepTheirGroups | internal/assistant/prompt.go:701-733 | however the prompt is trimmed no section shows another's entries |
| Assembly.SettlesOnce | internal/assistant/prompt.go:649-674 | there is one such place to stop |
| Assembly.TrimmingKeeps | internal/assistant/prompt.go:636-674 | newest turns and best entries stay, nothing shared goes before history or private before shared, and kept and dropped add up |
| Assembly.TrimmingIs | internal/assistant/prompt.go:636-674 | any prompt with those properties is one along the trim |
| Assembly.HistoryFitIsLargest | internal/assistant/prompt.go:636-674 | along the history the estimate only falls |
| Assembly.LongestHistoryKept | internal/assistant/prompt.go:636-674 | where history is left, a run of newest turns fits exactly when it is no longer than the one kept |
| Estimates.DroppingCostsIff | internal/assistant/prompt.go:921-947 | in any prompt, dropping a section's last entry makes it dearer exactly when it is the first dropped and the note is dearer than the entry |
| Estimates.LastDropNeverCosts | internal/assistant/prompt.go:818-823 | a drop that leaves no entry shown takes the sentence about entries with it, and never makes the prompt dearer |
| Estimates.ByLength | internal/assistant/budget.go:28-38 | for an entry of ASCII that is by its length: up to 63 always, from 66 never, and between by what is around it |
| Estimates.DroppingSharedCostsIff | internal/assistant/prompt.go:660-671 | the request's estimate rises over a dropped shared entry exactly then |
| Estimates.DroppingPrivateCostsIff | internal/assistant/prompt.go:660-671 | and over a dropped private one |
| Estimates.DroppingCanCost | internal/assistant/prompt.go:660-671 | an entry whose dropping raises the estimate, whatever is around its section |
| Ranking.RankUnion | internal/assistant/assistant.go:1382-1423 | the result is the ranking of everything found, cut to the limit; what that ranking prefers is in `Rarity` |
| Ranking.SortedIs | internal/assistant/assistant.go:1414 | the order is a stable sort, by score downwards, of all positions |
| Ranking.RankedIs | internal/assistant/assistant.go:1382-1423 | keys are distinct, exactly those the hits hold, each known by an entry that was found, and in order of score, ties by arrival |
| Ranking.CutKeepsTheBest | internal/assistant/assistant.go:1414-1417 | nothing cut scores above anything kept |
| Ranking.MoreTermsMoreScore | internal/assistant/assistant.go:1353-1381 | an entry found by more terms, the other's among them, scores more |
| Ranking.StrictlyMoreTermsWins | internal/assistant/assistant.go:1353-1381 | and comes before it, whatever the order of arrival |
| Ranking.KeysTellEntries | internal/assistant/assistant.go:1399-1402 | two entries are one where they have one id, or neither has any and both say the same |
| Ranking.NullsConfuse | internal/assistant/assistant.go:1399-1402 | unless a title has a null character in it |
| Rarity.OneTermsPoint | internal/assistant/assistant.go:1393 | one term's finds share one point equally |
| Rarity.ScoresAdd | internal/assistant/assistant.go:1382-1413 | what came of some terms and what came of more add up |
| Rarity.OneFindScores | internal/assistant/assistant.go:1393 | an entry one term found scores one over how many that term found |
| Rarity.RarerTermIsFirst | internal/assistant/assistant.go:1353-1423 | of two entries one term each found, the one whose term found fewer comes first, and of those found with as many the one that came up first |
| Rarity.TiesKeepArrival | internal/assistant/assistant.go:1414 | of two entries worth as much the one whose first hit came earlier, group by group, comes first |
| Rarity.KnownByItsFirst | internal/assistant/assistant.go:1398-1407 | each key is shown as the first entry that came up with it |
| Ranking.SearchTerms | internal/assistant/assistant.go:1323-1351 | the terms are the content words, the six longest of them where there are more |
| Ranking.TermsAre | internal/assistant/assistant.go:1323-1351 | they are distinct, at most six, none of them a stop word or of one byte, and any other such word left out is no longer than any kept |
| Ranking.TermsInOrder | internal/assistant/assistant.go:1340-1349 | where nothing is left out they are in the order they were said; otherwise the longest first, and equals in that order |
| Ranking.PublishTarget | internal/assistant/assistant.go:1066-1087 | an id is named exactly in a member's own chat where, of all the entries in groups of the scope's own space, one and no second has an id and a title that compares equal; and it is that entry's |
| Aliases.UsefulAliases | internal/capture/capture.go:1054-1085 | an alias is kept exactly when there is room, it is short enough, and a term of it is said neither by the entry nor by one kept before it |
| Aliases.ChoiceIsUnique | internal/capture/capture.go:1054-1085 | that settles which are kept |
| Limits.ApplyDefaults | internal/config/config.go:901-911 | a window or a cap not stated becomes the default, in place, and nothing else changes |
| Limits.DefaultsAgreeIff | internal/config/config.go:901-911 | what is stated is kept; an endpoint that states one limit is clean exactly where it leaves room for the other's default |
| Limits.ValidateEndpointBudget | internal/config/validate.go:308-326 | each fault exactly where it applies; none exactly where a stated cap is below a stated window |
| Limits.ValidateEndpoints | internal/config/validate.go:254-296 | the tags are the ones some endpoint has, blank ones apart; the faults are exactly those of the row-against-row specification |
| Limits.FaultlessIsClean | internal/config/validate.go:254-296 | there is none exactly where names are distinct and every row is clean |
| Limits.ValidateTiers | internal/config/validate.go:409-423 | the faults are exactly the chain not stated, each blank tier and each that is no tag |
| Limits.ChainLimits | internal/config/config.go:546-573 | each limit is the least positive one among the endpoints reached, and zero where there is none |
| Limits.CleanChainReaches | internal/config/validate.go:400-423 | a chain without faults reaches an endpoint |
| Limits.LimitsAreUsable | internal/config/config.go:546-573 | over a clean file, defaulted, the cap is below the window for every chain that reaches anything, and the unit is always built, with room for a prompt |
| Limits.UnitBudget | internal/assistant/assistant.go:370-384 | from the file to the unit: what validates gives a positive cap below the window |
| Limits.MinimaFromDifferentEndpoints | internal/config/config.go:546-573 | the two limits can come from two endpoints |
| Validation.CheckClaim | internal/config/validate.go:586-617 | a row's claim is a fault exactly when an earlier row, or the household's bot, claimed the same, and the first to is the one named |
| Validation.ValidatePersona | internal/config/validate.go:383-398 | a persona field is a fault exactly where it is longer than its bound |
| Validation.CheckPod | internal/config/validate.go:491-495 | an id is a fault exactly when another id made its pod name first |
| Validation.CheckSpace | internal/config/validate.go:500-543 | the private-space faults, a shared-only member's leftovers among them, exactly where they apply |
| Validation.ValidateMember | internal/config/validate.go:475-583 | one row's faults, all and only |
| Validation.ValidateMembers | internal/config/validate.go:449-584 | one pass reports exactly the faults the row-against-row specification has |
| Separation.FaultlessIsSeparate | internal/config/validate.go:449-584 | there is no fault exactly when no two claimants share an id, pod name, private space, account, token or passphrase source, and every row is clean by itself |
| Separation.ClaimsAre | internal/config/validate.go:586-617 | in the file's own words, kind by kind: ids and accounts are apart always, spaces where both rows have one, bot and passphrase sources where each runs its own bot, and bot sources from the household's too |
| Separation.PodNameIs | internal/config/validate.go:429-447 | a pod's name is in the pod alphabet, an id that is already is its own, and any other character is a hyphen for each of its bytes |
| Separation.CollisionIsFault | internal/config/validate.go:586-617 | of two claimants of one thing the later is reported |
| Separation.PodCollisionIsFault | internal/config/validate.go:491-495 | of two ids with one pod name one is reported |
| Separation.MemberByTelegramID | internal/config/convert.go:88-118 | nobody for zero, for an unknown account and for an account two members share; otherwise its one member |
| Separation.LookupInvertsBindings | internal/config/convert.go:88-118 | in a file without faults every claimed account is one member's and not the group's |
| Separation.FindSender | internal/config/convert.go:100-118 | so the lookup gives each claimed account its own member |
| Separation.PathsAre | internal/config/state.go:291-311 | two conversations share a reminders file exactly when they are of one kind and their ids' pod names agree |
| Separation.RemindersPathsAreApart | internal/config/state.go:280-311 | in a file without faults they do only where an id has white space around it |
| Separation.SpacedIdsShareAFile | internal/config/state.go:280-311 | a file without faults in which they do |
| Pods.ServedByOne | internal/config/validate.go:97-110 | each member with memory of their own is served by their own pod and no other, and a shared-only member by none |
| Pods.ListSpaces | cmd/kenward/probes.go:239-250 | the spaces asked after are the shared one and those of the members served |
| Pods.ListOwnSpaces | cmd/kenward/probes.go:279-295 | the space a pod makes: the shared one in the group's, the first served member's in a member's, none elsewhere |
| Pods.MemberPodSpaces | cmd/kenward/probes.go:228-295 | a member's pod makes that member's space, and asks after it and the shared one only |
| Pods.OneMaker | cmd/kenward/probes.go:259-295 | no two pods make one space |
| Pods.EverySpaceIsMade | cmd/kenward/probes.go:259-295 | every private space is made, and the shared one exactly where there is a group chat |
| Pods.JudgeMemory | cmd/kenward/probes.go:154-163 | fatal exactly when there is something to ask after and none of it answered; the missing are listed in order |
| Pods.FailedOne | cmd/kenward/probes.go:154-163 | the spaces listed are those of the results that failed, in the order they were asked after |
| Pods.OwnSpaceIsEnough | cmd/kenward/probes.go:106-163 | a unit that finds the space it made is never judged unfit |
| Secrets.RefList.Add | internal/config/validate.go:716-737 | a reference is kept unless a source of it has been named, with the two sets in step |
| Secrets.SecretRefs | internal/config/validate.go:711-800 | the list is what the process needs, each source named once |
| Secrets.Needs | internal/config/validate.go:738-800 | what each kind of process needs, secret by secret, in every mode |
| Secrets.EachSourceOnce | internal/config/validate.go:719-737 | no two references kept share a source |
| Secrets.MemberPodNeeds | internal/config/validate.go:692-800 | a member's pod needs its own token and passphrase, the link key and the keys its own chain reaches, and nothing else |
| Secrets.NothingEverLost | internal/config/validate.go:719-737 | naming each once never loses a source exactly when every reference with two sources has both named before it or neither |
| Secrets.SecondSourceLost | internal/config/validate.go:719-737 | how one is lost |
| Secrets.ValidateSecretSources | internal/config/validate.go:862-885 | the secrets reported are exactly those the file states two ways |
| Secrets.CleanSourcesLoseNothing | internal/config/validate.go:862-885 | in a file that states no secret two ways nothing is lost, whichever process asks |
| History.BoundaryIsLatest | internal/assistant/reset.go:32-51 | a boundary is a whole number of intervals after midnight, at or before now, and less than an interval old |
| History.BoundaryMonotone | internal/assistant/reset.go:32-51 | the schedule never goes back, also where intervals do not divide the day |
| History.HistoryRing.Add | internal/assistant/history.go:44-51 | one more turn, and the oldest gone when full |
| History.HistoryRing.ResetIfDue | internal/assistant/history.go:53-73 | a later boundary is adopted either way, and something is reported only when something was dropped |
| History.HistoryRing.MaybeReset | internal/assistant/reset.go:53-67 | nothing without a schedule, otherwise the reset that is due |
| History.RunKeeps | internal/assistant/history.go:44-73 | over every run the ring is the last turns recorded since it was cleared, and each boundary is announced once at most |
| History.NewestTurnsKept | internal/assistant/history.go:44-51 | over every run the ring is the newest of what was recorded since it was cleared, as many as there is room for |
| History.NothingLostBetweenResets | internal/assistant/history.go:53-73 | between two scheduled resets nothing is cleared or announced |
| History.ResetsAreTold | internal/assistant/reset.go:53-67 | a turn that begins clears everything exactly where a reset has fallen due since the last one adopted, and announces it exactly where something then goes |
| History.NothingOlderSurvives | internal/assistant/reset.go:53-67 | a turn that begins is given nothing recorded before the latest boundary |
| History.FirstTurnTells | internal/assistant/history.go:31-36 | the first turn of a process announces a reset exactly when something was heard before it |
| Wrapping.Wrap | cmd/kenward/doctor.go:1357-1377 | every word in order, on lines that fit or hold one word, and no other such way takes fewer lines |
| Wrapping.NeverBehind | cmd/kenward/doctor.go:1366-1375 | line for line the greedy split has placed as many words as any other |
| Wrapping.LinesSayTheSame | cmd/kenward/doctor.go:1357-1377 | put back together with spaces the lines say what the words do |

## Left out

* The blocking form of an offer: `Offer` is one step for each outside reply, on values, so that
  offers can interleave. Only the engine's own critical sections are methods on an object.
* Goroutines, channels and the mutexes themselves: `TurnSlot` has the steps a handler takes and
  lets them interleave; the refusal, stranger and overheard paths of a message that never asks
  for the slot are not in it. A busy notice is a step that changes nothing else.
* What messages say: questions, announcements, notices and the language catalogues. A message is
  the fact that it was sent, and whether sending failed. The gloss line and `restates` with it.
* What a promotion's card shows, and a draft's domain, confidence and evidence.
* Unicode detail. Strings are sequences of characters, white space is the four ASCII ones, and
  case folding is ASCII.
* Whether a base URL is well formed: it is a field of the model's endpoint.
* `PersonaFor`, `toolSpecs`, `resolveUnitSelection`, secret resolution, doctor's checks
  and reminder arguments: short case analyses settled by reading one branch.
* `sanitizeReply` and `stripToolJSON`: they rest on regular expressions and a JSON decoder.
* The rest of the system prompt. `Assembly` takes rendering as a function of the input, so what
  it proves holds for any; `Framing` has the memory sections and the persona block.
* How terms are made of a text, and what a store finds for one: both are parameters.
* YAML, JSON, file modes and atomic replacement; the `Version` field and nil maps of a state.
* The order of a validator's faults, and their words: what is stated is which there are.
* Limits given on the command line, which win over those of the chain.
* Daylight saving: the calendar is any function that gives each time a midnight at or before it,
  the same one or a later one than the time as days go by.
* The updater, the desktop and dashboard programs, packaging and release signing.
