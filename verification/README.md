# Verified models of the financial controls

This project models the money-moving core of the repository in Dafny and proves what it guarantees:

- **Two-phase money movement** (`Intents`, `Ledger`, `TwoPhase*`, `Orchestrator`). An intent row in PostgreSQL moves by
  compare-and-swap on its version; the money is a pending, post or void transfer in the ledger under deterministic ids; no
  transaction spans the two. Every store or ledger call is one atomic step of a process; any number of processes interleave,
  any may stop between two calls, and a call may report a failure although its effect happened. `Orchestrator.dfy` holds the
  methods as imperative code, each proved to be the program the state machine runs. `TwoPhaseClosing` says exactly when an
  intent can still be closed; `TwoPhaseAnswers` and `TwoPhaseReads` say what each call answers, `TwoPhasePayouts` is about
  disbursement pairs, `TwoPhaseApprovals` about makers and checkers. From `TwoPhaseLate` on (`TwoPhaseCompensation`,
  `TwoPhaseHolders`, `TwoPhaseOrphans`, `TwoPhaseDoomed`, `TwoPhaseLateClosing`) a failed create may also land at any later
  moment.
- **Three-way reconciliation** (`ReconSpec`, `Recon`, `ReconDispositions`, `ReconTheorems`, `ReconKeys`, `ReconRuns`, `ReconStore`,
  `ReconCommits`, `StatementIngest`). The planner's loops compute a relational specification; the theorems are about that
  plan over the input records, about repeated and batched runs, about the transaction that records it and about the lines a
  statement ingest leaves for it.
- **Canonical JSON** (`Utf8`, `Json`, `Jcs*`, `Ecma*`, `Outbox*`). A decoder, the envelope's printer and the outbox's
  printer; what is printed decodes back, and the two printers agree. Keys are sorted by UTF-8 bytes, as the code does;
  section 3.2.3 of RFC 8785 asks for UTF-16 code units, and `PrintedInUtf16OrderExactly` says when the two orders differ.
- **Ledger mirror** (`SettlementSync`, `SyncLedger`, `SyncCount`). Concurrent, crashing syncers behind a durable cursor.
- **Money arithmetic** (`Split`, `SplitTheorems`, `SplitRules`, `Fx`), **provider-statement report** (`Sorting`, `Reconciliation`,
  `ReconciliationTheorems`, `ReconciliationFindings`), **Mojaloop callbacks** (`Mojaloop*`), **CVFF approval chain** (`Cvff*`).

Environment assumptions, stated as part of the models: ledger ids are unique, transfers are immutable, lookups are
linearizable, a pending transfer is resolved at most once (post, void or expiry), a post moves the pending amount (the code
sends none), and the ledger's timestamps increase. SHA-256 and base64url are given functions; a deterministic id is its
preimage, so hash collisions are assumed away. `strconv.ParseFloat` and shortest digits of doubles are given functions.

Results worth knowing before changing the code:

- `ReplayRecognition`: a post or void answered "exists" is always reported as a conflict, because the comparison with the
  stored transfer sees its accounts and amount against the zeros that were sent. Only reservations and disbursement legs
  recognise their own replay.
- `CompensationNeverSent`, `CompensationHappens`: if a failed create takes effect at once or never, the compensating void of
  the officer resolver is never reached; it is reached, and works, when a reservation lands after its intent was declared
  AMBIGUOUS. A reservation that lands after the close is not compensated (`ReservationOutlivesClose`): funds of a VOIDED
  intent can be locked exactly when its reservation is open or still in flight (`VoidedLocksExactly`).
- `ClosableExactly`: an intent can always still be closed unless its reservation expired (`ExpiryHappens`) or it was left in
  RESERVATION_REQUESTED. For the latter no crash is needed: losing the reply of the request is enough (`LostReplyStrands`).
  When creates may land late, an expired intent has one more chance, an officer's CLOSE that had missed the reservation
  (`LateClosableExactly`).
- `CloseAnswers`: an officer's VOID of an AMBIGUOUS intent with an outstanding reservation, which a late create can leave,
  voids that reservation in the ledger even when the disposition then fails for a stale version.
- `PayoutAnswers`: a disbursement refused for a conflict on one leg may just have entered the other one.
- `CommitsExactly`, `FailsAtEveryDate`, `StuckOnSharedNote`: two settlements that cleanly match one note make every
  reconciliation run, at any date, fail on the unique note index (`db/migrations/0009_revenue_assurance.sql:221`), since the
  insert only tolerates a settlement conflict; this lasts until somebody changes the tables. The comment in `recon.go` that a later duplicate is the exception is narrower than the code, which freezes all.
- `PrintersAgreeExactly`: the envelope's printer keeps a literal `-0`, the outbox's prints `0`.
- `ResumeSafeExactly`: a CVFF resume is safe exactly when its target's stage is covered by the approvals collected; the
  default target is not, and an application can be disbursed after one approval (`DefaultResumeSkipsTheChain`).
- `TransferPossibleExactly`: a crash, or a commit reported as failed, between recording a quote response and creating its
  transfer leaves the quote without one for ever.
- `SyncOnceMiscounts`: `SyncOnce` reports fewer rows than it mirrored exactly when the first ledger that fails has a money
  transfer before its first unmappable one.

## Model

| member | source | states |
|---|---|---|
| Ledger.PreimageInjective | internal/orchestration/orchestrator.go:99-106 | different namespaces or intent ids never share the text a transfer id is derived from |
| Ledger.InsertKeepsBooks | internal/ledger/ledger.go:63-106 | every accepted transfer keeps the ledger's rules: a post or void resolves an existing unresolved reservation of the same key |
| Ledger.PostExcludesVoid | internal/ledger/ledger.go:82-106 | one reservation never has both a post and a void |
| Ledger.ReplayRecognition | internal/ledger/ledger.go:125-171 | comparing a stored transfer with the one sent recognises replays of reservations exactly, and never those of posts and voids |
| Ledger.InsertKeepsBalance | internal/ledger/ledger.go:125-152 | an accepted transfer keeps every account balance equal to the transfers that moved money, so debits equal credits |
| TwoPhaseSafety.StepKeepsInv | internal/orchestration/orchestrator.go:42-221 | each call of any process, crash, lost reply or expiry keeps the agreement between rows, ledger and what processes believe |
| TwoPhaseSafety.InvAlways | internal/orchestration/orchestrator.go:42-221 | the agreement holds at every moment of every run |
| TwoPhaseSafety.SwapKeepsDb | internal/intent/store.go:163-191 | a compare-and-swap with its outbox row keeps the stored state consistent with the ledger |
| TwoPhaseSafety.CreateTookEffect | internal/ledger/ledger.go:125-171 | when creating a transfer is answered as success, the ledger holds exactly that transfer |
| TwoPhaseTheorems.RowMatchesLedger | internal/orchestration/orchestrator.go:114-178 | in every run a POSTED intent has its post of its amount and accounts, a VOIDED one has no post and locks no funds, a RESERVED one has its reservation, earlier and AMBIGUOUS ones have moved nothing |
| TwoPhaseTheorems.TerminalForever | internal/intent/model.go:169-188 | POSTED and VOIDED rows never change again, and a posted intent never gets a void nor a voided one a post |
| TwoPhaseTheorems.AmbiguousMovesNothing | internal/orchestration/resolver.go:52-91 | when a failed create takes effect at once or never, an intent once AMBIGUOUS never has a reservation, post or void in the ledger |
| TwoPhaseTheorems.CompensationNeverSent | internal/orchestration/resolver.go:63-90 | under the same condition no run of the officer resolver ever creates a transfer |
| TwoPhaseTheorems.SuccessIsTrue | internal/orchestration/orchestrator.go:42-178 | a reserve, post or void call that reports success reports the truth: the intent's own reservation is in the ledger for ever, or row and ledger show the post or the void |
| TwoPhaseTheorems.OutboxIsHistory | internal/intent/store.go:163-201 | the outbox of an intent is exactly its version history, only grows, and its request never changes |
| TwoPhaseTheorems.ReadThenSwap | internal/intent/store.go:163-191 | reading, checking and then updating under state and version is the same as one guarded step, even from a stale read |
| TwoPhaseTheorems.ExpiredNeverCloses | internal/orchestration/orchestrator.go:191-221 | an intent whose reservation expired stays in RESERVATION_REQUESTED, RESERVED or RECONCILIATION_REQUIRED for ever |
| TwoPhaseTheorems.StrandedForever | internal/orchestration/orchestrator.go:42-78 | an intent in RESERVATION_REQUESTED that no process holds stays there whatever anyone does |
| TwoPhaseTheorems.MoneyConserved | internal/ledger/ledger.go:63-171 | at every point of every run posted debits equal posted credits equal the amounts of the intents whose post is in the ledger plus the disbursement legs present; every POSTED intent is among them and each moved its own amount between its own accounts |
| TwoPhaseTheorems.SettledMoney | internal/orchestration/orchestrator.go:114-178 | once no intent is between request and closure, the intents whose money moved are exactly the POSTED ones |
| TwoPhasePayouts.DisbursedOnce | internal/ledger/fx.go:52-137 | two disbursement calls of one application that both succeed have the same amounts, accounts, ledgers and codes, and the ledger holds both legs once |
| TwoPhasePayouts.PaidIsPaid | internal/ledger/fx.go:75-92 | when a disbursement succeeds, the ledger holds the fee from the NGN debit to the NGN credit account and the cost from the USD debit to the USD credit account, each with its amount, ledger and code |
| TwoPhasePayouts.LegIsChecked | internal/ledger/fx.go:52-137 | every disbursement leg in the ledger was sent by a call whose input passed every check, and is that call's own leg; refused input enters nothing |
| TwoPhasePayouts.PayoutAnswers | internal/ledger/fx.go:114-137 | an undisturbed disbursement succeeds exactly when its input passes the checks and each leg already in the ledger is its own; each free leg is entered even when the other one conflicts |
| TwoPhaseReads.AnswersWhatItRead | internal/orchestration/orchestrator.go:42-221 | in every run a call answers by the row it read: work already done is answered with that row, a state the call is not for is refused, later success reports the state the call is for |
| TwoPhaseApprovals.ApprovedByAnother | internal/intent/model.go:108-166 | in every run an intent past DRAFT was approved by somebody other than its maker, whose name it keeps, or was voided as a DRAFT by its maker and nothing else ever happened to it |
| TwoPhaseApprovals.OutboxNamesChanges | internal/intent/store.go:123-289 | every outbox row is named after the change it records: creation, approval, maker's void, officer's resolution or change of state |
| TwoPhaseApprovals.RequestsAlways | internal/intent/store.go:47-91 | in every run no two intents share an external reference, and each moves a positive amount between two accounts in NGN or USD |
| TwoPhaseTheorems.TransfersImmutable | internal/ledger/ledger.go:108-171 | a transfer in the ledger is never changed or removed |
| TwoPhaseProgress.PostAlone | internal/orchestration/orchestrator.go:114-145 | an undisturbed post of an unexpired reservation without a void ends POSTED with its transfer |
| TwoPhaseProgress.VoidAlone | internal/orchestration/orchestrator.go:147-178 | an undisturbed void of an unexpired reservation without a post ends VOIDED with its transfer |
| TwoPhaseProgress.ReconcileAlone | internal/orchestration/orchestrator.go:191-221 | an undisturbed reconciliation records the state the ledger's transfers show |
| TwoPhaseProgress.ResolveAlone | internal/orchestration/resolver.go:52-91 | an undisturbed CLOSE by an officer ends VOIDED and moves no money |
| TwoPhaseProgress.ClosesInTwoCalls | internal/orchestration/orchestrator.go:114-221 | any outstanding, unexpired intent reaches POSTED or VOIDED, as the ledger shows, in at most two suitable calls |
| TwoPhaseProgress.RunCall | internal/orchestration/orchestrator.go:42-221 | what a call does alone is what it does at the end of any run in which nobody else moves |
| TwoPhaseAnswers.NobodyThere | internal/orchestration/orchestrator.go:42-46 | a call about an unknown intent fails as not found and changes nothing |
| TwoPhaseAnswers.DoneBefore | internal/orchestration/orchestrator.go:47-52 | for every state a call is not for: it answers with the row when its work is done, refuses otherwise, and changes nothing |
| TwoPhaseAnswers.ReserveAnswers | internal/orchestration/orchestrator.go:53-86 | from APPROVED, for every ledger: an unreadable account, equal accounts or no amount park the intent; an existing reservation is taken over; else exactly the intent's own reservation is entered and the answer is RESERVED |
| TwoPhaseAnswers.PostAnswers | internal/orchestration/orchestrator.go:114-145 | from RESERVED, for every ledger: POSTED with the reservation's own accounts and amount moved, or parked with the ledger untouched when it is voided, closed or missing |
| TwoPhaseAnswers.VoidAnswers | internal/orchestration/orchestrator.go:147-178 | the same for a void, which moves no balance |
| TwoPhaseAnswers.ReconcileAnswers | internal/orchestration/orchestrator.go:191-221 | for every combination of reservation, post and void in the ledger, the state that is recorded |
| TwoPhaseAnswers.ReopenAnswers | internal/orchestration/resolver.go:60-62 | RECONCILE is recorded at the expected version by an officer with a canonical name, and asks the ledger nothing |
| TwoPhaseAnswers.CloseAnswers | internal/orchestration/resolver.go:63-91 | VOID is refused when a post exists; an outstanding reservation is voided first, even when the disposition then fails for its version or officer; one that cannot be voided any more fails the call |
| TwoPhaseClosing.ClosableExactly | internal/orchestration/orchestrator.go:42-221 | when failed creates take effect at once or never, an intent of any state can still be closed exactly when it is closed, or its reservation has not expired and, while requested, the call that requested it is still there |
| TwoPhaseClosing.HolderAlone | internal/orchestration/orchestrator.go:42-86 | the requesting call, left alone at any of its later points, brings the intent to RESERVED or RECONCILIATION_REQUIRED |
| TwoPhaseClosing.LostReplyStrands | internal/orchestration/orchestrator.go:53-56 | for any valid request a run without a crash, in which only the reply of the request is lost, strands the intent |
| TwoPhaseClosing.CrashStrands | internal/orchestration/orchestrator.go:42-78 | for any valid request a run in which every reply arrives and the requester crashes strands it |
| TwoPhaseClosing.ExpiryHappens | internal/orchestration/orchestrator.go:191-221 | any intent whose accounts parse can be RESERVED, lapse, and then never close |
| TwoPhaseLate.LateStepKeepsInv | internal/ledger/ledger.go:125-171 | when failed creates may still land at any later moment, every step keeps the agreement that remains |
| TwoPhaseLate.LateRowMatchesLedger | internal/orchestration/orchestrator.go:114-178 | in every such run a POSTED intent has its own post and no void, a VOIDED or AMBIGUOUS one no post, a RESERVED one its reservation, an unrequested one nothing |
| TwoPhaseLate.LateTerminalForever | internal/intent/model.go:169-188 | POSTED and VOIDED stay for ever and no late request brings the opposite transfer |
| TwoPhaseLate.LateMoneyConserved | internal/ledger/ledger.go:63-171 | conservation does not depend on when requests land |
| TwoPhaseLate.LateSuccessIsTrue | internal/orchestration/orchestrator.go:42-178 | with late requests a reserve, post or void that reports success is still what row and ledger show |
| TwoPhaseCompensation.NothingLanded | internal/ledger/ledger.go:125-152 | every run of TwoPhase is a run with late requests of which none landed |
| TwoPhaseCompensation.Compensates | internal/orchestration/resolver.go:63-90 | an officer closing an AMBIGUOUS intent whose reservation is open voids it before recording VOIDED |
| TwoPhaseCompensation.CompensationHappens | internal/orchestration/resolver.go:80-86 | a run in which a late reservation makes the compensating void necessary, and it closes the reservation |
| TwoPhaseCompensation.ReservationOutlivesClose | internal/orchestration/resolver.go:63-90 | a run in which the reservation lands after the officer closed the intent: VOIDED with an open reservation; TwoPhaseOrphans.VoidedLocksExactly says for which runs that can happen |
| TwoPhaseHolders.HoldersAlways | internal/orchestration/orchestrator.go:42-78 | in every run with late requests at most one call may still answer for an intent, and it has read the row as it is |
| TwoPhaseOrphans.VoidedLocksExactly | internal/orchestration/resolver.go:63-90 | after any run with late requests, funds of a VOIDED intent can ever be locked exactly when its reservation is open now, or is not in the ledger but still in flight |
| TwoPhaseDoomed.DoomedForever | internal/orchestration/resolver.go:63-90 | an intent that the condition rules out is not closed in any continuation, late requests included |
| TwoPhaseLateClosing.LateClosableExactly | internal/orchestration/orchestrator.go:42-221 | with late requests, an intent can be closed exactly when it is closed, or its reservation has not expired and its requester is there while requested, or it has expired and an officer's CLOSE that missed it can still settle the intent at its version |
| TwoPhaseLateClosing.LastChanceHappens | internal/orchestration/resolver.go:63-90 | a run in which only such a CLOSE can still close the intent |
| Orchestration.Orchestrator.ReserveApproved | internal/orchestration/orchestrator.go:42-78 | under any interference the answer is decided by the row the call read, and success means the intent's own reservation is in the ledger |
| Orchestration.Orchestrator.PostReserved | internal/orchestration/orchestrator.go:114-145 | the same; success means POSTED in the store and posted in the ledger |
| Orchestration.Orchestrator.VoidReserved | internal/orchestration/orchestrator.go:147-178 | the same; success means VOIDED in the store and no post in the ledger |
| Orchestration.Orchestrator.ReconcileObserved | internal/orchestration/orchestrator.go:191-221 | the method is the reconcile program: three lookups, then the state they show |
| Orchestration.Resolver.ResolveAmbiguous | internal/orchestration/resolver.go:52-91 | the method is the officer's program: lookups, the compensating void where one is outstanding, then the guarded record |
| Orchestration.Backend.CreateTransfer | internal/ledger/ledger.go:125-171 | "exists" is success only when the stored transfer has the same content |
| Orchestration.Backend.Reconcile | internal/orchestration/orchestrator.go:80-86 | a failed call parks the intent by one guarded update, and the caller sees the error either way |
| Recon.PlanRecon | internal/revenue/recon.go:98-315 | the planner's loops over its maps and flags produce exactly the plan that ReconDispositions states over the input records |
| Recon.MatchSettlements | internal/revenue/recon.go:146-250 | after any number of settlements the matches, exceptions and flags are those the specification gives them |
| Recon.Classify | internal/revenue/recon.go:147-237 | the branches over the indexes give a settlement the disposition that ReconDispositions states over the input records |
| Recon.LineKeyInjective | internal/revenue/recon.go:248-256 | the textual line key names one statement line |
| Recon.FlagLines | internal/revenue/recon.go:253-269 | exactly the lines neither matched nor remitted under are raised |
| Recon.FlagNotes | internal/revenue/recon.go:271-299 | exactly the unmatched notes past due that no settlement concerns are raised |
| ReconTheorems.FrozenExactly | internal/revenue/recon.go:147-163 | a settlement is frozen exactly when another one shares its bank reference |
| ReconTheorems.MatchedExactly | internal/revenue/recon.go:164-250 | a settlement matches a note and line exactly when it is alone under its reference, names the note, all three amounts and the currency agree and the line is the first under the reference |
| ReconTheorems.MatchHasThreeLegs | internal/revenue/recon.go:238-249 | every planned match names an existing settlement, note and line that agree on amount and currency |
| ReconTheorems.MatchesInjective | internal/revenue/recon.go:238-249 | no settlement and no statement line is in two matches |
| ReconTheorems.OneNoteTwice | internal/revenue/recon.go:238-249 | two settlements of one note under different references both match it |
| ReconTheorems.SettlementMoneyConserved | internal/revenue/recon.go:146-250 | every unit of settlement money is in one match, intake match, exception or pending settlement |
| ReconDispositions.NoteDispositions | internal/revenue/recon.go:164-237 | a settlement that alone carries its reference and names an open note mismatches the note, waits, mismatches the first line under its reference or matches it, each exactly on the amounts and currencies of the records |
| ReconDispositions.IntakeDispositions | internal/revenue/recon.go:168-206 | one that names no note is matched to, or mismatches, the first mapped assessment answering its reference exactly by total and currency, and is unidentified exactly when it names an unknown note or no assessment answers |
| ReconDispositions.MatchesAre | internal/revenue/recon.go:238-249 | a match is planned exactly for a settlement alone under its reference, the note it names and pays in full, and the first line under that reference for the same money |
| ReconDispositions.IntakeMatchesAre | internal/revenue/recon.go:173-179 | an assessment is linked exactly to such a settlement of the same total and currency |
| ReconDispositions.RaisedExactly | internal/revenue/recon.go:147-313 | exactly which exceptions a plan raises, with class, subject, expected and actual amount, over settlements, lines, notes and assessments |
| ReconKeys.DedupeKeyInjective | internal/revenue/recon.go:154-311 | a dedupe key names its exception class and subject |
| ReconKeys.DedupeKeysDistinct | internal/revenue/recon_store.go:30-37 | no two exceptions of one plan share a dedupe key |
| ReconRuns.FrozenGroupsSurvive | internal/revenue/recon_store.go:189-268 | a run never removes only some of the settlements sharing a reference |
| ReconRuns.FirstLineUnchanged | internal/revenue/recon.go:108-115 | for a settlement left unmatched, the first line under its reference stays the first |
| ReconRuns.RerunMatchesNothing | internal/revenue/recon.go:98-250 | planning again on what a run leaves gives no match |
| ReconRuns.SecondBatchExactly | internal/revenue/recon.go:108-250 | after a first batch of lines, the second matches exactly what one batch would have on its lines, except on notes already settled |
| ReconRuns.BatchingDoesNotMatter | internal/revenue/recon.go:108-250 | when no two settlements identify one note, two batches match together what one would |
| ReconRuns.SharedNoteLosesSecondBatch | internal/revenue/recon.go:108-250 | two batches of one concrete input, all hypotheses but the unshared note met, plan one match less than one batch |
| ReconStore.CommitsExactly | internal/revenue/recon_store.go:89-126 | a run commits exactly when no two settlements of its plan match one note, and then records the whole plan |
| ReconStore.FailsAtEveryDate | internal/revenue/recon_store.go:100-126 | whether a run commits does not depend on its date, so a failed run repeats until somebody changes the tables |
| ReconStore.StuckOnSharedNote | db/migrations/0009_revenue_assurance.sql:211-224 | tables within every key and index from which no run at any date commits |
| ReconStore.LoadIsWellKeyed | internal/revenue/recon_store.go:189-293 | the tables' keys make every load satisfy what the plan theorems ask |
| ReconStore.NextRunMatchesNothing | internal/revenue/recon_store.go:89-293 | the run after a committed run, at any date, plans no match |
| ReconStore.PersistKeepsStore | internal/revenue/recon_store.go:109-160 | every committed transaction, of a fresh or a stale plan, keeps all keys and unique indexes and only adds |
| ReconStore.RunQueuesPlan | internal/revenue/recon_store.go:30-76 | after a committed run the OPEN keys are those before and those of the plan, once each; a plan none of whose keys was OPEN is queued whole |
| ReconStore.RequeueAddsNothing | internal/revenue/recon_store.go:30-37 | raising what is already OPEN adds nothing |
| ReconStore.Store.RunRecon | internal/revenue/recon_store.go:89-186 | an undisturbed batch changes every table as specified, or nothing when the transaction fails |
| ReconStore.Store.Commit | internal/revenue/recon_store.go:109-186 | the transaction of a batch, whatever the tables became since its plan was made, persists that plan or changes nothing |
| ReconCommits.LoadsExactly | internal/revenue/recon_store.go:189-293 | which notes, settlements, lines and assessments a run looks at, row by row |
| ReconCommits.CommitLeaves | internal/revenue/recon_store.go:107-160 | what a committed run leaves in every table: the plan's matches added, exactly the matched notes closed, each free assessment linked to its first settlement, exceptions queued unless their key was OPEN |
| ReconStore.SecondCommitAddsNothing | internal/revenue/recon_store.go:109-186 | of two runs that loaded the same tables the second to commit changes nothing |
| ReconStore.SettleNotes | internal/revenue/recon_store.go:127-149 | settling the planned notes does not depend on the order the map is visited |
| StatementIngest.IngestLines | internal/revenue/statement_store.go:256-299 | the dedupe loop inserts, skips or reports each line as specified |
| StatementIngest.EveryLineIsAccounted | internal/revenue/statement_store.go:256-299 | stored lines never change, references stay unique per bank, and inserted, skipped and conflicting lines add up to the statement |
| StatementIngest.FirstWins | internal/revenue/statement_store.go:258-284 | what a reference is stored with is decided by the first line that carried it |
| StatementIngest.ConflictExactly | internal/revenue/statement_store.go:264-281 | a line is a conflict exactly when its reference is stored with another amount or currency, and the conflict shows both amounts |
| StatementIngest.StoredExactly | internal/revenue/statement_store.go:256-299 | the new rows are exactly the lines whose reference was stored neither before nor by an earlier line, each under its own number |
| StatementIngest.IngestTwice | internal/revenue/statement_store.go:258-284 | delivering the same lines again under any statement stores nothing |
| StatementIngest.OneBankHasDistinctReferences | db/migrations/0009_revenue_assurance.sql:188 | credit lines of one bank satisfy the hypothesis under which batches are independent |
| Utf8.DecodeEncoded | internal/envelope/envelope.go:212-239 | every Unicode scalar decodes back from its UTF-8 bytes, whatever follows |
| Utf8.ByteOrderIsCodePointOrder | internal/envelope/envelope.go:170-175 | sorting keys by their bytes is sorting them by code points |
| Utf8.ByteOrderIsUtf16OrderExactly | internal/envelope/envelope.go:170-175 | it is the UTF-16 order of RFC 8785 exactly when the first difference does not set U+E000..U+FFFF against a supplementary code point |
| JcsKeys.PrintedKeysAscend | internal/envelope/envelope.go:169-190 | the keys read back from the bytes of a printed object are its keys in ascending order of their UTF-8 bytes |
| JcsKeys.OutboxKeysAscend | internal/outbox/jcs.go:78-98 | the outbox's printer writes the members in that order too |
| JcsKeys.PrintedInUtf16OrderExactly | internal/envelope/envelope.go:170-175 | keys in that order are in the UTF-16 order of RFC 8785 exactly when no two of them first differ at U+E000..U+FFFF against a supplementary code point |
| JcsShortest.ShortestText | internal/envelope/envelope.go:133-239 | no JSON text of a value with integer literals and without U+FFFD is shorter than its canonical text: no white space and no avoidable or long escape is ever printed |
| Json.DecodedIsDecodable | internal/envelope/envelope.go:124-130 | whatever the bytes, a decoded value has proper number literals and respects the nesting limit |
| JcsRoundTrip.StringBack | internal/envelope/envelope.go:212-239 | an escaped string decodes back, whatever follows |
| JcsRoundTrip.NumberAgain | internal/envelope/envelope.go:193-209 | a printed number is a JSON number and prints as itself |
| JcsRoundTrip.PrintedBack | internal/envelope/envelope.go:133-239 | decoding a printed value gives it back with every number as printed, leaving what follows |
| JcsTheorems.PrintingAgain | internal/envelope/envelope.go:413-423 | printing the decoded value gives the same bytes |
| JcsTheorems.RoundTrip | internal/envelope/envelope.go:133-239 | values of null, booleans, integer literals, strings, arrays and objects decode back to themselves |
| JcsTheorems.DecodesExactly | internal/envelope/envelope.go:413-423 | printed bytes decode exactly when the value nests within the decoder's limit |
| JcsTheorems.PrintingInjective | internal/envelope/envelope.go:133-239 | values print the same exactly when they have the same normal form |
| JcsTheorems.SealedIsAccepted | internal/envelope/envelope.go:413-423 | every payload that was canonicalized passes the canonicality check |
| JcsTheorems.AcceptsExactly | internal/envelope/envelope.go:413-423 | the check accepts exactly the printed forms of decodable values, without trailing bytes |
| JcsWriter.WriteValue | internal/envelope/envelope.go:133-191 | the recursive writer appends exactly the specified bytes, or fails exactly on an unsafe number |
| JcsWriter.WriteString | internal/envelope/envelope.go:212-239 | the rune loop appends the quoted string |
| JcsWriter.Print | internal/envelope/envelope.go:109-115 | the printer returns the canonical bytes, or nothing exactly on an unsafe number |
| EcmaNumber.DenotesItsDigits | internal/outbox/jcs.go:167-205 | each of the four layouts is a JSON number denoting the same rational as the digits and exponent |
| EcmaForm.FormExactly | internal/outbox/jcs.go:172-205 | over the bytes: an exponent exactly when the point is not from -5 to 21, how many digits stand before and after the decimal point, and which exponent is written |
| EcmaForm.MarkedExactly | internal/outbox/jcs.go:186-205 | an 'e' occurs in the text exactly then |
| EcmaForm.IntegerSafeExactly | internal/envelope/envelope.go:193-209 | an integer literal is printed, as itself, exactly when its value fits a signed 64-bit integer |
| EcmaNumber.ZeroDenotesZero | internal/outbox/jcs.go:167-171 | zero of either sign prints as zero |
| OutboxJcs.WriteCanonicalString | internal/outbox/jcs.go:105-135 | the byte loop appends the escaped bytes in quotes |
| OutboxJcs.ByteWiseIsRuneWise | internal/outbox/jcs.go:105-135 | escaping byte by byte equals escaping character by character |
| OutboxJcs.LiteralIsItsValue | internal/outbox/jcs.go:144-156 | an integer literal is how its value is formatted, except "-0" |
| OutboxJcs.PrintersAgreeExactly | internal/outbox/jcs.go:47-156 | on integers up to 2^53 both printers give the same bytes exactly when no number is written "-0" |
| OutboxWriter.WriteValue | internal/outbox/jcs.go:47-100 | the recursive writer appends exactly the text the agreement is about, or fails exactly on an unprintable number |
| OutboxWriter.Canonicalize | internal/outbox/jcs.go:39-45 | the canonical bytes or nothing |
| SettlementSync.StepKeepsInv | internal/settlementsync/sync.go:156-217 | every step of any syncer keeps: the cursors' transfers and only they are mirrored, once, and batches have no holes |
| SettlementSync.MirroredExactlyOnce | internal/settlementsync/sync.go:156-247 | in every run a posted transfer has one row if the cursor passed it and none otherwise |
| SettlementSync.OnlyMoneyIsMirrored | internal/settlementsync/sync.go:225-247 | no reservation, void or unmappable amount is mirrored, and rows carry the transfer's own amount |
| SettlementSync.CursorStopsAtUnmappable | internal/settlementsync/sync.go:184-188 | the cursor never passes a transfer that failed to map |
| SettlementSync.RunGrows | internal/revenue/statement_store.go:416-456 | cursors never move back and rows are never changed |
| SettlementSync.NoRowBeforePassed | internal/revenue/statement_store.go:380-437 | row and cursor are written together: a mirrored transfer is one the cursor passed |
| SyncLedger.Mirror.RecordTBSettlement | internal/revenue/statement_store.go:380-437 | the row is inserted unless its transfer is mirrored, and the cursor advances either way |
| SyncLedger.Mirror.SyncLedger | internal/settlementsync/sync.go:156-210 | the batch loop processes the batch up to its first unmappable transfer and counts the new rows |
| SyncLedger.Mirror.SyncOnce | internal/settlementsync/sync.go:139-154 | the ledgers are synced in ascending order up to the first that fails; new rows are the reported count plus what the failing ledger gained, so on success the count is exact |
| SyncLedger.SyncOkExactly | internal/settlementsync/sync.go:139-154 | a sync succeeds exactly when every ledger's next batch maps |
| SyncLedger.SyncReachesExactly | internal/settlementsync/sync.go:139-210 | each ledger before the failing one worked off its batch, that one the part before its unmappable transfer, no other cursor moved |
| SyncLedger.CountAccounts | internal/settlementsync/sync.go:139-154 | every new row is counted or was gained by the failing ledger |
| SyncCount.CountRightExactly | internal/settlementsync/sync.go:139-210 | in any store the count is the number of new rows exactly when no ledger fails, or the failing one has no money transfer without a row before its first unmappable one |
| SyncCount.SyncOnceMiscounts | internal/settlementsync/sync.go:139-210 | at any point of any run of syncers the count is wrong exactly when the first failing ledger has a money transfer before its first unmappable one |
| SyncCount.PartwayMiscounts | internal/settlementsync/sync.go:139-210 | a mappable transfer followed by one of amount zero: one row, none reported |
| SyncLedger.SyncTakesFullBatch | internal/settlementsync/sync.go:156-210 | an undisturbed sync works off a full batch or the whole backlog |
| Split.RoundsHalfUp | internal/revenue/split.go:73-78 | the nested floors are exact half-up division |
| Split.ComputeSplit | internal/revenue/split.go:18-69 | the loops in int64 arithmetic compute the specified split |
| Split.OrderDoesNotMatter | internal/revenue/split.go:36-41 | any order of the rule rows and any sort, stable or not, give the same split |
| SplitTheorems.SumsAreNear | internal/revenue/split.go:42-60 | no int64 step overflows up to 461168601842738, and sums stay within half a unit per leg |
| SplitTheorems.SplitIs | internal/revenue/split.go:49-69 | the first leg takes what the rounded others leave; rejected exactly when they exceed the amount |
| SplitTheorems.SplitIsExact | internal/revenue/split.go:49-69 | legs sum to the amount, each but the first within half a unit, the first within half a unit per other leg |
| SplitTheorems.ThreeLegsNeverRejected | internal/revenue/split.go:61-68 | up to three legs are never rejected |
| SplitTheorems.FourLegsRejected | internal/revenue/split.go:61-68 | two units over four equal legs are |
| SplitTheorems.NegativeRejected | internal/revenue/split.go:61-78 | a negative amount always is |
| SplitRules.SplitOfRules | internal/revenue/split.go:18-69 | a split goes to exactly the rules in force at the date, largest share first and equal shares by name, the residual to a leg no other exceeds; there is none unless the rules in force share out 10000 basis points |
| Fx.ConvertsOnlyUnderDualControl | internal/fx/fx.go:60-70 | which rates can be entered; a rate converts only after somebody other than its maker confirmed it, once |
| Fx.UsdToNgnIsNearest | internal/fx/fx.go:75-93 | a conversion gives an amount exactly when the rate is confirmed and the amount, not zero and within 64 bits, is the exact product rounded half up |
| Fx.NgnToUsdIsNearest | internal/fx/fx.go:95-115 | the same for the exact quotient |
| Fx.UsdRoundTrip | internal/fx/fx.go:75-115 | USD to NGN to USD is the identity at one naira per dollar or more |
| Fx.UsdRoundTripExactly | internal/fx/fx.go:75-115 | at a usable rate every convertible amount comes back exactly when the rate is at least one naira per dollar |
| Fx.NeighboursAgree | internal/fx/fx.go:75-93 | below that, two neighbouring amounts of at most 1_000_000 convert to the same naira |
| Fx.NgnRoundTrip | internal/fx/fx.go:75-115 | NGN to USD to NGN is off by at most half the rate plus half a kobo |
| Fx.Monotone | internal/fx/fx.go:75-115 | both conversions are monotone |
| Sorting.SortedUnique | internal/reconciliation/reconciliation.go:116-121 | sorted arrangements of the same elements are equal when elements that tie are |
| Reconciliation.IndexIntents | internal/reconciliation/reconciliation.go:61-70 | the index is built exactly for valid intents with distinct references |
| Reconciliation.IndexStatements | internal/reconciliation/reconciliation.go:71-85 | the first statement under a reference is kept, later ones are duplicates, malformed ones reject |
| Reconciliation.Reconcile | internal/reconciliation/reconciliation.go:57-145 | the report is the specified one for whatever iteration orders the maps have |
| ReconciliationTheorems.ReportIsDeterministic | internal/reconciliation/reconciliation.go:86-121 | it does not depend on map iteration or sort stability |
| ReconciliationTheorems.CountFollows | internal/reconciliation/reconciliation.go:122-145 | without findings every intent is counted as matched |
| ReconciliationTheorems.OkExactly | internal/reconciliation/reconciliation.go:57-145 | the verdict is OK exactly when statements and intents agree one to one |
| ReconciliationFindings.AcceptsExactly | internal/reconciliation/reconciliation.go:57-85 | for exactly which inputs a report is made |
| ReconciliationFindings.FindingsExactly | internal/reconciliation/reconciliation.go:71-115 | exactly which findings a report has, with their details, over the intents and statements |
| ReconciliationFindings.FindingsAscend | internal/reconciliation/reconciliation.go:116-121 | findings ascend by reference, then by the text of their kind |
| ReconciliationFindings.MatchedCounts | internal/reconciliation/reconciliation.go:122-135 | the matched count is the number of intents whose first statement has their status, amount and currency |
| MojaloopOutbound.OutboundStore.RecordQuote | internal/mojaloop/outbound_store.go:31-63 | exactly which requests are recorded, as they came, and which are duplicates; no other quote and no transfer is touched, and the tables stay consistent |
| MojaloopOutbound.OutboundStore.ReceiveQuote | internal/mojaloop/outbound_store.go:98-139 | exactly which responses are recorded: the first, complete, well-formed one for the requested amount and currency; answered quotes and all other rows stand, and the tables stay consistent |
| MojaloopOutbound.OutboundStore.Prepare | internal/mojaloop/outbound_store.go:146-181 | exactly which transfers are recorded, new and PREPARED; existing ones stand, and one carrying its quote's response keeps the tables consistent |
| MojaloopOutbound.OutboundStore.Finalize | internal/mojaloop/outbound_store.go:204-246 | exactly which callbacks end a transfer: PREPARED, of the same identity, ABORTED or COMMITTED with a fulfilment of its condition; all else stands and the tables stay consistent |
| MojaloopOutbound.CommittedIsFulfilled | internal/mojaloop/outbound.go:86-132 | in every run a COMMITTED transfer's fulfilment hashes to the condition on its quote, for the requested amount and currency |
| MojaloopOutbound.OneTransferPerQuote | internal/mojaloop/http.go:118-183 | each quote yields at most one transfer |
| MojaloopOutbound.HistoryStands | internal/mojaloop/outbound_store.go:98-246 | requests and responses never change, transfers only from PREPARED to one terminal state |
| MojaloopOutbound.TerminalForever | internal/mojaloop/outbound_store.go:223-233 | a terminal transfer never changes |
| MojaloopLater.LaterResponses | internal/mojaloop/outbound_store.go:114-124 | at any later point of a run a response to an answered quote is a duplicate exactly when its body is the recorded one, a conflict otherwise |
| MojaloopLater.LaterConclusions | internal/mojaloop/outbound_store.go:223-233 | the same for callbacks about a terminal transfer |
| MojaloopLater.StrandedForever | internal/mojaloop/http.go:118-127 | in no continuation does a quote whose handler died before initiating get a transfer |
| MojaloopLater.TransferPossibleExactly | internal/mojaloop/http.go:118-183 | with participants configured, an answered quote can have a transfer exactly when it has one or its handler is still about to initiate it |
| MojaloopLater.CrashStrands | internal/mojaloop/http.go:118-127 | any valid quote and response can end that way |
| MojaloopInbound.HistoriesAreLegal | internal/mojaloop/store.go:28-140 | a transfer's history is nothing, RESERVED, or RESERVED then one terminal state, with at most one timeout audit row |
| MojaloopInbound.HistoryStands | internal/mojaloop/store.go:78-140 | identities never change and terminal rows stay |
| MojaloopInbound.StepStands | internal/mojaloop/store.go:28-76 | a sweep changes no state and marks are kept |
| MojaloopInbound.MarkMarks | internal/mojaloop/store.go:55-71 | a sweep marks exactly the selected transfers, one audit row each |
| MojaloopInbound.SweepMarksExactly | internal/mojaloop/store.go:28-76 | a sweep marks only unmarked RESERVED transfers not updated since the cutoff, at most 500, and with fewer than 500 leaves none unmarked |
| MojaloopInbound.DeliveryRecordsExactly | internal/mojaloop/store.go:78-140 | exactly which callbacks are recorded |
| MojaloopInbound.RecordedBodyChangesNothing | internal/mojaloop/store.go:117-122 | a recorded body delivered again at any later point of a run changes nothing, and is a duplicate while nothing else was recorded for its transfer |
| MojaloopInbound.RunKeepsBody | internal/mojaloop/store.go:28-76 | while nothing is recorded for a transfer only its timeout mark can change |
| Cvff.ValidateRoleAssignments | internal/cvff/application.go:142-160 | accepts exactly the assignments that cover every role and give no principal two |
| Cvff.DecidesExactly | internal/cvff/application.go:234-281 | in each deciding state exactly the holder of its role decides, approval leads to the next stage and rejection to REJECTED; in every other state nobody decides |
| Cvff.SLADeadline | internal/cvff/application.go:382-395 | the first day by which the tier's business days have passed; seven days on for the primary tier on a weekday, the coming Friday on a weekend |
| CvffRuns.DisbursedIsApprovedByAll | internal/cvff/application.go:234-340 | when resumes return to the parked state, DISBURSED and AUDITED applications were approved by six different principals in chain order |
| CvffRuns.TerminalForever | internal/cvff/store.go:172-240 | REJECTED and AUDITED are never left |
| CvffRuns.RolesForever | internal/cvff/store.go:271-348 | role holders are never replaced |
| CvffRuns.DefaultResumeSkipsTheChain | internal/cvff/application.go:304-306 | a run with the default resume target that is disbursed after a single approval; CvffResumes.ResumeSafeExactly gives the exact condition |
| CvffResumes.ResumeSafeExactly | internal/cvff/application.go:308-340 | after any run, a resume keeps every later disbursement fully approved exactly when the stage of its target is covered by the approvals collected |
| CvffResumes.CoveredIsApproved | internal/cvff/application.go:308-340 | when every resume is covered in that sense, DISBURSED and AUDITED applications have the whole chain |
| CvffResumes.ApprovedExactly | internal/cvff/application.go:234-281 | the chain is in the audit trail exactly when the in-order count of approvals is full |
| CvffRuns.StepKeepsInv | internal/cvff/store.go:139-240 | each read, guarded write or conflict keeps the approvals collected at least at the state's stage |

## Left out

- HTTP handlers, signatures, configuration, telemetry, Kafka and the idempotency tables: wrappers around the modelled calls.
- RSA, Ed25519, SHA-256, base64url and float parsing: given functions.
- TwoPhaseClosing.ClosableExactly: takes a failed ledger call to have its effect at once or never; TwoPhaseLateClosing.LateClosableExactly does without.
- TwoPhaseProgress.ClosesInTwoCalls: the number of calls is stated for failed ledger calls that have their effect at once or never.
- The hexadecimal reading of account ids is a given function.
- Text of exception and finding details, timestamps of rows, and the run and transition audit tables: copied, never read back.
- ReconStore.Store.RunRecon: the load and the commit of one call are taken together; what lies between them in the code is covered by Commit of an arbitrary plan and PersistKeepsStore.
- JcsTheorems.RoundTrip: strings are sequences of Unicode scalars; a Go string that is not valid UTF-8 is not modelled as printer input (the decoder never yields one).
- Manual settlements that carry a ledger transfer id, which could occupy an id before the mirror does.
- CvffRuns.StepKeepsInv: the CVFF and inbound callback stores are modelled as state machines on values rather than as classes, because their properties are about interleaved calls.
- StatementIngest.IngestLines: envelope verification, replay by content hash and a unique violation raised by a concurrent ingest are not modelled.
- Tariff computation, the debit-note lifecycle, general-ledger export and risk scoring: formulas and field copies of one record; outbox draining: a delivery loop around Kafka.
