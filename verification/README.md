# door-sync, modelled and proved

door-sync copies door access from a CiviCRM membership database to a UniFi Access controller. One
cycle fetches both sides, maps membership types to an access policy, computes the difference, checks
it against safety guards and applies it request by request. This project models that cycle and the
daemon around it, and proves what the system is trusted for.

## How the model is built

The controller (`Controller`) holds users, card bindings, the card list and two counters; `Exec` says
what each request does and how it is refused. A request can be answered, refused with any code, carried
out and then reported as failed, or, when answers are lost, sent again and carried out several times; a run
is driven by an arbitrary choice for each request.

The UniFi client exists twice. `Protocol` gives each step as a function from session to session, where
a session is the controller, everything sent so far, the five caches and the failure list.
`UnifiClient` is the object itself, with its caches as fields and its loops as loops; every method is
proved to do exactly what the protocol function says. All theorems about runs are proved of the
protocol functions: `ForceBind` and `CardProtocol` (what every request respects), `Frame`, `Requests`,
`Isolation` and `Reports` (what one contact's entry does to others, and what is reported), `Nameless` (the
failure that is not confined to its contact), `Soundness` and `Doubles` (what a run keeps for the next one),
`Accounts` and `Refinement` (the fixed point), `AbstractApply` (what an apply does to the users as they are
read), `Emails` and `Newcomer` (what stays different, and that it happens), `Fluency`, `Release` and
`Convergence` (two cycles are enough), `Deadlock` and `Swap` (one is not), `Handover` (when one is),
`Population` (how many members are switched on). `Cycle` ties them to a fetch and a guarded difference;
`Listings` shows that there always is one.

`Reconciler`, `Safety`, `TierMapping`, `Civicrm` and `Codec` model the other parts of a cycle,
`Orchestrator` puts them together, `Operations` models the alert flag, the mails and the state file,
and `Scheduler` the daemon loop with its queue, clock and shutdown event.

## What is assumed

- Nobody else writes to the controller during a cycle, and a listing shows every user once, with its
  cards in any order and policies door-sync does not own anywhere among the others.
- Tokens, user ids and contact ids are unique; contact ids are positive; facility codes fit in a byte.
  Rounds are about members with names; what an empty name does is said in `Nameless`.
- For the fixed point, convergence and the population bounds, a user holds at most one card and a contact
  has at most one user at the start of a cycle: the reader uses the first card only.
  `Soundness.ApplyKeepsOneCard` and `Doubles.ApplyKeepsSound` say when door-sync keeps this.
- A user created through the interface starts as ACTIVE. A request that was carried out and whose
  answers were all lost fails without an error code. Cards imported twice are on the list once.
- The controller rejects an unforced bind of a card another user holds, whatever that user's status; it
  allows card changes on deactivated users. (The comments in the source call the older belief to the
  contrary unconfirmed.)
- Time in the scheduler is in whole ticks and every operation takes at least one, so that a producer
  cannot stop the clock.

## Where the code and its documentation differ

- docs/architecture.md:299 says the difference after a successful apply is empty. The code writes a dash
  as the last name of a single word and drops an email that another account has; both leave a difference.
  `Refinement.ApplyReachesFixedPoint` and, without reading the log, `Emails.FaultlessFixedPoint` say exactly
  when; `Newcomer.SingleWordRemains` and `Newcomer.TakenEmailRemains` are rounds in which it happens. Of the
  abstract apply the promise holds (`AbstractApply.AbstractApplySettles`).
- docs/architecture.md:254 says one bad record never blocks the rest. An empty name raises an error that no
  loop catches (src/door_sync/unifi/client.py:1280-1281), and the entries after it are not tried.
  `Nameless.ApplyStopsExactlyWhenNameless` says exactly when.
- The retry layer (src/door_sync/unifi/client.py:237-284) sends a create again when its answer was lost. When
  the first one took effect the contact then has two accounts: `Doubles.ResentCreateDoubles`. One user per
  contact survives an apply exactly when that does not happen: `Doubles.UniqueExactlyWhenOpenedOnce`.
- docs/architecture.md:322 says any two members sharing a card halt the cycle. The code compares only the
  members whose card is written (src/door_sync/safety.py:36-52); the model follows the code, and that is
  enough for the guarantees proved here.

## Model

| member | source | states |
|---|---|---|
| `Convergence.TwoCyclesConverge` | src/door_sync/unifi/client.py:586-596 | From a sound state in which every wanted card is free or held by its own member, a disabled account or an account this cycle manages, any permutation, chain or cycle of card changes settles in two cycles without request failures: the second comparison passes the card guards, the second apply raises nothing, every later fetch shows each member active with its own card and policy, and the next difference is only stuck names and emails |
| `Deadlock.DeadlockNeedsTwoCycles` | src/door_sync/unifi/client.py:586-596 | Two cycles are exact: when each of a group of active members wants a card that another of the group holds (a swap, any cycle), the first apply raises whatever the requests answer, and after a working import it reports one of the group |
| `Deadlock.FirstEntryFails` | src/door_sync/unifi/client.py:678-715 | The first credential entry of such a group fails for any faults, because its card's holder is active and has not had its turn |
| `Deadlock.BlockedFails` | src/door_sync/unifi/client.py:678-705 | A credential entry never goes through while another contact's active account holds its card |
| `Handover.OneCycleHandover` | src/door_sync/unifi/client.py:473-480 | One cycle is enough without faults when every wanted card is free, or held by its own member, by a disabled account or by an account this cycle deactivates, because deactivations come first |
| `Handover.DepartedHoldNothing` | src/door_sync/unifi/client.py:806-815 | Without faults a departed member holds no card at the end of the run |
| `Fluency.LeftoverIsReclaimed` | src/door_sync/unifi/client.py:740-758 | A card that could not be freed is no obstacle: once the deactivation itself went through, a bind for another user takes it over |
| `Swap.OneCycleFails` | src/door_sync/unifi/client.py:678-705 | Two active members exchanging cards: their first apply raises whatever the requests answer |
| `Swap.SwapTakesTwoCycles` | src/door_sync/unifi/client.py:586-596 | After that first apply a second round can be fetched, compared and started, and without request failures it raises nothing |
| `Convergence.FirstCycleFrees` | src/door_sync/unifi/client.py:586-593 | After a first fault-free cycle, whichever binds were refused, no wanted card is held by an account that blocks it |
| `Convergence.UnblockedGoesThrough` | src/door_sync/unifi/client.py:678-715 | Without faults, and with no card blocked, no contact is reported |
| `Convergence.EntitledHolder` | src/door_sync/unifi/client.py:586-596 | A card that changed hands in a fault-free run is with the member it is for |
| `Convergence.FormerHolder` | src/door_sync/unifi/client.py:586-596 | A holder in scope who still has another member's card after a fault-free run is a disabled account |
| `Convergence.ImportWorks` | src/door_sync/unifi/client.py:889-906 | Without faults the shared import works as long as the card list stays below the page limit |
| `Refinement.ApplyReachesFixedPoint` | src/door_sync/unifi/client.py:448-480 | When an apply raises nothing, whatever was refused, lost or sent again on the way, re-reading and comparing gives no addition, policy change or deactivation, and its credential changes are exactly the members whose written name does not round-trip or whose differing email was refused as taken; contacts whose create was carried out twice are excepted, and when there are none nothing else is left (docs/architecture.md:299 promises an empty difference) |
| `Refinement.ReachesFixedPoint` | src/door_sync/reconciler.py:21-95 | The same statement, said of a run after the import |
| `Refinement.MemberSettles` | src/door_sync/unifi/client.py:324-411 | After a run without report, each member with access whose create was not carried out twice is read back active, with its policy and its card, and its name or email differs exactly when stuck |
| `Refinement.OthersStayOff` | src/door_sync/reconciler.py:57-66 | After such a run nobody who is no member, or whose resolution is no access, is read back as active (day-pass members: AbstractApply.AppliedAsProjected) |
| `Refinement.SettledLeavesResidue` | src/door_sync/reconciler.py:42-87 | Comparing settled members with the next fetch leaves exactly the stuck ones, contacts with two accounts aside |
| `AbstractApply.AppliedAsProjected` | src/door_sync/unifi/client.py:448-480 | The client does what the abstract apply on the read users does (the fake of tests/test_reconciler.py:213): when an apply raises nothing, every contact whose create was not carried out twice is read back exactly when the abstract apply has it, with the same activity and policy, the same name and email but for stuck ones, and the same card, except that a contact without access that is off shows no card once it no longer holds the one it had |
| `AbstractApply.AbstractApplySettles` | src/door_sync/reconciler.py:21-95 | The documented canary, of the abstract apply: comparing its result again gives the empty difference |
| `AbstractApply.ApplyDiffAt` | src/door_sync/reconciler.py:42-87 | The abstract apply gives every contact the record the decision table names, whatever the order of the entries |
| `AbstractApply.BystanderLosesToWanter` | src/door_sync/unifi/client.py:678-715 | A contact without entry loses a card only to a member that is to get that card |
| `Refinement.CardReadsBack` | src/door_sync/unifi/client.py:369-378 | A card given in the run is read back as the member's card number |
| `Refinement.CardReadsSame` | src/door_sync/unifi/client.py:369-378 | A user whose cards did not change is read with the same number, also after imports |
| `Doubles.UniqueExactlyWhenOpenedOnce` | src/door_sync/unifi/client.py:237-284 | One user per contact survives an apply exactly when no contact's create was carried out twice, by one request that the retry layer sent again after its answer was lost or by two requests; when no create is sent again it always survives |
| `Doubles.ResentCreateDoubles` | src/door_sync/unifi/client.py:494-533 | The failing input, for all faults that send the create again after it took effect: without an email the second sending opens a second account; with a free email it is refused for the email of the first, and the client then opens a second account without it; either way the client sees success |
| `Doubles.ApplyKeepsSound` | src/door_sync/unifi/client.py:448-480 | The next cycle may rely on a sound controller (one user per contact, at most one card per user, counters) exactly when nobody's create was carried out twice, whatever else fails |
| `Doubles.CreateDoubles` | src/door_sync/unifi/client.py:1091-1118 | The first create of a contact leaves it with two accounts exactly when it was carried out twice |
| `Soundness.ApplyKeepsOneCard` | src/door_sync/unifi/client.py:559-596 | Whatever requests fail, are lost or are sent again, every user keeps at most one card and the counters stay ahead |
| `Soundness.RunKeepsSound` | src/door_sync/unifi/client.py:1002-1031 | Entry by entry, for any faults: known users keep their employee number, accounts of contacts not yet added are known ones, and no user gets a second card |
| `Soundness.KnownTaskKeepsOneCard` | src/door_sync/unifi/client.py:559-596 | An entry binds a card only to a user whose other cards are gone |
| `Cycle.RoundIsSafe` | src/door_sync/unifi/client.py:646-715 | For any faults: forced binds hurt no active user, no card is offered to two users, no card is deleted twice, deletes name held cards unless an answer was lost, and accounts are switched on only when ready |
| `Cycle.FetchShows` | src/door_sync/unifi/client.py:324-411 | A fetch shows exactly the managed users, each under its contact, as the record, status, policy, email and card stand on the controller |
| `Cycle.StartedIsGood` | src/door_sync/unifi/client.py:448-480 | From a fetch and a guarded difference every run starts in the invariant of the write protocol |
| `ForceBind.NoActiveUserLosesACard` | src/door_sync/unifi/client.py:646-715 | From a snapshot and a guarded difference, under any sequence of refused or ambiguous requests, every forced bind takes the card from a user who is not ACTIVE at that moment, and no card is offered to two users |
| `ForceBind.OnlyReadyAccountsAreSwitchedOn` | src/door_sync/unifi/client.py:1012-1076 | An account is switched on only when its user holds its member's card and no other, and its policy is exactly the member's |
| `ForceBind.ReclaimIsHarmless` | src/door_sync/unifi/client.py:686-705 | A stale "disabled" entry of the holder cache never leads to a forced bind against an active user |
| `ForceBind.ApplyStaysGood` | src/door_sync/unifi/client.py:448-480 | The invariant of the write protocol holds at the end of every apply |
| `ForceBind.RunTasksKeepsGood` | src/door_sync/unifi/client.py:535-596 | Every entry of a run keeps the invariant, whatever fails in it |
| `ForceBind.DiffWritesOnce` | src/door_sync/reconciler.py:42-87 | A computed difference writes each contact's card at most once |
| `CardProtocol.CardsAreSweptOnce` | src/door_sync/unifi/client.py:598-624 | For a computed difference and any faults no card is deleted twice; while no answer is lost every delete names a card its user holds at that moment |
| `CardProtocol.LoserIsForgotten` | src/door_sync/unifi/client.py:717-738 | The holder entry of a reclaimed card names the contact whose cached list must lose it |
| `CardProtocol.DiffIsDisjoint` | src/door_sync/reconciler.py:42-87 | Deactivations, credential changes and additions of a computed difference concern different contacts |
| `Isolation.DepartedMembers` | src/door_sync/unifi/client.py:790-830 | A deactivation is always asked for; the contact is reported exactly when that request failed; otherwise the account is DEACTIVATED at the end, even when freeing its card failed |
| `Isolation.ReturningMembers` | src/door_sync/unifi/client.py:1012-1031 | A returning member is reported exactly when the activation request was not answered well |
| `Isolation.NewMembers` | src/door_sync/unifi/client.py:1012-1031 | A new member is always attempted, and is reported exactly when no account came back or its policy was not set in the run |
| `Reports.FailureListIsExact` | src/door_sync/unifi/client.py:473-492 | The failure list names a contact exactly when a request that decides one of its entries was not answered well: the status of a departure, the activation or the policy of an addition, the bind or any write or delete of a credential entry, the policy of a policy entry |
| `Reports.UpdatedMembers` | src/door_sync/unifi/client.py:535-596 | A contact with a credential entry, a policy entry or both is reported exactly when the bind of the card it is to get was never answered well, or it gets no card and a write or delete for its user failed other than for a taken email, or its policy was not set |
| `Reports.CredentialAttempted` | src/door_sync/unifi/client.py:559-624 | A credential entry is always attempted, whatever happens to other contacts: by the write if name or email change, else by the first delete of a cached card, else by the bind of the wanted one |
| `Reports.NothingToSend` | src/door_sync/unifi/client.py:559-596 | A credential entry has nothing to send exactly when the card is all that changes, none is cached and none is wanted |
| `Reports.PolicyAttempted` | src/door_sync/unifi/client.py:760-788 | A policy entry is always asked for |
| `Nameless.ApplyStopsExactlyWhenNameless` | src/door_sync/unifi/client.py:469-482 | The one failure that is not confined: once the import is done an apply visits every entry unless a member to be let in has no name, or one with an account lost its name; then it stops there and raises, after every deactivation was carried out (docs/architecture.md:254 says one bad record never blocks the rest) |
| `Nameless.NamelessStopsTheRest` | src/door_sync/unifi/client.py:1013-1031 | The failing input: nobody after a nameless newcomer is even tried, whatever the requests would have answered |
| `Nameless.CrashCutsTheRun` | src/door_sync/unifi/client.py:1272-1281 | Such a run does every entry before the nameless one and none after it |
| `Isolation.BystandersAreSpared` | src/door_sync/unifi/client.py:473-480 | A contact without an entry is never reported and its account is left alone |
| `Isolation.AppliedIsRun` | src/door_sync/unifi/client.py:473-482 | An apply raises exactly when some contact is reported |
| `Isolation.FailuresAreNamed` | src/door_sync/unifi/client.py:484-492 | The failure list names exactly the contacts with an entry that ended in an error |
| `Frame.TasksLeave` | src/door_sync/unifi/client.py:473-480 | However other entries fare, a contact keeps its record, its cards and its failure status while they run |
| `Frame.RunTasksSplit` | src/door_sync/unifi/client.py:474-478 | A run can be cut anywhere |
| `Requests.DeactivateSends` | src/door_sync/unifi/client.py:806-830 | The status request is sent even when the sweep failed, and it decides |
| `Requests.ReactivateSends` | src/door_sync/unifi/client.py:1016-1021 | The activation request comes last and decides |
| `Requests.CredentialSends` | src/door_sync/unifi/client.py:559-596 | A credential entry sends something unless the card is all that changes, none is cached and none is wanted; when it brings a card, the bind decides |
| `Requests.BindSends` | src/door_sync/unifi/client.py:678-715 | A bind works exactly when the plain or the forced request was answered well |
| `Emails.StuckExactlyWhenTaken` | src/door_sync/unifi/client.py:494-533 | In a run without request failures the email of a member with access, updated, reactivated or created, is refused exactly when it belongs to another account at the member's turn, and it is stuck exactly when it also differs |
| `Emails.FaultlessFixedPoint` | src/door_sync/unifi/client.py:448-480 | Without request failures the next difference holds exactly the members whose written name does not survive and those whose differing email belonged to another account at their turn |
| `Newcomer.SingleWordRemains` | src/door_sync/unifi/client.py:1272-1285 | A concrete round: a newcomer with a one-word name is let in without errors, and every later difference has a credential change again |
| `Newcomer.TakenEmailRemains` | src/door_sync/unifi/client.py:494-533 | A concrete round: a newcomer with an administrator's email is let in without errors, and every later difference has a credential change again |
| `Newcomer.ResentRemains` | src/door_sync/unifi/client.py:237-284 | A concrete round: the create is sent twice, the apply raises nothing, and some later listing gives a difference that sets the policy again |
| `Newcomer.SomethingRemains` | src/door_sync/orchestrator.py:69-80 | These rounds are followed by others: a later listing and its difference exist |
| `Effects.RefusedExactlyWhenTaken` | src/door_sync/unifi/client.py:494-533 | One update step: without faults an email is refused exactly when it is registered elsewhere, and then the record keeps the email it had |
| `Effects.WriteRecordEffect` | src/door_sync/unifi/client.py:494-533 | A write that works leaves the record with the fields that were kept, and touches nothing else |
| `Effects.CreateWriteEffect` | src/door_sync/unifi/client.py:1091-1118 | A create only opens new accounts of its contact (how many: Effects.Opens), also when it is lost or sent again; the account answered has the fields that were kept |
| `Effects.SweepEffect` | src/door_sync/unifi/client.py:598-624 | A sweep only removes listed cards of its user, and all but the spared one when it completes |
| `Effects.BindEffect` | src/door_sync/unifi/client.py:646-715 | A bind gives its user at most that card, and takes it only from a holder cached as disabled |
| `Effects.DeactivateEffect` | src/door_sync/unifi/client.py:790-830 | A deactivation changes nothing but the status, and only removes cards |
| `Effects.UpdateCredentialEffect` | src/door_sync/unifi/client.py:559-596 | A credential entry writes exactly the changed fields and swaps the card as a whole |
| `Effects.ReactivateEffect` | src/door_sync/unifi/client.py:1033-1089 | A reactivation that works leaves record, policy, status and card exactly as wanted |
| `Fluency.RunWorks` | src/door_sync/unifi/client.py:448-480 | Without faults and blocked cards every entry of a run goes through |
| `Fluency.SweepWorks` | src/door_sync/unifi/client.py:598-624 | A sweep over cards really held goes through |
| `Fluency.BindWorks` | src/door_sync/unifi/client.py:678-705 | A bind works when the card is free, already the user's, or held by an account cached as disabled |
| `Release.Released` | src/door_sync/unifi/client.py:586-596 | After a fault-free run a member whose card changes holds no card but its own, even if its bind was refused |
| `Release.DeactivatedAtEnd` | src/door_sync/unifi/client.py:790-830 | After a fault-free run a departed member's account is off |
| `Accounts.ReactivatedAccount` | src/door_sync/unifi/client.py:1033-1089 | What a reactivation that went through leaves is still there at the end of the whole run |
| `Accounts.CreatedAccount` | src/door_sync/unifi/client.py:1091-1156 | What a create that went through leaves is still there at the end of the whole run |
| `Accounts.ActiveAccount` | src/door_sync/unifi/client.py:535-596 | What the credential and policy entries of one member leave is still there at the end of the whole run |
| `Population.PopulationCompounds` | src/door_sync/safety.py:64-98 | Over any number of cycles, stopped or applied, whatever requests fail or are sent twice, while the percentage guards are armed: members with an account that is on stay between (1 - pct)^n and (1 + add pct)^n of the start |
| `Population.ApplyBoundsPopulation` | src/door_sync/unifi/client.py:448-480 | Whatever fails or is sent twice, the number of members with an account that is on falls by at most the deactivations and grows by at most the additions |
| `Population.ApplyCountsExactly` | src/door_sync/unifi/client.py:448-480 | When nothing fails: members on after = members on before - deactivated + added |
| `Population.BaselineIsPopulation` | src/door_sync/orchestrator.py:81-82 | With one user per contact the baseline of the guards is the number of members whose account is on |
| `Population.OneCycleBound` | src/door_sync/safety.py:64-98 | One guarded cycle keeps and adds at most the configured fractions |
| `Snapshot.FetchAgrees` | src/door_sync/unifi/client.py:286-447 | After a fetch the caches are a snapshot of the controller |
| `Snapshot.PolicyReadBack` | src/door_sync/unifi/client.py:380-398 | The policy door-sync wrote is read back among any unmanaged ones |
| `CardIndex.LoadedIndexesAgree` | src/door_sync/unifi/client.py:924-949 | With distinct tokens the token index undoes the card index |
| `CardIndex.AnswerReadsBack` | src/door_sync/unifi/client.py:951-1000 | An import answer is decoded to the imported numbers |
| `CardIndex.AliasesReadBack` | src/door_sync/unifi/client.py:964-970 | The aliases of an import are read back as the imported numbers |
| `CardIndex.ImportedIndexes` | src/door_sync/unifi/client.py:951-1000 | After an import the caches are what loading the longer card list would give |
| `CardIndex.ImportMakesKnown` | src/door_sync/unifi/client.py:889-906 | After the import every written card has a token |
| `CardIndex.ImportExtends` | src/door_sync/unifi/client.py:951-1000 | An import changes the token of no known card |
| `CardIndex.PreImportResult` | src/door_sync/unifi/client.py:889-906 | The shared import changes nothing but the card list and its indexes |
| `CardIndex.EnsureTokenMapResult` | src/door_sync/unifi/client.py:908-949 | Loading succeeds without faults exactly below the page limit |
| `Protocol.NeededFrom` | src/door_sync/unifi/client.py:897-906 | The imported cards are exactly the written ones without a token |
| `Codec.NfcDecoderExact` | src/door_sync/unifi/client.py:1185-1200 | For every integer n the decoder returns n mod 65536 exactly when (n div 65536) mod 256 is the facility |
| `Codec.NfcRoundTrip` | src/door_sync/unifi/client.py:1176-1200 | Exactly the cards that pass the range guard survive encoding and decoding |
| `Codec.AliasRoundTrip` | src/door_sync/unifi/client.py:1236-1258 | Every card number is recovered from its alias, and a negative one never is |
| `Codec.BitOrDisjoint` | src/door_sync/unifi/client.py:1176-1182 | On disjoint bit ranges "or" is addition |
| `Codec.NameRoundTripExact` | src/door_sync/unifi/client.py:1272-1285 | A name survives being split and joined exactly when it contains a space and is trimmed |
| `Codec.SingleWordSticks` | src/door_sync/unifi/client.py:1279-1283 | An instance of a name that does not survive: one word comes back with a dash |
| `Text.ParsePrint` | src/door_sync/unifi/client.py:1176-1200 | Printing and parsing undo each other for all naturals, base 10 and 16 |
| `Reconciler.ComputeDiff` | src/door_sync/reconciler.py:21-95 | The loop, for any walk of the id set, gives exactly the contacts the decision table names, each once |
| `Reconciler.Reported` | src/door_sync/reconciler.py:42-87 | A contact is in a bucket exactly when its two records call for it, and then with those records |
| `Reconciler.Classified` | src/door_sync/reconciler.py:42-87 | Each contact is added, updated, deactivated, unmapped or untouched, and only one of these |
| `Reconciler.EmptyExactlyWhenInSync` | src/door_sync/reconciler.py:31-95 | The difference is empty exactly when both sides are in sync |
| `Reconciler.DiffIgnoresOrder` | src/door_sync/reconciler.py:31-95 | Reordering members and users, each with one entry per contact, changes at most the order inside the buckets |
| `Reconciler.IndexIgnoresOrder` | src/door_sync/reconciler.py:31-32 | Reordering either side, with one entry per contact, leaves its index as it is |
| `Reconciler.LastEntryCounts` | src/door_sync/reconciler.py:31-32 | With two entries of one contact the later one counts, so there the order matters exactly when they differ |
| `Safety.Check` | src/door_sync/safety.py:10-98 | Clear exactly when no guard fires; a halt names the first guard that does |
| `Safety.CollectCards` | src/door_sync/safety.py:36-42 | The collected cards are those of the writers, in order |
| `Safety.HasDuplicate` | src/door_sync/safety.py:44-52 | Reports exactly the lists with a duplicate |
| `Safety.HasOutOfRange` | src/door_sync/safety.py:54-60 | Reports exactly the lists with a card outside 0 to 65535 |
| `TierMapping.Resolve` | src/door_sync/tier_mapping.py:10-54 | The result is the best rule by rank and then name, unmapped when some type has no rule |
| `TierMapping.ResolutionIgnoresOrder` | src/door_sync/tier_mapping.py:20-54 | Reordering or repeating types never changes the resolution |
| `TierMapping.DecidesIsUnique` | src/door_sync/tier_mapping.py:46-54 | At most one type decides |
| `TierMapping.SortPutsBestFirst` | src/door_sync/tier_mapping.py:46-48 | Sorting is a permutation with the preferred match in front |
| `TierMapping.TierPolicyIsManaged` | src/door_sync/tier_mapping.py:57-76 | With validated rules a tier always has a policy, and it is in the managed set |
| `TierMapping.ValidateTierMapping` | src/door_sync/config.py:1022-1093 | Accepted rules are exactly the well-formed entries, and every accepted rule is sound |
| `Civicrm.FetchActive` | src/door_sync/civicrm/client.py:66-118 | The batched hash join equals the nested loop over the remote tables, and fails exactly when a query overflows or a card cannot be read |
| `Civicrm.FetchContacts` | src/door_sync/civicrm/client.py:120-148 | The paged query returns all rows, and fails exactly from page size times page limit rows on |
| `Civicrm.FetchMembershipsForBatch` | src/door_sync/civicrm/client.py:159-186 | The same for one batch of memberships |
| `Civicrm.FetchMemberships` | src/door_sync/civicrm/client.py:150-157 | All batches, or an error exactly when one of them overflows |
| `Civicrm.BatchesSplit` | src/door_sync/civicrm/client.py:150-157 | Batches hold at most 500 ids and concatenate back to the list |
| `Civicrm.BatchingKeepsLabels` | src/door_sync/civicrm/client.py:150-157 | Batching neither loses nor repeats labels of a contact |
| `Civicrm.GroupTypes` | src/door_sync/civicrm/client.py:82-86 | Grouping keeps each contact's labels in order |
| `Civicrm.BuildMembers` | src/door_sync/civicrm/client.py:88-118 | One member per contact, in order |
| `UnifiClient.Remote.Ask` | src/door_sync/unifi/client.py:181-284 | One request through the retry layer: refused; or carried out and answered; or carried out and reported as failed; or carried out several times, with the last answer or none |
| `UnifiClient.Remote.SendUntilAnswered` | src/door_sync/unifi/client.py:250-284 | The retry loop carries the request out once more for every lost answer |
| `Protocol.DeliverIsResending` | src/door_sync/unifi/client.py:237-284 | However often a request is sent, what is left is one effect for every request but a create, which takes effect every time |
| `UnifiClient.Client.RequestUserWrite` | src/door_sync/unifi/client.py:494-533 | Does what the protocol says: the email is dropped on a conflict and the rest retried |
| `UnifiClient.Client.DeleteCardsForContact` | src/door_sync/unifi/client.py:598-624 | The loop over the cached list is the protocol's sweep |
| `UnifiClient.Client.BindNfcCard` | src/door_sync/unifi/client.py:646-715 | Bind, and on a conflict reclaim from a disabled holder and forget the card in both caches |
| `UnifiClient.Client.ForgetCard` | src/door_sync/unifi/client.py:717-738 | The reclaimed token leaves the former holder's cached list |
| `UnifiClient.Client.MarkHolderDeactivated` | src/door_sync/unifi/client.py:740-758 | Exactly the entries of that user for its cached cards become DEACTIVATED |
| `UnifiClient.Client.DeactivateOne` | src/door_sync/unifi/client.py:806-830 | Sweep, status, holder cache |
| `UnifiClient.Client.ApplyOneCredential` | src/door_sync/unifi/client.py:559-596 | Write, sweep, bind, stopping at the first error |
| `UnifiClient.Client.ReactivateOne` | src/door_sync/unifi/client.py:1033-1076 | Write, sweep but the wanted card, then switch on |
| `UnifiClient.Client.SwitchOnOne` | src/door_sync/unifi/client.py:1078-1156 | Card, policy, status, in this order |
| `UnifiClient.Client.CreateOne` | src/door_sync/unifi/client.py:1091-1156 | Create, register, equip |
| `UnifiClient.Client.RecordFailure` | src/door_sync/unifi/client.py:484-492 | An error adds its contact to the failures |
| `UnifiClient.Client.ApplyDeactivate` | src/door_sync/unifi/client.py:790-830 | The loop is the run over the deactivations |
| `UnifiClient.Client.ApplyUpdateCredential` | src/door_sync/unifi/client.py:535-557 | The loop is the run over the credential entries, up to a name that cannot be split |
| `UnifiClient.Client.ApplyUpdatePolicy` | src/door_sync/unifi/client.py:760-788 | The loop is the run over the policy entries |
| `UnifiClient.Client.AddOne` | src/door_sync/unifi/client.py:1013-1031 | Reactivate a known member, create an unknown one, record the failure |
| `UnifiClient.Client.ApplyAdd` | src/door_sync/unifi/client.py:1002-1031 | The loop is the run over the additions, up to a name that cannot be split |
| `UnifiClient.Client.ApplyLive` | src/door_sync/unifi/client.py:469-482 | For any difference the four loops after the import are the protocol's apply, names that cannot be split included |
| `UnifiClient.Client.Apply` | src/door_sync/unifi/client.py:448-482 | Refuses without a fetch; only reads in a dry run; otherwise is the protocol's apply |
| `UnifiClient.Client.FetchUsers` | src/door_sync/unifi/client.py:286-322 | On success the whole listing was added to whatever the caches held and every managed row is returned in order; fails exactly when the last allowed page is full, faults aside |
| `Snapshot.FetchedFirst` | src/door_sync/unifi/client.py:286-447 | For a fresh client that leaves the caches of the listing alone |
| `UnifiClient.Client.TakeUser` | src/door_sync/unifi/client.py:324-415 | One row into the caches, the card list loaded at the first managed row with a card |
| `UnifiClient.Client.RecordCardHolders` | src/door_sync/unifi/client.py:417-446 | Every listed card is recorded with its holder |
| `UnifiClient.Client.EnsureNfcTokenMap` | src/door_sync/unifi/client.py:908-949 | The cached index, or the paged load |
| `UnifiClient.Client.ReadAllPages` | src/door_sync/unifi/client.py:925-947 | The loop asks for the pages the protocol asks for, and both indexes hold exactly the rows of the pages that came back |
| `UnifiClient.Client.UnknownCards` | src/door_sync/unifi/client.py:897-904 | The two loops collect the written cards without a token, sorted |
| `UnifiClient.Client.ImportNewCards` | src/door_sync/unifi/client.py:951-1000 | Upload, then take the answer row by row until one fails validation |
| `UnifiClient.Client.PreimportUnknownCards` | src/door_sync/unifi/client.py:889-906 | For any difference: load, collect, import |
| `UnifiClient.TakeStops` | src/door_sync/unifi/client.py:977-1000 | After a row that fails validation nothing more is taken |
| `UnifiClient.TaskParts` | src/door_sync/unifi/client.py:475-478 | The four loops in a row are one run over all entries, up to a crash |
| `Scheduler.World.Get` | src/door_sync/scheduler.py:88-93 | A blocking read returns the head of the queue, or nothing after its timeout |
| `Scheduler.GetUntil` | src/door_sync/scheduler.py:70-93 | Terminates on deadline minus clock; takes at most the head; is at most one poll slice behind the event; misses a waiting trigger only if its own delays used up the timeout |
| `Scheduler.Settle` | src/door_sync/scheduler.py:122-133 | A burst is absorbed until a deadline that is fixed once |
| `Scheduler.WaitForTrigger` | src/door_sync/scheduler.py:96-133 | Ends within cadence plus debounce and its own delays, reports the oldest trigger and drains one plus the coalesced ones |
| `Scheduler.RunForever` | src/door_sync/scheduler.py:136-199 | In every interleaving: what arrived is drained or queued in order; each drained trigger precedes a started cycle or went to the halting wake; a cycle that ends with the event set is the last, so the event costs at most one more cycle |
| `Scheduler.WakesAddUp` | src/door_sync/scheduler.py:58-67 | One plus coalesced over all trigger wakes is what was drained |
| `Operations.BoardIsExact` | src/door_sync/orchestrator.py:37-111 | With working files: the flag is up exactly when the latest cycle that failed or applied live failed, the counter counts completed live cycles, both times are the latest |
| `Operations.AlertBetweenResolved` | src/door_sync/alert.py:60-99 | Even with failing file operations two RESOLVED mails always have an ALERT between them |
| `Operations.CycleKeepsAnnounced` | src/door_sync/alert.py:36-99 | While the flag is up the last mail was an ALERT |
| `Operations.Files.Raise` | src/door_sync/alert.py:36-57 | The flag is best effort, the mail always goes out |
| `Operations.Files.Clear` | src/door_sync/alert.py:60-99 | RESOLVED goes out only when a flag was really removed |
| `Operations.Files.WriteSuccess` | src/door_sync/state.py:42-57 | The success time and the counter move, the halt fields stay |
| `Operations.Files.WriteHalt` | src/door_sync/state.py:60-76 | The halt fields and the counter move, the success time stays |
| `Operations.Files.EndCycle` | src/door_sync/orchestrator.py:84-111 | The files after an applied, halted or crashed cycle, live or dry |
| `Orchestrator.Reconcile` | src/door_sync/orchestrator.py:49-111 | A halted cycle, a failed fetch and a dry run leave the controller as it was; whenever it changed, a compared difference passed all guards and the controller is where the protocol takes it; a live cycle that changed it counts as applied exactly when the apply raised nothing |
| `Orchestrator.RunCycle` | src/door_sync/orchestrator.py:22-111 | A cycle with its trace in the files is a link of the chain the population bound is about, a crashed one included; the controller it changed is sound exactly when nobody's create was carried out twice |
| `Orchestrator.ChainGrows` | src/door_sync/orchestrator.py:49-111 | Cycles that start where the last one ended make a longer chain |
| `Orchestrator.FetchAndCompare` | src/door_sync/orchestrator.py:69-80 | Both sides fetched, every member resolved, the difference computed; only listings are requested |
| `Orchestrator.ResolveAll` | src/door_sync/orchestrator.py:70-70 | Every member resolved, in order |
| `Orchestrator.ResolvedAreOk` | src/door_sync/orchestrator.py:70-70 | Validated rules and sound contacts give members whose policies are managed |
| `Orchestrator.GuardsStart` | src/door_sync/orchestrator.py:82-101 | A difference that passes the guards starts a round |

## Left out

- HTTP, TLS pinning, JSON envelopes, pauses and rate limits: a request is one step. How often the retry layer may send it is not bounded here; the source stops after a fixed number of attempts.
- Malformed answers (missing ids, empty tokens, pages that are not lists): rows always carry ids and tokens, and rows of an import answer are decoded as the source does.
- Text beyond ASCII: upper and lower case and white space are the ASCII ones.
- The further spellings `int()` accepts for employee numbers and hexadecimal text (underscores, white space, a 0x prefix, other scripts): employee numbers are plain digits.
- Rounding in the percentage guards: percentages are exact rationals.
- The webhook receiver, its signatures and its server: a producer may add a trigger at any moment, and that is all the scheduler knows of it. Queue items that are not triggers are not modelled.
- The audit log (a failing write of it is a crashed cycle), command line, log texts, redaction, failure summaries and mail transports: formatting and dispatch only.
- The rest of the configuration: one check per field, without interaction. Only the tier mapping is validated here.
- The order in which a Python set is walked: any order is accepted, and the loop takes it as a parameter.
- Scheduler.RunForever: runs at most a given number of cycles, because the daemon has no bound of its own; the statement holds for every number.
- Reuse of one client over several cycles, signals and threads as such: the orchestrator makes a client per cycle, and interleavings are the moves of a script.
