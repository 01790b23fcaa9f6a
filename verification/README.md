# Verified models of the remote-work core

A Dafny project that models the decision logic of a remote-administration client and its team server, and proves what
that logic is for. Nothing here talks to a network, a disk or a screen: every such call is a parameter, an outcome
chosen by the environment, or a step of an explicit environment.

`dafny verify dfyconfig.toml` checks everything. Each source file has a module with the rules as functions on values,
a class or methods that change state in place as the source does and are proved equal to them, and modules of theorems.
The `*Laws.dfy` modules say of each operation exactly when it succeeds, why else it is refused and what it leaves, in
the fields of its state and not through the functions that compute it.

- **Co-working rooms** (`Collaboration*.dfy`). The table of live rooms under commands and token revocations: leases with
  generations, published frames, proposals, votes and one-shot consumption. The main result reads a whole run backwards
  from an execution: two standing votes by people still entitled, on that exact request, with nothing disturbed since.
  Its converse reads forwards: two such votes are enough.
- **Reversible changes** (`Sddl*.dfy`, `Change*.dfy`). The rewriter of security descriptors, against the access check of
  section 2.5.3.2 of MS-DTYP defined on its own, as a canonical form and as a fixed point; and the prepare, apply and
  restore journal over a compare-and-swap target, with outside writers, deletions and a crash at any call.
- **Frames** (`Frame*.dfy`). The latest-value mailbox and partial texture uploads, against always uploading everything,
  over any interleaving of publishing, delivering, drawing and reconnecting.
- **Billing and checkout** (`Billing*.dfy`, `Checkout*.dfy`). What an observed subscription does to an account, over runs
  of refreshes and webhooks, cut off anywhere; and any number of checkout calls running side by side against a payment
  provider that makes one session per idempotency key for a day, answers late or never, and moves on its own. Each call is a small
  state machine between two requests, so a lost answer, a crash and an overlap are all just steps that do or do not
  happen. An account is safe under either of two disciplines of its own: its calls follow each other, with any attempt
  ids; or they overlap, and an attempt id is not taken up again while its key is held. Without either, it is said
  exactly when an account comes to owe twice.
- **Missions** (`Mission*.dfy`, `Redaction*.dfy`). Pilot-then-rollout work with evidence; the check of a stored mission as
  an invariant, with the exact condition wherever an operation can break it; mapping to local profiles and import as
  renamings that lose nothing; progress over whole runs.
- **Executions and lessons** (`Execution*.dfy`, `Lessons*.dfy`). The phases of a reviewed service change over several
  targets under the application's steps, a rollout in which nothing goes wrong succeeding, and the journal fold that
  counts outcomes.
- **Reviewed text, icons, proposals** (`Sql*.dfy`, `Icon*.dfy`, `Adoption*.dfy`). A review text that can be read back, a
  template search with a guarantee, and edits that commute.

## What came out

Where a property does not hold as one might state it, the condition under which it does is exact: it holds if and only
if the condition does. A concrete case is named where one is given.

- A control lease is usable by its holder exactly if they have a live operator token row, which granting does not ask for
  (`GrantedLeaseUsable`); case: `GrantedToNoUse`.
- Stripping `ID` from an ACE's flags changes some access decision exactly if it uncovers or removes the word `IO`
  (`StrippingChangesDecisions`), which only malformed flags allow (`WellFormedIsSafe`); case:
  `MalformedFlagsChangeTheAnswer`. This is per ACE: for a whole list it is sufficient that every ACE is safe
  (`CanonicalGrantsTheSame`) and not necessary (`UnsafeMayBeRedundant`); no exact condition on lists is given.
- The descriptor rewriter is a fixed point exactly when deleting its words from what was read leaves nothing to delete or
  refuse (`FixedPointExactly`); case: `SecondPassDeletesMore`.
- A partial upload shows the frame exactly if the texture agreed with it outside what was announced (`DrawnExactly`). A
  connection starts from a blank picture and announces only what it draws, while the texture of the connection before is
  kept; case: `FreshPictureShowsStalePixels`.
- An account keeps a retired subscription exactly if a call outside a webhook stopped between the tombstone and the
  release (`StrandedExactly`). It is then never written again: a canceled plan goes on entitling until the last check is a
  day old or the period ends (case: `CanceledStillEntitles`), and the account can never check out again
  (`StrandedNeverChecksOut`).
- A customer comes to owe twice exactly if a request makes a session while they already owe (`OwesTwiceExactly`); case:
  `OverlapCanOweTwice`. An account whose own calls keep one of two disciplines never does (`OnePaymentPerAccount`). One
  server handles requests one at a time (src/team_server.rs:828-834), so its calls overlap only if a request reaches the
  provider after its call timed out, or if a second process serves the same store.
- Counts of lessons can fall as time passes, but only those of unknown outcomes, as runs finished by a clock that was ahead
  come to count as successes (`TimeOnlyClears`, `PhaseClears`).
- Redaction can lengthen an objective beyond the limit the check enforces, so a stored mission may not load again
  (`ImportKeepsValid`, `CreatedIsValid`); case: `LongObjectiveBreaks`. Recording keeps the check exactly when the evidence id
  is new and fewer observations are held than the check accepts (`RecordKeepsValid`).

## Model

| member | source | states |
|---|---|---|
| CollaborationTable.LiveRooms.Apply | src/collaboration_session.rs:215-298 | One command takes the table of live rooms to the specified next table and gives the specified answer: role check, expiry of old rooms, creation, or the command on one room |
| CollaborationTable.LiveRooms.ApplyToRoom | src/collaboration_session.rs:264-298 | The command on one room: membership, loss of a lease whose holder is revoked or whose time is up, the command itself, then the write back |
| CollaborationTable.LiveRooms.Save | src/collaboration_session.rs:492-500 | What of a command is written back: an owner's command renews the room, a departure only stores it, a rejection stores nothing |
| CollaborationTable.LiveRooms.CreateRoom | src/collaboration_session.rs:233-263 | A room is created under a fresh id for thirty seconds, unless the member list is too long or unprintable or 32 rooms live |
| CollaborationTable.LiveRooms.InvalidateActor | src/collaboration_session.rs:502-533 | A revoked token deletes the actor's rooms and withdraws their lease and votes everywhere else, room by room |
| CollaborationTable.Act | src/collaboration_session.rs:299-491 | Every command's effect on a room, branch by branch, including each rejection |
| CollaborationTable.ConsumeRequest | src/collaboration_session.rs:457-489 | One-shot consumption: two votes, the live lease and frame of the proposal, and every voter still entitled; only then is it marked and returned |
| CollaborationTable.CheckVoters | src/collaboration_session.rs:478-485 | The loop over voters names the first who left the room or may no longer operate |
| CollaborationInvariant.CommandKeepsTable | src/collaboration_session.rs:215-500 | Every command keeps the room invariant: lease generation is the room's, its holder a member, proposals only under the lease of their generation and on the current frame, votes distinct and by owner or members, sizes bounded; so the branch for an approver who left is unreachable |
| CollaborationInvariant.RevocationKeepsTable | src/collaboration_session.rs:502-533 | A token revocation keeps the same invariant |
| CollaborationInvariant.RejectionChangesNothing | src/collaboration_session.rs:215-500 | A rejected command leaves every unexpired room exactly as it was and adds none |
| CollaborationRuns.RunKeepsTable | src/collaboration_session.rs:215-533 | The invariant holds at every point of every run of commands and revocations from the empty table |
| CollaborationRuns.StepOrigin | src/collaboration_session.rs:299-489 | A proposal stored after a step was proposed in it, or stood before with the same request, undisturbed, and with no vote but the standing old ones and one cast now |
| CollaborationRuns.StoredProposalIsBacked | src/collaboration_session.rs:395-456 | Every stored proposal goes back to an accepted Propose by the lease holder; since then the lease and frame hash never changed, and every stored vote was cast after it and never withdrawn |
| CollaborationRuns.ExecutionChecks | src/collaboration_session.rs:457-489 | What holds in the state in which a Consume executes |
| CollaborationRuns.VoteSafety | src/collaboration_session.rs:289-533 | Whenever Consume executes, the run holds the Propose of exactly that id and digest, then votes of two different actors that still stand, who are owner or member and may operate now, with no grant, revocation, lease loss or other frame in between |
| CollaborationLease.AtMostOnce | src/collaboration_session.rs:457-489 | With fresh ids, no proposal id is executed twice in any run, in whatever room |
| CollaborationLease.ExecutedWithinOneLease | src/collaboration_session.rs:369-489 | With time not running backwards, a proposal and its execution fall into the twenty seconds of one grant |
| CollaborationLease.GenerationsRise | src/collaboration_session.rs:294-298 | A room's generation never falls, and a room id is never created again |
| CollaborationLease.SupersededNeverProposes | src/collaboration_session.rs:395-412 | A generation the room has left is never accepted by Propose again |
| CollaborationLease.GrantedLeaseUsable | src/collaboration_session.rs:289-298 | After a Grant the holder's first well-aimed Propose succeeds if and only if they hold a live operator token: Grant asks who may operate, every later command asks for a token row |
| CollaborationLease.GrantedToNoUse | src/collaboration_session.rs:289-412 | A concrete run from the empty table: the lease is granted to an operator without a token row, and their well-aimed Propose in the same second is refused |
| CollaborationLaws.FoundRoom | src/collaboration_session.rs:289-298 | Every request meets its room in exactly one way: a lease that has run out or whose holder has no token is gone, with its requests and a new generation |
| CollaborationLaws.DoorRefusals | src/collaboration_session.rs:224-288 | Role, then an unexpired room, then membership decide, each with its own refusal |
| CollaborationLaws.OwnerRefusals | src/collaboration_session.rs:302-461 | Closing, publishing, granting, revoking and consuming are the owner's alone |
| CollaborationLaws.GrantRefusals | src/collaboration_session.rs:369-386 | A grant to somebody outside, or who may not operate, is refused as such |
| CollaborationLaws.ContentRefusals | src/collaboration_session.rs:334-368 | An owner's frame and a member's drawing are refused only for what they hold |
| CollaborationLaws.ProposeRefusals | src/collaboration_session.rs:395-412 | A request is refused for want of the lease, or else as stale |
| CollaborationLaws.RequestRefusals | src/collaboration_session.rs:444-465 | A vote or execution is refused as unavailable exactly if no open request has that id and digest |
| CollaborationLaws.ConsumeRefusals | src/collaboration_session.rs:457-489 | An execution is refused as stale exactly if votes, lease or frame are missing; a revoked approver is one of the voters |
| CollaborationLaws.ViewersOnlyWatch | src/collaboration_session.rs:395-456 | Past the door as well, a viewer neither asks for a click nor votes for one |
| CollaborationLaws.PrintableExactly | src/collaboration_session.rs:233-368 | Texts are printable if short, not blank and without control characters |
| CollaborationLaws.CreateExactly | src/collaboration_session.rs:233-263 | Creation succeeds exactly for a non-viewer with at most 16 printable members while fewer than 32 unexpired rooms exist; the room is empty and everything else is kept |
| CollaborationLaws.LeaveExactly | src/collaboration_session.rs:313-333 | An owner who leaves closes the room; anyone else leaves only their seat, their votes and their lease |
| CollaborationLaws.PublishExactly | src/collaboration_session.rs:334-354 | A frame of fitting size replaces the one before; another source clears requests and drawings |
| CollaborationLaws.AnnotateExactly | src/collaboration_session.rs:355-368 | A drawing inside the bounds is added under its author's name, and only the oldest of 64 makes place |
| CollaborationLaws.GrantExactly | src/collaboration_session.rs:369-386 | A grant gives a member who may operate the lease for twenty seconds, under the next generation, and clears the requests |
| CollaborationLaws.RevokeExactly | src/collaboration_session.rs:387-394 | A revocation ends the lease and its requests under a new generation, and changes nothing else |
| CollaborationLaws.ProposeExactly | src/collaboration_session.rs:395-443 | A request is accepted exactly from the holder of the live lease on the frame shown, and stored with every field of the command and no vote |
| CollaborationLaws.ApproveExactly | src/collaboration_session.rs:444-456 | An accepted vote is stored beside every earlier one on the first open request with that id and digest, and no other request changes; it is accepted exactly if there is such a request |
| CollaborationLaws.ConsumeExactly | src/collaboration_session.rs:457-489 | Consume executes exactly a request with two votes, under the live lease and frame it was made for, all of whose voters are seated and may operate; it is marked consumed and nothing else changes |
| CollaborationLaws.RevocationExactly | src/collaboration_session.rs:502-533 | A revoked token deletes the actor's rooms; elsewhere their lease and their votes go and nothing else changes |
| CollaborationVotes.VotesExecute | src/collaboration_session.rs:395-489 | The converse of vote safety over runs: after an accepted request and standing votes of two different actors, with nothing disturbed or executed since, the owner's Consume in the lease's time executes it if all who stand by it may operate |
| Sddl.NormalizeSddl | src/change_history.rs:239-276 | The rewriting loop computes the specified text: flags cut, ID stripped under protection, maximal runs of one type and inheritance sorted, every refusal as in the code |
| Sddl.RewriteAces | src/change_history.rs:252-275 | The loop over the ACE texts with its pending group equals parsing, cutting into runs and sorting each |
| Sddl.ReadAce | src/change_history.rs:253-260 | One ACE is read off the front of the text, or refused: no parenthesis, no closing one, not six fields, not A or D |
| SddlMeaning.CanonicalGrantsTheSame | src/change_history.rs:239-276 | For every token, decoding of rights and wanted set, the ordered check of section 2.5.3.2 of MS-DTYP answers the same before and after, unless the DACL is protected and stripping ID uncovers or removes an IO word |
| SddlMeaning.StrippedAceMeansTheSame | src/change_history.rs:261-263 | Stripping ID leaves what an ACE does to every check as it was if and only if its IO word is left as it was |
| SddlMeaning.StrippingChangesDecisions | src/change_history.rs:261-263 | An ACE may be stripped without changing any decision of any list it stands in if and only if its IO word is left as it was |
| SddlMeaning.WellFormedIsSafe | src/change_history.rs:261-263 | Flags made of the two-letter words of section 2.5.1.1 of MS-DTYP always meet that condition |
| SddlMeaning.MalformedFlagsChangeTheAnswer | src/change_history.rs:261-263 | The condition can fail: a concrete malformed flag string loses a grant |
| SddlMeaning.UnsafeMayBeRedundant | src/change_history.rs:261-263 | For a whole list the condition is not necessary: an ACE behind an unskipped one for the same SID and rights may be stripped whatever becomes of its IO word |
| SddlMeaning.SortedFlatWalks | src/change_history.rs:264-275 | Sorting inside runs of one type changes nothing for the check |
| SddlMeaning.RunsCover | src/change_history.rs:264-275 | The runs are the list cut in order, nothing lost or moved, each of one type |
| SddlCanonical.TextParsed | src/change_history.rs:239-276 | Writing a sound descriptor and reading it gives it back |
| SddlCanonical.ParsedText | src/change_history.rs:239-276 | Reading an accepted text and writing it gives it back |
| SddlCanonical.RunsOfFlat | src/change_history.rs:264-275 | Maximal runs are recovered from their concatenation |
| SddlCanonical.CanonicalForm | src/change_history.rs:239-276 | Two accepted texts get the same output exactly when prefix and residual flags agree and their maximal same-key runs are equal as multisets, run by run |
| SddlFixedPoint.FixedPointExactly | src/change_history.rs:239-276 | For all accepted texts, rewriting twice equals rewriting once if and only if, in what was read, deleting AI and AR leaves neither and no SACL marker in the control flags, and each ACE's flags after stripping hold no SACL marker and, under protection, no ID |
| SddlFixedPoint.SecondPassDeletesMore | src/change_history.rs:239-276 | A concrete text is accepted, and each of two passes deletes something from it |
| SddlFixedPoint.WellFormedRewriting | src/change_history.rs:239-302 | On flags made of P, AI and AR and well-formed ACE flags the rewriter is idempotent and preserves every access decision, as the double normalisation needs |
| SddlLaws.CanonicalArranges | src/change_history.rs:252-275 | The output has at every position an ACE of the same type and origin as the input; between changes of either it is sorted by text and holds the same ACEs |
| SddlLaws.OriginsAreNotSwapped | src/change_history.rs:261-275 | Two accepted texts, an inherited ACE behind an explicit one and before it, come out different and unchanged |
| SddlLaws.AcceptedExactly | src/change_history.rs:239-260 | A text is rewritten exactly if it has no SACL marker and is the text of a descriptor of standard ACEs |
| SddlLaws.RefusalsInOrder | src/change_history.rs:239-260 | A SACL is refused before a missing DACL, and that before any ACE |
| SddlLaws.AceRefusals | src/change_history.rs:253-260 | Missing parentheses are invalid; other than six fields, or another type than allow or deny, is unsupported |
| SddlLaws.LeqExactly | src/change_history.rs:264-275 | Texts are ordered by the first character in which they differ, a proper beginning first |
| SddlLaws.RemovedCutsFirst | src/change_history.rs:246-263 | Deleting a word cuts its first occurrence and goes on behind it |
| ChangeJournal.Machine.Apply | src/change_history.rs:303-331 | Review, journal, compare-and-swap, journal again: in place and call by call as specified, with any call lost before or after its effect |
| ChangeJournal.Machine.Restore | src/change_history.rs:333-378 | The whole restore: already restored, deleted file, or recorded content |
| ChangeJournal.Machine.Recreate | src/change_history.rs:335-351 | A deleted file is recreated from its snapshot or refused without one |
| ChangeJournal.Machine.RestoreContent | src/change_history.rs:352-377 | Content equal to before is settled, equal to after is swapped back, anything else is refused |
| ChangeJournal.Machine.Review | src/change_history.rs:304-317 | Applying starts only from an unapplied entry whose target and permissions are as reviewed |
| ChangeJournal.Machine.ReplaceTarget | src/change_history.rs:198-201 | The backend's compare-and-swap contract |
| ChangeJournal.Machine.PersistEntry | src/change_history.rs:380-418 | An entry within a mebibyte is journaled whole or not at all; a full journal of 128 entries takes only entries it already holds |
| ChangeRecovery.OnlyOwnWrites | src/change_history.rs:303-378 | With outside writers between any two calls and any calls lost, no step overwrites content other than the recorded before or after, and nothing is written before the entry is journaled |
| ChangeRecovery.ApplyExactly | src/change_history.rs:303-331 | An uninterrupted apply succeeds exactly when the entry is prepared, target and permissions are as recorded and the journal takes it; then the target holds the new content by exactly one write and the journal says Applied; a refusal changes neither |
| ChangeRecovery.ApplyRefusals | src/change_history.rs:303-331 | Each refusal of an uninterrupted apply has the first cause that holds |
| ChangeRecovery.AppliedMeansWritten | src/change_history.rs:303-331 | Whatever interferes and whichever calls are lost, an apply that reports success has made its own write of after over before, and journaled it |
| ChangeRecovery.ApplyIsAnnounced | src/change_history.rs:303-331 | Whenever an apply has written, the journal held the entry first |
| ChangeRecovery.RestoreIsAnnounced | src/change_history.rs:333-378 | Whenever a restore has written, the journal says that it was begun or is over |
| ChangeRecovery.PrepareExactly | src/change_history.rs:277-302 | An uninterrupted preparation succeeds exactly for an existing target whose content changes, both within a mebibyte, and records content and permissions as they are |
| ChangeRecovery.RestoreRefusals | src/change_history.rs:333-378 | A restore is refused for want of a snapshot, or because neither recorded content is there |
| ChangeRecovery.RestoreExactly | src/change_history.rs:333-378 | An uninterrupted restore of an unrestored entry succeeds exactly when the target holds before or after, or is a deleted file under its recorded parent, and the journal takes the entry; refusal leaves the target alone |
| ChangeRecovery.RecoveryFrom | src/change_history.rs:303-378 | From any recoverable state, a deleted file included, after any applies and restores cut off at any call and any deletions by others between calls, one uninterrupted restore of the journaled entry ends at the original content and phase Restored; an unjournaled target was never written |
| ChangeRecovery.CrashRecovery | src/change_history.rs:277-378 | Every prepared change is recoverable in that sense; without deletions the target ends at exactly the content it was prepared from |
| FramePipeline.DamageBounds | src/frame_pipeline.rs:35-54 | The folding loop gives the hull of the regions, or everything for none or an invalid one |
| FramePipeline.MergeDamage | src/frame_pipeline.rs:57-71 | The newer frame carries the hull of both damages, or everything after a resize |
| FramePipeline.FrameMailbox.Publish | src/frame_pipeline.rs:85-93 | The slot keeps the newest frame with the damage of those it replaced; published is replaced plus taken plus pending |
| FramePipeline.FrameMailbox.Take | src/frame_pipeline.rs:94-100 | The slot is emptied and its frame handed out once |
| FramePipeline.PrepareUpload | src/frame_pipeline.rs:115-153 | The upload shows exactly the damaged rectangle of the frame, or the whole frame after a resize; a malformed frame gives none |
| FramePipeline.ConvertRegion | src/frame_pipeline.rs:136-146 | The pixel loops convert the rectangle row by row, every index in range |
| FrameLaws.DamageIsLeast | src/frame_pipeline.rs:35-54 | Damage covers every announced region, and every rectangle that does covers the damage; without a sound announcement it is the whole frame |
| FrameLaws.MergedIsLeast | src/frame_pipeline.rs:57-71 | A merged frame has the newer picture and the least damage covering both, or everything after a resize |
| FrameLaws.UploadIsNoLarger | src/frame_pipeline.rs:115-135 | An upload has the place and size of the damage where the texture has the frame's size, and the whole frame's elsewhere |
| FrameLaws.UploadShowsPixels | src/frame_pipeline.rs:136-146 | Each converted pixel comes from the frame's four bytes at that place, in order |
| FrameLaws.WholeUploadUsesEveryByte | src/frame_pipeline.rs:136-146 | A whole upload converts every byte of the frame exactly once, in order |
| FrameRuns.UploadExactly | src/frame_pipeline.rs:115-153 | Whatever the texture holds, an upload shows exactly the frame if and only if a texture of that size already agreed with it outside the damage |
| FrameRuns.SlottedCarries | src/frame_pipeline.rs:57-71 | However publishing and delivering interleave, a slot carries the hull of all its frames announced, or everything once their sizes differ |
| FrameRuns.DrawnExactly | src/frame_pipeline.rs:35-153 | After any events whatever, malformed frames and reconnections included, a drawing shows exactly the newest frame delivered if and only if the texture already agreed with it outside the hull of what was announced since the drawing before; published is taken plus replaced plus pending |
| FrameRuns.PartialUploadsShowTheLastFrame | src/frame_pipeline.rs:35-153 | For every interleaving of publishing, delivering, drawing and reconnecting, with any resizes, the texture ends at exactly the pixels published last, if each frame announces its difference from the one before it and the first of a connection from the one still shown |
| FrameRuns.FreshPictureShowsStalePixels | src/ironrdp_client.rs:663-741 | A concrete run: the first frame after a reconnection or reactivation announces what was drawn into a blank picture, and the texture keeps old pixels where it is still blank |
| Billing.Store.ApplySubscription | src/commerce.rs:414-478 | One fetched subscription changes the rows as specified: unknown customers ignored, retired ones absorbed, ends retire and release, another binding refused, else bound with its paid state |
| Billing.Store.Webhook | src/commerce.rs:512-559 | An event is recorded together with its effect or not at all, and a recorded one does nothing |
| BillingRuns.StrandedExactly | src/commerce.rs:436-458 | In every run an account is bound to a retired subscription if and only if a call outside a webhook stopped between inserting the tombstone and releasing the account; after that no step writes the account again |
| BillingRuns.CanceledStillEntitles | src/commerce.rs:448-457 | A concrete run of three steps that ends with an account bound to a canceled subscription and entitled by it |
| BillingRuns.ReleasedOnlyByItsEnd | src/commerce.rs:436-463 | Over every run the binding of an account ends only when its own end is reported; then it stays retired and no account is ever bound to it again; a bound subscription is retired exactly if a call was cut off, and then it stays bound |
| BillingRuns.RetiredIsAbsorbed | src/commerce.rs:436-447 | Once retired, later reports of a subscription change neither accounts nor tombstones |
| BillingRuns.EventsApplyOnce | src/commerce.rs:531-558 | A delivery that changed anything is recorded, and the same event never changes anything again |
| BillingRuns.EntitledIsPaid | src/commerce.rs:119-146 | An active entitlement means that the latest write to the account was its bound subscription, active, one item at the right price and quantity, paid with nothing remaining, under 86400 seconds ago and not past its period; it is retired exactly if a call was cut off |
| BillingLaws.EntitledExactly | src/commerce.rs:119-478 | A running subscription just observed entitles its free or bound account exactly if it is active, for one unit at the price, its invoice paid with nothing remaining: from now on, for less than a day, while the period lasts |
| BillingLaws.EndedIsNotEntitled | src/commerce.rs:119-458 | An end just observed leaves its free or bound account without entitlement |
| BillingLaws.OpenedExactly | src/commerce.rs:256-280 | An account is opened once per actor and per customer, without a subscription |
| BillingLaws.EntitledHasPaid | src/commerce.rs:119-478 | Over whole runs, whoever is entitled has paid in full, field by field, in the latest report written to the account |
| BillingLaws.ObservedRunning | src/commerce.rs:436-478 | A running subscription binds the account that is free or bound to it, active exactly if paid in full, and changes no other; another binding or missing items are refused |
| BillingLaws.ObservedEnd | src/commerce.rs:448-458 | An ended subscription is retired and releases the account that is free or bound to it, and no other |
| BillingLaws.ObservedForNobody | src/commerce.rs:414-447 | A subscription of nobody here, or retired before, changes nothing; one retired for someone else is refused |
| BillingLaws.NamedExactly | src/commerce.rs:561-592 | A subscription event names its subscription; an invoice names one in either place but never two different ones |
| BillingLaws.DeliveredExactly | src/commerce.rs:512-559 | A new event whose fetched subscription is accepted is recorded with its effect; any other delivery changes nothing |
| Checkout.CheckoutDesk.SelectAttempt | src/commerce.rs:171-255 | Up to the first request: refuse a bound account, insert the intent, ask about the stored session, or go on under the saved attempt within 23 hours |
| Checkout.CheckoutDesk.Reconcile | src/commerce.rs:201-224 | The subscription behind a completed session is applied; only its end goes on to replace the intent |
| Checkout.CheckoutDesk.ReplaceIntent | src/commerce.rs:316-332 | The intent moves on only from the attempt and session that were checked, and to a different attempt |
| Checkout.CheckoutDesk.Enroll | src/commerce.rs:256-280 | The customer row is inserted once per account and per customer |
| Checkout.CheckoutDesk.RecordSession | src/commerce.rs:302-314 | The answer is stored only under the attempt it was requested for |
| Checkout.CheckoutDesk.Write | src/commerce.rs:163-332 | Whichever point a call stands at, the rows move as the specified stretch between two requests |
| CheckoutLaws.FirstCallStoresIntent | src/commerce.rs:163-255 | The first call of a free account stores its own attempt, pending, at its own time |
| CheckoutLaws.LaterCallFollowsIntent | src/commerce.rs:188-255 | A stored session is asked about; an intent without one is followed within 82800 seconds of its making, and refused after |
| CheckoutLaws.BoundIsSentAway | src/commerce.rs:171-187 | An account that has a subscription is sent away without a write |
| CheckoutLaws.SessionAnswers | src/commerce.rs:188-240 | Only an expired session of this customer, or a completed one, leads on |
| CheckoutLaws.PlanAnswers | src/commerce.rs:201-224 | A fetched subscription is reconciled only if it is the session's own and this customer's |
| CheckoutLaws.AnswersAreTrue | src/commerce.rs:188-303 | An answer about a session is the provider's own, and a made-up subscription is not believed |
| CheckoutLaws.RefusedPlanEnds | src/commerce.rs:201-224 | A subscription that billing refuses ends the call without a write |
| CheckoutLaws.RunningPlanIsApplied | src/commerce.rs:201-224 | A running subscription behind a completed session binds its account, as paid as it is, and completes the intent |
| CheckoutLaws.EndedPlanIsApplied | src/commerce.rs:201-224 | An ended one is retired, releases its account and lets the intent be replaced |
| CheckoutLaws.ReplaceExactly | src/commerce.rs:316-332 | The intent moves to this call's attempt exactly if it differs and the attempt and session checked are still stored |
| CheckoutLaws.EnrollExactly | src/commerce.rs:256-280 | A customer row is inserted exactly if neither the account nor the customer has one |
| CheckoutLaws.RecordExactly | src/commerce.rs:302-314 | The session is stored, open, exactly if the intent still is of the attempt it was requested for |
| CheckoutLaws.PostExactly | src/commerce.rs:285-303 | Posting makes one open session per customer and attempt, or finds the one made before |
| CheckoutLaws.FirstCheckoutOpens | src/commerce.rs:163-315 | A first checkout that nobody disturbs ends with an open session of that customer stored under the call's attempt |
| CheckoutLaws.ExpiredCheckoutReopens | src/commerce.rs:163-332 | After an expired session, an undisturbed checkout ends with a new one under a new attempt |
| CheckoutSteps.FirstPost | src/commerce.rs:285-303 | Under either discipline, a request that makes a session belongs to the intent's own attempt, comes less than a day after it, and finds nothing payable |
| CheckoutRuns.StepKeeps | src/commerce.rs:163-332 | Every step of any number of calls, of the provider and of webhooks keeps the invariant, each account under its own discipline or none |
| CheckoutRuns.OnePaymentPerAccount | src/commerce.rs:163-331 | In every run, with any requests lost and calls cut off, the open sessions and running subscriptions of an account are never two if its own calls keep one of two disciplines, whatever the calls of other accounts do; sessions exist only for customers of accounts |
| CheckoutRuns.NewAttemptAfterDeadSession | src/commerce.rs:188-240 | The stored attempt changes only when the stored session has expired or its subscription has ended |
| CheckoutRuns.SessionsMadeInTheWindow | src/commerce.rs:241-251 | For an account under a discipline, sessions are made only under the stored attempt, with no answer stored, inside the provider's 24 hours |
| CheckoutOverlap.OverlapCanOweTwice | src/commerce.rs:163-331 | A concrete run of a fair provider in which calls overlap and an attempt id is used again a day later ends with two payable sessions |
| CheckoutDebts.OwesTwiceExactly | src/commerce.rs:163-331 | In every run, whatever the callers do, a customer comes to owe two payments if and only if some request makes a session, under a key the provider does not hold, while they already owe one |
| CheckoutDebts.StrandedNeverChecksOut | src/commerce.rs:163-187 | An account left bound to a retired subscription stays so through every checkout and billing step, and each checkout it begins ends at once without a request or a write |
| Redaction.RedactText | src/security.rs:370-400 | The loop over characters masks word by word as specified |
| Redaction.RedactionKeepsWords | src/security.rs:370-400 | Redaction leaves a text blank exactly when it was |
| Redaction.RedactionGrows | src/security.rs:390-400 | A text ending in a short secret comes out nine characters longer |
| RedactionLaws.MaskedExactly | src/security.rs:390-400 | A word is cut behind its first password marker, else its first pwd, token or secret marker, whatever their case, and the rest masked; a word without a marker stays |
| RedactionLaws.RedactApart | src/security.rs:370-389 | The parts of a text on both sides of a white space are redacted on their own, and the space stays |
| RedactionLaws.RedactWord | src/security.rs:370-389 | A text without white space is masked as one word |
| MissionRecord.Record.Begin | src/mission.rs:237-264 | Begin with all its refusals |
| MissionRecord.Record.RecordEvidence | src/mission.rs:265-293 | Record with all its refusals |
| MissionRecord.Record.Verify | src/mission.rs:294-314 | Verify with all its refusals |
| MissionRecord.Record.Pause | src/mission.rs:315-323 | The loop interrupts every running step |
| MissionRecord.Record.AllowRollout | src/mission.rs:229-236 | Rollout is released only after the pilot |
| MissionRecord.Record.MapLocalProfiles | src/mission.rs:327-365 | Targets are looked up first, one unique profile each and none twice, and only then is everything renamed |
| MissionRecord.LookUp | src/mission.rs:331-352 | For any targets, the loop with its used set gives the mapping or the first refusal |
| MissionRecord.Import | src/mission.rs:485-522 | The loops give an imported mission new evidence ids, stop its running steps and redact its text |
| MissionLaws.BeginExactly | src/mission.rs:237-264 | A step starts exactly if the mission is not paused, the target is the pilot or the rollout is released and every pilot step confirmed, every earlier step of the target is confirmed, and the step exists and is neither running, under review nor confirmed; it starts without evidence and nothing else changes |
| MissionLaws.BeginRefusals | src/mission.rs:237-264 | Each refusal has the first cause that holds |
| MissionLaws.RecordExactly | src/mission.rs:265-293 | A running step takes an observation of its own computer and endpoint that says something, appended once, and waits for review |
| MissionLaws.RecordRefusals | src/mission.rs:265-293 | Each refusal has the first cause that holds |
| MissionLaws.VerifyExactly | src/mission.rs:294-314 | A step under review with evidence takes a verdict with a reason, which is kept redacted |
| MissionLaws.VerifyRefusals | src/mission.rs:294-314 | Each refusal has the first cause that holds |
| MissionLaws.PauseExactly | src/mission.rs:315-323 | Pausing interrupts what runs and nothing else |
| MissionLaws.ReleaseExactly | src/mission.rs:229-236 | The rollout is released exactly if every pilot step is confirmed |
| MissionLaws.CreateExactly | src/mission.rs:160-222 | A mission is made exactly from what the limits allow, with its first target as pilot |
| MissionLaws.FreshExactly | src/mission.rs:160-222 | Its outcomes are every step of every target, pending, target by target and step by step |
| MissionLaws.ValidExactly | src/mission.rs:524-575 | The check accepts exactly missions within the limits with one outcome for every step of every target, evidence where it is due, and observations of their own targets |
| MissionLaws.ReloadExactly | src/mission.rs:407-426 | A mission left with a running step comes back paused and interrupted; any other comes back as it was |
| MissionLaws.MapExactly | src/mission.rs:327-365 | A paused mission is mapped exactly if every target has one local profile of its endpoint and no two share one; whatever named a target then names its profile |
| MissionLaws.ImportExactly | src/mission.rs:485-522 | An import is paused and unreleased, with redacted text and new evidence ids, and nothing else changed |
| MissionValid.StructureMeans | src/mission.rs:524-543 | Counting keys is enough: a valid mission has exactly one outcome for every step of every target |
| MissionValid.CreatedIsValid | src/mission.rs:160-222 | A new mission passes the check exactly when its redacted objective is non-blank and short enough |
| MissionValid.BeginKeepsValid | src/mission.rs:237-264 | Begin keeps the check |
| MissionValid.RecordKeepsValid | src/mission.rs:265-293 | Record keeps the check exactly when the evidence id is new and fewer than 16384 are held |
| MissionValid.VerifyKeepsValid | src/mission.rs:294-314 | Verify keeps the check exactly when a passing note is non-blank after redaction |
| MissionValid.PauseKeepsValid | src/mission.rs:229-323 | Pause and release keep the check |
| MissionTransfer.MappingKeepsValid | src/mission.rs:327-365 | On a valid mission every lookup of the mapping is defined; the result is valid, on local profiles with the same endpoints, and with the same statuses, notes, links and records |
| MissionTransfer.ImportKeepsValid | src/mission.rs:485-522 | Import keeps the check exactly when redaction leaves objective and notes non-blank and the objective within 4096 |
| MissionTransfer.ImportCarriesLinks | src/mission.rs:494-505 | Every link from an outcome to its evidence survives the renumbering, and no other arises |
| MissionTransfer.ImportKeepsShortValid | src/mission.rs:485-522 | With the redaction used, only the length of the objective matters |
| MissionTransfer.LongObjectiveBreaks | src/mission.rs:506-522 | A concrete objective of the full 4096 characters makes a new mission and an import that fail the check |
| MissionRuns.StepKeepsProgress | src/mission.rs:223-365 | Every operation keeps steps in order and the pilot first |
| MissionRuns.ConfirmedStays | src/mission.rs:223-365 | Over any run from a new mission, confirmed steps stay confirmed with their evidence and note, and nothing begun becomes pending again |
| MissionRuns.OneOpenStep | src/mission.rs:237-264 | After the first step of a target that is not confirmed, all steps are pending |
| MissionRuns.PilotGoesFirst | src/mission.rs:237-248 | If anything but pending is found on another target, every step of the pilot is confirmed |
| MissionLaws.StartsOnlyByBegin | src/mission.rs:237-264 | A step starts only by Begin, on a mission that is not paused, and on another computer than the pilot only once released with every pilot step confirmed |
| MissionLaws.OthersWaitForRelease | src/mission.rs:229-264 | Over any run, whatever was begun on another computer than the pilot was begun after an operator released the rollout, with every pilot step confirmed |
| MissionRuns.RunStaysValid | src/mission.rs:223-425 | A mission that was storable when made passes the check at every point of its run, if ids are fresh and the evidence limit is minded |
| Execution.RunRecord.FinishHealth | src/execution.rs:527-548 | A health answer moves baseline to review and verification to passed, failed or restore; elsewhere it is refused |
| Execution.RunRecord.Advance | src/execution.rs:549-562 | The next target, or the end |
| Execution.RunRecord.FailCurrent | src/execution.rs:563-568 | The current target becomes unknown and the run ends |
| Execution.RunRecord.InterruptAfterRestart | src/execution.rs:569-580 | The loop turns every target not at rest into unknown and ends the run |
| Execution.RunRecord.AssessMutation | src/execution.rs:581-618 | The command's answer is matched to the reviewed change and settles the phase |
| ExecutionRuns.StepKeepsStaged | src/execution.rs:492-618 | Every step the application takes keeps the staged rollout and the proof of each phase |
| ExecutionRuns.LaterTargetsWait | src/execution.rs:549-562 | A target has started only if every one before it passed |
| ExecutionRuns.BadEndStops | src/execution.rs:549-562 | After failed, restored or unknown nothing further happens and the run is no success |
| ExecutionRuns.PassedIsEvidenced | src/execution.rs:681-724 | A passed target carries its captured state, checks in order of time, and the confirmed change unless none was needed; so a finished run's passed targets are evidenced successes |
| ExecutionRuns.BadEndsMean | src/execution.rs:527-618 | A failed target had a failing check and no change was needed or made; a restored one was reported in the state it was found in; one waiting to be restored had a failing check after a change |
| ExecutionRuns.SuccessMeansAllChecked | src/execution.rs:492-496 | A run is successful exactly when its last target passed, and then every target has a passing check |
| ExecutionLaws.StartedExactly | src/execution.rs:372-416 | A new run has one untouched target per pair, on staging for a rehearsal and on production otherwise |
| ExecutionLaws.RunStaysOnItsSide | src/execution.rs:372-618 | At every point of every run the targets are those of its side, and plan and digest are the ones it started with |
| ExecutionLaws.CaptureExactly | src/app/execution_panel.rs:991-1009 | The state found, its time and its report are kept, and the check before the change is next |
| ExecutionLaws.ReviewExactly | src/app/execution_panel.rs:1486-1600 | An approval leads to the change where one is needed and to the check where none is; reopening leads back to review |
| ExecutionLaws.BaselineExactly | src/execution.rs:527-533 | The check before the change is recorded whatever it says, and leads to review |
| ExecutionLaws.VerifyExactly | src/execution.rs:534-548 | The check after it passes the target and goes on, or asks for a restoration, or, where nothing was changed, fails it and ends the run |
| ExecutionLaws.CheckRefusals | src/execution.rs:527-547 | A check is refused exactly if none is awaited |
| ExecutionLaws.AssessRefusals | src/execution.rs:581-600 | An answer is refused exactly if there is none, nothing was captured, or it is about another service or change |
| ExecutionLaws.AssessChangeExactly | src/execution.rs:601-618 | A change counts as made only if seen, after the stop a restart needs; as undone only if a rollback was tried, verified and seen; else it is unknown |
| ExecutionLaws.AssessRestorationExactly | src/execution.rs:601-618 | A restoration counts only if verified and seen |
| ExecutionLaws.AnsweredExactly | src/execution.rs:549-618 | After an answer the run goes on exactly if a check is next, and otherwise ends; a refused answer leaves the target unknown |
| ExecutionLaws.FailExactly | src/execution.rs:563-568 | Giving up leaves the target unknown with a note and ends the run |
| ExecutionLaws.InterruptExactly | src/execution.rs:569-580 | A restart ends an unfinished run; what is not at rest is unknown from then on, and what is stays |
| ExecutionLaws.EvidencedExactly | src/execution.rs:681-724 | A success is evidenced exactly if captured, checked, changed as confirmed and checked again in that order, and over by now; without a change only in production |
| ExecutionLaws.SuccessfulExactly | src/execution.rs:492-496 | A run is a success exactly if it has ended and has targets, all passed |
| ExecutionLaws.WellRunSucceeds | src/execution.rs:492-618 | A rollout in which nothing goes wrong takes at most five steps a target, never ends badly, and is a success once it has ended |
| ExecutionLaws.WellRunGoesOn | src/execution.rs:492-618 | Until it has ended there is a step it can go well with |
| Lessons.Journal.Learn | src/execution.rs:734-791 | The nested loops over runs and targets, with seen pairs and groups, compute the specified lessons |
| Lessons.LearnRun | src/execution.rs:744-788 | One run's targets are entered once each, under the group of its workflow |
| Lessons.EntriesConserve | src/execution.rs:734-791 | Each pair of run and computer due is entered exactly once and nothing else is |
| Lessons.RowsComeFromTargets | src/execution.rs:746-788 | Each row is one resting target of a counted run; it counts as success exactly when bound to the plan and evidenced |
| Lessons.LessonsConserve | src/execution.rs:734-791 | Total evidence equals the number of distinct pairs due, and every count is the number of rows of that phase |
| LessonsLaws.LessonRowsExactly | src/execution.rs:734-791 | A lesson holds a row exactly if some resting target of a finished run with a valid plan is the first in the journal of its run and computer, worked on this service in this way, and shows what the row says |
| LessonsLaws.ShownExactly | src/execution.rs:762-777 | A target shows its phase exactly if the run still is the plan reviewed and the target the planned computer of its side, and a success only with its whole evidence; else it is unknown |
| Lessons.AnotherRunOnlyAdds | src/execution.rs:734-791 | Appending a run lowers no count and removes no row, read at the same time |
| Lessons.TimeOnlyClears | src/execution.rs:734-791 | Read later, the same journal has the same groups and rows; only unknown counts can fall, by exactly as much as successes rise |
| Lessons.PhaseClears | src/execution.rs:694-703 | What a target counts as changes with time exactly if its evidence is complete but for a recorded finish that was still to come |
| SqlPreview.ValidateMetadata | src/helper_action.rs:88-120 | The loops with their sets accept exactly well-formed metadata with distinct names and ids |
| SqlPreview.Validate | src/helper_action.rs:172-219 | An action is accepted exactly when it fits verified metadata: engine, new index name, one to four different plain columns |
| SqlLaws.MetadataExactly | src/helper_action.rs:88-120 | Metadata is accepted exactly for a base table with short printable names in one part, up to 512 columns with different names and numbers, and digests |
| SqlLaws.NewIdentifierExactly | src/helper_action.rs:23-29 | A new name has ASCII letters, digits and underscores, and no digit first |
| SqlLaws.CreateExactly | src/helper_action.rs:172-219 | An index is accepted exactly on the verified table of its own engine, under a new name of letters, digits and underscores, over one to four different plain columns |
| SqlLaws.StatisticsExactly | src/helper_action.rs:172-219 | Statistics are accepted exactly on the verified table of their own engine |
| SqlLaws.ExistingIndexRefused | src/helper_action.rs:191-201 | The name of an index that exists is refused, on SQL Server whatever the case of its letters |
| SqlLaws.UnplainColumnRefused | src/helper_action.rs:207-216 | A column that is not there or not plain is refused |
| SqlLaws.NotTwice | src/helper_action.rs:172-219 | Once its index is there, an accepted action is refused |
| SqlLaws.PostgresText | src/helper_action.rs:228-279 | The words of the review text for PostgreSQL |
| SqlLaws.SqlServerText | src/helper_action.rs:228-284 | The words of the review text for SQL Server |
| SqlLaws.EscapedExactly | src/helper_action.rs:222-227 | Escaping goes character by character |
| SqlLaws.QuotedExactly | src/helper_action.rs:222-227 | A name stands between double quotes, or square brackets for SQL Server |
| SqlLaws.StatisticsText | src/helper_action.rs:275-284 | The words of the review text for statistics |
| SqlLaws.ListedMore | src/helper_action.rs:245-259 | Columns are listed in order, between commas, each with its direction |
| SqlReview.PreviewSays | src/helper_action.rs:221-286 | Whatever the names contain, the text reads back as its statement in the dialect it is written in |
| SqlReview.PreviewReadsBack | src/helper_action.rs:221-286 | It reads back as the action itself exactly when an index is not written for the other engine |
| SqlReview.PreviewTellsApart | src/helper_action.rs:172-286 | Accepted actions with equal text are the same statement on the same table with the same columns and directions |
| SqlReview.UncheckedEngineConfuses | src/helper_action.rs:232-270 | Without the engine check two kinds of action share a text |
| IconAnchor.LookAtWindow | src/icon_anchor.rs:111-119 | The loops over the 25 samples stop at the first colour more than 40 off, and pass exactly the windows without one |
| IconAnchor.WindowError | src/icon_anchor.rs:127-137 | The three loops sum the absolute differences of the window |
| IconAnchor.CollectRow | src/icon_anchor.rs:108-150 | The loop over a row looks at each window, compares those that pass, keeps the close ones and gives up after 4096 comparisons |
| IconAnchor.Resolve | src/icon_anchor.rs:98-168 | The search with all its refusals, errors kept as integers in place of confidences |
| IconMatch.ResolvedIsClear | src/icon_anchor.rs:98-168 | A match has least error of all windows passing the 25-point look, is within 2.5%, and no passing window more than 12 pixels away is within 2 points, whatever the 4.5% cut-off dropped |
| IconMatch.FailureHasCause | src/icon_anchor.rs:151-167 | Otherwise no passing window is close enough, or the best one has a rival elsewhere |
| IconLaws.ResolvedExactly | src/icon_anchor.rs:98-168 | A window is found exactly if template and frame are sound, at most 4096 windows pass the quick look, and it is the clear best and the first of those as good as it is |
| IconLaws.NotSearched | src/icon_anchor.rs:98-126 | The refusals before the comparison, each exactly when its cause is the first |
| IconLaws.SearchedInVain | src/icon_anchor.rs:151-168 | Not found exactly if nothing is close, too far exactly if nothing is close enough, ambiguous exactly if something is but none is clear |
| IconLaws.ThresholdsExactly | src/icon_anchor.rs:138-167 | 4.5 and 2.5 percent and 2 points in whole errors, and more than 12 pixels apart |
| IconLaws.TemplateExactly | src/icon_anchor.rs:24-44 | A template has 24 by 24 colours, a contrast of 64, and a variance of 200 as its mean squared deviation |
| IconLaws.PassesExactly | src/icon_anchor.rs:111-119 | The quick look compares red, green and blue at 25 places within 40 |
| IconLaws.ErrorIsDistance | src/icon_anchor.rs:127-137 | The error of a window is the distance between the template and what a capture of that window would copy |
| IconLaws.FrameExactly | src/icon_anchor.rs:170-180 | A frame has four bytes for each of its pixels, in 32 MB at most |
| IconCapture.CopyWindow | src/icon_anchor.rs:82-88 | The copy loops take the window's colour bytes in order |
| IconCapture.Capture | src/icon_anchor.rs:46-97 | Capture with its refusals |
| IconLaws.CapturedExactly | src/icon_anchor.rs:46-97 | An icon is captured exactly if its window lies in a sound frame under no band and over no recognised word of that frame, and the copy is found there up to a pixel |
| IconLaws.CaptureRefusals | src/icon_anchor.rs:46-81 | The refusals before copying, in order |
| IconLaws.OverlapsExactly | src/icon_anchor.rs:67-81 | A word is in the way exactly if it shares a point with the window |
| IconSelfMatch.CaptureFindsItself | src/icon_anchor.rs:83-97 | A captured icon resolves on its own frame without error, within a pixel, and everything passing elsewhere is at least 2 points off |
| Adoption.NewContext | src/procedure_compiler.rs:19-41 | The loop offers each anchor once and refuses unsuitable ones |
| Adoption.NameSlots | src/procedure_compiler.rs:164-190 | The loop with its sets names slots exactly when all parameter edits fit |
| Adoption.AddAssertions | src/procedure_compiler.rs:191-216 | The loop adds assertions exactly when all fit |
| Adoption.Adopt | src/procedure_compiler.rs:144-219 | Adoption as specified |
| AdoptionExactly.AdoptedExactly | src/procedure_compiler.rs:144-219 | A procedure is adopted exactly if it is the source with the edits of a reviewed proposal for that source within the limits, naming open slots and asserting offered anchors, each once and none against what stands, and is sound |
| AdoptionExactly.ProposalExactly | src/procedure_compiler.rs:103-142 | The limits of a proposal in numbers; one that asks for more information proposes nothing |
| AdoptionExactly.BuiltExactly | src/procedure_compiler.rs:19-75 | A context is made exactly of a sound procedure that mentions suitable anchors only and an explanation that says something |
| AdoptionExactly.OfferedInOrder | src/procedure_compiler.rs:19-41 | Anchors are offered in the order in which they are first mentioned: steps, what is expected after them, what is expected at the end |
| AdoptionLaws.AdoptionCommutes | src/procedure_compiler.rs:144-219 | Permuting parameters and assertions changes neither acceptance nor result |
| AdoptionLaws.AdoptionFrames | src/procedure_compiler.rs:144-219 | The result differs from the source only at edited slots and added assertions, loses no assertion, and each new name stands at exactly one step |
| AdoptionLaws.ContextOffersTheSource | src/procedure_compiler.rs:19-41 | The anchors offered are exactly those the source mentions, each once |
| AdoptionLaws.AdoptionInventsNoAnchor | src/procedure_compiler.rs:19-219 | A procedure adopted from the context built for it mentions exactly the anchors of its source: every assertion stands, and each added one names an anchor the source shows |

## Left out

- Storage: SQLite statements, serialisation, encryption at rest and most byte limits are atomic maps and cells; a storage error other than a lost call is not modelled.
- Digests, UUIDs and keyed hashes: taken as injective and fresh; where freshness matters it is a stated hypothesis.
- Text length: counted in characters where the source counts bytes; lower-casing is per character and keeps the length.
- Integer widths: the 64-bit generation and counters do not overflow, 16-bit screen coordinates do not wrap, times are integers of seconds.
- Refusal texts: each is a constructor, and several causes share one where nothing depends on telling them apart; adoption only says whether it refuses.
- Registry values: the normalisation of numbers, binary and multi-string registry data, target validation and the journal's own loading are not modelled; only permissions text is rewritten.
- ChangeJournal.Machine.PersistEntry: the limits on encrypted sizes, of one entry and of the whole journal, and the validation of the target are left out; the entries are counted without stray files in the journal directory.
- Windows: PowerShell, WinRM and the local replacement script are a compare-and-swap target; the script's own ordering of ACE texts is not part of this model.
- Frame producer: that a frame announces its difference from the one before it is a hypothesis of the run theorem; colour conversion is any function of a pixel's four bytes; a new connection's picture is taken to start blank, as its decoder makes it.
- Checkout: URLs, amounts and the price's tax settings are one yes-or-no answer; refunds, portal sessions and subscriptions not made by a checkout are left out; every request of a call is taken to reach the provider within an hour of the call's start, and the call's clock is the provider's.
- Webhooks: signature, timestamp and mode checks come before the model; what an event names is modelled, its transport is not.
- Missions: reports, search, comparison of evidence and saved workflows are left out; the store's size limits too.
- Redaction.RedactText: characters whose lower case has another length are not modelled.
- Execution: the application's driver is given as the steps at which its panel calls the run; team approvals, diagnostic links, lab rehearsals and the proof that releases production are left out, and stored evidence is taken to parse as it did before redaction.
- Lessons.Journal.Learn: the groups are a map, so the order in which they are listed is not modelled.
- Icons: confidences are exact fractions in place of 32-bit floats; redaction bands are any function of the window, and whether recognised text belongs to the frame is one yes-or-no answer.
- Proposals: the check of a procedure and of anchor text are any predicates; step descriptions sent to the compiler are left out.
- Network clients, the remote-desktop session loop, localisation, reports and user interface: no properties of this kind.
