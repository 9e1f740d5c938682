# claudio, modelled and proved in Dafny

claudio carries messages between Claude Code sessions on different machines. This project models
the parts of it that have to be right whatever the timing and whatever the input, and proves what
they promise. `dafny verify dfyconfig.toml` checks everything.

| file | models |
|---|---|
| `SafeText.dfy`, `LinesAndWords.dfy` | cleaning of texts and names and making the delimiter unreadable; what is left of them by lines and words |
| `Envelope.dfy`, `EnvelopeReads.dfy` | the printer and the parser of the element a message travels in; what the parser answers for any content |
| `TrustFrame.dfy`, `SenderRead.dfy` | the blocks a message is framed in below peer level, through printing and parsing; what is read of the sender |
| `WorkspaceModel.dfy`, `WorkspaceEffects.dfy`, `Store.dfy` | the workspace store: its operations as functions with the invariants of their runs, what each of them answers and changes, and the object whose methods carry them out in place |
| `SharedStore.dfy`, `SharedRequests.dfy` | that store's file held by any number of processes, interleaved, with crashes; what each of them asked for and was answered |
| `Ghost.dfy`, `GhostEnds.dfy` | the life of a ghost process: main path, heartbeat, forwarder, command reader; that it always can end |
| `Inbox.dfy`, `InboxEnds.dfy` | accept loop, connections, callers of `Close` and the frame channel; that closing always can end |
| `KeepAlive.dfy` | the restart loop of the supervisor and its backoff |
| `Orphans.dfy`, `OrphanRuns.dfy` | the index of ghosts: the object, and runs of daemons, ghosts and other processes; which of their steps touch what, and a recovery |
| `GhostRuns.dfy` | the protocol of `Ghost.dfy` taking its part in the runs of `Orphans.dfy` |
| `Relay.dfy`, `RelayFates.dfy`, `RelayRoutes.dfy` | the relay: the object, senders, flushes and connections interleaved, exactly what ends an envelope, and which way it takes |
| `Held.dfy`, `HeldFates.dfy`, `HeldSteps.dfy` | the hold gate: the object, runs of arrivals, approvals, discards and restarts, exactly what ends a message, and what each step does by identifiers and order |
| `Reconcile.dfy`, `StableSort.dfy` | which sessions get a peer, and bringing the supervised processes in line |
| `Option.dfy`, `Pieces.dfy` | the one generic result type; texts put together from pieces |

How to read it. Text is a `string` of Unicode scalar values. The regular expressions are written out
as matchers with Go's leftmost-first choice. Objects that change in place are classes whose methods
are proved against functions, and the properties are proved of those functions. Protocols are
transition systems: a `State`, a `Step` for every action another thread or process can observe, a
predicate saying when a step can happen, and `Do`, the state after it. A theorem about "every run"
quantifies over sequences of states that start in `INITIAL` and follow possible steps. Identifiers,
clocks, hashes and whether a write or a removal succeeds are parameters of the steps.

Assumptions the theorems name themselves; the first two are shown to be needed. No rename puts on the store file a
stamp that another resting handle keeps: this is for the freshness of readers only, it is exact
(`SharedStore.StepKeepsFresh`, `SharedStore.ReusedStampGoesStale`), and stamps that tell all versions
apart are a special case of it. For crash recovery, a ghost leaves through `Run` while its daemon lives,
no key is left half written, and a new child gets neither the number of a dead ghost whose files are
still there nor one about to be forgotten; `Orphans.KilledChildLeaks`, `Orphans.CutKeyLeaks`,
`Orphans.ReusedNumberLeaks` and `Orphans.LateForgetLeaks` show what happens otherwise, and
`Orphans.StepKeepsCore` says exactly when, and `GhostRuns.LeavesCleanly` that a ghost's own protocol
leaves a file behind for no other reason than a key half written. For framing, the sender wrote neither
marker of the block, in the body or in the description: `TrustFrame.BlockHoldsExactly` shows that to be
exactly the condition, and not having the identifier is enough for it.

Where the code and what is written about it differ, the code is modelled:

- A comment in `flushQueue` (internal/relay/server.go:297-298) says that a connection that drops in
  the middle of a flush does not lose the rest. It does: only the envelope that failed is put back.
  `RelayFates.EndsExactly` says exactly when an envelope is lost, `RelayFates.FailingWriteLosesNothing`
  that a failing write is harmless only at the last envelope, and `RelayFates.LossHappens` is a run with
  two waiting envelopes that loses one.
- A ghost removes its files on every way out (internal/ghost/ghost.go:82-97), but a publication whose
  key cannot be written whole is never withdrawn, and what there is of the key stays
  (internal/ccpeer/registry.go:275-279, 395-397). `Ghost.NothingIsLeftBehind` gives the exact condition
  and `Ghost.CutKeyStays` the run.
- The store refuses unclean names so that it holds what people chose (internal/workspace/store.go:266-281);
  session names and hostnames pass no such check. `WorkspaceModel.SessionNamesAreUnchecked` shows it, and
  `WorkspaceModel.SessionNamesAreClean` says exactly what a caller has to check for them to be clean.
- The tests of `safetext` look for the delimiter with any number of slashes
  (internal/safetext/safetext_test.go:54); the pattern allows one. The language here is the pattern's.
- The refusal of `CheckField` names line breaks, control and invisible characters
  (internal/safetext/safetext.go:94-98); it also refuses surrounding and repeated spaces.
  `SafeText.CheckFieldAccepts` and `SafeText.FieldFixedPoints` say exactly what it accepts.
- The hold gate stores messages in a file so that none is lost in a restart
  (internal/daemon/held.go:32-36); one that has been taken out for approval is in no file while it is
  being delivered. `HeldFates.CutOffHappens` is a run in which such a message is gone,
  `HeldFates.RestartCutsNothing` says that a restart is harmless exactly when nothing is out for delivery,
  and `HeldFates.EndsExactly` that a message is lost to a restart exactly when one found it out.

## Model

| member | source | states |
|---|---|---|
| SafeText.CleanLoop | internal/safetext/safetext.go:111-140 | the builder loop produces the cleaned text, character by character |
| SafeText.CleanFixedPoints | internal/safetext/safetext.go:111-172 | cleaning leaves alone exactly the texts made of kept characters: no invisible or control ones, only ordinary spaces and, in bodies, line feeds |
| SafeText.CleanKeepsOrdinary | internal/safetext/safetext.go:111-140 | cleaning loses, adds and moves no ordinary character |
| SafeText.TagLenDecidesLanguage | internal/safetext/safetext.go:49 | the matcher finds a delimiter of a length exactly when that prefix is in the language of the pattern, case folding included |
| SafeText.TagIgnoresCase | internal/safetext/safetext.go:49 | the case of letters, the long s included, makes no difference to where a delimiter is found |
| SafeText.ReplaceIsNeutralise | internal/safetext/safetext.go:56-64 | replacing the matches left to right, skipping over each, equals rewriting the bracket at every position where a match begins |
| SafeText.BodyTagFree | internal/safetext/safetext.go:51-64 | after `Body` no position of the text matches the pattern |
| SafeText.BodyFixedPoints | internal/safetext/safetext.go:51-64 | `Body` leaves alone exactly the clean texts in which nothing matches |
| SafeText.BodyIdempotent | internal/safetext/safetext.go:53-55 | applying `Body` twice is applying it once, for every string |
| SafeText.BodyReadable | internal/safetext/safetext.go:59-63 | reading the escapes back in the result gives what reading them in the cleaned text gives, and that is the cleaned text itself exactly when it held no escape before |
| SafeText.FieldShape | internal/safetext/safetext.go:66-78 | `Field` gives at most 96 characters on one line, trimmed, without repeated spaces, also when it truncates |
| SafeText.FieldFixedPoints | internal/safetext/safetext.go:66-78 | `Field` leaves alone exactly the tidy lines of at most 96 characters |
| SafeText.FieldIdempotent | internal/safetext/safetext.go:66-78 | applying `Field` twice is applying it once |
| SafeText.FieldKeepsOrdinary | internal/safetext/safetext.go:71-77 | an uncut field holds every ordinary character in order; a cut one is its first 93 characters and three dots |
| SafeText.CheckFieldAccepts | internal/safetext/safetext.go:86-101 | the boundary accepts exactly the nonempty fixed points of `Field`, calls empty exactly what is made of spaces, and too long exactly what else has more than 96 characters |
| LinesAndWords.LinesAre | internal/safetext/safetext.go:142 | what is called the lines of a text: with their ends, CR LF being one, they make the text, and none holds a break |
| LinesAndWords.CleanLines | internal/safetext/safetext.go:111-142 | cleaning keeps the lines, whichever way they were ended: as many, each without what is not shown and with ordinary spaces |
| LinesAndWords.BodyLines | internal/safetext/safetext.go:51-64 | `Body` keeps the lines too, each with nothing changed but some of its brackets written as escapes |
| LinesAndWords.FieldIsWords | internal/safetext/safetext.go:66-78 | `Field` is exactly the words of the value, one space apart, cut if that is too long |
| Envelope.UnescapeUndoesEscape | internal/ccpeer/client.go:205-208 | unescaping an escaped attribute gives back the value, for every string |
| Envelope.EscapedIsSafe | internal/ccpeer/client.go:205-208 | an escaped value holds no quote and no bracket |
| Envelope.MatchElementDecides | internal/ccpeer/frame.go:63-72 | the element matcher succeeds exactly on contents laid out as one element, and captures the layout the pattern chooses among all there are: most spaces, the newline before the text if it can be had, then the shortest text |
| Envelope.TextRoundTrip | internal/ccpeer/frame.go:63-97 | the text printed between the tags is the text captured, leading and trailing newlines included |
| Envelope.ParseEnvelope | internal/ccpeer/frame.go:74-97 | the loop over attribute matches computes the specified parse, errors included |
| EnvelopeReads.ElementsAre | internal/ccpeer/frame.go:63-64 | a content is an element exactly when it is put together from spaces, the opening tag with attributes, a text and the closing tag |
| EnvelopeReads.AttrAtDecides | internal/ccpeer/frame.go:65 | an attribute is matched at a place exactly when a name, an equals sign and a quoted value stand there, and in one way only |
| EnvelopeReads.AttrsFound | internal/ccpeer/frame.go:85 | the attributes found are leftmost first, without overlap, and none that could be found is left out |
| EnvelopeReads.EscapeIsRead | internal/ccpeer/frame.go:99-102 | an escape is read as its character, whatever follows it |
| EnvelopeReads.PlainIsRead | internal/ccpeer/frame.go:99-102 | what begins no escape is read as it is, an ampersand included |
| EnvelopeReads.UnescapeFixedPoints | internal/ccpeer/frame.go:99-102 | unescaping leaves alone exactly the values in which no escape begins |
| EnvelopeReads.ParseDecides | internal/ccpeer/frame.go:74-97 | for every content: no element exactly when it is not laid out as one; unattributed exactly when the last `from-name` stands for nothing or there is none; otherwise each field is what the last attribute of its own name stands for |
| Envelope.NewFrame | internal/ccpeer/client.go:144-199 | the printer, reassigning its options, computes the specified frame or refusal |
| Envelope.NewFrameAccepts | internal/ccpeer/client.go:144-170 | a frame is built exactly when the address passes the boundary check and the name survives cleaning |
| EnvelopeReads.FrameRefusals | internal/ccpeer/client.go:144-170 | which refusal it is: the first of no address, no name, an address the boundary does not accept, a name of which nothing is left |
| EnvelopeReads.FrameIs | internal/ccpeer/client.go:171-199 | all the fields of a frame that is built, and its element to the last character |
| Envelope.ParseUndoesNewFrame | internal/ccpeer/client.go:144-199 | for all options: the frame built parses back to the exact address, cleaned name, cleaned mode with its default, and neutralised text; a refusal is down to the address or the name alone |
| TrustFrame.WriteBlock | internal/trust/trust.go:150-198 | the builder of a block appends exactly the specified block |
| TrustFrame.Frame | internal/trust/trust.go:135-189 | framing at each level produces the specified text |
| SenderRead.SenderReads | internal/trust/trust.go:222-243 | what is read of the sender: the name or that it is another member, session and workspace exactly when something is left of them, the warning exactly when the mode is not `prompting`; each field neutralised on its own |
| SenderRead.WarningIsAdded | internal/trust/trust.go:237-241 | declaring a mode adds the warning or nothing, whatever else the sender says |
| SenderRead.EmptyField | internal/trust/trust.go:222-237 | nothing is left of a field exactly when it held no ordinary character |
| SenderRead.ReadInFull | internal/trust/trust.go:135-189 | through framing, printing and parsing, all that is read below peer level: the sentences of that level in order, the sender, the rule of the block with its identifier, and the block |
| TrustFrame.BlockCloses | internal/trust/trust.go:145-198 | in a block whose body does not hold the identifier the closing marker stands at the end and nowhere else |
| TrustFrame.BlockOpens | internal/trust/trust.go:145-198 | and its opening marker at the beginning and nowhere else |
| TrustFrame.FramedRead | internal/ccpeer/client.go:179-189 | the frame builder's own neutralising leaves the whole block as it is and reaches only the sender's description |
| TrustFrame.EndsInBlockExactly | internal/trust/trust.go:145-198 | in heading and block each marker occurs once, the closing one at the very end, exactly when neither marker occurs in the description or the body they were made of |
| TrustFrame.BlockHoldsExactly | internal/trust/trust.go:135-243 | through framing, printing and parsing below peer level, the receiver reads the heading and then all of the cleaned body between markers that occur exactly once, if and only if neither marker occurs in the cleaned body or in the neutralised description of the sender |
| TrustFrame.BlockHoldsThroughPath | internal/trust/trust.go:135-243 | in particular this holds whenever the identifier of the block occurs neither in the cleaned body nor in the description |
| TrustFrame.PathIsPossible | internal/trust/trust.go:135-243 | the conditions of that theorem can all be met, at every level below peer |
| TrustFrame.PeerReadsBody | internal/trust/trust.go:135-145 | at peer level the receiver reads the cleaned body and nothing else |
| WorkspaceModel.StepKeepsReferences | internal/workspace/store.go:258-616 | every operation keeps the referential invariant: sessions backed by an active member and that member's machine, slugs unique, owners active, identities unique per workspace |
| WorkspaceModel.StepKeepsCounts | internal/workspace/store.go:401-464 | every operation keeps the count of members against the uses of invitations |
| WorkspaceModel.CountingLaw | internal/workspace/store.go:423-461 | in every state of every run a workspace has 1 plus the sum of uses members, revoked ones included, and no limited invitation is used beyond its limit |
| WorkspaceModel.RunIsSound | internal/workspace/store.go:258-616 | every state of every run satisfies all invariants |
| WorkspaceModel.RevocationIsPermanent | internal/workspace/store.go:503-533 | once revoked, a member is revoked in every later state, owns no session, is in no roster and is refused every usable code of the workspace |
| WorkspaceModel.RevokedCannotRedeem | internal/workspace/store.go:432-441 | a usable code does not bring a revoked identity back and changes nothing |
| WorkspaceModel.RevokeTouchesOneMember | internal/workspace/store.go:503-533 | revoking changes one member and deletes that member's sessions, and nothing else |
| WorkspaceModel.ReplaceSessionsExact | internal/workspace/store.go:557-595 | after a report the machine exposes exactly what was reported, each session with the name, status, owner and time of its last report; other sessions whose id was not reported are as they were, and nothing else but the machine changes |
| WorkspaceModel.NamesAreClean | internal/workspace/store.go:258-290 | when every operation passed the boundary check, every stored person, slug and workspace name is a nonempty fixed point of `Field` |
| WorkspaceModel.SessionNamesAreUnchecked | internal/workspace/store.go:557-595 | any name at all can be stored as the name of a session and as a hostname |
| WorkspaceModel.StepKeepsExposed | internal/workspace/store.go:557-616 | for any property of names: clean session names and hostnames stay clean over an operation exactly when it stores no report whose hostname, or whose last name for some session, is unclean |
| WorkspaceModel.SessionNamesAreClean | internal/workspace/store.go:557-616 | over whole runs: every session name and hostname of every state is a nonempty fixed point of `Field` exactly when every report stored passed the boundary check that way |
| WorkspaceEffects.JoinsExactly | internal/workspace/store.go:423-461 | a redemption adds a member exactly when the code's invitation was not revoked, has not expired, has a use left, and the identity is not in its workspace; any other changes nothing |
| WorkspaceEffects.RefusalsExactly | internal/workspace/model.go:112-124 | which refusal it is: no such code, then the first of revoked, expired and spent |
| WorkspaceEffects.RejoinsExactly | internal/workspace/store.go:432-441 | where the code admits, an identity of the workspace gets its own membership back if it is active and is refused if it was revoked |
| WorkspaceEffects.JoinAdds | internal/workspace/store.go:443-461 | exactly the member that is added and the one use that is counted |
| WorkspaceEffects.InvitesExactly | internal/workspace/store.go:354-394 | an invitation is for that workspace, unused, limited as asked, and lasts exactly as long as asked, or for ever with no lifetime |
| WorkspaceEffects.CodeAdmits | internal/workspace/store.go:354-464 | over runs: a code admits a stranger exactly while its lifetime since the step that made it has not passed and fewer have joined by it than it was made for |
| WorkspaceEffects.SlugsExactly | internal/workspace/store.go:286-290 | a workspace is refused exactly when its slug is taken |
| WorkspaceEffects.CreatesExactly | internal/workspace/store.go:292-331 | otherwise exactly that workspace and that owner come about |
| WorkspaceEffects.RevokesExactly | internal/workspace/store.go:503-533 | revoking is refused for a member that is not there and for an owner and only then; the member keeps all but status and time |
| WorkspaceEffects.SetsTrustExactly | internal/workspace/store.go:537-553 | the trust becomes the one given and nothing else changes |
| WorkspaceEffects.DropsExactly | internal/workspace/store.go:599-616 | the machine goes with its own sessions and no others |
| WorkspaceEffects.ReportsLand | internal/workspace/store.go:557-595 | a report is refused exactly for a member not there or not active; it lands under the machine and the session identifiers it names, or new ones |
| WorkspaceEffects.RosterExactly | internal/workspace/store.go:620-640 | in a sound store a roster holds exactly the sessions of everybody else of the workspace |
| WorkspaceEffects.RosterHides | internal/workspace/store.go:620-640 | in any store at all nobody sees a session of a revoked member, of themselves, or of elsewhere |
| WorkspaceEffects.SeenByOneWorkspace | internal/workspace/store.go:620-640 | every session is seen in one workspace, by all its members but the owner, and nowhere else |
| WorkspaceEffects.DoorExactly | internal/workspace/store.go:258-281 | the door lets through exactly usable identities, acceptable names and lifetimes that are not negative |
| WorkspaceEffects.DoorRefusals | internal/workspace/store.go:258-281 | and refuses with the first reason in the order of the checks |
| WorkspaceEffects.RunIsVetted | internal/workspace/store.go:258-464 | so in every state of every run all identities have two whole keys and no invitation expires before it is made |
| Store.Store.CreateWorkspace | internal/workspace/store.go:258-331 | with the slug trimmed and lowered first, the new state and answer are those of the operation |
| Store.Store.CreateInvitation | internal/workspace/store.go:354-394 | the same for a new invitation |
| Store.Store.Redeem | internal/workspace/store.go:401-464 | the same for redeeming, with its loops over invitations and members |
| Store.Store.FindInvitation | internal/workspace/store.go:423-427 | the loop returns an invitation with the hash, and nothing exactly when there is none |
| Store.Store.FindExisting | internal/workspace/store.go:432-441 | the loop returns a member with the full identity, and nothing exactly when there is none |
| Store.Store.Revoke | internal/workspace/store.go:503-533 | the method's new state and answer are those of the operation |
| Store.Store.SetTrust | internal/workspace/store.go:537-553 | the same for the trust of a member |
| Store.Store.ReplaceSessions | internal/workspace/store.go:557-595 | the same for a report of sessions |
| Store.Store.DropMachine | internal/workspace/store.go:599-616 | the same for a machine that went away |
| Store.Store.RosterOf | internal/workspace/store.go:620-640 | the loop collects exactly the roster |
| SharedStore.StepKeepsInv | internal/workspace/store.go:84-215 | every step of every process, crashes included, keeps the invariant and only appends to the history of the file |
| SharedStore.StepRefinesAtomicStore | internal/workspace/store.go:84-104 | only a rename by the lock's holder changes the file, and it is one whole operation on the current version |
| SharedStore.NoLostUpdate | internal/workspace/store.go:84-104 | in every interleaving the file's versions are one store running the committed operations in lock order, every answer is that store's, and an answered change is in every later log |
| SharedStore.LaterSeesEarlier | internal/workspace/store.go:84-104 | the lock order is a real time order: an operation answered after another one, and so every one begun after it, ran on a version that holds what the other did |
| SharedRequests.AnswersTheRequest | internal/workspace/store.go:84-104 | an answer is to the operation the process asked for, as given on the version on disk then; by the time it is given this operation has been added to the log if it writes, and nothing else |
| SharedRequests.ChangeGetsThrough | internal/workspace/store.go:84-104 | when nobody has the lock any process at rest can carry any operation through to its answer |
| SharedStore.MutualExclusion | internal/workspace/lock.go:32-66 | at most one process is between taking the lock and giving it back |
| SharedStore.ReadersAreFresh | internal/workspace/store.go:106-169 | while no rename reuses a stamp that another resting handle keeps, a reader answers from one whole version, no older than the one on disk at its stat |
| SharedRequests.ReadsSinceItsStat | internal/workspace/store.go:106-169 | a read answers with a whole version no older than the file was at its own stat |
| SharedRequests.ReadGetsThrough | internal/workspace/store.go:106-169 | a process at rest can read whatever others do: from memory when its stamp is the file's, from the version on disk when it is not |
| SharedStore.StepKeepsFresh | internal/workspace/store.go:112-169 | a step keeps every handle fresh exactly when it installs no stamp another resting handle keeps |
| SharedStore.ReusedStampGoesStale | internal/workspace/store.go:112-129 | as soon as a rename does install such a stamp, that handle can be led to answer from an older version |
| SharedStore.DistinctStampsAreFresh | internal/workspace/store.go:246-254 | stamps that tell all versions apart are more than enough |
| SharedStore.EqualStampsGoStale | internal/workspace/store.go:112-129 | when a change is committed under the stamp a reader has, that reader can be led to answer from an older version |
| Ghost.StepKeepsInv | internal/ghost/ghost.go:49-275 | every step of the four threads keeps the invariant relating them to the files |
| Ghost.NothingIsLeftBehind | internal/ghost/ghost.go:79-126 | when `Run` has returned, on every path, the record is there exactly if removing it failed, the key exactly if removing it failed or its own write failed after creating it, and no later step writes one back |
| Ghost.CutKeyStays | internal/ccpeer/registry.go:275-279 | a run in which the key stays although every removal succeeded |
| Ghost.RemovalIsLast | internal/ghost/ghost.go:148-275 | the record is removed at most once and no write of it comes after |
| Ghost.BoundBeforePublished | internal/ghost/ghost.go:79-126 | while a record is on disk its endpoint has been bound, and is open until the shutdown |
| Ghost.RefreshOutlivesStop | internal/ghost/ghost.go:235-275 | a refresh can be under way after the stop was seen and the inbox closed, which is why the heartbeat is waited for |
| Ghost.WithoutTheWaitItComesBack | internal/ghost/ghost.go:115-125 | in the same protocol without that wait, a run from the beginning returns with the record on disk although every removal succeeded |
| GhostEnds.AlwaysReturns | internal/ghost/ghost.go:79-275 | no wait is in vain: in every state of every run a ghost that was told to stop can come to its return, with neither file left unless a removal was refused or the key half written before |
| GhostEnds.PublishFailureEnds | internal/ghost/ghost.go:79-87 | a ghost that cannot publish closes its endpoint and leaves nothing |
| GhostEnds.ReadyFailureEnds | internal/ghost/ghost.go:89-113 | one that cannot report that it is up can withdraw what it published and return |
| GhostEnds.ToldToStopEnds | internal/ghost/ghost.go:190-221 | when its commands end, it is told to shut down or its parent cancels, a serving ghost can come to its return with nothing left |
| GhostEnds.GoneEnds | internal/ghost/ghost.go:235-275 | when its endpoint is gone it reports that and can come to its return of itself |
| GhostEnds.GoesRound | internal/ghost/ghost.go:235-275 | a heartbeat that is not told to stop goes round, whether its refresh is written, fails or cannot be installed |
| Inbox.StepKeepsInv | internal/ccpeer/inbox.go:116-217 | every step keeps the counts of the wait groups and the state of the channel in agreement with who runs |
| Inbox.NeverPanics | internal/ccpeer/inbox.go:116-185 | in no interleaving is a frame sent on the closed channel, the channel closed twice or a wait group taken below zero |
| Inbox.ClosingIsLast | internal/ccpeer/inbox.go:116-140 | the channel is closed only after every connection ended, and nothing is sent or accepted after |
| Inbox.CloseReturnsStopped | internal/ccpeer/inbox.go:206-217 | when any call of `Close` has returned the channel is closed, and the accept loop and all connections have ended |
| Inbox.RangeEndsComplete | internal/ccpeer/inbox.go:109-140 | a reader whose range ended has received every frame ever sent, in order |
| Inbox.ReceivedInOrder | internal/ccpeer/inbox.go:109-185 | what was received is always the beginning of what was sent, at most the buffer short |
| Inbox.SentWasDecoded | internal/ccpeer/inbox.go:150-185 | what a connection sends is the frame it decoded last, once |
| Inbox.NoneAfterClosing | internal/ccpeer/inbox.go:116-130 | once a call of `Close` has closed the listener no connection is accepted |
| InboxEnds.CloseCanReturn | internal/ccpeer/inbox.go:206-217 | in every state of every run every call of `Close` can return, as long as frames are read and connections end |
| InboxEnds.StuckWithoutReader | internal/ccpeer/inbox.go:134-185 | with the channel full and a frame to send, none returns while nobody reads |
| InboxEnds.FrameGetsIn | internal/ccpeer/inbox.go:116-185 | while the listener is open a new connection can bring a frame |
| InboxEnds.RangeCanEnd | internal/ccpeer/inbox.go:107-140 | once the channel is closed a reader can take all that was sent and come to the end of its range |
| KeepAlive.RestartLoop | internal/daemon/supervisor.go:211-260 | never more than eight short runs in a row, giving up exactly at the eighth, every sleep the one of its place in the stretch and at most 25.6 s |
| KeepAlive.SleepBound | internal/daemon/supervisor.go:20-26 | the eight possible sleeps are at most 25.6 s, so the cap of 30 s never binds |
| KeepAlive.StretchSum | internal/daemon/supervisor.go:211-260 | the sleeps of a stretch of n runs sum to 200 ms times 2^n - 1 |
| KeepAlive.StretchTotal | internal/daemon/supervisor.go:211-260 | a stretch has at most eight sleeps, each twice the one before from 200 ms on, and together they are at most 51 s |
| Orphans.Index.constructor | internal/daemon/orphans.go:40-73 | loading enters every persisted entry |
| Orphans.Index.Track | internal/daemon/orphans.go:103-114 | the entry is added and persisted |
| Orphans.Index.Forget | internal/daemon/orphans.go:117-123 | the entry is dropped and the rest persisted |
| Orphans.Index.Sweep | internal/daemon/orphans.go:125-167 | exactly the files of dead tracked processes go, except those the system refuses to remove; the live entries stay and are persisted; the count is of records removed |
| Orphans.SweepIsSwept | internal/daemon/orphans.go:134-167 | the sweep of the runs is the sweep of the index: both leave the same records, keys and entries |
| Orphans.StepKeepsCore | internal/daemon/supervisor.go:286-390 | the index keeps finding every file of a ghost exactly as long as no number is forgotten under which a ghost left one or may still publish |
| Orphans.CrashRecovery | internal/daemon/supervisor.go:286-316 | over runs with crashes at any step every record and key of a ghost is findable, and a starting daemon removes every one whose process is dead and touches no file of a live one |
| OrphanRuns.RecoveryHappens | internal/daemon/supervisor.go:286-316 | such a run: a daemon crashes, its ghost dies with both files on disk, and the next daemon that starts removes them |
| OrphanRuns.DaemonExactly | internal/daemon/orphans.go:53-73 | starting keeps exactly the entries of live processes; crashing stops no process |
| OrphanRuns.ChildExactly | internal/daemon/supervisor.go:331-345 | waiting, forgetting and abandoning each change exactly the one number's place in the daemon |
| OrphanRuns.OwnFilesOnly | internal/daemon/supervisor.go:286-390 | no step of one process or for it touches a file or an entry of another number, but starting |
| OrphanRuns.ForeignSpared | internal/daemon/orphans.go:125-133 | while a process that is no ghost lives nobody takes its files away |
| OrphanRuns.ForeignExactly | internal/daemon/orphans.go:125-133 | it writes its own files and takes away its own |
| GhostRuns.ProtocolFitsTheRuns | internal/ghost/ghost.go:79-275 | among daemons, crashes and other processes in any interleaving, every file the ghost's protocol writes or removes is a step those runs allow, the files on disk are those the protocol believes in, and after `Run` it may leave |
| GhostRuns.LeavesCleanly | internal/ghost/ghost.go:79-126 | a ghost that leaves through `Run` leaves a file exactly when a step of its protocol left a key half written, as long as the system refuses no removal |
| Orphans.KilledChildLeaks | internal/daemon/supervisor.go:331-345 | from any state, a child killed after publishing and then forgotten leaves a record that cannot be found |
| Orphans.CutKeyLeaks | internal/ccpeer/registry.go:395-397 | so does one whose key was cut off while being written, although it leaves through `Run` |
| Orphans.ReusedNumberLeaks | internal/daemon/supervisor.go:331-345 | so does a child that gets the number of a dead ghost whose files are there and leaves before publishing |
| Orphans.LateForgetLeaks | internal/daemon/supervisor.go:338-339 | and a child that gets the number of one waited for and not yet forgotten is forgotten in its place |
| Relay.Server.Register | internal/relay/server.go:341-351 | a newer connection replaces the older one, which is handed back to be closed |
| Relay.Server.Unregister | internal/relay/server.go:353-358 | takes out this connection and no other |
| Relay.Server.Enqueue | internal/relay/server.go:274-283 | the newest 500 of what waits remain, the new one last, other members' queues untouched |
| Relay.Server.TakeQueue | internal/relay/server.go:285-289 | the whole queue is taken and none is left |
| Relay.Server.Flush | internal/relay/server.go:285-303 | alone, a flush sends the unexpired part of the queue up to where the connection breaks, in order, and leaves only that one envelope in the queue |
| Relay.UnexpiredIsSuffix | internal/relay/server.go:291-295 | in a queue in time order what is not expired is a suffix |
| Relay.StepKeepsInv | internal/relay/server.go:235-365 | every step of senders, flushes and connections keeps queues bounded, ordered and free of repetition, and every envelope where its record says it is |
| Relay.AtMostOnce | internal/relay/server.go:260-303 | in every run an accepted envelope is in at most one place, written at most once, and in none exactly when it expired, overflowed or was lost by a failed flush |
| Relay.OnlyToTheRecipient | internal/relay/server.go:260-303 | every successful write is to a connection of the envelope's own recipient |
| Relay.QueuesAreBounded | internal/relay/server.go:274-283 | no member's queue ever exceeds 500 |
| Relay.FlushWritesAStretch | internal/relay/server.go:285-303 | under all interleavings what a flush has written is one unbroken stretch of the queue it took, in order, skipping exactly the expired front |
| Relay.FateIsFinal | internal/relay/server.go:260-303 | a written, expired, overflowed or lost envelope stays that for the rest of the run |
| Relay.FailedFlushLosesTheRest | internal/relay/server.go:296-301 | what a failing flush had still to send after the envelope it failed on is nowhere in any later state |
| RelayFates.EndsExactly | internal/relay/server.go:260-303 | exactly when an envelope is written, expires, overflows or is lost, by the guards of the branches: lost if and only if some write failed while its flush still had the envelope to send |
| RelayFates.FailingWriteLosesNothing | internal/relay/server.go:296-301 | a failing write loses nothing exactly when it is at the last envelope of its flush |
| RelayFates.ExpiresLate | internal/relay/server.go:291-295 | an envelope expires only when the clock is more than 72 hours past the step that queued it |
| RelayFates.LossHappens | internal/relay/server.go:285-303 | a run from the empty relay in which two envelopes wait, a write fails, and one of them is lost |
| RelayFates.ExpiryHappens | internal/relay/server.go:291-295 | a run from the empty relay in which an envelope expires unwritten |
| RelayRoutes.OnlineExactly | internal/relay/server.go:341-358 | in every run a connection is the member's one exactly when it registered, was not replaced since and did not leave |
| RelayRoutes.QueuedOnlyWhenAway | internal/relay/server.go:260-271 | an envelope is queued only if its recipient had no connection when it came or writing to that one failed |
| RelayRoutes.WrittenToTheConnected | internal/relay/server.go:260-271 | a direct write goes to the connection the recipient had when the envelope came |
| RelayRoutes.QueueExactly | internal/relay/server.go:260-283 | what cannot be delivered waits last in its recipient's queue, of which the newest 500 remain, and no other queue changes |
| RelayRoutes.PutBackExactly | internal/relay/server.go:296-301 | so does what a flush could not write, in the queue of the member it was flushing for, with a new time |
| RelayRoutes.OtherwiseQueuesStay | internal/relay/server.go:260-303 | nothing else changes a queue but a flush that takes it |
| RelayRoutes.ExpiresExactly | internal/relay/server.go:285-303 | what a flush meets expires exactly when it was queued more than 72 hours before the flush read its clock, and is otherwise written to the connection whose queue was taken |
| RelayRoutes.DirectGetsThrough | internal/relay/server.go:260-271 | an envelope for a connected member can be written at once |
| RelayRoutes.WaitingGetsThrough | internal/relay/server.go:285-303 | all that waits and was queued in the last 72 hours can be written in order to a connection that comes |
| Held.HeldStore.Add | internal/daemon/held.go:68-80 | the newest 200 remain, the new one last, and the count of dropped ones grows by what went |
| Held.HeldStore.Take | internal/daemon/held.go:83-95 | the first item with the id goes and the others keep their order; without one nothing changes |
| Held.HeldStore.List | internal/daemon/held.go:98-106 | in order of time, every item, ties in the order they were added |
| Held.StepKeepsInv | internal/daemon/daemon.go:809-907 | every arrival, approval, delivery, failure with its putting back, discard and restart keeps store, hands and counter in agreement with the fates |
| Held.Conservation | internal/daemon/daemon.go:884-907 | in every run the messages withheld are those held, in hand, delivered, discarded, counted as dropped or cut off by a restart, each exactly one, and at most 200 are held |
| Held.SurvivorsKeepOrder | internal/daemon/held.go:68-95 | the held items are always a subsequence of the additions |
| Held.FateIsFinal | internal/daemon/daemon.go:884-907 | only a held message or one in hand changes what becomes of it |
| HeldFates.EndsExactly | internal/daemon/daemon.go:809-907 | exactly when a withheld message is delivered, discarded, dropped or cut off, by the guards of the branches: cut off if and only if some restart found it out for delivery |
| HeldFates.RestartCutsNothing | internal/daemon/held.go:32-36 | a restart cuts off nothing exactly when nothing is out for delivery |
| HeldFates.CutOffHappens | internal/daemon/daemon.go:884-907 | a run from the empty gate in which an approved message is gone after a restart: not held, not delivered, not counted as dropped |
| HeldSteps.ApproveExactly | internal/daemon/held.go:83-95 | an approval takes the first message held under the identifier asked for; the others stay in order, and without one nothing changes |
| HeldSteps.DiscardExactly | internal/daemon/held.go:83-95 | a discard likewise, for good |
| HeldSteps.ArriveExactly | internal/daemon/held.go:68-80 | an arrival is held last under its identifier, and what gives way is counted and dropped |
| HeldSteps.DeliveryExactly | internal/daemon/daemon.go:894-903 | a delivery that fails puts the very message back, last and under its new identifier; one that succeeds ends it |
| HeldSteps.RestartExactly | internal/daemon/held.go:32-66 | a restart keeps all that is held and cuts off exactly what is in hand |
| HeldSteps.ApproveById | internal/daemon/daemon.go:884-907 | the method with its store takes these steps |
| HeldSteps.DeliveredWasAskedFor | internal/daemon/daemon.go:884-907 | over runs: what was delivered had been taken by an approval naming an identifier it was held under first |
| StableSort.SortIsStable | internal/daemon/daemon.go:599-601 | in order, every element, equal keys in their old order |
| StableSort.StableIsUnique | internal/daemon/daemon.go:599-601 | and that leaves only one result |
| Reconcile.LeastRecentlyUsed | internal/daemon/daemon.go:589-603 | min(candidates, cap) are kept, nobody evicted was used later than anybody kept, ties go to the front of the roster, nobody is invented or duplicated |
| Reconcile.PeersAre | internal/daemon/daemon.go:567-608 | each name stands for the last session that has it, the workspace's own for all unless a session took it, and there is at most one name per session besides it |
| Reconcile.WantedIsBounded | internal/daemon/daemon.go:548-609 | at most cap + 1 names, and none before the first connection or in mode off |
| Reconcile.WantedExactly | internal/daemon/daemon.go:548-609 | what is wanted, from policy, roster and times alone: the names of the most recently used of the eligible sessions, all of the roster or the subscribed, as many as the cap allows, each for the last session that has it |
| Reconcile.ManualCandidates | internal/daemon/daemon.go:574-584 | in manual mode the candidates are the subscribed of the roster, each as often as there, and nobody else |
| Reconcile.Daemon.Want | internal/daemon/daemon.go:548-609 | the method with its loops computes the specified names |
| Reconcile.Daemon.Reconcile | internal/daemon/daemon.go:514-543 | afterwards the supervised names are the wanted ones exactly when the supervisor is open or ran them all, a peer wanted before and after is not restarted, exactly those no longer wanted have ended, a degraded daemon changes nothing |
| Reconcile.Supervisor.Ensure | internal/daemon/supervisor.go:127-151 | fails only when closed and never touches a peer that is there |
| Reconcile.Supervisor.Close | internal/daemon/supervisor.go:413-427 | afterwards the supervisor is closed and every peer has ended; a second call changes nothing |
| Reconcile.Supervisor.Release | internal/daemon/supervisor.go:155-168 | takes out this peer and no other, and it has ended on return |

## Left out

- Invalid UTF-8: texts are sequences of Unicode scalar values.
- Cryptography, hashing of codes, drawing of ids, clocks, sockets, JSON, HTTP and process inspection: parameters of the operations and steps.
- Failing reads, writes and renames in the store, the hold gate and the ghost index: a persist happens or the process dies; a store that cannot be written or read is not part of this model.
- Opening a store handle is one step; invitation codes arrive normalised and hashed.
- Store.Store.CreateWorkspace: the lower case of a character is a parameter.
- The door checks a store method makes before it takes the lock appear in the operation itself.
- `MemberBySigning`, `ListMembers`, profile, directory and version fields: they would only add easy members.
- Several goroutines inside one store handle: one call at a time per handle; the handles themselves interleave.
- Liveness: that an end can always be reached is proved (`GhostEnds`, `InboxEnds`, `SharedRequests`, `RelayRoutes`); that a scheduler does reach it is not.
- GhostEnds.AlwaysReturns: closing the inbox is one step of the ghost; `InboxEnds.CloseCanReturn` and `InboxEnds.StuckWithoutReader` say what that step needs, and a forwarder that stopped because its parent is gone no longer reads (internal/ghost/ghost.go:167-173).
- Orphans.CrashRecovery: files the system refuses to remove are in `Orphans.Index.Sweep` and `Ghost.NothingIsLeftBehind` and not in these runs or those of `GhostRuns`; persisting the index does not fail.
- Relay: handshake, rosters, the sessions dropped when a connection goes, and any order between direct writes and a queue.
- Relay.Server.Flush: stands for a flush nothing interferes with; the interleaved one is the steps `Take`, `ReadClock`, `Next` and `PutBack`.
- Held: which deliveries reach the gate (`trust.Resolve`, the settings) and why a delivery fails.
- Reconcile: how a peer's name is formed (`PeerName`, `SafeName`) and concurrent calls of the supervisor during one `Reconcile`.
- `Deliver`, `DecodeFrame`, the command line, the MCP server, configuration and status: plumbing.
