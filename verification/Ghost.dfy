/**
 The life of a ghost process: the main path, the heartbeat, the forwarder and the reader of
 commands, interleaved step by step around the record it publishes.
 */
module Ghost {
  /** The main path, from the first command to the return. */
  datatype Main =
    | Starting        // reading init, opening the registry, choosing a path, listening
    | Bound           // the endpoint is bound, nothing is published
    | RecordWritten   // Publish has written the record and not yet the key
    | Published       // the publication is complete, withdraw is deferred
    | Serving         // in the select of serve
    | Stopping        // cancelled, about to stop accepting
    | Draining        // the inbox is closed, waiting for the forwarder
    | Settling        // waiting for the heartbeat
    | Served          // serve has returned
    | Withdrawing     // inside the closure that runs once, about to remove the record
    | RecordGone      // about to remove the key
    | Deferred        // the deferred call of that closure
    | Unwinding       // only the deferred close of the inbox is left
    | Returned

  datatype Heartbeat = NotBeating | Sleeping | Ticked | Alive | TmpWritten | Gone | Reporting | Cancelling | Stopped
  datatype Forwarder = NotForwarding | Forwarding | Drained
  datatype Commands = NotReading | Reading | Ended

  /** `record` and `key` are the files on disk, `withdrawals` counts the attempts to remove them. The
      last three fields say why one may outlive the ghost: the system refused to remove the record,
      or the key, or the key was never written whole, in which case nobody tries to remove it. */
  datatype Files = Files(record: bool, key: bool, withdrawals: nat, recordStuck: bool, keyStuck: bool, keyCut: bool)

  datatype State = State(main: Main, heartbeat: Heartbeat, forwarder: Forwarder, commands: Commands,
                         cancelled: bool, bound: bool, inboxOpen: bool, files: Files)

  const NO_FILES := Files(false, false, 0, false, false, false)
  const INITIAL := State(Starting, NotBeating, NotForwarding, NotReading, false, false, false, NO_FILES)

  datatype Step =
    | StartFails                 // any error before the endpoint is bound
    | Listen
    | PublishFails               // before the record is written
    | WriteRecord
    | WriteKey
    | WriteKeyFails(created: bool, removed: bool)  // whether the key file is there; whether the record went
    | ReadySent
    | ReadyFails
    | SeeStop                    // the select of serve: the context is done or the commands ended
    | CloseInbox
    | ForwarderWaited
    | HeartbeatWaited
    | CloseInboxAgain
    | RemoveRecord(removed: bool)
    | RemoveKey(removed: bool)
    | WithdrawOnce
    | Unwind
    | ParentCancels
    | Tick
    | HeartbeatSeesDone
    | Check(alive: bool)
    | WriteTmp
    | WriteTmpFails
    | Install(ok: bool)          // the rename that makes the refreshed record visible
    | GoneWhileStopping
    | GoneWhileRunning
    | Reported
    | HeartbeatCancels
    | ForwarderStops             // its range ended, or a send failed
    | ShutdownCommand
    | CommandsEnd

  predicate Enabled(s: State, step: Step) {
    match step
    case StartFails => s.main.Starting?
    case Listen => s.main.Starting?
    case PublishFails => s.main.Bound?
    case WriteRecord => s.main.Bound?
    case WriteKey => s.main.RecordWritten?
    case WriteKeyFails(_, _) => s.main.RecordWritten?
    case ReadySent => s.main.Published?
    case ReadyFails => s.main.Published?
    case SeeStop => s.main.Serving? && (s.cancelled || s.commands.Ended?)
    case CloseInbox => s.main.Stopping?
    case ForwarderWaited => s.main.Draining? && s.forwarder.Drained?
    case HeartbeatWaited => s.main.Settling? && s.heartbeat.Stopped?
    case CloseInboxAgain => s.main.Served?
    case RemoveRecord(_) => s.main.Withdrawing?
    case RemoveKey(_) => s.main.RecordGone?
    case WithdrawOnce => s.main.Deferred?
    case Unwind => s.main.Unwinding?
    case ParentCancels => true
    case Tick => s.heartbeat.Sleeping?
    case HeartbeatSeesDone => s.heartbeat.Sleeping? && s.cancelled
    case Check(_) => s.heartbeat.Ticked?
    case WriteTmp => s.heartbeat.Alive?
    case WriteTmpFails => s.heartbeat.Alive?
    case Install(_) => s.heartbeat.TmpWritten?
    case GoneWhileStopping => s.heartbeat.Gone? && s.cancelled
    case GoneWhileRunning => s.heartbeat.Gone? && !s.cancelled
    case Reported => s.heartbeat.Reporting?
    case HeartbeatCancels => s.heartbeat.Cancelling?
    case ForwarderStops => s.forwarder.Forwarding?
    case ShutdownCommand => s.commands.Reading?
    case CommandsEnd => s.commands.Reading?
  }

  /** The key could not be written: the record goes again, and what there is of the key stays. */
  function KeyFailed(f: Files, created: bool, removed: bool): Files {
    f.(record := !removed, recordStuck := f.recordStuck || !removed, key := created, keyCut := f.keyCut || created)
  }

  function RecordRemoved(f: Files, removed: bool): Files {
    f.(record := f.record && !removed, recordStuck := f.recordStuck || !removed, withdrawals := f.withdrawals + 1)
  }

  function KeyRemoved(f: Files, removed: bool): Files {
    f.(key := f.key && !removed, keyStuck := f.keyStuck || !removed)
  }

  function Do(s: State, step: Step): State
    requires Enabled(s, step)
  {
    match step
    case StartFails => s.(main := Returned)
    case Listen => s.(main := Bound, bound := true, inboxOpen := true)
    case PublishFails => s.(main := Unwinding)
    case WriteRecord => s.(main := RecordWritten, files := s.files.(record := true))
    case WriteKey => s.(main := Published, files := s.files.(key := true))
    case WriteKeyFails(created, removed) => s.(main := Unwinding, files := KeyFailed(s.files, created, removed))
    case ReadySent => s.(main := Serving, heartbeat := Sleeping, forwarder := Forwarding, commands := Reading)
    case ReadyFails => s.(main := Deferred)
    case SeeStop => s.(main := Stopping, cancelled := true)
    case CloseInbox => s.(main := Draining, inboxOpen := false)
    case ForwarderWaited => s.(main := Settling)
    case HeartbeatWaited => s.(main := Served)
    case CloseInboxAgain => s.(main := Withdrawing)
    case RemoveRecord(removed) => s.(main := RecordGone, files := RecordRemoved(s.files, removed))
    case RemoveKey(removed) => s.(main := Deferred, files := KeyRemoved(s.files, removed))
    case WithdrawOnce => s.(main := if s.files.withdrawals == 0 then Withdrawing else Unwinding)
    case Unwind => s.(main := Returned, inboxOpen := false)
    case ParentCancels => s.(cancelled := true)
    case Tick => s.(heartbeat := Ticked)
    case HeartbeatSeesDone => s.(heartbeat := Stopped)
    case Check(alive) => s.(heartbeat := if alive then Alive else Gone)
    case WriteTmp => s.(heartbeat := TmpWritten)
    case WriteTmpFails => s.(heartbeat := Sleeping)
    case Install(ok) => s.(heartbeat := Sleeping, files := s.files.(record := s.files.record || ok))
    case GoneWhileStopping => s.(heartbeat := Stopped)
    case GoneWhileRunning => s.(heartbeat := Reporting)
    case Reported => s.(heartbeat := Cancelling)
    case HeartbeatCancels => s.(heartbeat := Stopped, cancelled := true)
    case ForwarderStops => s.(forwarder := Drained)
    case ShutdownCommand => s.(cancelled := true)
    case CommandsEnd => s.(commands := Ended)
  }

  predicate BeforeServing(m: Main) {
    m.Starting? || m.Bound? || m.RecordWritten? || m.Published?
  }

  predicate InServe(m: Main) {
    m.Serving? || m.Stopping? || m.Draining? || m.Settling?
  }

  /** Past the point where the heartbeat could still write. */
  predicate HeartbeatOver(m: Main) {
    m.Served? || m.Withdrawing? || m.RecordGone? || m.Deferred? || m.Unwinding? || m.Returned?
  }

  /** Between binding the endpoint and closing it. */
  predicate Accepting(m: Main) {
    m.Bound? || m.RecordWritten? || m.Published? || m.Serving? || m.Stopping?
  }

  /** Both files are there and nothing has gone wrong with them. */
  const WHOLE := Files(true, true, 0, false, false, false)

  /** What is on disk is there for one of the three reasons. */
  predicate Explained(f: Files) {
    (f.record <==> f.recordStuck) && (f.key <==> f.keyStuck || f.keyCut)
  }

  predicate Inv(s: State) {
    && (BeforeServing(s.main) ==> s.heartbeat.NotBeating? && s.forwarder.NotForwarding?)
    && (InServe(s.main) ==> !s.heartbeat.NotBeating? && !s.forwarder.NotForwarding? && s.files == WHOLE)
    && (s.main.Stopping? || s.main.Draining? || s.main.Settling? ==> s.cancelled)
    && (s.main.Settling? ==> s.forwarder.Drained?)
    && (HeartbeatOver(s.main) ==> s.heartbeat.NotBeating? || s.heartbeat.Stopped?)
    && (s.main.Starting? || s.main.Bound? ==> s.files == NO_FILES)
    && (s.main.RecordWritten? ==> s.files == WHOLE.(key := false))
    && (s.main.Published? || s.main.Served? || s.main.Withdrawing? ==> s.files == WHOLE)
    && (s.main.RecordGone? ==> s.files == RecordRemoved(WHOLE, !s.files.recordStuck))
    && (s.main.Deferred? ==> s.files == WHOLE || (s.files.withdrawals == 1 && Explained(s.files)))
    && (s.main.Unwinding? || s.main.Returned? ==> s.files.withdrawals <= 1 && Explained(s.files))
    && (s.files.record ==> s.bound)
    && (s.main.Starting? ==> !s.bound && !s.inboxOpen)
    && (Accepting(s.main) ==> s.bound && s.inboxOpen)
    && (s.main.Returned? || s.main.Draining? || s.main.Settling? || s.main.Served? ==> !s.inboxOpen)
  }

  lemma StepKeepsInv(s: State, step: Step)
    requires Inv(s) && Enabled(s, step)
    ensures Inv(Do(s, step))
  {
  }

  ghost predicate IsTrace(states: seq<State>, steps: seq<Step>) {
    && |states| == |steps| + 1 && states[0] == INITIAL
    && forall i :: 0 <= i < |steps| ==> Enabled(states[i], steps[i]) && states[i + 1] == Do(states[i], steps[i])
  }

  lemma {:induction false} TraceInv(states: seq<State>, steps: seq<Step>, n: nat)
    requires IsTrace(states, steps) && n < |states|
    ensures Inv(states[n])
  {
    if n > 0 {
      TraceInv(states, steps, n - 1);
      StepKeepsInv(states[n - 1], steps[n - 1]);
    }
  }

  lemma ReturnedStep(s: State, step: Step)
    requires s.main.Returned? && !s.inboxOpen && (s.heartbeat.NotBeating? || s.heartbeat.Stopped?) && Enabled(s, step)
    ensures var t := Do(s, step); t.main.Returned? && t.files == s.files && !t.inboxOpen
  {
  }

  predicate Removed(s: State) {
    s.files.withdrawals == 1 && (s.main.RecordGone? || s.main.Deferred? || s.main.Unwinding? || s.main.Returned?)
  }

  lemma RemovedStep(s: State, step: Step)
    requires Inv(s) && Enabled(s, step) && (step.RemoveRecord? || Removed(s))
    ensures Removed(Do(s, step))
  {
  }

  lemma {:induction false} ReturnedIsFinal(states: seq<State>, steps: seq<Step>, m: nat, n: nat)
    requires IsTrace(states, steps) && m <= n < |states| && states[m].main.Returned?
    ensures states[n].main.Returned? && states[n].files == states[m].files && !states[n].inboxOpen
    decreases n
  {
    TraceInv(states, steps, m);
    if m < n {
      ReturnedIsFinal(states, steps, m, n - 1);
      TraceInv(states, steps, n - 1);
      ReturnedStep(states[n - 1], steps[n - 1]);
    }
  }

  /** The step fails to remove the record. */
  predicate RefusesRecord(step: Step) {
    match step
    case RemoveRecord(removed) => !removed
    case WriteKeyFails(_, removed) => !removed
    case _ => false
  }

  /** The step fails to remove the key, or to write it after creating it. */
  predicate RefusesKey(step: Step) {
    match step
    case RemoveKey(removed) => !removed
    case WriteKeyFails(created, _) => created
    case _ => false
  }

  /** One of the first `n` steps failed to remove the record. */
  ghost predicate RecordRefused(steps: seq<Step>, n: nat)
    requires n <= |steps|
  {
    exists i :: 0 <= i < n && RefusesRecord(steps[i])
  }

  /** One of the first `n` steps failed to remove the key, or to write it after creating it. */
  ghost predicate KeyRefused(steps: seq<Step>, n: nat)
    requires n <= |steps|
  {
    exists i :: 0 <= i < n && RefusesKey(steps[i])
  }

  lemma StepReasons(s: State, step: Step)
    requires Enabled(s, step)
    ensures var f, g := s.files, Do(s, step).files;
            && (g.recordStuck <==> f.recordStuck || RefusesRecord(step))
            && (g.keyStuck || g.keyCut <==> f.keyStuck || f.keyCut || RefusesKey(step))
  {
    match step
    case WriteKeyFails(_, _) =>
    case RemoveRecord(_) =>
    case RemoveKey(_) =>
    case WriteRecord =>
    case WriteKey =>
    case Install(_) =>
    case _ => assert Do(s, step).files == s.files;
  }

  /** The reasons on record are those the first `n` steps gave. */
  ghost predicate Reasoned(f: Files, steps: seq<Step>, n: nat)
    requires n <= |steps|
  {
    && (f.recordStuck <==> RecordRefused(steps, n))
    && (f.keyStuck || f.keyCut <==> KeyRefused(steps, n))
  }

  lemma OneMoreReasoned(f: Files, g: Files, steps: seq<Step>, n: nat)
    requires n < |steps| && Reasoned(f, steps, n)
    requires g.recordStuck <==> f.recordStuck || RefusesRecord(steps[n])
    requires g.keyStuck || g.keyCut <==> f.keyStuck || f.keyCut || RefusesKey(steps[n])
    ensures Reasoned(g, steps, n + 1)
  {
  }

  lemma {:induction false} ReasonsAreSteps(states: seq<State>, steps: seq<Step>, n: nat)
    requires IsTrace(states, steps) && n < |states|
    ensures Reasoned(states[n].files, steps, n)
  {
    if n > 0 {
      ReasonsAreSteps(states, steps, n - 1);
      StepReasons(states[n - 1], steps[n - 1]);
      OneMoreReasoned(states[n - 1].files, states[n].files, steps, n - 1);
    }
  }

  /** When Run has returned, on whichever path, the record is there exactly if removing it failed,
      and the key exactly if removing it failed or its own write failed after creating it; and
      whatever still runs never writes one back. */
  lemma NothingIsLeftBehind(states: seq<State>, steps: seq<Step>, m: nat, n: nat)
    requires IsTrace(states, steps) && m <= n < |states| && states[m].main.Returned?
    ensures states[n].files.record <==> RecordRefused(steps, m)
    ensures states[n].files.key <==> KeyRefused(steps, m)
    ensures !(states[n].heartbeat.Alive? || states[n].heartbeat.TmpWritten?)
  {
    TraceInv(states, steps, m);
    ReasonsAreSteps(states, steps, m);
    ReturnedIsFinal(states, steps, m, n);
    TraceInv(states, steps, n);
  }

  /** A key can be left behind although the system removed all it was asked to: its write failed
      after creating the file, and nobody withdraws a publication that did not come about. */
  lemma CutKeyStays() returns (states: seq<State>, steps: seq<Step>)
    ensures IsTrace(states, steps) && states[|steps|].main.Returned?
    ensures !states[|steps|].files.record && states[|steps|].files.key
    ensures forall i :: 0 <= i < |steps| ==> !RefusesRecord(steps[i]) && steps[i] != RemoveKey(false)
  {
    var s1 := Do(INITIAL, Listen);
    var s2 := Do(s1, WriteRecord);
    var s3 := Do(s2, WriteKeyFails(true, true));
    steps := [Listen, WriteRecord, WriteKeyFails(true, true), Unwind];
    states := [INITIAL, s1, s2, s3, Do(s3, Unwind)];
  }

  /** The record is removed at most once, and by then the heartbeat can write no more. */
  lemma RemovalIsLast(states: seq<State>, steps: seq<Step>, i: nat)
    requires IsTrace(states, steps) && i < |steps| && steps[i].RemoveRecord?
    ensures states[i].files.withdrawals == 0
    ensures forall j :: i < j < |states| ==> states[j].files.withdrawals == 1
    ensures forall j :: i < j < |steps| ==> !steps[j].Install? && !steps[j].WriteRecord?
  {
    TraceInv(states, steps, i);
    forall j | i < j < |states| ensures states[j].files.withdrawals == 1 && HeartbeatOver(states[j].main) {
      AfterRemoval(states, steps, i, j);
    }
    forall j | i < j < |steps| ensures !steps[j].Install? && !steps[j].WriteRecord? {
      TraceInv(states, steps, j);
    }
  }

  lemma {:induction false} AfterRemoval(states: seq<State>, steps: seq<Step>, i: nat, j: nat)
    requires IsTrace(states, steps) && i < j < |states| && steps[i].RemoveRecord?
    ensures Removed(states[j])
    decreases j
  {
    TraceInv(states, steps, j - 1);
    if i + 1 < j {
      AfterRemoval(states, steps, i, j - 1);
    }
    RemovedStep(states[j - 1], steps[j - 1]);
  }

  /** A record on disk always names an endpoint that was bound first, and open until the shutdown. */
  lemma BoundBeforePublished(states: seq<State>, steps: seq<Step>, n: nat)
    requires IsTrace(states, steps) && n < |states| && states[n].files.record
    ensures states[n].bound
    ensures states[n].inboxOpen || states[n].main.Draining? || states[n].main.Settling? || HeartbeatOver(states[n].main)
  {
    TraceInv(states, steps, n);
  }

  // ---------- Why the heartbeat is waited for ----------

  /** The protocol, or the protocol without that wait: then the main path goes on whatever the
      heartbeat is doing. */
  predicate EnabledIn(waits: bool, s: State, step: Step) {
    if step.HeartbeatWaited? && !waits then s.main.Settling? else Enabled(s, step)
  }

  function DoIn(waits: bool, s: State, step: Step): State
    requires EnabledIn(waits, s, step)
  {
    if step.HeartbeatWaited? then s.(main := Served) else Do(s, step)
  }

  ghost predicate Reaches(waits: bool, s: State, t: State, steps: seq<Step>)
    decreases |steps|
  {
    if steps == [] then s == t
      else EnabledIn(waits, s, steps[0]) && Reaches(waits, DoIn(waits, s, steps[0]), t, steps[1..])
  }

  lemma Prepend(waits: bool, s: State, step: Step, t: State, rest: seq<Step>)
    requires EnabledIn(waits, s, step) && Reaches(waits, DoIn(waits, s, step), t, rest)
    ensures Reaches(waits, s, t, [step] + rest)
  {
    assert ([step] + rest)[1..] == rest;
  }

  lemma {:induction false} Join(waits: bool, s: State, t: State, u: State, a: seq<Step>, b: seq<Step>)
    requires Reaches(waits, s, t, a) && Reaches(waits, t, u, b)
    ensures Reaches(waits, s, u, a + b)
    decreases |a|
  {
    if a == [] {
      assert a + b == b;
    } else {
      Join(waits, DoIn(waits, s, a[0]), t, u, a[1..], b);
      Prepend(waits, s, a[0], u, a[1..] + b);
      assert [a[0]] + (a[1..] + b) == a + b;
    }
  }

  /** The ghost comes up and starts to serve. */
  lemma ComesUp(waits: bool) returns (t: State)
    ensures t.main.Serving? && t.heartbeat.Sleeping? && t.forwarder.Forwarding? && t.files == WHOLE && !t.cancelled
    ensures Reaches(waits, INITIAL, t, [Listen] + ([WriteRecord] + ([WriteKey] + ([ReadySent] + []))))
  {
    var s1 := Do(INITIAL, Listen);
    var s2 := Do(s1, WriteRecord);
    var s3 := Do(s2, WriteKey);
    t := Do(s3, ReadySent);
    Prepend(waits, s3, ReadySent, t, []);
    Prepend(waits, s2, WriteKey, t, [ReadySent] + []);
    Prepend(waits, s1, WriteRecord, t, [WriteKey] + ([ReadySent] + []));
    Prepend(waits, INITIAL, Listen, t, [WriteRecord] + ([WriteKey] + ([ReadySent] + [])));
  }

  /** The heartbeat begins a refresh, and the parent cancels. */
  lemma BeginsRefresh(waits: bool, s: State) returns (t: State)
    requires s.heartbeat.Sleeping?
    ensures t == s.(heartbeat := TmpWritten, cancelled := true)
    ensures Reaches(waits, s, t, [Tick] + ([Check(true)] + ([WriteTmp] + ([ParentCancels] + []))))
  {
    var s1 := Do(s, Tick);
    var s2 := Do(s1, Check(true));
    var s3 := Do(s2, WriteTmp);
    t := Do(s3, ParentCancels);
    Prepend(waits, s3, ParentCancels, t, []);
    Prepend(waits, s2, WriteTmp, t, [ParentCancels] + []);
    Prepend(waits, s1, Check(true), t, [WriteTmp] + ([ParentCancels] + []));
    Prepend(waits, s, Tick, t, [Check(true)] + ([WriteTmp] + ([ParentCancels] + [])));
  }

  /** The main path sees that it has to stop, closes the inbox and waits for the forwarder. */
  lemma Stops(waits: bool, s: State) returns (t: State)
    requires s.main.Serving? && s.cancelled && s.forwarder.Forwarding?
    ensures t == s.(main := Settling, inboxOpen := false, forwarder := Drained)
    ensures Reaches(waits, s, t, [SeeStop] + ([CloseInbox] + ([ForwarderStops] + ([ForwarderWaited] + []))))
  {
    var s1 := Do(s, SeeStop);
    var s2 := Do(s1, CloseInbox);
    var s3 := Do(s2, ForwarderStops);
    t := Do(s3, ForwarderWaited);
    Prepend(waits, s3, ForwarderWaited, t, []);
    Prepend(waits, s2, ForwarderStops, t, [ForwarderWaited] + []);
    Prepend(waits, s1, CloseInbox, t, [ForwarderStops] + ([ForwarderWaited] + []));
    Prepend(waits, s, SeeStop, t, [CloseInbox] + ([ForwarderStops] + ([ForwarderWaited] + [])));
  }

  /** In the protocol as it is, a refresh can be under way after the stop was seen and the inbox
      closed: from a serving ghost the timer may still win the select. */
  lemma RefreshOutlivesStop(s: State) returns (t: State, steps: seq<Step>)
    requires s.main.Serving? && s.heartbeat.Sleeping? && s.forwarder.Forwarding?
    ensures Reaches(true, s, t, steps) && t.main.Settling? && t.heartbeat.TmpWritten?
  {
    var m := BeginsRefresh(true, s);
    t := Stops(true, m);
    var b := [Tick] + ([Check(true)] + ([WriteTmp] + ([ParentCancels] + [])));
    var c := [SeeStop] + ([CloseInbox] + ([ForwarderStops] + ([ForwarderWaited] + [])));
    Join(true, s, m, t, b, c);
    steps := b + c;
  }

  /** Without the wait the main path goes on to remove both files. */
  lemma Withdraws(s: State) returns (t: State)
    requires s.main.Settling? && s.files == WHOLE
    ensures t == s.(main := Deferred, files := NO_FILES.(withdrawals := 1))
    ensures Reaches(false, s, t,
                    [HeartbeatWaited] + ([CloseInboxAgain] + ([RemoveRecord(true)] + ([RemoveKey(true)] + []))))
  {
    var s1 := DoIn(false, s, HeartbeatWaited);
    var s2 := Do(s1, CloseInboxAgain);
    var s3 := Do(s2, RemoveRecord(true));
    t := Do(s3, RemoveKey(true));
    Prepend(false, s3, RemoveKey(true), t, []);
    Prepend(false, s2, RemoveRecord(true), t, [RemoveKey(true)] + []);
    Prepend(false, s1, CloseInboxAgain, t, [RemoveRecord(true)] + ([RemoveKey(true)] + []));
    Prepend(false, s, HeartbeatWaited, t, [CloseInboxAgain] + ([RemoveRecord(true)] + ([RemoveKey(true)] + [])));
  }

  /** It returns, and the refresh that was under way puts the record back. */
  lemma ReturnsThenInstalls(s: State) returns (t: State)
    requires s.main.Deferred? && s.heartbeat.TmpWritten? && s.files.withdrawals == 1
    ensures t == s.(main := Returned, inboxOpen := false, heartbeat := Sleeping, files := s.files.(record := true))
    ensures Reaches(false, s, t, [WithdrawOnce] + ([Unwind] + ([Install(true)] + [])))
  {
    var s1 := Do(s, WithdrawOnce);
    var s2 := Do(s1, Unwind);
    t := Do(s2, Install(true));
    Prepend(false, s2, Install(true), t, []);
    Prepend(false, s1, Unwind, t, [Install(true)] + []);
    Prepend(false, s, WithdrawOnce, t, [Unwind] + ([Install(true)] + []));
  }

  /** The wait is what keeps the record from coming back: without it, and with everything else as it
      is, a run from the beginning ends in a returned ghost whose record is on disk although every
      removal succeeded. */
  lemma WithoutTheWaitItComesBack() returns (t: State, steps: seq<Step>)
    ensures Reaches(false, INITIAL, t, steps)
    ensures t.main.Returned? && t.files.record && !t.files.recordStuck
  {
    var up := ComesUp(false);
    var refreshing := BeginsRefresh(false, up);
    var settling := Stops(false, refreshing);
    var gone := Withdraws(settling);
    t := ReturnsThenInstalls(gone);
    var a := [Listen] + ([WriteRecord] + ([WriteKey] + ([ReadySent] + [])));
    var b := [Tick] + ([Check(true)] + ([WriteTmp] + ([ParentCancels] + [])));
    var c := [SeeStop] + ([CloseInbox] + ([ForwarderStops] + ([ForwarderWaited] + [])));
    var d := [HeartbeatWaited] + ([CloseInboxAgain] + ([RemoveRecord(true)] + ([RemoveKey(true)] + [])));
    var e := [WithdrawOnce] + ([Unwind] + ([Install(true)] + []));
    Join(false, INITIAL, up, refreshing, a, b);
    Join(false, INITIAL, refreshing, settling, a + b, c);
    Join(false, INITIAL, settling, gone, a + b + c, d);
    Join(false, INITIAL, gone, t, a + b + c + d, e);
    steps := a + b + c + d + e;
  }
}
