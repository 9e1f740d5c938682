/**
 A ghost that was told to stop can always come to its return, wherever its threads are, and with nothing
 left on disk that the system lets it remove.
 */
module GhostEnds {
  import opened Ghost

  /** Steps that lead from `s` to a return, refusing no removal; `t` is the state there. */
  ghost predicate Ends(s: State, t: State, steps: seq<Step>) {
    && Reaches(true, s, t, steps) && t.main.Returned?
    && t.files.recordStuck == s.files.recordStuck && t.files.keyStuck == s.files.keyStuck
    && t.files.keyCut == s.files.keyCut
  }

  /** The step refuses nothing and leaves no key half written. */
  predicate Smooth(step: Step) {
    step != RemoveRecord(false) && step != RemoveKey(false) && !step.WriteKeyFails?
  }

  lemma Then(s: State, step: Step, t: State, steps: seq<Step>) returns (all: seq<Step>)
    requires Enabled(s, step) && Smooth(step) && Ends(Do(s, step), t, steps)
    ensures Ends(s, t, all)
  {
    all := [step] + steps;
    Prepend(true, s, step, t, steps);
  }

  lemma FromReturned(s: State) returns (t: State, steps: seq<Step>)
    requires s.main.Returned?
    ensures Ends(s, t, steps)
  {
    t, steps := s, [];
  }

  lemma FromUnwinding(s: State) returns (t: State, steps: seq<Step>)
    requires s.main.Unwinding?
    ensures Ends(s, t, steps)
  {
    t, steps := FromReturned(Do(s, Unwind));
    steps := Then(s, Unwind, t, steps);
  }

  lemma FromWithdrawn(s: State) returns (t: State, steps: seq<Step>)
    requires s.main.Deferred? && s.files.withdrawals > 0
    ensures Ends(s, t, steps)
  {
    t, steps := FromUnwinding(Do(s, WithdrawOnce));
    steps := Then(s, WithdrawOnce, t, steps);
  }

  lemma FromRecordGone(s: State) returns (t: State, steps: seq<Step>)
    requires s.main.RecordGone? && s.files.withdrawals > 0
    ensures Ends(s, t, steps)
  {
    t, steps := FromWithdrawn(Do(s, RemoveKey(true)));
    steps := Then(s, RemoveKey(true), t, steps);
  }

  lemma FromWithdrawing(s: State) returns (t: State, steps: seq<Step>)
    requires s.main.Withdrawing?
    ensures Ends(s, t, steps)
  {
    t, steps := FromRecordGone(Do(s, RemoveRecord(true)));
    steps := Then(s, RemoveRecord(true), t, steps);
  }

  lemma FromDeferred(s: State) returns (t: State, steps: seq<Step>)
    requires s.main.Deferred?
    ensures Ends(s, t, steps)
  {
    if s.files.withdrawals > 0 {
      t, steps := FromWithdrawn(s);
    } else {
      t, steps := FromWithdrawing(Do(s, WithdrawOnce));
      steps := Then(s, WithdrawOnce, t, steps);
    }
  }

  lemma FromServed(s: State) returns (t: State, steps: seq<Step>)
    requires s.main.Served?
    ensures Ends(s, t, steps)
  {
    t, steps := FromWithdrawing(Do(s, CloseInboxAgain));
    steps := Then(s, CloseInboxAgain, t, steps);
  }

  // ---------- The wait for the heartbeat is never in vain ----------

  lemma FromSettled(s: State) returns (t: State, steps: seq<Step>)
    requires s.main.Settling? && s.heartbeat.Stopped?
    ensures Ends(s, t, steps)
  {
    t, steps := FromServed(Do(s, HeartbeatWaited));
    steps := Then(s, HeartbeatWaited, t, steps);
  }

  /** From sleep a heartbeat that has been cancelled sees it. */
  lemma FromSleeping(s: State) returns (t: State, steps: seq<Step>)
    requires s.main.Settling? && s.heartbeat.Sleeping? && s.cancelled
    ensures Ends(s, t, steps)
  {
    t, steps := FromSettled(Do(s, HeartbeatSeesDone));
    steps := Then(s, HeartbeatSeesDone, t, steps);
  }

  /** Wherever the heartbeat is, it comes to its end; a refresh under way is finished first. */
  lemma FromSettling(s: State) returns (t: State, steps: seq<Step>)
    requires Inv(s) && s.main.Settling?
    ensures Ends(s, t, steps)
    decreases Rounds(s.heartbeat)
  {
    match s.heartbeat
    case Stopped => t, steps := FromSettled(s);
    case Sleeping => t, steps := FromSleeping(s);
    case Ticked => t, steps := SettlingBy(s, Check(true));
    case Alive => t, steps := SettlingBy(s, WriteTmp);
    case TmpWritten => t, steps := SettlingBy(s, Install(true));
    case Gone => t, steps := SettlingBy(s, GoneWhileStopping);
    case Reporting => t, steps := SettlingBy(s, Reported);
    case Cancelling => t, steps := SettlingBy(s, HeartbeatCancels);
  }

  /** How many steps the heartbeat is from where it can stop. */
  function Rounds(h: Heartbeat): nat {
    match h
    case Ticked => 4
    case Alive => 3
    case TmpWritten => 2
    case Reporting => 3
    case Cancelling => 2
    case Gone => 1
    case _ => 0
  }

  lemma SettlingBy(s: State, step: Step) returns (t: State, steps: seq<Step>)
    requires Inv(s) && s.main.Settling? && Enabled(s, step) && Smooth(step)
    requires Do(s, step).main.Settling? && Rounds(Do(s, step).heartbeat) < Rounds(s.heartbeat)
    ensures Ends(s, t, steps)
    decreases Rounds(s.heartbeat), 0
  {
    StepKeepsInv(s, step);
    t, steps := FromSettling(Do(s, step));
    steps := Then(s, step, t, steps);
  }

  // ---------- The rest of the way ----------

  lemma FromDraining(s: State) returns (t: State, steps: seq<Step>)
    requires Inv(s) && s.main.Draining?
    ensures Ends(s, t, steps)
  {
    if s.forwarder.Drained? {
      StepKeepsInv(s, ForwarderWaited);
      t, steps := FromSettling(Do(s, ForwarderWaited));
      steps := Then(s, ForwarderWaited, t, steps);
    } else {
      var s1 := Do(s, ForwarderStops);
      StepKeepsInv(s, ForwarderStops);
      StepKeepsInv(s1, ForwarderWaited);
      t, steps := FromSettling(Do(s1, ForwarderWaited));
      steps := Then(s1, ForwarderWaited, t, steps);
      steps := Then(s, ForwarderStops, t, steps);
    }
  }

  lemma FromStopping(s: State) returns (t: State, steps: seq<Step>)
    requires Inv(s) && s.main.Stopping?
    ensures Ends(s, t, steps)
  {
    StepKeepsInv(s, CloseInbox);
    t, steps := FromDraining(Do(s, CloseInbox));
    steps := Then(s, CloseInbox, t, steps);
  }

  lemma FromServing(s: State) returns (t: State, steps: seq<Step>)
    requires Inv(s) && s.main.Serving? && (s.cancelled || s.commands.Ended?)
    ensures Ends(s, t, steps)
  {
    StepKeepsInv(s, SeeStop);
    t, steps := FromStopping(Do(s, SeeStop));
    steps := Then(s, SeeStop, t, steps);
  }

  lemma FromPublished(s: State) returns (t: State, steps: seq<Step>)
    requires Inv(s) && s.main.Published? && s.cancelled
    ensures Ends(s, t, steps)
  {
    StepKeepsInv(s, ReadySent);
    t, steps := FromServing(Do(s, ReadySent));
    steps := Then(s, ReadySent, t, steps);
  }

  lemma BeforeServingEnds(s: State) returns (t: State, steps: seq<Step>)
    requires Inv(s) && BeforeServing(s.main) && s.cancelled
    ensures Ends(s, t, steps)
    decreases if s.main.Starting? then 2 else if s.main.Bound? then 1 else 0
  {
    match s.main
    case Starting =>
      StepKeepsInv(s, Listen);
      t, steps := BeforeServingEnds(Do(s, Listen));
      steps := Then(s, Listen, t, steps);
    case Bound =>
      StepKeepsInv(s, WriteRecord);
      t, steps := BeforeServingEnds(Do(s, WriteRecord));
      steps := Then(s, WriteRecord, t, steps);
    case RecordWritten =>
      StepKeepsInv(s, WriteKey);
      t, steps := FromPublished(Do(s, WriteKey));
      steps := Then(s, WriteKey, t, steps);
    case Published => t, steps := FromPublished(s);
  }

  /** No wait of a ghost is in vain: in every state of every run, once it has been told to stop or its
      commands have ended, there are steps of its own that lead to its return, and if the system refuses
      no removal and no key was left half written before, neither record nor key is left there. */
  lemma AlwaysReturns(states: seq<State>, steps: seq<Step>, n: nat) returns (t: State, more: seq<Step>)
    requires IsTrace(states, steps) && n < |states|
    requires states[n].cancelled || (states[n].commands.Ended? && !BeforeServing(states[n].main))
    ensures Reaches(true, states[n], t, more) && t.main.Returned?
    ensures !RecordRefused(steps, n) ==> !t.files.record
    ensures !KeyRefused(steps, n) ==> !t.files.key
  {
    var s := states[n];
    TraceInv(states, steps, n);
    ReasonsAreSteps(states, steps, n);
    t, more := StateEnds(s);
    ReachesInv(s, t, more);
  }

  lemma StateEnds(s: State) returns (t: State, steps: seq<Step>)
    requires Inv(s) && (s.cancelled || (s.commands.Ended? && !BeforeServing(s.main)))
    ensures Ends(s, t, steps)
  {
    match s.main
    case Serving => t, steps := FromServing(s);
    case Stopping => t, steps := FromStopping(s);
    case Draining => t, steps := FromDraining(s);
    case Settling => t, steps := FromSettling(s);
    case Served => t, steps := FromServed(s);
    case Withdrawing => t, steps := FromWithdrawing(s);
    case RecordGone => t, steps := FromRecordGone(s);
    case Deferred => t, steps := FromDeferred(s);
    case Unwinding => t, steps := FromUnwinding(s);
    case Returned => t, steps := FromReturned(s);
    case _ => t, steps := BeforeServingEnds(s);
  }

  lemma {:induction false} ReachesInv(s: State, t: State, steps: seq<Step>)
    requires Inv(s) && Reaches(true, s, t, steps)
    ensures Inv(t)
    decreases |steps|
  {
    if steps != [] {
      StepKeepsInv(s, steps[0]);
      ReachesInv(Do(s, steps[0]), t, steps[1..]);
    }
  }

  // ---------- The ways out ----------

  /** A ghost that cannot start returns at once and leaves nothing. */
  lemma StartFailureEnds(s: State) returns (t: State, steps: seq<Step>)
    requires Inv(s) && s.main.Starting?
    ensures steps == [StartFails] && Reaches(true, s, t, steps) && t.main.Returned? && !t.files.record && !t.files.key
  {
    t, steps := Do(s, StartFails), [StartFails];
    assert steps[1..] == [];
  }

  /** One that cannot publish closes its endpoint again and leaves nothing. */
  lemma PublishFailureEnds(s: State) returns (t: State, steps: seq<Step>)
    requires Inv(s) && s.main.Bound?
    ensures steps == [PublishFails, Unwind] && Reaches(true, s, t, steps)
    ensures t.main.Returned? && !t.inboxOpen && !t.files.record && !t.files.key
  {
    var s1 := Do(s, PublishFails);
    t, steps := Do(s1, Unwind), [PublishFails, Unwind];
    assert steps[1..] == [Unwind] && [Unwind][1..] == [];
  }

  /** One that cannot report that it is up withdraws what it has published. */
  lemma ReadyFailureEnds(s: State) returns (t: State, steps: seq<Step>)
    requires Inv(s) && s.main.Published?
    ensures Reaches(true, s, t, steps) && steps != [] && steps[0] == ReadyFails
    ensures t.main.Returned? && !t.files.record && !t.files.key
  {
    StepKeepsInv(s, ReadyFails);
    t, steps := FromDeferred(Do(s, ReadyFails));
    Prepend(true, s, ReadyFails, t, steps);
    steps := [ReadyFails] + steps;
    ReachesInv(s, t, steps);
  }

  /** When a serving ghost's commands end, when it is told to shut down, and when its parent cancels, it can
      come to its return with nothing left. */
  lemma ToldToStopEnds(s: State, step: Step) returns (t: State, steps: seq<Step>)
    requires Inv(s) && s.main.Serving? && s.commands.Reading?
    requires step == CommandsEnd || step == ShutdownCommand || step == ParentCancels
    ensures Reaches(true, s, t, steps) && steps != [] && steps[0] == step
    ensures t.main.Returned? && !t.files.record && !t.files.key
  {
    StepKeepsInv(s, step);
    t, steps := FromServing(Do(s, step));
    Prepend(true, s, step, t, steps);
    steps := [step] + steps;
    ReachesInv(s, t, steps);
  }

  lemma ServingReadsCommands(s: State, step: Step)
    requires Enabled(s, step) && (s.main.Serving? ==> !s.commands.NotReading?)
    ensures Do(s, step).main.Serving? ==> !Do(s, step).commands.NotReading?
  {
  }

  /** A serving ghost is always reading commands, or they have ended. */
  lemma {:induction false} CommandsAreRead(states: seq<State>, steps: seq<Step>, n: nat)
    requires IsTrace(states, steps) && n < |states|
    ensures states[n].main.Serving? ==> !states[n].commands.NotReading?
  {
    if n > 0 {
      CommandsAreRead(states, steps, n - 1);
      ServingReadsCommands(states[n - 1], steps[n - 1]);
    }
  }

  lemma GivesUp(s: State, t: State, rest: seq<Step>)
    requires s.heartbeat.Gone? && !s.cancelled && Reaches(true, s.(heartbeat := Stopped, cancelled := true), t, rest)
    ensures Reaches(true, s, t, [GoneWhileRunning] + ([Reported] + ([HeartbeatCancels] + rest)))
  {
    var s1 := Do(s, GoneWhileRunning);
    var s2 := Do(s1, Reported);
    Prepend(true, s2, HeartbeatCancels, t, rest);
    Prepend(true, s1, Reported, t, [HeartbeatCancels] + rest);
    Prepend(true, s, GoneWhileRunning, t, [Reported] + ([HeartbeatCancels] + rest));
  }

  /** When its endpoint is gone it says so and stops of itself, without anybody telling it to. */
  lemma GoneEnds(s: State) returns (t: State, steps: seq<Step>)
    requires Inv(s) && s.main.Serving? && s.heartbeat.Sleeping? && !s.cancelled
    ensures Reaches(true, s, t, [Tick] + ([Check(false)] + ([GoneWhileRunning] + ([Reported]
                                  + ([HeartbeatCancels] + steps)))))
    ensures t.main.Returned? && !t.files.record && !t.files.key
  {
    var s1 := Do(s, Tick);
    var s2 := Do(s1, Check(false));
    var s5 := s.(heartbeat := Stopped, cancelled := true);
    t, steps := FromServing(s5);
    ReachesInv(s5, t, steps);
    assert s2.(heartbeat := Stopped, cancelled := true) == s5;
    GivesUp(s2, t, steps);
    var rest := [GoneWhileRunning] + ([Reported] + ([HeartbeatCancels] + steps));
    Prepend(true, s1, Check(false), t, rest);
    Prepend(true, s, Tick, t, [Check(false)] + rest);
  }

  /** A ghost that is stopping and finds its endpoint gone reports nothing. */
  lemma GoneIsReportedOnce(s: State)
    requires s.heartbeat.Gone?
    ensures Enabled(s, GoneWhileRunning) <==> !s.cancelled
    ensures Enabled(s, GoneWhileStopping) <==> s.cancelled
    ensures s.cancelled ==> Do(s, GoneWhileStopping).heartbeat.Stopped?
  {
  }

  /** A heartbeat that finds the endpoint sleeps again after its refresh, whether that is written, */
  lemma RefreshWritten(s: State, installs: bool) returns (t: State)
    requires s.heartbeat.Alive? && s.files.record
    ensures Reaches(true, s, t, [WriteTmp] + ([Install(installs)] + [])) && t == s.(heartbeat := Sleeping)
  {
    var s1 := Do(s, WriteTmp);
    t := Do(s1, Install(installs));
    Prepend(true, s1, Install(installs), t, []);
    Prepend(true, s, WriteTmp, t, [Install(installs)] + []);
  }

  /** or cannot be, */
  lemma RefreshFails(s: State) returns (t: State)
    requires s.heartbeat.Alive?
    ensures Reaches(true, s, t, [WriteTmpFails] + []) && t == s.(heartbeat := Sleeping)
  {
    t := Do(s, WriteTmpFails);
    Prepend(true, s, WriteTmpFails, t, []);
  }

  /** so that it goes round for as long as it is not told to stop. */
  lemma GoesRound(s: State, writes: bool, installs: bool) returns (steps: seq<Step>)
    requires s.heartbeat.Sleeping? && s.files.record
    ensures Reaches(true, s, s, steps) && |steps| > 2 && steps[0] == Tick && steps[1] == Check(true)
    ensures steps[2] == if writes then WriteTmp else WriteTmpFails
  {
    var s1 := Do(s, Tick);
    var s2 := Do(s1, Check(true));
    var t: State;
    if writes {
      t := RefreshWritten(s2, installs);
      steps := [WriteTmp] + ([Install(installs)] + []);
    } else {
      t := RefreshFails(s2);
      steps := [WriteTmpFails] + [];
    }
    assert t == s;
    Prepend(true, s1, Check(true), t, steps);
    Prepend(true, s, Tick, t, [Check(true)] + steps);
    steps := [Tick] + ([Check(true)] + steps);
  }
}
