/**
 What a process that shares the store file asked for and what it was answered: a change is the one that
 was asked for, made on the version there was when it was made, and a read knows the version it saw.
 */
module SharedRequests {
  import opened Options
  import opened WorkspaceModel
  import opened SharedStore

  /** The reply that operation gets from the current version. */
  ghost predicate RepliedOn(f: File, op: Op, reply: Reply) {
    Drawn(Content(f, Current(f)), op) && reply == Apply(Content(f, Current(f)), op).reply
  }

  ghost predicate WritesOn(f: File, op: Op) {
    Drawn(Content(f, Current(f)), op) && Apply(Content(f, Current(f)), op).writes
  }

  /** Since then the operation has been written and nothing else. */
  ghost predicate OnlyWrote(was: File, now: File, op: Op) {
    now.log == was.log + [op] && Current(now) == Current(was) + 1
  }

  /** The handle is carrying out the operation it was asked for when the file was `was`. */
  ghost predicate Carrying(was: File, now: File, hd: Handle, op: Op) {
    match hd.pc
    case Changed(o, reply) => o == op && RepliedOn(was, op, reply) && WritesOn(was, op) && now == was
    case TmpWritten(o, reply, _) => o == op && RepliedOn(was, op, reply) && WritesOn(was, op) && now == was
    case Installed(o, reply, at) =>
      && o == op && RepliedOn(was, op, reply) && WritesOn(was, op)
      && at == Current(was) && OnlyWrote(was, now, op)
    case Releasing(o, reply, at) =>
      && o == op && RepliedOn(was, op, reply) && at == Current(was)
      && if WritesOn(was, op) then OnlyWrote(was, now, op) else now == was
    case _ => false
  }

  /** Between changing its copy and giving the lock back. */
  predicate Busy(pc: Pc) {
    pc.Changed? || pc.TmpWritten? || pc.Installed? || pc.Releasing?
  }

  lemma ChangeCarries(s: State, h: HandleId, op: Op)
    requires Inv(s) && Enabled(s, Change(h, op))
    ensures Carrying(s.file, Do(s, Change(h, op)).file, Do(s, Change(h, op)).handles[h], op)
  {
    assert HandleOk(s.file, s.lock == Some(h), s.handles[h]);
  }

  lemma OwnCarries(s: State, step: Step, was: File, op: Op)
    requires Inv(s) && Enabled(s, step) && !step.Open? && !step.Crash? && !step.Change?
    requires Carrying(was, s.file, s.handles[step.h], op) && Busy(Do(s, step).handles[step.h].pc)
    ensures Carrying(was, Do(s, step).file, Do(s, step).handles[step.h], op)
  {
    assert HandleOk(s.file, s.lock == Some(step.h), s.handles[step.h]);
  }

  lemma BusyFrom(s: State, step: Step, h: HandleId)
    requires Enabled(s, step) && h in Do(s, step).handles && Busy(Do(s, step).handles[h].pc)
    ensures (step.Change? && step.h == h) || (h in s.handles && Busy(s.handles[h].pc) && !(step.Crash? && step.h == h))
    ensures step.h == h ==> !step.Open? && !step.Crash?
  {
    if step.h != h {
      OthersStay(s, step, h);
    }
  }

  /** While one is busy nobody else can change the file. */
  lemma OtherCarries(s: State, step: Step, h: HandleId, was: File, op: Op)
    requires Inv(s) && Enabled(s, step) && step.h != h && h in s.handles
    requires Carrying(was, s.file, s.handles[h], op)
    ensures h in Do(s, step).handles && Carrying(was, Do(s, step).file, Do(s, step).handles[h], op)
  {
    assert HandleOk(s.file, s.lock == Some(h), s.handles[h]);
    NobodyElseInside(s, h);
    OthersStay(s, step, h);
  }

  lemma CarriesOn(s: State, step: Step, h: HandleId, was: File, op: Op)
    requires Inv(s) && Enabled(s, step) && h in s.handles && Carrying(was, s.file, s.handles[h], op)
    requires h in Do(s, step).handles && Busy(Do(s, step).handles[h].pc) && !(step.Change? && step.h == h)
    ensures Carrying(was, Do(s, step).file, Do(s, step).handles[h], op)
  {
    BusyFrom(s, step, h);
    if step.h == h {
      OwnCarries(s, step, was, op);
    } else {
      OtherCarries(s, step, h, was, op);
    }
  }

  /** The request a handle is busy with was made at that step. */
  ghost predicate AskedAt(states: seq<State>, steps: seq<Step>, i: nat, j: nat, h: HandleId) {
    && i < j <= |steps| < |states| && h in states[j].handles
    && steps[i].Change? && steps[i].h == h
    && Carrying(states[i].file, states[j].file, states[j].handles[h], steps[i].op)
  }

  lemma AskedNow(states: seq<State>, steps: seq<Step>, j: nat, h: HandleId)
    requires IsTrace(states, steps) && j < |steps| && steps[j].Change? && steps[j].h == h
    ensures AskedAt(states, steps, j, j + 1, h)
  {
    TraceInv(states, steps, j);
    ChangeCarries(states[j], h, steps[j].op);
  }

  lemma AskedBefore(states: seq<State>, steps: seq<Step>, i: nat, j: nat, h: HandleId)
    requires IsTrace(states, steps) && j < |steps| && AskedAt(states, steps, i, j, h)
    requires h in states[j + 1].handles && Busy(states[j + 1].handles[h].pc) && !(steps[j].Change? && steps[j].h == h)
    ensures AskedAt(states, steps, i, j + 1, h)
  {
    TraceInv(states, steps, j);
    CarriesOn(states[j], steps[j], h, states[i].file, steps[i].op);
  }

  lemma BusyBefore(states: seq<State>, steps: seq<Step>, j: nat, h: HandleId)
    requires IsTrace(states, steps) && j < |steps| && h in states[j + 1].handles && Busy(states[j + 1].handles[h].pc)
    ensures (steps[j].Change? && steps[j].h == h) || (h in states[j].handles && Busy(states[j].handles[h].pc))
  {
    BusyFrom(states[j], steps[j], h);
  }

  lemma {:induction false} AskedFor(states: seq<State>, steps: seq<Step>, j: nat, h: HandleId) returns (i: nat)
    requires IsTrace(states, steps) && j < |states| && h in states[j].handles && Busy(states[j].handles[h].pc)
    ensures AskedAt(states, steps, i, j, h)
    decreases j
  {
    BusyBefore(states, steps, j - 1, h);
    if steps[j - 1].Change? && steps[j - 1].h == h {
      i := j - 1;
      AskedNow(states, steps, i, h);
    } else {
      i := AskedFor(states, steps, j - 1, h);
      AskedBefore(states, steps, i, j - 1, h);
    }
  }

  /** An answer is to the operation the process asked for, as the store would have given it on the version
      on disk at that moment; by then exactly this operation has been added to the log if it writes, and
      nothing at all if it does not. */
  lemma AnswersTheRequest(states: seq<State>, steps: seq<Step>, j: nat, h: HandleId) returns (i: nat)
    requires IsTrace(states, steps) && j < |steps| && steps[j] == Release(h)
    ensures i < j && steps[i].Change? && steps[i].h == h
    ensures RepliedNow(states[i].file, steps[i].op, states[j + 1].answers)
    ensures states[j + 1].answers[..|states[j + 1].answers| - 1] == states[j].answers
    ensures if WritesOn(states[i].file, steps[i].op) then OnlyWrote(states[i].file, states[j].file, steps[i].op)
            else states[j].file == states[i].file
  {
    i := AskedFor(states, steps, j, h);
  }

  /** The last answer is the reply to that operation on the current version. */
  ghost predicate RepliedNow(f: File, op: Op, answers: seq<Answer>) {
    && answers != []
    && var a := answers[|answers| - 1];
       a.op == op && RepliedOn(f, op, a.reply) && a.at == Current(f)
  }

  // ---------- Reads ----------

  predicate Looking(pc: Pc, saw: nat) {
    match pc
    case Refreshing(v) => v == saw
    case RefreshStamped(v) => v == saw
    case Answering(v) => v == saw
    case _ => false
  }

  predicate IsLooking(pc: Pc) {
    pc.Refreshing? || pc.RefreshStamped? || pc.Answering?
  }

  lemma LookingFrom(s: State, step: Step, h: HandleId)
    requires Enabled(s, step) && h in Do(s, step).handles && IsLooking(Do(s, step).handles[h].pc)
    ensures if step == Stat(h) then Looking(Do(s, step).handles[h].pc, Current(s.file))
            else
              && h in s.handles && IsLooking(s.handles[h].pc)
              && forall v :: Looking(s.handles[h].pc, v) ==> Looking(Do(s, step).handles[h].pc, v)
  {
    if step.h != h {
      OthersStay(s, step, h);
    }
  }

  lemma {:induction false} SawWhen(states: seq<State>, steps: seq<Step>, j: nat, h: HandleId) returns (i: nat)
    requires IsTrace(states, steps) && j < |states| && h in states[j].handles && IsLooking(states[j].handles[h].pc)
    ensures i < j && steps[i] == Stat(h) && Looking(states[j].handles[h].pc, Current(states[i].file))
    decreases j
  {
    LookingFrom(states[j - 1], steps[j - 1], h);
    if steps[j - 1] == Stat(h) {
      i := j - 1;
    } else {
      i := SawWhen(states, steps, j - 1, h);
    }
  }

  /** So a read, as long as no stamp a resting handle keeps is reused, answers with a whole version that is
      no older than the file was at a step of its own: the stat that began it. */
  lemma ReadsSinceItsStat(states: seq<State>, steps: seq<Step>, j: nat, h: HandleId) returns (i: nat, version: nat)
    requires IsTrace(states, steps) && j < |steps| && steps[j] == AnswerRead(h) && NewStamps(states, steps, j)
    ensures i < j && steps[i] == Stat(h)
    ensures Current(states[i].file) <= version <= Current(states[j].file)
    ensures states[j + 1].lookups ==
            states[j].lookups + [Read(Current(states[i].file), version, Content(states[j].file, version))]
  {
    i := SawWhen(states, steps, j, h);
    TraceInv(states, steps, j);
    TraceFresh(states, steps, j);
    var hd := states[j].handles[h];
    assert HandleOk(states[j].file, states[j].lock == Some(h), hd) && HandleFresh(states[j].file, hd);
    version := hd.has;
  }

  // ---------- A change gets through ----------

  /** Steps that carry the operation through to its answer: it is in the log then if it writes, and the
      lock is free again. */
  ghost predicate Through(s: State, op: Op, t: State, steps: seq<Step>) {
    && Leads(s, steps, t) && t.lock.None? && |t.answers| == |s.answers| + 1
    && t.file.log == if WritesOn(s.file, op) then s.file.log + [op] else s.file.log
  }

  lemma Onward(s: State, step: Step, t: State, steps: seq<Step>) returns (all: seq<Step>)
    requires Enabled(s, step) && Leads(Do(s, step), steps, t)
    ensures Leads(s, all, t)
  {
    all := [step] + steps;
    assert all[1..] == steps;
  }

  /** A step before that which changes neither the file nor the answers. */
  lemma Before(s: State, step: Step, op: Op, t: State, steps: seq<Step>) returns (all: seq<Step>)
    requires Enabled(s, step) && Do(s, step).file == s.file && Do(s, step).answers == s.answers
    requires Through(Do(s, step), op, t, steps)
    ensures Through(s, op, t, all)
  {
    all := Onward(s, step, t, steps);
  }

  lemma WrapsUp(s: State, h: HandleId) returns (t: State, steps: seq<Step>)
    requires WellFormed(s.file) && h in s.handles && s.handles[h].pc.Installed?
    ensures Leads(s, steps, t) && t.lock.None? && |t.answers| == |s.answers| + 1 && t.file == s.file
  {
    var s1 := Do(s, StampAfterWrite(h));
    t, steps := Do(s1, Release(h)), [];
    steps := Onward(s1, Release(h), t, steps);
    steps := Onward(s, StampAfterWrite(h), t, steps);
  }

  /** The change the handle holds in its hands is written, installed and answered. */
  lemma Finishes(s: State, h: HandleId, op: Op, reply: Reply, stamp: Stamp) returns (t: State, steps: seq<Step>)
    requires Inv(s) && h in s.handles && s.handles[h].pc == Changed(op, reply)
    ensures Through(s, op, t, steps)
  {
    assert HandleOk(s.file, s.lock == Some(h), s.handles[h]);
    var s1 := Do(s, WriteTmp(h));
    var s2 := Do(s1, Rename(h, stamp));
    t, steps := WrapsUp(s2, h);
    steps := Onward(s1, Rename(h, stamp), t, steps);
    steps := Onward(s, WriteTmp(h), t, steps);
  }

  lemma FromReleasing(s: State, h: HandleId, op: Op) returns (t: State, steps: seq<Step>)
    requires Inv(s) && h in s.handles && s.handles[h].pc.Releasing? && !WritesOn(s.file, op)
    ensures Through(s, op, t, steps)
  {
    t, steps := Do(s, Release(h)), [];
    steps := Onward(s, Release(h), t, steps);
  }

  lemma FromLoaded(s: State, h: HandleId, op: Op, stamp: Stamp) returns (t: State, steps: seq<Step>)
    requires Inv(s) && h in s.handles && s.handles[h].pc.Loaded? && Drawn(Content(s.file, Current(s.file)), op)
    ensures Through(s, op, t, steps)
  {
    assert HandleOk(s.file, s.lock == Some(h), s.handles[h]);
    var next := Do(s, Change(h, op));
    StepKeepsInv(s, Change(h, op));
    if WritesOn(s.file, op) {
      t, steps := Finishes(next, h, op, next.handles[h].pc.reply, stamp);
    } else {
      t, steps := FromReleasing(next, h, op);
    }
    steps := Before(s, Change(h, op), op, t, steps);
  }

  lemma FromLocked(s: State, h: HandleId, op: Op, stamp: Stamp) returns (t: State, steps: seq<Step>)
    requires Inv(s) && h in s.handles && s.handles[h].pc.Locked? && Drawn(Content(s.file, Current(s.file)), op)
    ensures Through(s, op, t, steps)
  {
    var s1 := Do(s, StampForWrite(h));
    StepKeepsInv(s, StampForWrite(h));
    StepKeepsInv(s1, ReadForWrite(h));
    t, steps := FromLoaded(Do(s1, ReadForWrite(h)), h, op, stamp);
    steps := Before(s1, ReadForWrite(h), op, t, steps);
    steps := Before(s, StampForWrite(h), op, t, steps);
  }

  /** When nobody has the lock, a handle at rest can carry any change through to its answer. */
  lemma ChangeGetsThrough(s: State, h: HandleId, op: Op, stamp: Stamp) returns (t: State, steps: seq<Step>)
    requires Inv(s) && s.lock.None? && h in s.handles && s.handles[h].pc.Idle?
    requires Drawn(Content(s.file, Current(s.file)), op)
    ensures Through(s, op, t, steps)
  {
    var s1 := Do(s, BeginWrite(h));
    StepKeepsInv(s, BeginWrite(h));
    StepKeepsInv(s1, Acquire(h));
    t, steps := FromLocked(Do(s1, Acquire(h)), h, op, stamp);
    steps := Before(s1, Acquire(h), op, t, steps);
    steps := Before(s, BeginWrite(h), op, t, steps);
  }

  /** A handle at rest can read whatever others do: it answers from memory when its stamp is the file's,
      and from the version on disk when it is not. */
  lemma ReadGetsThrough(s: State, h: HandleId) returns (t: State, steps: seq<Step>)
    requires Inv(s) && h in s.handles && s.handles[h].pc.Idle?
    ensures Leads(s, steps, t) && t.file == s.file && t.lock == s.lock
    ensures var v := if Current(s.file) == 0 || s.handles[h].mark == FileStamp(s.file)
                     then s.handles[h].has else Current(s.file);
            v <= Current(s.file) && t.lookups == s.lookups + [Read(Current(s.file), v, Content(s.file, v))]
  {
    assert HandleOk(s.file, s.lock == Some(h), s.handles[h]);
    var s1 := Do(s, Stat(h));
    if s1.handles[h].pc.Answering? {
      t, steps := Do(s1, AnswerRead(h)), [];
      steps := Onward(s1, AnswerRead(h), t, steps);
    } else {
      t, steps := Rereads(s1, h);
    }
    steps := Onward(s, Stat(h), t, steps);
  }

  lemma Rereads(s: State, h: HandleId) returns (t: State, steps: seq<Step>)
    requires WellFormed(s.file) && h in s.handles && s.handles[h].pc.Refreshing? && Current(s.file) > 0
    ensures Leads(s, steps, t) && t.file == s.file && t.lock == s.lock
    ensures t.lookups ==
            s.lookups + [Read(s.handles[h].pc.saw, Current(s.file), Content(s.file, Current(s.file)))]
  {
    var s1 := Do(s, StampForRead(h));
    var s2 := Do(s1, ReadForRead(h));
    t, steps := Do(s2, AnswerRead(h)), [];
    steps := Onward(s2, AnswerRead(h), t, steps);
    steps := Onward(s1, ReadForRead(h), t, steps);
    steps := Onward(s, StampForRead(h), t, steps);
  }

  /** And whoever dies with the lock gives it back. */
  lemma DeathFreesTheLock(s: State, h: HandleId)
    requires Inv(s) && s.lock == Some(h)
    ensures Enabled(s, Crash(h)) && Do(s, Crash(h)).lock.None? && Do(s, Crash(h)).file == s.file
  {
  }
}
