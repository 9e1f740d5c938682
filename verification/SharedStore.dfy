/**
 The store file shared by several processes. Every handle is a process with a program counter,
 a copy in memory and the stamp of the file it last read; all of them interleave over one file
 and one lock, and any of them can die at any step.
 */
module SharedStore {
  import opened Options
  import opened WorkspaceModel

  type HandleId = nat

  /** What a stat of the file returns: its modification time and its size. */
  datatype Stamp = Stamp(modTime: int, size: nat)

  /** Every version the file ever had, with its stamp and the operation that wrote it. Version 0
      is the file nobody has written yet. */
  datatype File = File(history: seq<DB>, stamps: seq<Stamp>, log: seq<Op>)

  function Current(f: File): nat { |f.history| }

  function Content(f: File, version: nat): DB
    requires version <= Current(f)
  {
    if version == 0 then EMPTY else f.history[version - 1]
  }

  /** Where a handle is between the steps another process can see. */
  datatype Pc =
    | Idle
    | Waiting                                       // asked for the lock
    | Locked                                        // holds it
    | Stamped                                       // has stamped the file it is about to read
    | Loaded                                        // has reread the store
    | Changed(op: Op, reply: Reply)                 // has changed its copy
    | TmpWritten(op: Op, reply: Reply, tmp: DB)     // has written the temporary file
    | Installed(op: Op, reply: Reply, at: nat)      // has renamed it over the store
    | Releasing(op: Op, reply: Reply, at: nat)      // is about to give the lock back
    | Refreshing(saw: nat)                          // a reader whose stat differed
    | RefreshStamped(saw: nat)
    | Answering(saw: nat)                           // a reader about to answer from memory

  /** `has` is the version `mem` was read as or written as, `mark` the stamp of the file it keeps. */
  datatype Handle = Handle(pc: Pc, mem: DB, mark: Option<Stamp>, has: nat)

  /** An answered change: it ran on version `at` and left version `left`. */
  datatype Answer = Answer(op: Op, reply: Reply, at: nat, left: nat)

  /** An answered read: at its stat the file was version `saw`, it answered from version `has`. */
  datatype Read = Read(saw: nat, has: nat, db: DB)

  datatype State = State(file: File, lock: Option<HandleId>, handles: map<HandleId, Handle>,
                         answers: seq<Answer>, lookups: seq<Read>)

  const INITIAL := State(File([], [], []), None, map[], [], [])

  datatype Step =
    | Open(h: HandleId)
    | Crash(h: HandleId)
    | BeginWrite(h: HandleId)
    | Acquire(h: HandleId)
    | StampForWrite(h: HandleId)
    | ReadForWrite(h: HandleId)
    | Change(h: HandleId, op: Op)
    | WriteTmp(h: HandleId)
    | Rename(h: HandleId, stamp: Stamp)
    | StampAfterWrite(h: HandleId)
    | Release(h: HandleId)
    | Stat(h: HandleId)
    | StampForRead(h: HandleId)
    | ReadForRead(h: HandleId)
    | AnswerRead(h: HandleId)

  function FileStamp(f: File): Option<Stamp>
    requires |f.stamps| == |f.history|
  {
    if Current(f) == 0 then None else Some(f.stamps[Current(f) - 1])
  }

  /** What stampLocked keeps: without a file, the stamp it had. */
  function Mark(f: File, hd: Handle): Handle
    requires |f.stamps| == |f.history|
  {
    if Current(f) == 0 then hd else hd.(mark := FileStamp(f))
  }

  /** The reread: a missing file leaves memory as it was. */
  function Reload(f: File, hd: Handle): Handle {
    if Current(f) == 0 then hd else hd.(mem := Content(f, Current(f)), has := Current(f))
  }

  predicate WellFormed(f: File) {
    |f.stamps| == |f.history| == |f.log|
  }

  predicate Enabled(s: State, step: Step) {
    && WellFormed(s.file)
    && if step.Open? then step.h !in s.handles
       else
         && step.h in s.handles
         && var hd := s.handles[step.h];
            match step
            case Open(_) => false
            case Crash(_) => true
            case BeginWrite(_) => hd.pc.Idle?
            case Acquire(_) => hd.pc.Waiting? && s.lock.None?
            case StampForWrite(_) => hd.pc.Locked?
            case ReadForWrite(_) => hd.pc.Stamped?
            case Change(_, op) => hd.pc.Loaded? && Drawn(hd.mem, op)
            case WriteTmp(_) => hd.pc.Changed?
            case Rename(_, _) => hd.pc.TmpWritten?
            case StampAfterWrite(_) => hd.pc.Installed?
            case Release(_) => hd.pc.Releasing?
            case Stat(_) => hd.pc.Idle?
            case StampForRead(_) => hd.pc.Refreshing?
            case ReadForRead(_) => hd.pc.RefreshStamped?
            case AnswerRead(_) => hd.pc.Answering?
  }

  /** The copy of one handle after a step of its own. */
  function Moved(f: File, hd: Handle, step: Step): Handle
    requires WellFormed(f)
    requires step.Change? ==> hd.pc.Loaded? && Drawn(hd.mem, step.op)
    requires step.WriteTmp? ==> hd.pc.Changed?
    requires step.Rename? ==> hd.pc.TmpWritten?
    requires step.StampAfterWrite? ==> hd.pc.Installed?
    requires step.StampForRead? ==> hd.pc.Refreshing?
    requires step.ReadForRead? ==> hd.pc.RefreshStamped?
  {
    match step
    case Open(_) => Handle(Idle, Content(f, Current(f)), FileStamp(f), Current(f))
    case BeginWrite(_) => hd.(pc := Waiting)
    case Acquire(_) => hd.(pc := Locked)
    case StampForWrite(_) => Mark(f, hd).(pc := Stamped)
    case ReadForWrite(_) => Reload(f, hd).(pc := Loaded)
    case Change(_, op) =>
      var out := Apply(hd.mem, op);
      if out.writes then hd.(mem := out.db, pc := Changed(op, out.reply))
      else hd.(pc := Releasing(op, out.reply, hd.has))
    case WriteTmp(_) => hd.(pc := TmpWritten(hd.pc.op, hd.pc.reply, hd.mem))
    case Rename(_, _) => hd.(pc := Installed(hd.pc.op, hd.pc.reply, Current(f)), has := Current(f) + 1)
    case StampAfterWrite(_) => Mark(f, hd).(pc := Releasing(hd.pc.op, hd.pc.reply, hd.pc.at))
    case Stat(_) =>
      if Current(f) == 0 || FileStamp(f) == hd.mark then hd.(pc := Answering(Current(f)))
      else hd.(pc := Refreshing(Current(f)))
    case StampForRead(_) => Mark(f, hd).(pc := RefreshStamped(hd.pc.saw))
    case ReadForRead(_) => Reload(f, hd).(pc := Answering(hd.pc.saw))
    case _ => hd.(pc := Idle)
  }

  function FileAfter(f: File, hd: Handle, step: Step): File
    requires step.Rename? ==> hd.pc.TmpWritten?
  {
    if step.Rename? then File(f.history + [hd.pc.tmp], f.stamps + [step.stamp], f.log + [hd.pc.op]) else f
  }

  function Do(s: State, step: Step): State
    requires Enabled(s, step)
  {
    if step.Crash? then
      s.(handles := s.handles - {step.h}, lock := if s.lock == Some(step.h) then None else s.lock)
    else if step.Open? then
      s.(handles := s.handles[step.h := Moved(s.file, Handle(Idle, EMPTY, None, 0), step)])
    else
      var hd := s.handles[step.h];
      State(FileAfter(s.file, hd, step),
            if step.Acquire? then Some(step.h) else if step.Release? then None else s.lock,
            s.handles[step.h := Moved(s.file, hd, step)],
            if step.Release? then s.answers + [Answer(hd.pc.op, hd.pc.reply, hd.pc.at, hd.has)] else s.answers,
            if step.AnswerRead? then s.lookups + [Read(hd.pc.saw, hd.has, hd.mem)] else s.lookups)
  }

  // ---------- The invariant ----------

  predicate Critical(pc: Pc) {
    pc.Locked? || pc.Stamped? || pc.Loaded? || pc.Changed? || pc.TmpWritten? || pc.Installed? || pc.Releasing?
  }

  /** The history of the file is a run of one store that executes the log. */
  predicate AtomicAt(f: File, n: nat)
    requires WellFormed(f) && n < Current(f)
  {
    && Drawn(Content(f, n), f.log[n])
    && Apply(Content(f, n), f.log[n]).writes
    && Content(f, n + 1) == Apply(Content(f, n), f.log[n]).db
  }

  predicate Atomic(f: File) {
    WellFormed(f) && forall n :: 0 <= n < Current(f) ==> AtomicAt(f, n)
  }

  /** An answer the atomic store would have given on version `at`, in the log if it wrote. */
  predicate Answers(f: File, op: Op, reply: Reply, at: nat) {
    && at <= Current(f) && Drawn(Content(f, at), op) && reply == Apply(Content(f, at), op).reply
    && (Apply(Content(f, at), op).writes ==> at < |f.log| && f.log[at] == op)
  }

  /** An operation leaves the version it ran on, or the next one if it wrote. */
  predicate LeavesBehind(f: File, op: Op, at: nat, left: nat) {
    at <= Current(f) && Drawn(Content(f, at), op) && left == at + if Apply(Content(f, at), op).writes then 1 else 0
  }

  predicate AnswerOk(f: File, a: Answer) {
    Answers(f, a.op, a.reply, a.at) && LeavesBehind(f, a.op, a.at, a.left)
  }

  /** The change a handle is carrying out, made on the current version. */
  predicate Carries(f: File, hd: Handle, op: Op, reply: Reply) {
    && hd.has == Current(f) && Drawn(Content(f, hd.has), op)
    && var out := Apply(Content(f, hd.has), op);
       out.writes && reply == out.reply && hd.mem == out.db
  }

  predicate HandleOk(f: File, holds: bool, hd: Handle) {
    && hd.has <= Current(f)
    && (Critical(hd.pc) <==> holds)
    && (!hd.pc.Changed? && !hd.pc.TmpWritten? ==> hd.mem == Content(f, hd.has))
    && match hd.pc
       case Loaded => hd.has == Current(f)
       case Changed(op, reply) => Carries(f, hd, op, reply)
       case TmpWritten(op, reply, tmp) => Carries(f, hd, op, reply) && tmp == hd.mem
       case Installed(op, reply, at) => hd.has == Current(f) && Answers(f, op, reply, at)
         && LeavesBehind(f, op, at, hd.has)
       case Releasing(op, reply, at) => hd.has == Current(f) && Answers(f, op, reply, at)
         && LeavesBehind(f, op, at, hd.has)
       case _ => true
  }

  predicate Inv(s: State) {
    && Atomic(s.file)
    && (s.lock.Some? ==> s.lock.value in s.handles)
    && (forall h :: h in s.handles ==> HandleOk(s.file, s.lock == Some(h), s.handles[h]))
    && (forall i :: 0 <= i < |s.answers| ==> AnswerOk(s.file, s.answers[i]))
    && (forall i :: 0 <= i < |s.lookups| ==>
       s.lookups[i].has <= Current(s.file) && s.lookups[i].db == Content(s.file, s.lookups[i].has))
  }

  predicate Extends(f: File, g: File) {
    f.history <= g.history && f.log <= g.log && f.stamps <= g.stamps
  }

  lemma ContentGrows(f: File, g: File, n: nat)
    requires Extends(f, g) && n <= Current(f)
    ensures n <= Current(g) && Content(f, n) == Content(g, n)
  {
  }

  lemma AnswersGrow(f: File, g: File, a: Answer)
    requires Extends(f, g) && WellFormed(f) && AnswerOk(f, a)
    ensures AnswerOk(g, a)
  {
    ContentGrows(f, g, a.at);
  }

  /** The steps of others do not disturb a handle that does not hold the lock. */
  lemma HandleGrows(f: File, g: File, hd: Handle)
    requires Extends(f, g) && HandleOk(f, false, hd)
    ensures HandleOk(g, false, hd)
  {
    ContentGrows(f, g, hd.has);
  }

  lemma AtomicGrows(f: File, db: DB, stamp: Stamp, op: Op)
    requires Atomic(f)
    requires Drawn(Content(f, Current(f)), op) && Apply(Content(f, Current(f)), op).writes
    requires db == Apply(Content(f, Current(f)), op).db
    ensures var g := File(f.history + [db], f.stamps + [stamp], f.log + [op]); Extends(f, g) && Atomic(g)
  {
    var g := File(f.history + [db], f.stamps + [stamp], f.log + [op]);
    forall n | 0 <= n < Current(g) ensures AtomicAt(g, n) {
      ContentGrows(f, g, n);
      if n < Current(f) {
        ContentGrows(f, g, n + 1);
        assert AtomicAt(f, n);
      }
    }
  }

  /** A handle's own step leaves it in order. */
  lemma OwnStep(f: File, lockFree: bool, hd: Handle, step: Step)
    requires Atomic(f) && !step.Crash? && !step.Open?
    requires HandleOk(f, Critical(hd.pc), hd)
    requires Enabled(State(f, if lockFree then None else Some(step.h), map[step.h := hd], [], []), step)
    ensures var g := FileAfter(f, hd, step);
            Extends(f, g) && Atomic(g) && HandleOk(g, Critical(Moved(f, hd, step).pc), Moved(f, hd, step))
  {
    if step.Rename? {
      AtomicGrows(f, hd.pc.tmp, step.stamp, hd.pc.op);
      var g := FileAfter(f, hd, step);
      ContentGrows(f, g, Current(f));
    }
  }

  lemma OpenOk(f: File)
    requires Atomic(f)
    ensures HandleOk(f, false, Handle(Idle, Content(f, Current(f)), FileStamp(f), Current(f)))
  {
  }

  lemma CrashKeepsInv(s: State, h: HandleId)
    requires Inv(s) && h in s.handles
    ensures Inv(Do(s, Crash(h))) && Extends(s.file, Do(s, Crash(h)).file)
  {
    var after := Do(s, Crash(h));
    forall g | g in after.handles ensures HandleOk(after.file, after.lock == Some(g), after.handles[g]) {
      assert HandleOk(s.file, s.lock == Some(g), s.handles[g]);
    }
  }

  lemma OpenKeepsInv(s: State, h: HandleId)
    requires Inv(s) && Enabled(s, Open(h))
    ensures Inv(Do(s, Open(h))) && Extends(s.file, Do(s, Open(h)).file)
  {
    OpenOk(s.file);
    var after := Do(s, Open(h));
    forall g | g in after.handles ensures HandleOk(after.file, after.lock == Some(g), after.handles[g]) {
      if g != h { assert HandleOk(s.file, s.lock == Some(g), s.handles[g]); }
    }
  }

  /** After a step of `h` every other handle is as much in order as before. */
  lemma OthersKeep(s: State, step: Step, g: HandleId)
    requires Inv(s) && Enabled(s, step) && !step.Crash? && !step.Open?
    requires g in s.handles && g != step.h
    ensures var after := Do(s, step); HandleOk(after.file, after.lock == Some(g), after.handles[g])
  {
    assert HandleOk(s.file, s.lock == Some(g), s.handles[g]);
    var hd := s.handles[step.h];
    assert HandleOk(s.file, s.lock == Some(step.h), hd);
    if step.Rename? {
      OwnStep(s.file, s.lock.None?, hd, step);
      HandleGrows(s.file, FileAfter(s.file, hd, step), s.handles[g]);
    }
  }

  lemma RecordsKeep(s: State, step: Step)
    requires Inv(s) && Enabled(s, step) && !step.Crash? && !step.Open?
    requires Extends(s.file, Do(s, step).file)
    ensures var after := Do(s, step);
            && (forall i :: 0 <= i < |after.answers| ==> AnswerOk(after.file, after.answers[i]))
            && (forall i :: 0 <= i < |after.lookups| ==>
               after.lookups[i].has <= Current(after.file)
                 && after.lookups[i].db == Content(after.file, after.lookups[i].has))
  {
    var after := Do(s, step);
    assert HandleOk(s.file, s.lock == Some(step.h), s.handles[step.h]);
    forall i | 0 <= i < |after.answers| ensures AnswerOk(after.file, after.answers[i]) {
      if i < |s.answers| {
        AnswersGrow(s.file, after.file, s.answers[i]);
      }
    }
    forall i | 0 <= i < |after.lookups|
      ensures after.lookups[i].has <= Current(after.file)
              && after.lookups[i].db == Content(after.file, after.lookups[i].has)
    {
      if i < |s.lookups| {
        ContentGrows(s.file, after.file, s.lookups[i].has);
      }
    }
  }

  lemma SelfKeeps(s: State, step: Step)
    requires Inv(s) && Enabled(s, step) && !step.Crash? && !step.Open?
    ensures var after := Do(s, step);
            && Extends(s.file, after.file) && Atomic(after.file)
            && HandleOk(after.file, after.lock == Some(step.h), after.handles[step.h])
  {
    assert HandleOk(s.file, s.lock == Some(step.h), s.handles[step.h]);
    EnabledAlone(s, step);
    OwnStep(s.file, s.lock.None?, s.handles[step.h], step);
    InsideMeansHolding(s, step);
  }

  /** Whether a handle can take a step is up to the file, the lock and itself. */
  lemma EnabledAlone(s: State, step: Step)
    requires Enabled(s, step) && !step.Open?
    ensures Enabled(State(s.file, if s.lock.None? then None else Some(step.h), map[step.h := s.handles[step.h]], [],
                          []), step)
  {
  }

  lemma InsideMeansHolding(s: State, step: Step)
    requires Enabled(s, step) && !step.Crash? && !step.Open?
    requires Critical(s.handles[step.h].pc) <==> s.lock == Some(step.h)
    ensures Critical(Do(s, step).handles[step.h].pc) <==> Do(s, step).lock == Some(step.h)
  {
  }

  lemma LockHeldByOneOf(s: State, step: Step)
    requires Inv(s) && Enabled(s, step) && !step.Crash? && !step.Open?
    ensures Do(s, step).handles.Keys == s.handles.Keys
    ensures Do(s, step).lock.Some? ==> Do(s, step).lock.value in s.handles
  {
  }

  lemma MoveKeepsInv(s: State, step: Step)
    requires Inv(s) && Enabled(s, step) && !step.Crash? && !step.Open?
    ensures Inv(Do(s, step)) && Extends(s.file, Do(s, step).file)
  {
    var after := Do(s, step);
    SelfKeeps(s, step);
    LockHeldByOneOf(s, step);
    forall g | g in after.handles ensures HandleOk(after.file, after.lock == Some(g), after.handles[g]) {
      if g != step.h { OthersKeep(s, step, g); }
    }
    RecordsKeep(s, step);
  }

  lemma StepKeepsInv(s: State, step: Step)
    requires Inv(s) && Enabled(s, step)
    ensures Inv(Do(s, step)) && Extends(s.file, Do(s, step).file)
  {
    if step.Crash? {
      CrashKeepsInv(s, step.h);
    } else if step.Open? {
      OpenKeepsInv(s, step.h);
    } else {
      MoveKeepsInv(s, step);
    }
  }

  /** Seen as one atomic store, a step does nothing or runs one whole operation on the current
      version; only a rename, by the holder of the lock, does the latter. */
  lemma StepRefinesAtomicStore(s: State, step: Step)
    requires Inv(s) && Enabled(s, step)
    ensures var f, g := s.file, Do(s, step).file;
            if step.Rename? then
              exists op :: g.log == f.log + [op] && Drawn(Content(f, Current(f)), op)
                && Content(g, Current(g)) == Apply(Content(f, Current(f)), op).db && s.lock == Some(step.h)
            else g == f
  {
    StepKeepsInv(s, step);
    if step.Rename? {
      var op := s.handles[step.h].pc.op;
      assert HandleOk(s.file, s.lock == Some(step.h), s.handles[step.h]);
      assert Do(s, step).file.log == s.file.log + [op];
    }
  }

  // ---------- Freshness ----------

  /** A handle that may answer without reading the file again. */
  predicate Resting(pc: Pc) {
    pc.Idle? || pc.Answering?
  }

  /** The rename does not put a stamp on the file that another resting handle keeps. */
  predicate NewStamp(s: State, step: Step) {
    step.Rename? ==>
      forall h :: h in s.handles && h != step.h && Resting(s.handles[h].pc) ==> s.handles[h].mark != Some(step.stamp)
  }

  /** A resting handle that keeps the stamp of the file has the version on disk; one that holds the
      lock and has read has it anyway; and no answer is older than its stat. */
  predicate HandleFresh(f: File, hd: Handle) {
    && |f.stamps| == |f.history| && hd.has <= Current(f)
    && (Resting(hd.pc) && hd.mark == FileStamp(f) ==> hd.has == Current(f))
    && (hd.pc.Loaded? || hd.pc.Changed? || hd.pc.TmpWritten? || hd.pc.Installed? || hd.pc.Releasing? ==>
       hd.has == Current(f))
    && (hd.pc.Refreshing? || hd.pc.RefreshStamped? ==> hd.pc.saw <= Current(f))
    && (hd.pc.Answering? ==> hd.pc.saw <= hd.has)
  }

  predicate Fresh(s: State) {
    && (forall h :: h in s.handles ==> HandleFresh(s.file, s.handles[h]))
    && forall i :: 0 <= i < |s.lookups| ==> s.lookups[i].saw <= s.lookups[i].has
  }

  lemma OwnStepFresh(f: File, hd: Handle, holds: bool, lockFree: bool, step: Step)
    requires Atomic(f) && HandleOk(f, holds, hd) && HandleFresh(f, hd) && !step.Crash? && !step.Open?
    requires Enabled(State(f, if lockFree then None else Some(step.h), map[step.h := hd], [], []), step)
    ensures HandleFresh(FileAfter(f, hd, step), Moved(f, hd, step))
  {
  }

  /** The rename of another: a handle that rests stays fresh exactly when it does not keep the stamp. */
  lemma FreshAfterRename(f: File, db: DB, stamp: Stamp, op: Op, hd: Handle)
    requires WellFormed(f) && HandleFresh(f, hd) && !Critical(hd.pc)
    ensures HandleFresh(File(f.history + [db], f.stamps + [stamp], f.log + [op]), hd)
            <==> (Resting(hd.pc) ==> hd.mark != Some(stamp))
  {
  }

  lemma OtherFresh(s: State, step: Step, g: HandleId)
    requires Inv(s) && Enabled(s, step) && Fresh(s) && g in s.handles && g != step.h
    ensures HandleFresh(Do(s, step).file, s.handles[g])
            <==> (step.Rename? && Resting(s.handles[g].pc) ==> s.handles[g].mark != Some(step.stamp))
  {
    assert HandleFresh(s.file, s.handles[g]);
    if step.Rename? {
      assert HandleOk(s.file, s.lock == Some(step.h), s.handles[step.h]);
      assert HandleOk(s.file, s.lock == Some(g), s.handles[g]);
      FreshAfterRename(s.file, s.handles[step.h].pc.tmp, step.stamp, s.handles[step.h].pc.op, s.handles[g]);
    }
  }

  lemma SelfFresh(s: State, step: Step)
    requires Inv(s) && Enabled(s, step) && Fresh(s) && !step.Crash? && !step.Open?
    ensures HandleFresh(Do(s, step).file, Do(s, step).handles[step.h])
  {
    var hd := s.handles[step.h];
    assert HandleOk(s.file, s.lock == Some(step.h), hd) && HandleFresh(s.file, hd);
    OwnStepFresh(s.file, hd, s.lock == Some(step.h), s.lock.None?, step);
  }

  lemma LookupsFresh(s: State, step: Step)
    requires Enabled(s, step) && Fresh(s)
    ensures forall i :: 0 <= i < |Do(s, step).lookups| ==> Do(s, step).lookups[i].saw <= Do(s, step).lookups[i].has
  {
    if step.AnswerRead? {
      assert HandleFresh(s.file, s.handles[step.h]);
    }
  }

  /** What a step leaves of the other handles: it takes at most its own away. */
  lemma OthersStay(s: State, step: Step, g: HandleId)
    requires Enabled(s, step) && g != step.h
    ensures g in Do(s, step).handles <==> g in s.handles
    ensures g in s.handles ==> Do(s, step).handles[g] == s.handles[g]
  {
  }

  lemma OpenedFresh(s: State, h: HandleId)
    requires Enabled(s, Open(h))
    ensures HandleFresh(s.file, Do(s, Open(h)).handles[h])
  {
  }

  lemma OwnFresh(s: State, step: Step)
    requires Inv(s) && Enabled(s, step) && Fresh(s) && step.h in Do(s, step).handles
    ensures HandleFresh(Do(s, step).file, Do(s, step).handles[step.h])
  {
    if step.Open? {
      OpenedFresh(s, step.h);
    } else {
      SelfFresh(s, step);
    }
  }

  /** Freshness survives a step exactly when the step installs no stamp a resting handle keeps. */
  lemma StepKeepsFresh(s: State, step: Step)
    requires Inv(s) && Enabled(s, step) && Fresh(s)
    ensures Fresh(Do(s, step)) <==> NewStamp(s, step)
  {
    var after := Do(s, step);
    LookupsFresh(s, step);
    if step.h in after.handles {
      OwnFresh(s, step);
    }
    forall g | g in s.handles && g != step.h
      ensures g in after.handles
      ensures HandleFresh(after.file, after.handles[g])
              <==> (step.Rename? && Resting(s.handles[g].pc) ==> s.handles[g].mark != Some(step.stamp))
    {
      OthersStay(s, step, g);
      OtherFresh(s, step, g);
    }
    forall g | g in after.handles && g != step.h ensures g in s.handles {
      OthersStay(s, step, g);
    }
  }

  // ---------- Runs ----------

  ghost predicate IsTrace(states: seq<State>, steps: seq<Step>) {
    && |states| == |steps| + 1 && states[0] == INITIAL
    && forall i :: 0 <= i < |steps| ==> Enabled(states[i], steps[i]) && states[i + 1] == Do(states[i], steps[i])
  }

  lemma {:induction false} TraceInv(states: seq<State>, steps: seq<Step>, n: nat)
    requires IsTrace(states, steps) && n < |states|
    ensures Inv(states[n])
  {
    if n > 0 {
      TraceInv(states, steps, n - 1);
      StepKeepsInv(states[n - 1], steps[n - 1]);
    }
  }

  lemma ExtendsOn(f: File, g: File, h: File)
    requires Extends(f, g) && Extends(g, h)
    ensures Extends(f, h)
  {
  }

  lemma TraceStepExtends(states: seq<State>, steps: seq<Step>, n: nat)
    requires IsTrace(states, steps) && n < |steps|
    ensures Extends(states[n].file, states[n + 1].file)
  {
    TraceInv(states, steps, n);
    StepKeepsInv(states[n], steps[n]);
  }

  lemma {:induction false} TraceExtends(states: seq<State>, steps: seq<Step>, m: nat, n: nat)
    requires IsTrace(states, steps) && m <= n < |states|
    ensures Extends(states[m].file, states[n].file)
    decreases n
  {
    if m < n {
      TraceExtends(states, steps, m, n - 1);
      TraceStepExtends(states, steps, n - 1);
      ExtendsOn(states[m].file, states[n - 1].file, states[n].file);
    }
  }

  function Versions(f: File): seq<DB> { [EMPTY] + f.history }

  lemma AtomicIsRun(f: File)
    requires Atomic(f)
    ensures IsRun(Versions(f), f.log)
  {
    forall i | 0 <= i < |f.log|
      ensures Drawn(Versions(f)[i], f.log[i]) && Versions(f)[i + 1] == Apply(Versions(f)[i], f.log[i]).db
    {
      assert AtomicAt(f, i);
      assert Versions(f)[i] == Content(f, i) && Versions(f)[i + 1] == Content(f, i + 1);
    }
  }

  /** No update is lost. In every interleaving of any number of processes, crashes included, the
      versions of the file are the run of one store that executes the committed operations one
      after another, every answer is the one that store gave, and an answered change is in the
      log of every later state. */
  lemma NoLostUpdate(states: seq<State>, steps: seq<Step>, m: nat, n: nat)
    requires IsTrace(states, steps) && m <= n < |states|
    ensures var f := states[n].file;
            && IsRun(Versions(f), f.log)
            && Sound(Content(f, Current(f)))
            && forall i :: 0 <= i < |states[m].answers| ==>
                 var a := states[m].answers[i];
                 && a.at <= Current(f) && Drawn(Content(f, a.at), a.op)
                 && a.reply == Apply(Content(f, a.at), a.op).reply
                 && (Apply(Content(f, a.at), a.op).writes ==> a.at < |f.log| && f.log[a.at] == a.op)
  {
    var f := states[n].file;
    TraceInv(states, steps, m);
    TraceInv(states, steps, n);
    TraceExtends(states, steps, m, n);
    AtomicIsRun(f);
    RunIsSound(Versions(f), f.log, Current(f));
    forall i | 0 <= i < |states[m].answers|
      ensures AnswerOk(f, states[m].answers[i])
    {
      AnswersGrow(states[m].file, f, states[m].answers[i]);
    }
  }

  /** At most one process is between taking the lock and giving it back. */
  lemma MutualExclusion(states: seq<State>, steps: seq<Step>, n: nat, g: HandleId, h: HandleId)
    requires IsTrace(states, steps) && n < |states|
    requires g in states[n].handles && h in states[n].handles
    requires Critical(states[n].handles[g].pc) && Critical(states[n].handles[h].pc)
    ensures g == h
  {
    TraceInv(states, steps, n);
    var s := states[n];
    assert HandleOk(s.file, s.lock == Some(g), s.handles[g]);
    assert HandleOk(s.file, s.lock == Some(h), s.handles[h]);
  }

  // ---------- Real time ----------

  /** No answer given so far left a version newer than this one. */
  predicate AllLeft(answers: seq<Answer>, version: nat) {
    forall i :: 0 <= i < |answers| ==> answers[i].left <= version
  }

  /** Each answer's operation ran on what the answers before it left, and so does the one under way. */
  predicate Timed(s: State) {
    && InTurn(s.answers) && AllLeft(s.answers, Current(s.file))
    && forall h :: h in s.handles ==>
         match s.handles[h].pc
         case Installed(_, _, at) => AllLeft(s.answers, at)
         case Releasing(_, _, at) => AllLeft(s.answers, at)
         case _ => true
  }

  predicate InTurn(answers: seq<Answer>) {
    forall i, k :: 0 <= i < k < |answers| ==> answers[i].left <= answers[k].at
  }

  lemma NextInTurn(answers: seq<Answer>, a: Answer)
    requires InTurn(answers) && AllLeft(answers, a.at) && a.at <= a.left
    ensures InTurn(answers + [a]) && AllLeft(answers + [a], a.left)
  {
  }

  lemma NobodyElseInside(s: State, h: HandleId)
    requires Inv(s) && s.lock == Some(h)
    ensures forall g :: g in s.handles && g != h ==> !Critical(s.handles[g].pc)
  {
    forall g | g in s.handles && g != h ensures !Critical(s.handles[g].pc) {
      assert HandleOk(s.file, s.lock == Some(g), s.handles[g]);
    }
  }

  lemma ReleaseKeepsTimed(s: State, h: HandleId)
    requires Inv(s) && Timed(s) && Enabled(s, Release(h))
    ensures Timed(Do(s, Release(h)))
  {
    var hd := s.handles[h];
    assert HandleOk(s.file, s.lock == Some(h), hd);
    NobodyElseInside(s, h);
    NextInTurn(s.answers, Answer(hd.pc.op, hd.pc.reply, hd.pc.at, hd.has));
  }

  lemma OthersKeepTimed(s: State, step: Step)
    requires Inv(s) && Timed(s) && Enabled(s, step) && !step.Release?
    ensures Timed(Do(s, step))
  {
    if step.h in s.handles {
      assert HandleOk(s.file, s.lock == Some(step.h), s.handles[step.h]);
    }
  }

  lemma {:induction false} TraceTimed(states: seq<State>, steps: seq<Step>, n: nat)
    requires IsTrace(states, steps) && n < |states|
    ensures Timed(states[n])
  {
    if n > 0 {
      TraceTimed(states, steps, n - 1);
      TraceInv(states, steps, n - 1);
      if steps[n - 1].Release? {
        ReleaseKeepsTimed(states[n - 1], steps[n - 1].h);
      } else {
        OthersKeepTimed(states[n - 1], steps[n - 1]);
      }
    }
  }

  /** The order of the log is an order in real time: an operation answered after another was answered,
      and so every one that began after it, ran on a version that holds what the other one did. */
  lemma LaterSeesEarlier(states: seq<State>, steps: seq<Step>, n: nat, i: nat, k: nat)
    requires IsTrace(states, steps) && n < |states| && i < k < |states[n].answers|
    ensures var f, a, b := states[n].file, states[n].answers[i], states[n].answers[k];
            && a.at <= a.left <= b.at <= Current(f) && Drawn(Content(f, a.at), a.op)
            && Content(f, a.left) == Apply(Content(f, a.at), a.op).db
  {
    TraceInv(states, steps, n);
    TraceTimed(states, steps, n);
    var f, a, b := states[n].file, states[n].answers[i], states[n].answers[k];
    assert AnswerOk(f, a) && AnswerOk(f, b);
    LeftIsApplied(f, a);
  }

  lemma LeftIsApplied(f: File, a: Answer)
    requires Atomic(f) && AnswerOk(f, a)
    ensures a.left <= Current(f) && Content(f, a.left) == Apply(Content(f, a.at), a.op).db
  {
    if Apply(Content(f, a.at), a.op).writes {
      assert AtomicAt(f, a.at);
    } else {
      NoWriteNoChange(Content(f, a.at), a.op);
    }
  }

  // ---------- Fresh runs ----------

  /** None of the first `n` steps puts a stamp on the file that another resting handle keeps. */
  ghost predicate NewStamps(states: seq<State>, steps: seq<Step>, n: nat)
    requires n <= |steps| < |states|
  {
    forall i :: 0 <= i < n ==> NewStamp(states[i], steps[i])
  }

  lemma {:induction false} TraceFresh(states: seq<State>, steps: seq<Step>, n: nat)
    requires IsTrace(states, steps) && n < |states| && NewStamps(states, steps, n)
    ensures Fresh(states[n])
  {
    if n > 0 {
      TraceInv(states, steps, n - 1);
      TraceFresh(states, steps, n - 1);
      StepKeepsFresh(states[n - 1], steps[n - 1]);
    }
  }

  /** While no rename reuses a stamp that a resting handle keeps, every read is answered from one whole
      version of the store, no older than the one on disk at the reader's stat. */
  lemma ReadersAreFresh(states: seq<State>, steps: seq<Step>, n: nat, i: nat)
    requires IsTrace(states, steps) && n < |states| && NewStamps(states, steps, n) && i < |states[n].lookups|
    ensures var r := states[n].lookups[i];
            r.saw <= r.has <= Current(states[n].file) && r.db == Content(states[n].file, r.has)
  {
    TraceInv(states, steps, n);
    TraceFresh(states, steps, n);
  }

  /** Stamps that tell all versions apart. */
  predicate Distinct(f: File) {
    forall i, j :: 0 <= i < j < |f.stamps| ==> f.stamps[i] != f.stamps[j]
  }

  /** A handle keeps no stamp the file never had. */
  predicate MarksKnown(s: State) {
    forall h :: h in s.handles && s.handles[h].mark.Some? ==> s.handles[h].mark.value in s.file.stamps
  }

  lemma {:induction false} TraceMarks(states: seq<State>, steps: seq<Step>, n: nat)
    requires IsTrace(states, steps) && n < |states|
    ensures MarksKnown(states[n])
  {
    if n > 0 {
      TraceMarks(states, steps, n - 1);
      StepKeepsMarks(states[n - 1], steps[n - 1]);
    }
  }

  lemma StepKeepsMarks(s: State, step: Step)
    requires Enabled(s, step) && MarksKnown(s)
    ensures MarksKnown(Do(s, step))
  {
  }

  lemma NotAmong(before: seq<Stamp>, stamp: Stamp, all: seq<Stamp>)
    requires before + [stamp] <= all && forall i, j :: 0 <= i < j < |all| ==> all[i] != all[j]
    ensures stamp !in before
  {
    assert all[|before|] == stamp;
    forall i | 0 <= i < |before| ensures before[i] != stamp {
      assert all[i] == before[i];
    }
  }

  lemma DistinctIsNew(states: seq<State>, steps: seq<Step>, i: nat, n: nat)
    requires IsTrace(states, steps) && i < n < |states| && Distinct(states[n].file)
    ensures NewStamp(states[i], steps[i])
  {
    var s, step := states[i], steps[i];
    if step.Rename? {
      TraceMarks(states, steps, i);
      TraceExtends(states, steps, i + 1, n);
      assert states[i + 1].file.stamps == s.file.stamps + [step.stamp];
      NotAmong(s.file.stamps, step.stamp, states[n].file.stamps);
    }
  }

  /** So stamps that tell all versions apart are more than enough. */
  lemma DistinctStampsAreFresh(states: seq<State>, steps: seq<Step>, n: nat, i: nat)
    requires IsTrace(states, steps) && n < |states| && Distinct(states[n].file) && i < |states[n].lookups|
    ensures states[n].lookups[i].saw <= states[n].lookups[i].has
  {
    forall j | 0 <= j < n ensures NewStamp(states[j], steps[j]) {
      DistinctIsNew(states, steps, j, n);
    }
    ReadersAreFresh(states, steps, n, i);
  }

  // ---------- Why the stamps must tell versions apart ----------

  /** Some steps that lead from one state to another. */
  ghost predicate Leads(s: State, steps: seq<Step>, t: State)
    decreases |steps|
  {
    if steps == [] then t == s else Enabled(s, steps[0]) && Leads(Do(s, steps[0]), steps[1..], t)
  }

  lemma {:induction false} LeadsOn(s: State, first: seq<Step>, mid: State, second: seq<Step>, t: State)
    requires Leads(s, first, mid) && Leads(mid, second, t)
    ensures Leads(s, first + second, t)
    decreases |first|
  {
    if first == [] {
      assert first + second == second;
    } else {
      LeadsOn(Do(s, first[0]), first[1..], mid, second, t);
      assert (first + second)[1..] == first[1..] + second;
    }
  }

  lemma OneStep(s: State, step: Step)
    requires Enabled(s, step)
    ensures Leads(s, [step], Do(s, step))
  {
    assert Leads(Do(s, step), [], Do(s, step));
    assert [step][1..] == [];
  }

  /** From asking for the lock to having reread the store. */
  lemma LoadSteps(s: State, g: HandleId) returns (t: State)
    requires WellFormed(s.file) && Current(s.file) > 0 && s.lock.None? && g in s.handles && s.handles[g].pc.Idle?
    ensures Leads(s, [BeginWrite(g)] + [Acquire(g)] + [StampForWrite(g)] + [ReadForWrite(g)], t)
    ensures t == s.(lock := Some(g), handles := s.handles[g := Handle(Loaded, Content(s.file, Current(s.file)),
                      FileStamp(s.file), Current(s.file))])
  {
    var s1 := Do(s, BeginWrite(g));
    var s2 := Do(s1, Acquire(g));
    var s3 := Do(s2, StampForWrite(g));
    t := Do(s3, ReadForWrite(g));
    OneStep(s, BeginWrite(g));
    OneStep(s1, Acquire(g));
    OneStep(s2, StampForWrite(g));
    OneStep(s3, ReadForWrite(g));
    LeadsOn(s, [BeginWrite(g)], s1, [Acquire(g)], s2);
    LeadsOn(s, [BeginWrite(g)] + [Acquire(g)], s2, [StampForWrite(g)], s3);
    LeadsOn(s, [BeginWrite(g)] + [Acquire(g)] + [StampForWrite(g)], s3, [ReadForWrite(g)], t);
  }

  /** From the change in memory to the rename. */
  lemma InstallSteps(s: State, g: HandleId, op: Op, stamp: Stamp) returns (t: State)
    requires WellFormed(s.file) && g in s.handles && s.handles[g].pc.Loaded?
    requires Drawn(s.handles[g].mem, op) && Apply(s.handles[g].mem, op).writes
    ensures Leads(s, [Change(g, op)] + [WriteTmp(g)] + [Rename(g, stamp)], t)
    ensures t.file == File(s.file.history + [Apply(s.handles[g].mem, op).db], s.file.stamps + [stamp],
                           s.file.log + [op])
    ensures t.lookups == s.lookups && t.handles.Keys == s.handles.Keys
    ensures forall h :: h in s.handles && h != g ==> t.handles[h] == s.handles[h]
  {
    var s1 := Do(s, Change(g, op));
    var s2 := Do(s1, WriteTmp(g));
    t := Do(s2, Rename(g, stamp));
    OneStep(s, Change(g, op));
    OneStep(s1, WriteTmp(g));
    OneStep(s2, Rename(g, stamp));
    LeadsOn(s, [Change(g, op)], s1, [WriteTmp(g)], s2);
    LeadsOn(s, [Change(g, op)] + [WriteTmp(g)], s2, [Rename(g, stamp)], t);
  }

  /** A read by a handle whose stamp is the file's. */
  lemma ReadSteps(s: State, h: HandleId) returns (t: State)
    requires WellFormed(s.file) && h in s.handles && s.handles[h].pc.Idle? && s.handles[h].mark == FileStamp(s.file)
    ensures Leads(s, [Stat(h)] + [AnswerRead(h)], t)
    ensures t.lookups == s.lookups + [Read(Current(s.file), s.handles[h].has, s.handles[h].mem)]
  {
    var s1 := Do(s, Stat(h));
    t := Do(s1, AnswerRead(h));
    OneStep(s, Stat(h));
    OneStep(s1, AnswerRead(h));
    LeadsOn(s, [Stat(h)], s1, [AnswerRead(h)], t);
  }

  /** When a change is committed under the stamp a reader already has, that reader answers from a
      version older than the one on disk: any idle writer and reader can be led there. */
  lemma EqualStampsGoStale(s: State, g: HandleId, h: HandleId, op: Op, stamp: Stamp)
      returns (steps: seq<Step>, t: State)
    requires Inv(s) && s.lock.None? && g in s.handles && s.handles[g].pc.Idle? && Current(s.file) > 0
    requires Drawn(Content(s.file, Current(s.file)), op) && Apply(Content(s.file, Current(s.file)), op).writes
    requires h in s.handles && h != g && s.handles[h].pc.Idle? && s.handles[h].mark == Some(stamp)
    ensures Leads(s, steps, t)
    ensures |t.lookups| == |s.lookups| + 1 && t.lookups[|s.lookups|].has < t.lookups[|s.lookups|].saw
  {
    assert HandleOk(s.file, s.lock == Some(h), s.handles[h]);
    var loaded := LoadSteps(s, g);
    var installed := InstallSteps(loaded, g, op, stamp);
    t := ReadSteps(installed, h);
    var first := [BeginWrite(g)] + [Acquire(g)] + [StampForWrite(g)] + [ReadForWrite(g)];
    var second := [Change(g, op)] + [WriteTmp(g)] + [Rename(g, stamp)];
    LeadsOn(s, first, loaded, second, installed);
    LeadsOn(s, first + second, installed, [Stat(h)] + [AnswerRead(h)], t);
    steps := first + second + ([Stat(h)] + [AnswerRead(h)]);
  }

  lemma RestingIsApart(s: State, g: HandleId, stamp: Stamp) returns (h: HandleId)
    requires Inv(s) && Enabled(s, Rename(g, stamp)) && !NewStamp(s, Rename(g, stamp))
    ensures h in s.handles && h != g && Resting(s.handles[h].pc) && s.handles[h].mark == Some(stamp)
    ensures s.handles[h].has <= Current(s.file)
  {
    h :| h in s.handles && h != g && Resting(s.handles[h].pc) && s.handles[h].mark == Some(stamp);
    assert HandleOk(s.file, s.lock == Some(h), s.handles[h]);
  }

  /** A resting handle comes to rest idle, if it is not so already. */
  lemma AnswersFirst(s: State, h: HandleId) returns (steps: seq<Step>, t: State)
    requires WellFormed(s.file) && h in s.handles && Resting(s.handles[h].pc)
    ensures Leads(s, steps, t) && t.file == s.file && |t.lookups| >= |s.lookups|
    ensures h in t.handles && t.handles[h] == s.handles[h].(pc := Idle)
  {
    if s.handles[h].pc.Idle? {
      steps, t := [], s;
    } else {
      steps, t := [AnswerRead(h)], Do(s, AnswerRead(h));
      OneStep(s, AnswerRead(h));
    }
  }

  /** And the condition is exact: as soon as a rename puts on the file a stamp that another resting
      handle keeps, that handle can be led to answer from a version older than the one it saw. */
  lemma ReusedStampGoesStale(s: State, g: HandleId, stamp: Stamp) returns (steps: seq<Step>, t: State)
    requires Inv(s) && Enabled(s, Rename(g, stamp)) && !NewStamp(s, Rename(g, stamp))
    ensures Leads(s, [Rename(g, stamp)] + steps, t)
    ensures |t.lookups| > |s.lookups| && t.lookups[|t.lookups| - 1].has < t.lookups[|t.lookups| - 1].saw
  {
    var h := RestingIsApart(s, g, stamp);
    var s1 := Do(s, Rename(g, stamp));
    OneStep(s, Rename(g, stamp));
    var first, s2 := AnswersFirst(s1, h);
    t := ReadSteps(s2, h);
    LeadsOn(s1, first, s2, [Stat(h)] + [AnswerRead(h)], t);
    steps := first + ([Stat(h)] + [AnswerRead(h)]);
    LeadsOn(s, [Rename(g, stamp)], s1, steps, t);
  }
}
