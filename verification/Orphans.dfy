/**
 The index of ghosts a daemon keeps so that its next run can remove what a crash left behind:
 the index as the object it is, and the runs of daemons, ghosts and other processes around it.
 */
module Orphans {
  type Pid = nat
  type Dir = nat

  datatype Entry = Entry(name: string, dir: Dir, spawnedAt: int)

  /** The files of a session directory that carry a process id. */
  datatype Path = Record(dir: Dir, pid: Pid) | Key(dir: Dir, pid: Pid, hash: int)

  /** The files an entry stands for: the record of the process and every key of it. */
  predicate FileOf(entries: map<Pid, Entry>, p: Path) {
    p.pid in entries && entries[p.pid].dir == p.dir
  }

  function DeadEntries(entries: map<Pid, Entry>, alive: set<Pid>): map<Pid, Entry> {
    map pid | pid in entries && pid !in alive :: entries[pid]
  }

  function LiveEntries(entries: map<Pid, Entry>, alive: set<Pid>): map<Pid, Entry> {
    map pid | pid in entries && pid in alive :: entries[pid]
  }

  function RecordsOf(entries: map<Pid, Entry>, disk: set<Path>): set<Pid> {
    set pid | pid in entries && Record(entries[pid].dir, pid) in disk
  }

  // What is left after the sweep has dealt with all tracked processes but those of `todo`.

  function EntriesLeft(entries: map<Pid, Entry>, alive: set<Pid>, todo: set<Pid>): map<Pid, Entry> {
    map pid | pid in entries && (pid in todo || pid in alive) :: entries[pid]
  }

  function FilesLeft(entries: map<Pid, Entry>, alive: set<Pid>, disk: set<Path>, stuck: set<Path>,
                     todo: set<Pid>): set<Path> {
    set p | p in disk && !(FileOf(DeadEntries(entries, alive), p) && p.pid !in todo && p !in stuck)
  }

  function RecordsGone(entries: map<Pid, Entry>, alive: set<Pid>, disk: set<Path>, stuck: set<Path>,
                       todo: set<Pid>): set<Pid> {
    set pid | pid in RecordsOf(DeadEntries(entries, alive), disk - stuck) && pid !in todo
  }

  lemma OneSpared(entries: map<Pid, Entry>, alive: set<Pid>, disk: set<Path>, stuck: set<Path>, todo: set<Pid>,
                  pid: Pid)
    requires pid in todo && pid in alive
    ensures EntriesLeft(entries, alive, todo - {pid}) == EntriesLeft(entries, alive, todo)
    ensures FilesLeft(entries, alive, disk, stuck, todo - {pid}) == FilesLeft(entries, alive, disk, stuck, todo)
    ensures RecordsGone(entries, alive, disk, stuck, todo - {pid}) == RecordsGone(entries, alive, disk, stuck, todo)
  {
  }

  lemma OneEntrySwept(entries: map<Pid, Entry>, alive: set<Pid>, todo: set<Pid>, pid: Pid)
    requires pid in todo && pid !in alive
    ensures EntriesLeft(entries, alive, todo - {pid}) == EntriesLeft(entries, alive, todo) - {pid}
  {
  }

  lemma OneFileSwept(entries: map<Pid, Entry>, alive: set<Pid>, disk: set<Path>, stuck: set<Path>, todo: set<Pid>,
                     pid: Pid)
    requires pid in todo && pid !in alive && pid in entries
    ensures FilesLeft(entries, alive, disk, stuck, todo - {pid})
         == set p | p in FilesLeft(entries, alive, disk, stuck, todo)
           && !(p.pid == pid && p.dir == entries[pid].dir && p !in stuck)
  {
  }

  lemma OneRecordSwept(entries: map<Pid, Entry>, alive: set<Pid>, disk: set<Path>, stuck: set<Path>, todo: set<Pid>,
                       pid: Pid)
    requires pid in todo && pid !in alive && pid in entries
    ensures var got := Record(entries[pid].dir, pid) in FilesLeft(entries, alive, disk, stuck, todo) - stuck;
            && RecordsGone(entries, alive, disk, stuck, todo - {pid}) ==
               RecordsGone(entries, alive, disk, stuck, todo) + (if got then {pid} else {})
            && pid !in RecordsGone(entries, alive, disk, stuck, todo)
  {
  }

  lemma AllSwept(entries: map<Pid, Entry>, alive: set<Pid>, disk: set<Path>, stuck: set<Path>)
    ensures EntriesLeft(entries, alive, entries.Keys) == entries
            && EntriesLeft(entries, alive, {}) == LiveEntries(entries, alive)
    ensures FilesLeft(entries, alive, disk, stuck, entries.Keys) == disk
    ensures FilesLeft(entries, alive, disk, stuck, {}) == set p | p in disk
            && !(FileOf(DeadEntries(entries, alive), p) && p !in stuck)
    ensures RecordsGone(entries, alive, disk, stuck, entries.Keys) == {}
    ensures RecordsGone(entries, alive, disk, stuck, {}) == RecordsOf(DeadEntries(entries, alive), disk - stuck)
  {
  }

  class Index {
    var entries: map<Pid, Entry>
    var file: map<Pid, Entry>      // what is persisted; empty when there is no file or it is corrupt

    constructor (persisted: map<Pid, Entry>)
      ensures entries == persisted && file == persisted
    {
      file := persisted;
      entries := map[];
      new;
      var todo := persisted.Keys;
      while todo != {}
        invariant todo <= persisted.Keys
        invariant entries == map pid | pid in persisted && pid !in todo :: persisted[pid]
        invariant file == persisted
        decreases todo
      {
        var pid :| pid in todo;
        entries := entries[pid := persisted[pid]];
        todo := todo - {pid};
      }
    }

    method Track(pid: Pid, e: Entry)
      modifies this
      ensures entries == old(entries)[pid := e] && file == entries
    {
      entries := entries[pid := e];
      file := entries;
    }

    method Forget(pid: Pid)
      modifies this
      ensures entries == old(entries) - {pid} && file == entries
    {
      entries := entries - {pid};
      file := entries;
    }

    /** Removes the record and the keys of one process, and says whether the record went. */
    static method RemoveFiles(pid: Pid, dir: Dir, disk: set<Path>, stuck: set<Path>)
      returns (after: set<Path>, gotRecord: bool)
      ensures after == set p | p in disk && !(p.pid == pid && p.dir == dir && p !in stuck)
      ensures gotRecord <==> Record(dir, pid) in disk - stuck
    {
      var record := Record(dir, pid);
      gotRecord := record in disk && record !in stuck;
      after := if gotRecord then disk - {record} else disk;
      var keys := set p | p in after && p.Key? && p.dir == dir && p.pid == pid;
      after := after - (keys - stuck);
    }

    /** Removes the files of every tracked process that is not alive; `stuck` are the files the
        system refuses to remove. The loop runs over the map in any order. */
    method Sweep(alive: set<Pid>, disk: set<Path>, stuck: set<Path>) returns (after: set<Path>, removed: nat)
      modifies this
      ensures after == set p | p in disk && !(FileOf(DeadEntries(old(entries), alive), p) && p !in stuck)
      ensures removed == |RecordsOf(DeadEntries(old(entries), alive), disk - stuck)|
      ensures entries == LiveEntries(old(entries), alive) && file == entries
    {
      after := disk;
      removed := 0;
      ghost var was := entries;
      AllSwept(was, alive, disk, stuck);
      var todo := entries.Keys;
      while todo != {}
        invariant todo <= was.Keys
        invariant entries == EntriesLeft(was, alive, todo)
        invariant after == FilesLeft(was, alive, disk, stuck, todo)
        invariant removed == |RecordsGone(was, alive, disk, stuck, todo)|
        decreases todo
      {
        var pid :| pid in todo;
        if pid in alive {
          OneSpared(was, alive, disk, stuck, todo, pid);
        } else {
          OneEntrySwept(was, alive, todo, pid);
          OneFileSwept(was, alive, disk, stuck, todo, pid);
          OneRecordSwept(was, alive, disk, stuck, todo, pid);
          var gotRecord: bool;
          after, gotRecord := RemoveFiles(pid, entries[pid].dir, after, stuck);
          if gotRecord {
            removed := removed + 1;
          }
          entries := entries - {pid};
        }
        todo := todo - {pid};
      }
      file := entries;
    }
  }

  // ---------- Daemons, ghosts and everybody else ----------

  /** How far a daemon has come with a child: started it, tracked it, told it to publish. */
  datatype Progress = Started | Tracked | Told

  /** What a ghost has on disk by its own account: nothing yet, the record while it writes the key, both,
      the key while it withdraws, or nothing any more. */
  datatype Stage = Silent | RecordOnly | Published(hash: int) | KeyOnly(hash: int) | Done

  datatype Proc = Ghost(told: bool, stage: Stage) | Foreign

  datatype Writer = ByGhost | ByForeign

  datatype KeyFile = KeyFile(pid: Pid, hash: int, writer: Writer)

  /** `records` and `keys` are the files of one session directory, with who wrote them; `index` is the
      persisted index and `held` its copy in a running daemon. `children` are the processes the running
      daemon started and has not waited for, so their numbers are taken even after they exit;
      `forgetting` are those it has waited for and is about to forget. */
  datatype State = State(running: bool, held: set<Pid>, index: set<Pid>, children: map<Pid, Progress>,
                         forgetting: multiset<Pid>,
                         procs: map<Pid, Proc>, records: map<Pid, Writer>, keys: set<KeyFile>)

  const INITIAL := State(false, {}, {}, map[], multiset{}, map[], map[], {})

  datatype Step =
    | StartDaemon                                // load and Sweep
    | CrashDaemon
    | Spawn(p: Pid)
    | TrackChild(p: Pid)
    | Init(p: Pid)
    | PublishRecord(p: Pid)
    | PublishKey(p: Pid, hash: int)
    | PublishFails(p: Pid, hash: int, created: bool)  // the key cannot be written whole; is it there?
    | RemoveRecord(p: Pid)                       // the withdrawal, in its two steps
    | RemoveKey(p: Pid)
    | Leave(p: Pid)                              // out of Run, with nothing left to withdraw
    | Kill(p: Pid)                               // without Run
    | Wait(p: Pid)                               // the child is gone, and its number free
    | Forget(p: Pid)
    | Abandon(p: Pid)                            // wait without forgetting: the init could not be sent
    | ForeignStart(p: Pid)
    | ForeignPublish(p: Pid, hash: int)
    | ForeignExit(p: Pid, removes: bool)

  predicate HasGhostRecord(s: State, p: Pid) {
    p in s.records && s.records[p].ByGhost?
  }

  predicate HasGhostKey(s: State, p: Pid) {
    exists k :: k in s.keys && k.pid == p && k.writer.ByGhost?
  }

  predicate HasGhostFile(s: State, p: Pid) {
    HasGhostRecord(s, p) || HasGhostKey(s, p)
  }

  predicate AliveGhost(s: State, p: Pid) {
    p in s.procs && s.procs[p].Ghost?
  }

  predicate AliveForeign(s: State, p: Pid) {
    p in s.procs && s.procs[p].Foreign?
  }

  predicate GhostAt(s: State, p: Pid, stage: Stage) {
    AliveGhost(s, p) && s.procs[p].stage == stage
  }

  predicate ChildAt(s: State, p: Pid, at: Progress) {
    p in s.children && s.children[p] == at
  }

  /** What the system and the code allow. Hashes are drawn and new. */
  predicate Possible(s: State, step: Step) {
    match step
    case StartDaemon => !s.running
    case CrashDaemon => s.running
    case Spawn(p) => s.running && p !in s.procs && p !in s.children
    case TrackChild(p) => ChildAt(s, p, Started)
    case Init(p) => ChildAt(s, p, Tracked)
    case PublishRecord(p) => GhostAt(s, p, Silent) && s.procs[p].told
    case PublishKey(p, hash) => GhostAt(s, p, RecordOnly) && forall k :: k in s.keys ==> k.hash != hash
    case PublishFails(p, hash, _) => GhostAt(s, p, RecordOnly) && forall k :: k in s.keys ==> k.hash != hash
    case RemoveRecord(p) => AliveGhost(s, p) && s.procs[p].stage.Published?
    case RemoveKey(p) => AliveGhost(s, p) && s.procs[p].stage.KeyOnly?
    case Leave(p) => GhostAt(s, p, Silent) || GhostAt(s, p, Done)
    case Kill(p) => AliveGhost(s, p)
    case Wait(p) => ChildAt(s, p, Told) && p !in s.procs
    case Forget(p) => p in s.forgetting
    case Abandon(p) => ChildAt(s, p, Tracked) && p !in s.procs
    case ForeignStart(p) => p !in s.procs && p !in s.children
    case ForeignPublish(p, hash) => AliveForeign(s, p) && forall k :: k in s.keys ==> k.hash != hash
    case ForeignExit(p, _) => AliveForeign(s, p)
  }

  /** A ghost leaves through Run while its daemon lives, no key is left half written, and a new child
      gets neither the number of a dead ghost whose files are still there nor one about to be
      forgotten. */
  predicate Clean(s: State, step: Step) {
    match step
    case Kill(p) => p !in s.children
    case PublishFails(p, _, created) => p in s.children ==> !created
    case Spawn(p) => !HasGhostFile(s, p) && p !in s.forgetting
    case _ => true
  }

  /** The numbers whose files a starting daemon removes: those of tracked processes not alive. */
  function Swept(s: State): set<Pid> {
    set p | p in s.index && p !in s.procs
  }

  function WithoutKeysOf(keys: set<KeyFile>, pids: set<Pid>): set<KeyFile> {
    set k | k in keys && k.pid !in pids
  }

  function Do(s: State, step: Step): State
    requires Possible(s, step)
  {
    match step
    case StartDaemon =>
      s.(running := true, held := s.index - Swept(s), index := s.index - Swept(s),
         records := s.records - Swept(s), keys := WithoutKeysOf(s.keys, Swept(s)))
    case CrashDaemon => s.(running := false, held := {}, children := map[], forgetting := multiset{})
    case Spawn(p) => s.(children := s.children[p := Started], procs := s.procs[p := Ghost(false, Silent)])
    case TrackChild(p) => s.(held := s.held + {p}, index := s.held + {p}, children := s.children[p := Tracked])
    case Init(p) =>
      s.(children := s.children[p := Told],
         procs := if AliveGhost(s, p) then s.procs[p := s.procs[p].(told := true)] else s.procs)
    case PublishRecord(p) => s.(records := s.records[p := ByGhost],
                                procs := s.procs[p := s.procs[p].(stage := RecordOnly)])
    case PublishKey(p, hash) =>
      s.(keys := s.keys + {KeyFile(p, hash, ByGhost)}, procs := s.procs[p := s.procs[p].(stage := Published(hash))])
    case PublishFails(p, hash, created) =>
      s.(records := s.records - {p}, keys := if created then s.keys + {KeyFile(p, hash, ByGhost)} else s.keys,
         procs := s.procs[p := s.procs[p].(stage := Done)])
    case RemoveRecord(p) =>
      s.(records := s.records - {p}, procs := s.procs[p := s.procs[p].(stage := KeyOnly(s.procs[p].stage.hash))])
    case RemoveKey(p) =>
      s.(keys := s.keys - {KeyFile(p, s.procs[p].stage.hash, ByGhost)},
         procs := s.procs[p := s.procs[p].(stage := Done)])
    case Leave(p) => s.(procs := s.procs - {p})
    case Kill(p) => s.(procs := s.procs - {p})
    case Wait(p) => s.(children := s.children - {p}, forgetting := s.forgetting + multiset{p})
    case Forget(p) => s.(held := s.held - {p}, index := s.held - {p}, forgetting := s.forgetting - multiset{p})
    case Abandon(p) => s.(children := s.children - {p})
    case ForeignStart(p) => s.(procs := s.procs[p := Foreign])
    case ForeignPublish(p, hash) => s.(records := s.records[p := ByForeign],
                                       keys := s.keys + {KeyFile(p, hash, ByForeign)})
    case ForeignExit(p, removes) =>
      s.(records := if removes then s.records - {p} else s.records,
         keys := if removes then set k | k in s.keys && !(k.pid == p && k.writer.ByForeign?) else s.keys,
         procs := s.procs - {p})
  }

  /** Every record and every key a ghost left on disk can be found through the persisted index. */
  ghost predicate Findable(s: State) {
    forall p :: HasGhostFile(s, p) ==> p in s.index
  }

  /** A process that may publish: it was told to, or is about to be. */
  predicate Needed(s: State, p: Pid) {
    || (AliveGhost(s, p) && (s.procs[p].told || !s.procs[p].stage.Silent?))
    || (p in s.children && s.children[p] != Started)
  }

  /** Nobody is told to publish before being tracked. */
  ghost predicate Core(s: State) {
    && Findable(s)
    && (if s.running then s.held == s.index else s.children == map[] && s.forgetting == multiset{})
    && (forall p :: Needed(s, p) ==> p in s.index)
  }

  /** A child has files only while it is alive and has published them. */
  ghost predicate TidyAt(s: State, p: Pid) {
    && (p in s.procs ==> s.procs[p].Ghost?)
    && (HasGhostRecord(s, p) ==> AliveGhost(s, p) && (s.procs[p].stage.RecordOnly? || s.procs[p].stage.Published?))
    && (forall k :: k in s.keys && k.pid == p && k.writer.ByGhost? ==>
         GhostAt(s, p, Published(k.hash)) || GhostAt(s, p, KeyOnly(k.hash)))
  }

  ghost predicate Tidy(s: State) {
    && (forall p :: p in s.children ==> TidyAt(s, p))
    && (forall p :: p in s.forgetting ==> !HasGhostFile(s, p) && p !in s.children && !AliveGhost(s, p))
  }

  /** The forgetting of a number that is still needed. */
  predicate Hurts(s: State, step: Step) {
    step.Forget? && (HasGhostFile(s, step.p) || Needed(s, step.p))
  }

  lemma CopiesAgree(s: State, step: Step)
    requires Core(s) && Possible(s, step)
    ensures var t := Do(s, step);
            if t.running then t.held == t.index else t.children == map[] && t.forgetting == multiset{}
  {
  }

  lemma StaysIndexed(s: State, step: Step, p: Pid)
    requires Core(s) && Possible(s, step) && p in s.index
    requires !(step == Forget(p)) && (step.StartDaemon? ==> p in s.procs)
    ensures p in Do(s, step).index
  {
  }

  lemma FilesAreIndexed(s: State, step: Step, p: Pid)
    requires Core(s) && Possible(s, step) && !(step == Forget(p)) && HasGhostFile(Do(s, step), p)
    ensures p in s.index && (step.StartDaemon? ==> p in s.procs)
  {
  }

  lemma NeededAreIndexed(s: State, step: Step, p: Pid)
    requires Core(s) && Possible(s, step) && !(step == Forget(p)) && Needed(Do(s, step), p)
    ensures step == TrackChild(p) || (p in s.index && (step.StartDaemon? ==> p in s.procs))
  {
  }

  /** Exactly one thing can lose a file: forgetting a number under which a ghost left one, or under
      which a ghost may still publish. */
  lemma StepKeepsCore(s: State, step: Step)
    requires Core(s) && Possible(s, step)
    ensures Core(Do(s, step)) <==> !Hurts(s, step)
  {
    var t := Do(s, step);
    CopiesAgree(s, step);
    forall p | !(step == Forget(p)) && (HasGhostFile(t, p) || Needed(t, p)) ensures p in t.index {
      if HasGhostFile(t, p) {
        FilesAreIndexed(s, step, p);
      } else {
        NeededAreIndexed(s, step, p);
      }
      if step != TrackChild(p) {
        StaysIndexed(s, step, p);
      }
    }
    if step.Forget? {
      ForgetOnlyForgets(s, step.p);
    }
  }

  lemma ForgetOnlyForgets(s: State, p: Pid)
    requires Possible(s, Forget(p))
    ensures var t := Do(s, Forget(p));
            p !in t.index && (HasGhostFile(t, p) <==> HasGhostFile(s, p)) && (Needed(t, p) <==> Needed(s, p))
  {
  }

  /** Steps that concern another process leave a child as tidy as it was. */
  lemma OthersStayTidy(s: State, step: Step, p: Pid)
    requires Possible(s, step) && p in s.children && TidyAt(s, p) && p in Do(s, step).children
    requires step.StartDaemon? || step.CrashDaemon? || step.p != p
    ensures TidyAt(Do(s, step), p)
  {
    OthersLeaveIt(s, step, p);
  }

  lemma OthersLeaveIt(s: State, step: Step, p: Pid)
    requires Possible(s, step) && (step.StartDaemon? || step.CrashDaemon? || step.p != p)
    ensures var t := Do(s, step);
            && (p in t.procs <==> p in s.procs) && (p in s.procs ==> t.procs[p] == s.procs[p])
            && (HasGhostRecord(t, p) ==> HasGhostRecord(s, p))
            && (forall k :: k in t.keys && k.pid == p ==> k in s.keys)
  {
  }

  lemma ChildStaysTidy(s: State, step: Step, p: Pid)
    requires Possible(s, step) && Clean(s, step) && p in s.children && TidyAt(s, p) && p in Do(s, step).children
    ensures TidyAt(Do(s, step), p)
  {
    if step.StartDaemon? || step.CrashDaemon? || step.p != p {
      OthersStayTidy(s, step, p);
    }
  }

  lemma SpawnedIsTidy(s: State, p: Pid)
    requires Possible(s, Spawn(p)) && Clean(s, Spawn(p))
    ensures TidyAt(Do(s, Spawn(p)), p)
  {
  }

  lemma WaitedIsBare(s: State, p: Pid)
    requires Possible(s, Wait(p)) && TidyAt(s, p)
    ensures !HasGhostFile(s, p) && !AliveGhost(s, p)
  {
  }

  predicate Bare(s: State, p: Pid) {
    !HasGhostFile(s, p) && p !in s.children && !AliveGhost(s, p)
  }

  lemma BareStays(s: State, step: Step, p: Pid)
    requires Possible(s, step) && Bare(s, p) && !(step == Spawn(p))
    ensures Bare(Do(s, step), p)
  {
  }

  lemma StepKeepsTidy(s: State, step: Step)
    requires Core(s) && Tidy(s) && Possible(s, step) && Clean(s, step)
    ensures Core(Do(s, step)) && Tidy(Do(s, step))
  {
    StepKeepsCore(s, step);
    var t := Do(s, step);
    forall p | p in t.children ensures TidyAt(t, p) {
      if p in s.children {
        ChildStaysTidy(s, step, p);
      } else {
        SpawnedIsTidy(s, p);
      }
    }
    forall p | p in t.forgetting ensures Bare(t, p) {
      if p in s.forgetting {
        BareStays(s, step, p);
      } else {
        WaitedIsBare(s, p);
      }
    }
  }

  // ---------- Runs ----------

  /** A run from an empty machine, as the steps it takes and the states they lead through. */
  ghost predicate IsRun(states: seq<State>, steps: seq<Step>) {
    && |states| == |steps| + 1
    && states[0] == INITIAL
    && forall i :: 0 <= i < |steps| ==>
         Possible(states[i], steps[i]) && Clean(states[i], steps[i]) && states[i + 1] == Do(states[i], steps[i])
  }

  lemma {:induction false} RunIsTidy(states: seq<State>, steps: seq<Step>, i: nat)
    requires IsRun(states, steps) && i < |states|
    ensures Core(states[i]) && Tidy(states[i])
    decreases i
  {
    if i > 0 {
      RunIsTidy(states, steps, i - 1);
      StepKeepsTidy(states[i - 1], steps[i - 1]);
    }
  }

  /** Crash recovery: in every state of every run, a record or key of a ghost on disk can be found
      through the persisted index; a daemon that starts removes every one whose process is dead, and
      leaves every file of a live process as it is. */
  lemma CrashRecovery(states: seq<State>, steps: seq<Step>, i: nat)
    requires IsRun(states, steps) && i < |states|
    ensures Findable(states[i])
    ensures i < |steps| && steps[i].StartDaemon? ==>
              && (forall p :: HasGhostFile(states[i + 1], p) ==> p in states[i].procs)
              && SparesLive(states[i], states[i + 1])
  {
    RunIsTidy(states, steps, i);
  }

  /** Nothing new is on disk, and every file of a live process still is. */
  ghost predicate SparesLive(s: State, t: State) {
    && t.records.Keys <= s.records.Keys && t.keys <= s.keys
    && (forall p :: p in s.procs && p in s.records ==> p in t.records && t.records[p] == s.records[p])
    && (forall k :: k in s.keys && k.pid in s.procs ==> k in t.keys)
  }

  /** The sweep of the runs is the sweep of the index: both leave the same records and keys. */
  lemma SweepIsSwept(s: State, entries: map<Pid, Entry>, dir: Dir, disk: set<Path>, p: Pid, hash: int, writer: Writer)
    requires entries.Keys == s.index && forall q :: q in entries ==> entries[q].dir == dir
    requires forall q :: Record(dir, q) in disk <==> q in s.records
    requires KeyFile(p, hash, writer) in s.keys && Key(dir, p, hash) in disk
    requires !s.running
    ensures var after := set q | q in disk && !(FileOf(DeadEntries(entries, s.procs.Keys), q) && q !in {});
            && (Record(dir, p) in after <==> p in Do(s, StartDaemon).records)
            && (Key(dir, p, hash) in after <==> KeyFile(p, hash, writer) in Do(s, StartDaemon).keys)
    ensures LiveEntries(entries, s.procs.Keys).Keys == Do(s, StartDaemon).index
  {
  }

  // ---------- What the assumptions are for ----------

  /** Some steps that lead from one state to another, clean or not. */
  ghost predicate Leads(s: State, steps: seq<Step>, t: State)
    decreases |steps|
  {
    if steps == [] then t == s else Possible(s, steps[0]) && Leads(Do(s, steps[0]), steps[1..], t)
  }

  lemma First(s: State, step: Step, rest: seq<Step>, t: State)
    requires Possible(s, step) && Leads(Do(s, step), rest, t)
    ensures Leads(s, [step] + rest, t)
  {
    assert ([step] + rest)[1..] == rest;
  }

  /** A ghost file is on disk, its process is dead, and the index does not know of it. */
  predicate Leaked(s: State, p: Pid) {
    HasGhostFile(s, p) && p !in s.procs && p !in s.index
  }

  predicate Vacant(s: State, p: Pid) {
    s.running && p !in s.procs && p !in s.children
  }

  /** A child is started, tracked and told to publish. */
  lemma ChildStarts(s: State, p: Pid) returns (t: State)
    requires Vacant(s, p)
    ensures t.running && GhostAt(t, p, Silent) && t.procs[p].told && ChildAt(t, p, Told)
    ensures t.records == s.records && t.keys == s.keys && t.forgetting == s.forgetting
            && t.procs == s.procs[p := Ghost(true, Silent)]
    ensures forall rest, u :: Leads(t, rest, u) ==> Leads(s, [Spawn(p)] + ([TrackChild(p)] + ([Init(p)] + rest)), u)
  {
    var s1 := Do(s, Spawn(p));
    var s2 := Do(s1, TrackChild(p));
    t := Do(s2, Init(p));
    forall rest, u | Leads(t, rest, u) ensures Leads(s, [Spawn(p)] + ([TrackChild(p)] + ([Init(p)] + rest)), u) {
      First(s2, Init(p), rest, u);
      First(s1, TrackChild(p), [Init(p)] + rest, u);
      First(s, Spawn(p), [TrackChild(p)] + ([Init(p)] + rest), u);
    }
  }

  /** A child that is gone is waited for and forgotten, whatever it left. */
  lemma ChildIsForgotten(s: State, p: Pid) returns (t: State)
    requires ChildAt(s, p, Told) && p !in s.procs && HasGhostFile(s, p)
    ensures Leads(s, [Wait(p)] + ([Forget(p)] + []), t) && Leaked(t, p)
  {
    var s1 := Do(s, Wait(p));
    t := Do(s1, Forget(p));
    First(s1, Forget(p), [], t);
    First(s, Wait(p), [Forget(p)] + [], t);
  }

  /** A child that is killed while its daemon lives leaves a record nobody can find any more. */
  lemma KilledChildLeaks(s: State, p: Pid) returns (steps: seq<Step>, t: State)
    requires Vacant(s, p)
    ensures Leads(s, steps, t) && Leaked(t, p)
  {
    var s1 := ChildStarts(s, p);
    var s2 := Do(s1, PublishRecord(p));
    var s3 := Do(s2, Kill(p));
    t := ChildIsForgotten(s3, p);
    First(s2, Kill(p), [Wait(p)] + ([Forget(p)] + []), t);
    First(s1, PublishRecord(p), [Kill(p)] + ([Wait(p)] + ([Forget(p)] + [])), t);
    steps := [Spawn(p)] + ([TrackChild(p)] +
      ([Init(p)] + ([PublishRecord(p)] + ([Kill(p)] + ([Wait(p)] + ([Forget(p)] + []))))));
  }

  /** So does one whose key could not be written whole, although it leaves through Run. */
  lemma CutKeyLeaks(s: State, p: Pid, hash: int) returns (steps: seq<Step>, t: State)
    requires Vacant(s, p) && forall k :: k in s.keys ==> k.hash != hash
    ensures Leads(s, steps, t) && Leaked(t, p)
  {
    var s1 := ChildStarts(s, p);
    var s2 := Do(s1, PublishRecord(p));
    var s3 := Do(s2, PublishFails(p, hash, true));
    var s4 := Do(s3, Leave(p));
    assert KeyFile(p, hash, ByGhost) in s4.keys;
    t := ChildIsForgotten(s4, p);
    First(s3, Leave(p), [Wait(p)] + ([Forget(p)] + []), t);
    First(s2, PublishFails(p, hash, true), [Leave(p)] + ([Wait(p)] + ([Forget(p)] + [])), t);
    First(s1, PublishRecord(p), [PublishFails(p, hash, true)] + ([Leave(p)] + ([Wait(p)] + ([Forget(p)] + []))), t);
    steps := [Spawn(p)] + ([TrackChild(p)] + ([Init(p)] + ([PublishRecord(p)] + ([PublishFails(p, hash, true)]
               + ([Leave(p)] + ([Wait(p)] + ([Forget(p)] + [])))))));
  }

  /** A child that gets the number of a dead ghost and leaves before it publishes takes the other's
      files out of reach, although it left through Run. */
  lemma ReusedNumberLeaks(s: State, p: Pid) returns (steps: seq<Step>, t: State)
    requires Vacant(s, p) && HasGhostFile(s, p)
    ensures Leads(s, steps, t) && Leaked(t, p)
  {
    var s1 := ChildStarts(s, p);
    var s2 := Do(s1, Leave(p));
    t := ChildIsForgotten(s2, p);
    First(s1, Leave(p), [Wait(p)] + ([Forget(p)] + []), t);
    steps := [Spawn(p)] + ([TrackChild(p)] + ([Init(p)] + ([Leave(p)] + ([Wait(p)] + ([Forget(p)] + [])))));
  }

  /** A told child whose number is forgotten publishes, outlives its daemon and is killed. */
  lemma PublishesUnknown(s: State, p: Pid) returns (t: State)
    requires s.running && GhostAt(s, p, Silent) && s.procs[p].told && p in s.forgetting
    ensures Leads(s, [Forget(p)] + ([PublishRecord(p)] + ([CrashDaemon] + ([Kill(p)] + []))), t) && Leaked(t, p)
  {
    var s1 := Do(s, Forget(p));
    var s2 := Do(s1, PublishRecord(p));
    var s3 := Do(s2, CrashDaemon);
    t := Do(s3, Kill(p));
    First(s3, Kill(p), [], t);
    First(s2, CrashDaemon, [Kill(p)] + [], t);
    First(s1, PublishRecord(p), [CrashDaemon] + ([Kill(p)] + []), t);
    First(s, Forget(p), [PublishRecord(p)] + ([CrashDaemon] + ([Kill(p)] + [])), t);
  }

  /** And a child that gets the number of one that was waited for is forgotten in its place: what it
      goes on to publish is out of reach once it is dead. */
  lemma LateForgetLeaks(s: State, p: Pid) returns (steps: seq<Step>, t: State)
    requires Vacant(s, p) && p in s.forgetting
    ensures Leads(s, steps, t) && Leaked(t, p)
  {
    var s1 := ChildStarts(s, p);
    t := PublishesUnknown(s1, p);
    steps := [Spawn(p)] + ([TrackChild(p)] + ([Init(p)]
               + ([Forget(p)] + ([PublishRecord(p)] + ([CrashDaemon] + ([Kill(p)] + []))))));
  }
}
