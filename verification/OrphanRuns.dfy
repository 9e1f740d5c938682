/**
 Around the index of ghosts: which steps touch files and the index at all, what they do to a process that is
 no ghost, and a run in which a daemon that starts removes what a crash left behind.
 */
module OrphanRuns {
  import opened Orphans

  predicate TouchesFiles(step: Step) {
    || step.StartDaemon? || step.PublishRecord? || step.PublishKey? || step.PublishFails?
    || step.RemoveRecord? || step.RemoveKey? || step.ForeignPublish? || step.ForeignExit?
  }

  /** Only these steps change what is on disk. */
  lemma FewTouchFiles(s: State, step: Step)
    requires Possible(s, step) && !TouchesFiles(step)
    ensures Do(s, step).records == s.records && Do(s, step).keys == s.keys
  {
    match step
    case CrashDaemon =>
    case Spawn(_) =>
    case TrackChild(_) =>
    case Init(_) =>
    case Leave(_) =>
    case Kill(_) =>
    case Wait(_) =>
    case Forget(_) =>
    case Abandon(_) =>
    case ForeignStart(_) =>
  }

  /** And only starting, tracking and forgetting change the index. */
  lemma FewTouchTheIndex(s: State, step: Step)
    requires Possible(s, step) && !step.StartDaemon? && !step.TrackChild? && !step.Forget?
    ensures Do(s, step).index == s.index
  {
  }

  /** A step of a ghost or of the daemon for it touches no file and no entry of any other number. */
  lemma OwnFilesOnly(s: State, step: Step, q: Pid)
    requires Possible(s, step) && !step.StartDaemon? && !step.CrashDaemon? && step.p != q
    ensures var t := Do(s, step);
            && (q in t.records <==> q in s.records) && (q in s.records ==> t.records[q] == s.records[q])
            && (forall k: KeyFile :: k.pid == q ==> (k in t.keys <==> k in s.keys))
            && (s.held == s.index ==> (q in t.index <==> q in s.index))
  {
  }

  /** The files of a process that is no ghost: its record as it wrote it, and a key. */
  predicate ForeignFiles(s: State, p: Pid, hash: int) {
    p in s.records && s.records[p] == ByForeign && KeyFile(p, hash, ByForeign) in s.keys
  }

  /** A foreign process writes its own files and takes away its own, all of them or none. */
  lemma ForeignExactly(s: State, p: Pid, hash: int, removes: bool)
    requires AliveForeign(s, p) && forall k :: k in s.keys ==> k.hash != hash
    ensures var t := Do(s, ForeignPublish(p, hash));
            ForeignFiles(t, p, hash) && t.procs == s.procs && t.index == s.index && t.children == s.children
            && t.keys == s.keys + {KeyFile(p, hash, ByForeign)}
    ensures var t := Do(s, ForeignExit(p, removes));
            && t.procs == s.procs - {p} && t.index == s.index && t.children == s.children
            && (p in t.records <==> !removes && p in s.records)
            && forall k :: k in t.keys <==> k in s.keys && !(removes && k.pid == p && k.writer.ByForeign?)
  {
  }

  /** While it lives nobody else takes its files away, a starting daemon included. */
  lemma ForeignSpared(s: State, step: Step, p: Pid, hash: int)
    requires Possible(s, step) && AliveForeign(s, p) && ForeignFiles(s, p, hash)
    requires !(step.ForeignExit? && step.p == p)
    ensures AliveForeign(Do(s, step), p) && ForeignFiles(Do(s, step), p, hash)
  {
  }

  /** Starting loads and sweeps; crashing forgets who were children and stops nobody. */
  lemma DaemonExactly(s: State)
    ensures Possible(s, StartDaemon) ==>
              var t := Do(s, StartDaemon);
              && t.running && t.held == t.index && t.procs == s.procs
              && forall q :: q in t.index <==> q in s.index && q in s.procs
    ensures Possible(s, CrashDaemon) ==>
              var t := Do(s, CrashDaemon);
              !t.running && t.children == map[] && t.forgetting == multiset{} && t.procs == s.procs
  {
  }

  /** Waiting frees the number, forgetting takes one entry out, abandoning keeps it. */
  lemma ChildExactly(s: State, p: Pid)
    ensures Possible(s, Wait(p)) ==>
              var t := Do(s, Wait(p));
              t.children == s.children - {p} && t.forgetting == s.forgetting + multiset{p} && t.procs == s.procs
    ensures Possible(s, Forget(p)) ==>
              var t := Do(s, Forget(p));
              t.held == s.held - {p} && t.index == t.held && t.forgetting == s.forgetting - multiset{p}
    ensures Possible(s, Abandon(p)) ==>
              var t := Do(s, Abandon(p));
              t.children == s.children - {p} && t.forgetting == s.forgetting && t.held == s.held
  {
    if Possible(s, Forget(p)) {
      assert Do(s, Forget(p)).held == s.held - {p};
    }
  }

  lemma ForeignStarts(s: State, p: Pid)
    requires Possible(s, ForeignStart(p))
    ensures Do(s, ForeignStart(p)) == s.(procs := s.procs[p := Foreign])
  {
  }

  // ---------- A recovery ----------

  lemma OneMoreStep(states: seq<State>, steps: seq<Step>, step: Step) returns (more: seq<State>)
    requires IsRun(states, steps) && Possible(states[|steps|], step) && Clean(states[|steps|], step)
    ensures more == states + [Do(states[|steps|], step)] && IsRun(more, steps + [step])
  {
    more := states + [Do(states[|steps|], step)];
  }

  /** A daemon starts and brings up a ghost, which publishes. */
  lemma GhostComesUp(p: Pid, hash: int) returns (states: seq<State>, steps: seq<Step>)
    ensures IsRun(states, steps)
    ensures var s := states[|steps|];
            && s.running && GhostAt(s, p, Published(hash)) && p in s.index && s.procs.Keys == {p}
            && s.records == map[p := ByGhost] && s.keys == {KeyFile(p, hash, ByGhost)}
  {
    states, steps := [INITIAL], [];
    states := OneMoreStep(states, steps, StartDaemon);
    steps := steps + [StartDaemon];
    states := OneMoreStep(states, steps, Spawn(p));
    steps := steps + [Spawn(p)];
    states := OneMoreStep(states, steps, TrackChild(p));
    steps := steps + [TrackChild(p)];
    states := OneMoreStep(states, steps, Init(p));
    steps := steps + [Init(p)];
    states := OneMoreStep(states, steps, PublishRecord(p));
    steps := steps + [PublishRecord(p)];
    states := OneMoreStep(states, steps, PublishKey(p, hash));
    steps := steps + [PublishKey(p, hash)];
  }

  /** The daemon crashes, its ghost is killed after that, and both files stay; the next daemon that starts
      removes them, and the index is empty again. */
  lemma RecoveryHappens(p: Pid, hash: int) returns (states: seq<State>, steps: seq<Step>)
    ensures IsRun(states, steps) && |steps| > 0 && steps[|steps| - 1] == StartDaemon
    ensures var s := states[|steps| - 1]; HasGhostRecord(s, p) && KeyFile(p, hash, ByGhost) in s.keys && p !in s.procs
    ensures var t := states[|steps|]; t.running && t.records == map[] && t.keys == {} && t.index == {}
  {
    states, steps := GhostComesUp(p, hash);
    states := OneMoreStep(states, steps, CrashDaemon);
    steps := steps + [CrashDaemon];
    states := OneMoreStep(states, steps, Kill(p));
    steps := steps + [Kill(p)];
    RunIsTidy(states, steps, |steps|);
    states := OneMoreStep(states, steps, StartDaemon);
    steps := steps + [StartDaemon];
  }
}
