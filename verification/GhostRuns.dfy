/**
 The ghost's own protocol inside the runs of daemons and other processes: each file a ghost writes or
 removes is a step those runs allow, and when Run has returned the ghost may leave.
 */
module GhostRuns {
  import opened Options
  import Ghost
  import Orphans

  type Pid = Orphans.Pid

  /** What a step of the protocol does to the files, as a step of the runs; most do nothing. */
  function FileStep(step: Ghost.Step, p: Pid, hash: int): Option<Orphans.Step> {
    match step
    case WriteRecord => Some(Orphans.PublishRecord(p))
    case WriteKey => Some(Orphans.PublishKey(p, hash))
    case WriteKeyFails(created, _) => Some(Orphans.PublishFails(p, hash, created))
    case RemoveRecord(_) => Some(Orphans.RemoveRecord(p))
    case RemoveKey(_) => Some(Orphans.RemoveKey(p))
    case _ => None
  }

  /** The system removes what it is asked to remove. */
  predicate Obliging(step: Ghost.Step) {
    !Ghost.RefusesRecord(step) && step != Ghost.RemoveKey(false)
  }

  predicate StageIs(g: Ghost.State, stage: Orphans.Stage, hash: int) {
    match g.main
    case Starting => stage.Silent?
    case Bound => stage.Silent?
    case RecordWritten => stage.RecordOnly?
    case RecordGone => stage == Orphans.KeyOnly(hash)
    case Deferred => stage == if g.files.withdrawals == 0 then Orphans.Published(hash) else Orphans.Done
    case Unwinding => stage.Silent? || stage.Done?
    case Returned => stage.Silent? || stage.Done?
    case _ => stage == Orphans.Published(hash)
  }

  /** The files on disk are those of the protocol: its record, and its key and no other ghost's. */
  ghost predicate FilesAre(g: Ghost.State, o: Orphans.State, p: Pid, hash: int) {
    && (Orphans.HasGhostRecord(o, p) <==> g.files.record)
    && (Orphans.KeyFile(p, hash, Orphans.ByGhost) in o.keys <==> g.files.key)
    && (forall k :: k in o.keys && k.pid == p && k.writer.ByGhost? ==> k.hash == hash)
  }

  /** The hash of the key is not taken before the key is written. */
  ghost predicate HashIsNew(g: Ghost.State, o: Orphans.State, hash: int) {
    g.main.Starting? || g.main.Bound? || g.main.RecordWritten? ==> forall k :: k in o.keys ==> k.hash != hash
  }

  /** The process with that number is this ghost, told to publish, and its files are as it thinks. */
  ghost predicate Matches(g: Ghost.State, o: Orphans.State, p: Pid, hash: int) {
    && Orphans.AliveGhost(o, p) && o.procs[p].told
    && StageIs(g, o.procs[p].stage, hash) && FilesAre(g, o, p, hash) && HashIsNew(g, o, hash)
  }

  lemma QuietStepMatches(g: Ghost.State, step: Ghost.Step, o: Orphans.State, p: Pid, hash: int)
    requires Ghost.Inv(g) && Ghost.Enabled(g, step) && Matches(g, o, p, hash) && FileStep(step, p, hash).None?
    ensures Matches(Ghost.Do(g, step), o, p, hash)
  {
  }

  lemma FileStepMatches(g: Ghost.State, step: Ghost.Step, o: Orphans.State, p: Pid, hash: int)
    requires Ghost.Inv(g) && Ghost.Enabled(g, step) && Obliging(step) && Matches(g, o, p, hash)
    requires FileStep(step, p, hash).Some?
    ensures var x := FileStep(step, p, hash).value;
            Orphans.Possible(o, x) && Matches(Ghost.Do(g, step), Orphans.Do(o, x), p, hash)
  {
  }

  // ---------- The protocol among everything else ----------

  /** A step of the runs that is not the ghost's own: another process, the daemon, or the daemon's part
      of this one's life. Nobody else draws its hash. */
  predicate Elsewhere(x: Orphans.Step, p: Pid, hash: int) {
    && (x.PublishKey? || x.PublishFails? || x.ForeignPublish? ==> x.hash != hash)
    && (x.StartDaemon? || x.CrashDaemon? || x.TrackChild? || x.Init? || x.Forget? || x.p != p)
  }

  lemma ElsewhereMatches(g: Ghost.State, o: Orphans.State, x: Orphans.Step, p: Pid, hash: int)
    requires Matches(g, o, p, hash) && Orphans.Possible(o, x) && Elsewhere(x, p, hash)
    ensures Matches(g, Orphans.Do(o, x), p, hash)
  {
    if x.StartDaemon? {
      SweepSparesIt(o, p);
    }
  }

  lemma SweepSparesIt(o: Orphans.State, p: Pid)
    requires Orphans.Possible(o, Orphans.StartDaemon) && p in o.procs
    ensures var t := Orphans.Do(o, Orphans.StartDaemon);
            && (Orphans.HasGhostRecord(t, p) <==> Orphans.HasGhostRecord(o, p))
            && forall k: Orphans.KeyFile :: k.pid == p ==> (k in t.keys <==> k in o.keys)
  {
  }

  /** A step of the ghost's protocol, or one of anybody else. */
  datatype Joint = Own(step: Ghost.Step) | Else(x: Orphans.Step)

  predicate Follows(o: Orphans.State, x: Option<Orphans.Step>, o': Orphans.State) {
    match x
    case None => o' == o
    case Some(step) => Orphans.Possible(o, step) ==> o' == Orphans.Do(o, step)
  }

  /** The protocol takes its step and the files follow, where they can; everybody else takes theirs. */
  ghost predicate Moves(g: Ghost.State, o: Orphans.State, j: Joint, g': Ghost.State, o': Orphans.State, p: Pid,
                        hash: int) {
    match j
    case Own(step) =>
      && Ghost.Enabled(g, step) && Obliging(step) && g' == Ghost.Do(g, step)
      && Follows(o, FileStep(step, p, hash), o')
    case Else(x) => Elsewhere(x, p, hash) && Orphans.Possible(o, x) && g' == g && o' == Orphans.Do(o, x)
  }

  /** A run of the two together from a ghost that was told to publish and has not begun. */
  ghost predicate IsJoint(gs: seq<Ghost.State>, os: seq<Orphans.State>, js: seq<Joint>, p: Pid, hash: int) {
    && |gs| == |os| == |js| + 1 && gs[0] == Ghost.INITIAL
    && Orphans.GhostAt(os[0], p, Orphans.Silent) && os[0].procs[p].told && !Orphans.HasGhostFile(os[0], p)
    && (forall k :: k in os[0].keys ==> k.hash != hash)
    && forall i :: 0 <= i < |js| ==> Moves(gs[i], os[i], js[i], gs[i + 1], os[i + 1], p, hash)
  }

  lemma BeginsMatched(o: Orphans.State, p: Pid, hash: int)
    requires Orphans.GhostAt(o, p, Orphans.Silent) && o.procs[p].told && !Orphans.HasGhostFile(o, p)
    requires forall k :: k in o.keys ==> k.hash != hash
    ensures Ghost.Inv(Ghost.INITIAL) && Matches(Ghost.INITIAL, o, p, hash)
  {
  }

  lemma StepMatches(g: Ghost.State, o: Orphans.State, j: Joint, g': Ghost.State, o': Orphans.State, p: Pid, hash: int)
    requires Ghost.Inv(g) && Matches(g, o, p, hash) && Moves(g, o, j, g', o', p, hash)
    ensures Ghost.Inv(g') && Matches(g', o', p, hash)
    ensures j.Own? && FileStep(j.step, p, hash).Some? ==> Orphans.Possible(o, FileStep(j.step, p, hash).value)
  {
    match j
    case Own(step) =>
      Ghost.StepKeepsInv(g, step);
      if FileStep(step, p, hash).None? {
        QuietStepMatches(g, step, o, p, hash);
      } else {
        FileStepMatches(g, step, o, p, hash);
      }
    case Else(x) => ElsewhereMatches(g, o, x, p, hash);
  }

  lemma {:induction false} JointMatches(gs: seq<Ghost.State>, os: seq<Orphans.State>, js: seq<Joint>, p: Pid, hash: int,
                                        n: nat)
    requires IsJoint(gs, os, js, p, hash) && n < |gs|
    ensures Ghost.Inv(gs[n]) && Matches(gs[n], os[n], p, hash)
  {
    if n > 0 {
      JointMatches(gs, os, js, p, hash, n - 1);
      StepMatches(gs[n - 1], os[n - 1], js[n - 1], gs[n], os[n], p, hash);
    } else {
      BeginsMatched(os[0], p, hash);
    }
  }

  /** What the runs assume of a ghost is what its protocol does, however daemons, crashes and other
      processes come between: every file it writes or removes is a step the runs allow; its record and
      key are on disk exactly when the protocol says so; and when Run has returned it may leave. */
  lemma ProtocolFitsTheRuns(gs: seq<Ghost.State>, os: seq<Orphans.State>, js: seq<Joint>, p: Pid, hash: int, n: nat)
    requires IsJoint(gs, os, js, p, hash) && n < |gs|
    ensures n < |js| && js[n].Own? && FileStep(js[n].step, p, hash).Some? ==>
              var x := FileStep(js[n].step, p, hash).value;
              Orphans.Possible(os[n], x) && os[n + 1] == Orphans.Do(os[n], x)
    ensures Orphans.HasGhostRecord(os[n], p) <==> gs[n].files.record
    ensures Orphans.HasGhostKey(os[n], p) <==> gs[n].files.key
    ensures gs[n].main.Returned? ==> Orphans.Possible(os[n], Orphans.Leave(p))
  {
    JointMatches(gs, os, js, p, hash, n);
    if n < |js| {
      StepMatches(gs[n], os[n], js[n], gs[n + 1], os[n + 1], p, hash);
    }
  }

  /** One of the first `n` steps left a key half written. */
  ghost predicate KeyWasCut(js: seq<Joint>, n: nat)
    requires n <= |js|
  {
    exists i :: 0 <= i < n && js[i].Own? && js[i].step.WriteKeyFails? && js[i].step.created
  }

  lemma OneMoreCut(js: seq<Joint>, n: nat)
    requires n < |js|
    ensures KeyWasCut(js, n + 1)
            <==> KeyWasCut(js, n) || (js[n].Own? && js[n].step.WriteKeyFails? && js[n].step.created)
  {
  }

  /** Nothing is recorded as refused by an obliging system, and a cut key is. */
  lemma ObligingStep(g: Ghost.State, step: Ghost.Step)
    requires Ghost.Enabled(g, step) && Obliging(step)
    ensures var f, f' := g.files, Ghost.Do(g, step).files;
            && (f'.recordStuck <==> f.recordStuck)
            && (f'.keyStuck || f'.keyCut <==> f.keyStuck || f.keyCut || (step.WriteKeyFails? && step.created))
  {
    Ghost.StepReasons(g, step);
  }

  lemma {:induction false} ReasonsAreCuts(gs: seq<Ghost.State>, os: seq<Orphans.State>, js: seq<Joint>, p: Pid,
                                          hash: int, n: nat)
    requires IsJoint(gs, os, js, p, hash) && n < |gs|
    ensures !gs[n].files.recordStuck && (gs[n].files.keyStuck || gs[n].files.keyCut <==> KeyWasCut(js, n))
  {
    if n > 0 {
      ReasonsAreCuts(gs, os, js, p, hash, n - 1);
      OneMoreCut(js, n - 1);
      assert Moves(gs[n - 1], os[n - 1], js[n - 1], gs[n], os[n], p, hash);
      if js[n - 1].Own? {
        ObligingStep(gs[n - 1], js[n - 1].step);
      }
    }
  }

  /** So a ghost that leaves through Run leaves a file exactly when its key was left half written, which
      is what crash recovery has to assume of it and nothing more. */
  lemma LeavesCleanly(gs: seq<Ghost.State>, os: seq<Orphans.State>, js: seq<Joint>, p: Pid, hash: int, n: nat)
    requires IsJoint(gs, os, js, p, hash) && n < |gs| && gs[n].main.Returned?
    ensures Orphans.Possible(os[n], Orphans.Leave(p))
    ensures Orphans.HasGhostFile(Orphans.Do(os[n], Orphans.Leave(p)), p) <==> KeyWasCut(js, n)
  {
    JointMatches(gs, os, js, p, hash, n);
    ReasonsAreCuts(gs, os, js, p, hash, n);
    ProtocolFitsTheRuns(gs, os, js, p, hash, n);
    LeavingKeepsFiles(os[n], p);
  }

  lemma LeavingKeepsFiles(o: Orphans.State, p: Pid)
    requires Orphans.Possible(o, Orphans.Leave(p))
    ensures Orphans.HasGhostFile(Orphans.Do(o, Orphans.Leave(p)), p) <==> Orphans.HasGhostFile(o, p)
  {
  }
}
