/**
 What becomes of the envelopes of the relay, and exactly which steps decide it: when one is lost,
 when one expires, when one gives way in a full queue.
 */
module RelayFates {
  import opened Options
  import opened Relay

  /** The four ways an envelope ends. */
  datatype End = ByWrite | ByExpiry | ByOverflow | ByLoss

  function PlaceOf(end: End): Place {
    match end
    case ByWrite => Written
    case ByExpiry => Expired
    case ByOverflow => Overflowed
    case ByLoss => Lost
  }

  /** The envelope a step puts into a queue, and whose queue it is. */
  function Queued(s: State, step: Step): Option<(EnvId, Member)> {
    match step
    case Queue(t) => if t in s.senders then Some((s.senders[t].env, RecipientOf(s, s.senders[t].env))) else None
    case PutBack(f) =>
      if f in s.flushes && s.flushes[f].pos < |s.flushes[f].taken|
      then Some((s.flushes[f].taken[s.flushes[f].pos].env, s.flushes[f].conn.member))
      else None
    case _ => None
  }

  /** The step ends the envelope in that way, told by the guards of the code: a write that succeeds;
      a flush that meets it too old; a full queue it is the head of; a write that fails while a flush
      still has it to send. */
  predicate Ends(end: End, s: State, step: Step, e: EnvId) {
    match end
    case ByWrite =>
      || (step.WriteDirect? && step.ok && step.t in s.senders && s.senders[step.t].env == e)
      || (step.Next? && step.ok && Meets(s, step.f, false) && s.flushes[step.f].taken[s.flushes[step.f].pos].env == e)
    case ByExpiry =>
      step.Next? && Meets(s, step.f, true) && s.flushes[step.f].taken[s.flushes[step.f].pos].env == e
    case ByOverflow =>
      && Queued(s, step).Some?
      && var q := QueueOf(s.queued, Queued(s, step).value.1);
         |q| >= QUEUE_LIMIT && q[0].env == e
    case ByLoss =>
      step.Next? && !step.ok && Meets(s, step.f, false)
      && e in EnvsOf(s.flushes[step.f].taken[s.flushes[step.f].pos + 1..])
  }

  // ---------- One step ----------

  lemma AllAt(place: map<EnvId, Place>, items: seq<Item>, k: nat, p: Place)
    requires k <= |items|
    requires forall i :: k <= i < |items| ==> items[i].env in place && place[items[i].env] == p
    ensures forall y :: y in EnvsOf(items[k..]) ==> y in place && place[y] == p
  {
    forall y | y in EnvsOf(items[k..]) ensures y in place && place[y] == p {
      var i :| 0 <= i < |items[k..]| && items[k..][i].env == y;
      assert items[k + i].env == y;
    }
  }

  lemma FlushEnvs(s: State, f: FlushId)
    requires Inv(s) && FlushIs(s, f, Writing)
    ensures var fl := s.flushes[f];
            forall y :: y in EnvsOf(fl.taken[fl.pos..]) ==> y in s.place && s.place[y] == InFlush(f)
  {
    FlushHeld(s, f);
    AllAt(s.place, s.flushes[f].taken, s.flushes[f].pos, InFlush(f));
  }

  lemma HeadAndTail(items: seq<Item>, pos: nat)
    requires pos < |items|
    ensures EnvsOf(items[pos..]) == {items[pos].env} + EnvsOf(items[pos + 1..])
  {
    TailEnvs(items, pos);
    assert items[pos..] == [items[pos]] + items[pos + 1..];
    assert items[pos..][0] == items[pos];
  }

  /** What the flush is at and what it still has to send are its own. */
  ghost predicate FlushHolds(s: State, f: FlushId)
    requires FlushIs(s, f, Writing) && s.flushes[f].pos < |s.flushes[f].taken|
  {
    var fl := s.flushes[f];
    forall y :: y == fl.taken[fl.pos].env || y in EnvsOf(fl.taken[fl.pos + 1..]) ==>
      y in s.place && s.place[y] == InFlush(f)
  }

  /** Under way before, the envelope is at that end afterwards exactly if it was ended, and nothing else
      is ended. */
  ghost predicate Decides(before: map<EnvId, Place>, after: map<EnvId, Place>, x: EnvId, end: End, ended: bool)
    requires x in before
  {
    && x in after && (ended ==> !Final(before[x]))
    && (!Final(before[x]) ==> (after[x] == PlaceOf(end) <==> ended))
  }

  lemma DecidedEnds(before: map<EnvId, Place>, after: map<EnvId, Place>, x: EnvId, end: End, ended: bool)
    requires x in before && Decides(before, after, x, end, ended)
    requires Final(before[x]) ==> after[x] == before[x]
    ensures after[x] == PlaceOf(end) <==> before[x] == PlaceOf(end) || ended
  {
  }

  lemma SkipEnds(s: State, f: FlushId, ok: bool, x: EnvId, end: End)
    requires Meets(s, f, true) && x in s.place
    requires FlushHolds(s, f)
    ensures Decides(s.place, NextOf(s, f, ok).place, x, end, Ends(end, s, Next(f, ok), x))
  {
  }

  lemma WriteEnds(s: State, f: FlushId, x: EnvId, end: End)
    requires Meets(s, f, false) && x in s.place
    requires FlushHolds(s, f)
    ensures Decides(s.place, NextOf(s, f, true).place, x, end, Ends(end, s, Next(f, true), x))
  {
  }

  lemma FailEnds(s: State, f: FlushId, x: EnvId, end: End)
    requires Meets(s, f, false) && x in s.place
    requires FlushHolds(s, f)
    ensures Decides(s.place, NextOf(s, f, false).place, x, end, Ends(end, s, Next(f, false), x))
  {
  }

  lemma NextHolds(s: State, f: FlushId)
    requires Inv(s) && FlushIs(s, f, Writing) && s.flushes[f].pos < |s.flushes[f].taken|
    ensures FlushHolds(s, f)
  {
    FlushEnvs(s, f);
    HeadAndTail(s.flushes[f].taken, s.flushes[f].pos);
  }

  lemma NextEnds(s: State, f: FlushId, ok: bool, x: EnvId, end: End)
    requires Inv(s) && Enabled(s, Next(f, ok)) && x in s.place
    ensures Decides(s.place, Do(s, Next(f, ok)).place, x, end, Ends(end, s, Next(f, ok), x))
  {
    NextHolds(s, f);
    if Meets(s, f, true) {
      SkipEnds(s, f, ok, x, end);
    } else if ok {
      WriteEnds(s, f, x, end);
    } else {
      FailEnds(s, f, x, end);
    }
  }

  lemma EnqueuedEnds(s: State, e: EnvId, m: Member, x: EnvId, end: End)
    requires e in s.place && x in s.place && !Final(s.place[x]) && s.place[e] != InQueue
    requires forall i :: 0 <= i < |QueueOf(s.queued, m)| ==>
               QueueOf(s.queued, m)[i].env in s.place && s.place[QueueOf(s.queued, m)[i].env] == InQueue
    ensures Enqueued(s, e, m).place.Keys == s.place.Keys
    ensures Enqueued(s, e, m).place[x] == PlaceOf(end) <==>
              end.ByOverflow? && |QueueOf(s.queued, m)| >= QUEUE_LIMIT && QueueOf(s.queued, m)[0].env == x
  {
  }

  lemma QueueEnds(s: State, t: ThreadId, x: EnvId, end: End)
    requires Inv(s) && Enabled(s, Queue(t)) && x in s.place
    ensures Decides(s.place, Do(s, Queue(t)).place, x, end, Ends(end, s, Queue(t), x))
  {
    var m := RecipientOf(s, s.senders[t].env);
    SlotPlace(s, AtSender(t));
    QueueHeld(s, m);
    if !Final(s.place[x]) {
      EnqueuedEnds(s.(senders := s.senders - {t}), s.senders[t].env, m, x, end);
    } else {
      EnqueuedEnds(s.(senders := s.senders - {t}), s.senders[t].env, m, s.senders[t].env, end);
    }
  }

  lemma PutBackEnds(s: State, f: FlushId, x: EnvId, end: End)
    requires Inv(s) && Enabled(s, PutBack(f)) && x in s.place
    ensures Decides(s.place, Do(s, PutBack(f)).place, x, end, Ends(end, s, PutBack(f), x))
  {
    var fl := s.flushes[f];
    var e := fl.taken[fl.pos].env;
    SlotPlace(s, AtFlush(f, fl.pos));
    QueueHeld(s, fl.conn.member);
    EnqueuedEnds(s.(flushes := s.flushes[f := fl.(stage := Done)]), e, fl.conn.member,
                 if Final(s.place[x]) then e else x, end);
  }

  lemma OtherEnds(s: State, step: Step, x: EnvId, end: End)
    requires Inv(s) && Enabled(s, step) && x in s.place && !step.Next? && !step.Queue? && !step.PutBack?
    ensures Decides(s.place, Do(s, step).place, x, end, Ends(end, s, step, x))
  {
    match step
    case WriteDirect(t, _) => SlotPlace(s, AtSender(t));
    case Take(f, c) => QueueHeld(s, c.member);
    case _ =>
  }

  lemma StepDecides(s: State, step: Step, x: EnvId, end: End)
    requires Inv(s) && Enabled(s, step) && x in s.place
    ensures Decides(s.place, Do(s, step).place, x, end, Ends(end, s, step, x))
  {
    match step
    case Next(f, ok) => NextEnds(s, f, ok, x, end);
    case Queue(t) => QueueEnds(s, t, x, end);
    case PutBack(f) => PutBackEnds(s, f, x, end);
    case _ => OtherEnds(s, step, x, end);
  }

  /** A step ends an envelope that is still under way in a certain way exactly when its guards say so,
      and ends none a second time. */
  lemma StepEnds(s: State, step: Step, x: EnvId, end: End)
    requires Inv(s) && Enabled(s, step) && x in s.place
    ensures x in Do(s, step).place
    ensures Do(s, step).place[x] == PlaceOf(end) <==> s.place[x] == PlaceOf(end) || Ends(end, s, step, x)
  {
    StepKeepsFate(s, step, x);
    StepDecides(s, step, x, end);
    DecidedEnds(s.place, Do(s, step).place, x, end, Ends(end, s, step, x));
  }

  lemma EndsPresent(s: State, step: Step, x: EnvId, end: End)
    requires Inv(s) && Enabled(s, step) && Ends(end, s, step, x)
    ensures x in s.place
  {
    match step
    case WriteDirect(t, _) => SlotPlace(s, AtSender(t));
    case Queue(t) => QueueHeld(s, RecipientOf(s, s.senders[t].env));
    case PutBack(f) => QueueHeld(s, s.flushes[f].conn.member);
    case Next(f, _) =>
      FlushEnvs(s, f);
      HeadAndTail(s.flushes[f].taken, s.flushes[f].pos);
  }

  // ---------- Whole runs ----------

  lemma {:induction false} PlaceGrows(states: seq<State>, steps: seq<Step>, i: nat, j: nat, x: EnvId)
    requires IsRun(states, steps) && i <= j < |states| && x in states[i].place
    ensures x in states[j].place
    decreases j
  {
    if i < j {
      PlaceGrows(states, steps, i, j - 1, x);
      RunKeepsAll(states, steps, j - 1);
      StepKeepsFate(states[j - 1], steps[j - 1], x);
    }
  }

  ghost predicate EndedBefore(end: End, states: seq<State>, steps: seq<Step>, j: nat, e: EnvId)
    requires j <= |steps| < |states|
  {
    exists i :: 0 <= i < j && Ends(end, states[i], steps[i], e)
  }

  lemma NoneBeforeIt(states: seq<State>, steps: seq<Step>, j: nat, e: EnvId, end: End)
    requires IsRun(states, steps) && j < |states| && e !in states[j].place
    ensures !EndedBefore(end, states, steps, j, e)
  {
    forall i | 0 <= i < j ensures !Ends(end, states[i], steps[i], e) {
      if Ends(end, states[i], steps[i], e) {
        RunKeepsAll(states, steps, i);
        EndsPresent(states[i], steps[i], e, end);
        PlaceGrows(states, steps, i, j, e);
      }
    }
  }

  lemma NewIsUnderWay(s: State, step: Step, e: EnvId)
    requires Inv(s) && Enabled(s, step) && e in Do(s, step).place && e !in s.place
    ensures Do(s, step).place[e].WithSender?
  {
    OnlyAcceptAdds(s, step, e);
  }

  /** What a step says of any envelope there is after it. */
  lemma StepEndsAny(s: State, step: Step, e: EnvId, end: End)
    requires Inv(s) && Enabled(s, step) && e in Do(s, step).place
    ensures Do(s, step).place[e] == PlaceOf(end)
            <==> (e in s.place && s.place[e] == PlaceOf(end)) || Ends(end, s, step, e)
  {
    if e in s.place {
      StepEnds(s, step, e, end);
    } else {
      NewIsUnderWay(s, step, e);
      if Ends(end, s, step, e) {
        EndsPresent(s, step, e, end);
      }
    }
  }

  lemma OneMore(end: End, states: seq<State>, steps: seq<Step>, j: nat, e: EnvId)
    requires j < |steps| < |states|
    ensures EndedBefore(end, states, steps, j + 1, e)
            <==> EndedBefore(end, states, steps, j, e) || Ends(end, states[j], steps[j], e)
  {
  }

  /** Exactly when an envelope is written, expires, overflows or is lost: there was a step at which the
      guards of the code decided it. In particular it is lost exactly when a write of some flush failed
      while that flush still had it to send. */
  lemma {:induction false} EndsExactly(states: seq<State>, steps: seq<Step>, j: nat, e: EnvId, end: End)
    requires IsRun(states, steps) && j < |states| && e in states[j].place
    ensures states[j].place[e] == PlaceOf(end) <==> EndedBefore(end, states, steps, j, e)
    decreases j
  {
    if j > 0 {
      RunKeepsAll(states, steps, j - 1);
      StepEndsAny(states[j - 1], steps[j - 1], e, end);
      OneMore(end, states, steps, j - 1, e);
      if e in states[j - 1].place {
        EndsExactly(states, steps, j - 1, e, end);
      } else {
        NoneBeforeIt(states, steps, j - 1, e, end);
      }
    }
  }

  /** A write that fails loses nothing exactly when it was the last of its flush. */
  lemma FailingWriteLosesNothing(s: State, f: FlushId)
    requires Inv(s) && Enabled(s, Next(f, false)) && Meets(s, f, false)
    ensures (forall e :: e in s.place && !s.place[e].Lost? ==> !Do(s, Next(f, false)).place[e].Lost?)
            <==> s.flushes[f].pos + 1 == |s.flushes[f].taken|
  {
    var fl := s.flushes[f];
    var t := Do(s, Next(f, false));
    forall e | e in s.place
      ensures e in t.place
      ensures t.place[e].Lost? <==> s.place[e].Lost? || e in EnvsOf(fl.taken[fl.pos + 1..])
    {
      StepEnds(s, Next(f, false), e, ByLoss);
    }
    if fl.pos + 1 < |fl.taken| {
      var e := fl.taken[fl.pos + 1].env;
      FlushHeld(s, f);
      TailEnvs(fl.taken, fl.pos + 1);
      assert e in s.place && !s.place[e].Lost? && t.place[e].Lost?;
    }
  }

  // ---------- How late an envelope expires ----------

  /** The envelopes the first `n` steps queued, with the time each was queued at. */
  function Dates(states: seq<State>, steps: seq<Step>, n: nat): set<(EnvId, int)>
    requires n <= |steps| < |states|
  {
    if n == 0 then {} else Dates(states, steps, n - 1) + DateOf(states[n - 1], steps[n - 1])
  }

  function DateOf(s: State, step: Step): set<(EnvId, int)> {
    match Queued(s, step)
    case Some(q) => {(q.0, s.now)}
    case None => {}
  }

  ghost predicate Dated(items: seq<Item>, known: set<(EnvId, int)>) {
    forall i :: 0 <= i < |items| ==> (items[i].env, items[i].at) in known
  }

  ghost predicate AllDated(s: State, known: set<(EnvId, int)>) {
    && (forall m :: m in s.queued ==> Dated(s.queued[m], known))
    && (forall f :: f in s.flushes ==> Dated(s.flushes[f].taken, known))
  }

  ghost predicate ClocksRead(s: State) {
    forall f :: f in s.flushes && !s.flushes[f].stage.Took? ==> s.flushes[f].cutoff + QUEUE_TTL <= s.now
  }

  lemma EnqueuedDated(s: State, e: EnvId, m: Member, known: set<(EnvId, int)>)
    requires AllDated(s, known)
    ensures AllDated(Enqueued(s, e, m), known + {(e, s.now)})
  {
    assert Dated(QueueOf(s.queued, m), known);
  }

  lemma TakeKeepsDated(s: State, f: FlushId, c: Conn, known: set<(EnvId, int)>)
    requires Enabled(s, Take(f, c)) && AllDated(s, known)
    ensures AllDated(Do(s, Take(f, c)), known)
  {
    assert Dated(QueueOf(s.queued, c.member), known);
  }

  lemma FlushKeepsDated(s: State, f: FlushId, fl: Flush, known: set<(EnvId, int)>)
    requires AllDated(s, known) && f in s.flushes && fl.taken == s.flushes[f].taken
    ensures AllDated(s.(flushes := s.flushes[f := fl]), known)
  {
  }

  lemma QueueKeepsDated(s: State, t: ThreadId, known: set<(EnvId, int)>)
    requires Enabled(s, Queue(t)) && AllDated(s, known)
    ensures AllDated(Do(s, Queue(t)), known + DateOf(s, Queue(t)))
  {
    EnqueuedDated(s.(senders := s.senders - {t}), s.senders[t].env, RecipientOf(s, s.senders[t].env), known);
  }

  lemma PutBackKeepsDated(s: State, f: FlushId, known: set<(EnvId, int)>)
    requires Enabled(s, PutBack(f)) && AllDated(s, known)
    ensures AllDated(Do(s, PutBack(f)), known + DateOf(s, PutBack(f)))
  {
    var fl := s.flushes[f];
    FlushKeepsDated(s, f, fl.(stage := Done), known);
    EnqueuedDated(s.(flushes := s.flushes[f := fl.(stage := Done)]), fl.taken[fl.pos].env, fl.conn.member, known);
  }

  lemma NextKeepsDated(s: State, f: FlushId, ok: bool, known: set<(EnvId, int)>)
    requires Enabled(s, Next(f, ok)) && AllDated(s, known)
    ensures AllDated(Do(s, Next(f, ok)), known)
  {
  }

  lemma OtherKeepsDated(s: State, step: Step, known: set<(EnvId, int)>)
    requires Enabled(s, step) && AllDated(s, known)
    requires !step.Queue? && !step.PutBack? && !step.Next? && !step.Take?
    ensures AllDated(Do(s, step), known)
  {
  }

  lemma StepKeepsDated(s: State, step: Step, known: set<(EnvId, int)>)
    requires Enabled(s, step) && AllDated(s, known)
    ensures AllDated(Do(s, step), known + DateOf(s, step))
  {
    match step
    case Queue(t) => QueueKeepsDated(s, t, known);
    case PutBack(f) => PutBackKeepsDated(s, f, known);
    case Take(f, c) =>
      TakeKeepsDated(s, f, c, known);
      assert known + {} == known;
    case Next(f, ok) =>
      NextKeepsDated(s, f, ok, known);
      assert known + {} == known;
    case _ =>
      OtherKeepsDated(s, step, known);
      assert known + {} == known;
  }

  lemma StepKeepsClocks(s: State, step: Step)
    requires Enabled(s, step) && ClocksRead(s)
    ensures ClocksRead(Do(s, step))
  {
  }

  lemma {:induction false} RunDated(states: seq<State>, steps: seq<Step>, n: nat)
    requires IsRun(states, steps) && n < |states|
    ensures AllDated(states[n], Dates(states, steps, n)) && ClocksRead(states[n])
  {
    if n > 0 {
      RunDated(states, steps, n - 1);
      StepKeepsDated(states[n - 1], steps[n - 1], Dates(states, steps, n - 1));
      StepKeepsClocks(states[n - 1], steps[n - 1]);
    }
  }

  /** The step at which something was queued. */
  lemma {:induction false} QueuedWhen(states: seq<State>, steps: seq<Step>, n: nat, e: EnvId, at: int) returns (q: nat)
    requires n <= |steps| < |states| && (e, at) in Dates(states, steps, n)
    ensures q < n && Queued(states[q], steps[q]).Some? && Queued(states[q], steps[q]).value.0 == e
            && states[q].now == at
  {
    if (e, at) in DateOf(states[n - 1], steps[n - 1]) {
      q := n - 1;
    } else {
      q := QueuedWhen(states, steps, n - 1, e, at);
    }
  }

  /** An envelope expires only after it was queued more than the time to live before. */
  lemma ExpiresLate(states: seq<State>, steps: seq<Step>, j: nat, e: EnvId) returns (q: nat, i: nat)
    requires IsRun(states, steps) && j < |states| && e in states[j].place && states[j].place[e].Expired?
    ensures q < i < j && Queued(states[q], steps[q]).Some? && Queued(states[q], steps[q]).value.0 == e
    ensures Ends(ByExpiry, states[i], steps[i], e) && states[i].now > states[q].now + QUEUE_TTL
  {
    EndsExactly(states, steps, j, e, ByExpiry);
    i :| 0 <= i < j && Ends(ByExpiry, states[i], steps[i], e);
    RunDated(states, steps, i);
    var fl := states[i].flushes[steps[i].f];
    assert Dated(fl.taken, Dates(states, steps, i));
    q := QueuedWhen(states, steps, i, e, fl.taken[fl.pos].at);
  }

  // ---------- A run in which an envelope is lost ----------

  lemma OneMoreStep(states: seq<State>, steps: seq<Step>, step: Step) returns (more: seq<State>)
    requires IsRun(states, steps) && Enabled(states[|steps|], step)
    ensures more == states + [Do(states[|steps|], step)] && IsRun(more, steps + [step])
  {
    more := states + [Do(states[|steps|], step)];
  }

  /** A quiet relay: nobody is connected or sending. */
  predicate Quiet(s: State) {
    s.online == map[] && s.senders == map[] && s.now == 0
  }

  /** An envelope comes for a member who is not connected, and is queued. */
  lemma Comes(states: seq<State>, steps: seq<Step>, e: EnvId, m: Member)
      returns (more: seq<State>, moreSteps: seq<Step>)
    requires IsRun(states, steps) && Quiet(states[|steps|]) && e !in states[|steps|].recipient
    requires |QueueOf(states[|steps|].queued, m)| < QUEUE_LIMIT
    ensures IsRun(more, moreSteps) && Quiet(more[|moreSteps|])
    ensures var s, t := states[|steps|], more[|moreSteps|];
            && t.recipient == s.recipient[e := m] && t.place == s.place[e := InQueue] && t.log == s.log
               && t.flushes == s.flushes
            && QueueOf(t.queued, m) == QueueOf(s.queued, m) + [Item(e, 0)]
  {
    more := OneMoreStep(states, steps, Accept(0, e, m));
    more := OneMoreStep(more, steps + [Accept(0, e, m)], Queue(0));
    moreSteps := steps + [Accept(0, e, m)] + [Queue(0)];
  }

  /** A connection of the member takes the queue and reads the clock. */
  lemma Connects(states: seq<State>, steps: seq<Step>, m: Member) returns (more: seq<State>, moreSteps: seq<Step>)
    requires IsRun(states, steps) && 0 !in states[|steps|].flushes
    ensures IsRun(more, moreSteps)
    ensures var s, t := states[|steps|], more[|moreSteps|];
            && t.flushes == s.flushes[0 := Flush(Conn(0, m), QueueOf(s.queued, m), 0, s.now - QUEUE_TTL, Writing)]
            && t.place.Keys == s.place.Keys && t.queued == s.queued - {m}
            && t.now == s.now && t.senders == s.senders && t.log == s.log
  {
    var c := Conn(0, m);
    more := OneMoreStep(states, steps, Take(0, c));
    more := OneMoreStep(more, steps + [Take(0, c)], ReadClock(0));
    moreSteps := steps + [Take(0, c)] + [ReadClock(0)];
  }

  /** Its first write fails and that envelope is put back. */
  lemma Fails(states: seq<State>, steps: seq<Step>, m: Member, a: EnvId, b: EnvId)
      returns (more: seq<State>, moreSteps: seq<Step>)
    requires IsRun(states, steps) && states[|steps|].now == 0 && a != b && m !in states[|steps|].queued
    requires 0 in states[|steps|].flushes
    requires states[|steps|].flushes[0] == Flush(Conn(0, m), [Item(a, 0), Item(b, 0)], 0, 0 - QUEUE_TTL, Writing)
    requires a in states[|steps|].place && b in states[|steps|].place
    ensures IsRun(more, moreSteps) && |more| == |states| + 2 && |moreSteps| == |steps| + 2
    ensures var s, t := states[|steps|], more[|moreSteps|];
            && QueueOf(t.queued, m) == [Item(a, 0)] && t.senders == s.senders && t.log == s.log
            && b in t.place && t.place[b] == Lost
  {
    var fl := states[|steps|].flushes[0];
    TailEnvs(fl.taken, fl.pos + 1);
    assert fl.taken[1].env == b;
    more := OneMoreStep(states, steps, Next(0, false));
    assert more[|steps| + 1].place[b] == Lost;
    more := OneMoreStep(more, steps + [Next(0, false)], PutBack(0));
    moreSteps := steps + [Next(0, false)] + [PutBack(0)];
  }

  /** Two envelopes wait, a connection takes the queue, and its first write fails: that envelope waits
      again, and the other one is lost for good. */
  lemma LossHappens(m: Member) returns (states: seq<State>, steps: seq<Step>)
    ensures IsRun(states, steps)
    ensures var end := states[|steps|];
            && 1 in end.place && end.place[1] == Lost && EndedBefore(ByLoss, states, steps, |steps|, 1)
            && QueueOf(end.queued, m) == [Item(0, 0)] && end.senders == map[] && end.log == []
  {
    states, steps := Comes([INITIAL], [], 0, m);
    states, steps := Comes(states, steps, 1, m);
    states, steps := Connects(states, steps, m);
    states, steps := Fails(states, steps, m, 0, 1);
    EndsExactly(states, steps, |steps|, 1, ByLoss);
  }

  /** And one in which an envelope expires: it waits for a second more than 72 hours. */
  lemma ExpiryHappens(m: Member) returns (states: seq<State>, steps: seq<Step>)
    ensures IsRun(states, steps)
    ensures var end := states[|steps|]; 0 in end.place && end.place[0] == Expired && end.log == []
  {
    states, steps := Comes([INITIAL], [], 0, m);
    states := OneMoreStep(states, steps, Tick(72 * 3600 + 1));
    steps := steps + [Tick(72 * 3600 + 1)];
    states, steps := Connects(states, steps, m);
    states := OneMoreStep(states, steps, Next(0, true));
    steps := steps + [Next(0, true)];
  }
}
