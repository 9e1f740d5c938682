/**
 Which way an envelope takes through the relay: who counts as connected, when an envelope is written
 directly and when it waits, whose queue a flush takes, and when what waited is too old.
 */
module RelayRoutes {
  import opened Options
  import opened Relay
  import opened RelayFates

  // ---------- Who is connected ----------

  /** The connection was registered by that step, and up to the `j`th nobody replaced it and it did not
      unregister itself. */
  ghost predicate UpSince(steps: seq<Step>, i: nat, j: nat, c: Conn)
    requires j <= |steps|
  {
    && i < j && steps[i] == Connect(c)
    && forall k :: i < k < j ==>
         steps[k] != Disconnect(c) && !(steps[k].Connect? && steps[k].c.member == c.member)
  }

  ghost predicate Up(steps: seq<Step>, j: nat, c: Conn)
    requires j <= |steps|
  {
    exists i: nat :: UpSince(steps, i, j, c)
  }

  predicate IsOnline(s: State, c: Conn) {
    c.member in s.online && s.online[c.member] == c
  }

  lemma UpNext(steps: seq<Step>, j: nat, c: Conn)
    requires j < |steps|
    ensures Up(steps, j + 1, c) <==>
            || steps[j] == Connect(c)
            || (Up(steps, j, c) && steps[j] != Disconnect(c) && !(steps[j].Connect? && steps[j].c.member == c.member))
  {
    if steps[j] == Connect(c) {
      assert UpSince(steps, j, j + 1, c);
    } else if Up(steps, j, c) && steps[j] != Disconnect(c) && !(steps[j].Connect? && steps[j].c.member == c.member) {
      var i: nat :| UpSince(steps, i, j, c);
      assert UpSince(steps, i, j + 1, c);
    }
    if Up(steps, j + 1, c) {
      var i: nat :| UpSince(steps, i, j + 1, c);
      if i < j {
        assert UpSince(steps, i, j, c);
      }
    }
  }

  lemma OnlineNext(s: State, step: Step, c: Conn)
    requires Inv(s) && Enabled(s, step)
    ensures IsOnline(Do(s, step), c) <==>
            || step == Connect(c)
            || (IsOnline(s, c) && step != Disconnect(c) && !(step.Connect? && step.c.member == c.member))
  {
  }

  /** In every run a connection is the member's one exactly when it was registered, has not been replaced by
      a newer one and has not left itself: an older one that leaves later takes nothing away. */
  lemma {:induction false} OnlineExactly(states: seq<State>, steps: seq<Step>, j: nat, c: Conn)
    requires IsRun(states, steps) && j < |states|
    ensures IsOnline(states[j], c) <==> Up(steps, j, c)
  {
    if j > 0 {
      OnlineExactly(states, steps, j - 1, c);
      OnlineOnward(states, steps, j - 1, c);
    }
  }

  lemma OnlineOnward(states: seq<State>, steps: seq<Step>, j: nat, c: Conn)
    requires IsRun(states, steps) && j < |steps| && (IsOnline(states[j], c) <==> Up(steps, j, c))
    ensures IsOnline(states[j + 1], c) <==> Up(steps, j + 1, c)
  {
    RunKeepsAll(states, steps, j);
    OnlineNext(states[j], steps[j], c);
    UpNext(steps, j, c);
  }

  // ---------- Directly or by the queue ----------

  /** The thread took that envelope in at that step, for that member. */
  ghost predicate CameAt(states: seq<State>, steps: seq<Step>, i: nat, t: ThreadId, e: EnvId, m: Member) {
    i < |steps| < |states| && steps[i] == Accept(t, e, m)
  }

  /** What the thread means to do was decided at step `i`: it writes to the connection the member had then,
      or it had none, or a write to it has failed since. */
  ghost predicate Decided(states: seq<State>, steps: seq<Step>, i: nat, j: nat, t: ThreadId, m: Member,
                          target: Option<Conn>)
    requires i < j <= |steps| < |states|
  {
    match target
    case Some(c) => m in states[i].online && states[i].online[m] == c
    case None => m !in states[i].online || exists k :: i < k < j && steps[k] == WriteDirect(t, false)
  }

  ghost predicate Came(states: seq<State>, steps: seq<Step>, i: nat, j: nat, t: ThreadId, x: Sender, m: Member) {
    i < j <= |steps| < |states| && CameAt(states, steps, i, t, x.env, m) && Decided(states, steps, i, j, t, m, x.target)
  }

  /** The thread as it is after a step that did not take its envelope in. */
  predicate Follows(x: Sender, step: Step, t: ThreadId, y: Sender) {
    y.env == x.env && y.target == if step == WriteDirect(t, false) then None else x.target
  }

  lemma CameOn(states: seq<State>, steps: seq<Step>, i: nat, j: nat, t: ThreadId, x: Sender, y: Sender, m: Member)
    requires j < |steps| && Came(states, steps, i, j, t, x, m) && Follows(x, steps[j], t, y)
    ensures Came(states, steps, i, j + 1, t, y, m)
  {
    if steps[j] == WriteDirect(t, false) {
      assert i < j < j + 1 && steps[j] == WriteDirect(t, false);
    } else if x.target.None? && m in states[i].online {
      var k :| i < k < j && steps[k] == WriteDirect(t, false);
      assert i < k < j + 1;
    }
  }

  lemma AcceptIs(s: State, t: ThreadId, e: EnvId, m: Member)
    requires Enabled(s, Accept(t, e, m))
    ensures var next := Do(s, Accept(t, e, m));
            && t in next.senders && e in next.recipient && next.recipient[e] == m
            && next.senders[t] == Sender(e, if m in s.online then Some(s.online[m]) else None)
  {
  }

  lemma OtherFollows(s: State, step: Step, t: ThreadId)
    requires Enabled(s, step) && t in Do(s, step).senders && !(step.Accept? && step.t == t)
    ensures t in s.senders && Follows(s.senders[t], step, t, Do(s, step).senders[t])
  {
  }

  lemma RecipientStays(s: State, step: Step, e: EnvId)
    requires Enabled(s, step) && e in s.recipient
    ensures e in Do(s, step).recipient && Do(s, step).recipient[e] == s.recipient[e]
  {
  }

  lemma {:induction false} SenderCame(states: seq<State>, steps: seq<Step>, j: nat, t: ThreadId) returns (i: nat)
    requires IsRun(states, steps) && j < |states| && t in states[j].senders
    ensures var x := states[j].senders[t];
            x.env in states[j].recipient && Came(states, steps, i, j, t, x, states[j].recipient[x.env])
    decreases j
  {
    var s, step := states[j - 1], steps[j - 1];
    if step.Accept? && step.t == t {
      i := j - 1;
      AcceptIs(s, t, step.e, step.m);
    } else {
      OtherFollows(s, step, t);
      i := SenderCame(states, steps, j - 1, t);
      RecipientStays(s, step, s.senders[t].env);
      CameOn(states, steps, i, j - 1, t, s.senders[t], states[j].senders[t], s.recipient[s.senders[t].env]);
    }
  }

  /** An envelope that was accepted goes to the queue only if its recipient had no connection when it came,
      or writing to that connection has failed; while one is connected it is written there. */
  lemma QueuedOnlyWhenAway(states: seq<State>, steps: seq<Step>, j: nat, t: ThreadId) returns (i: nat)
    requires IsRun(states, steps) && j < |steps| && steps[j] == Queue(t)
    ensures i < j && steps[i].Accept? && steps[i].t == t && steps[i].e == states[j].senders[t].env
    ensures steps[i].m !in states[i].online || exists k :: i < k < j && steps[k] == WriteDirect(t, false)
  {
    i := SenderCame(states, steps, j, t);
  }

  /** A direct write is to the connection the recipient had when the envelope came. */
  lemma WrittenToTheConnected(states: seq<State>, steps: seq<Step>, j: nat, t: ThreadId) returns (i: nat)
    requires IsRun(states, steps) && j < |steps| && steps[j] == WriteDirect(t, true)
    ensures i < j && steps[i].Accept? && steps[i].t == t && steps[i].m in states[i].online
    ensures states[j + 1].log == states[j].log + [Sent(steps[i].e, states[i].online[steps[i].m], None)]
    ensures Up(steps, i, states[i].online[steps[i].m])
  {
    i := SenderCame(states, steps, j, t);
    RunKeepsAll(states, steps, i);
    OnlineExactly(states, steps, i, states[i].online[steps[i].m]);
  }

  // ---------- The queues ----------

  /** The queue of that member has one more at its end and keeps its newest 500; no other changes. */
  ghost predicate OneMoreWaits(before: map<Member, seq<Item>>, after: map<Member, seq<Item>>, m: Member, item: Item) {
    && m in after && after - {m} == before - {m}
    && exists gone :: QueueOf(before, m) + [item] == gone + after[m]
                   && |after[m]| <= 500 && (gone != [] ==> |after[m]| == 500)
  }

  lemma AppendedExactly(q: seq<Item>, item: Item) returns (gone: seq<Item>)
    requires |q| <= QUEUE_LIMIT
    ensures var r := Appended(q, item);
            q + [item] == gone + r && |r| <= 500 && (gone != [] ==> |r| == 500)
  {
    gone := if |q| >= QUEUE_LIMIT then q[..1] else [];
    assert |q| >= QUEUE_LIMIT ==> q == q[..1] + q[1..];
  }

  lemma EnqueuedExactly(s: State, e: EnvId, m: Member)
    requires |QueueOf(s.queued, m)| <= QUEUE_LIMIT
    ensures OneMoreWaits(s.queued, Enqueued(s, e, m).queued, m, Item(e, s.now))
    ensures Enqueued(s, e, m).log == s.log && Enqueued(s, e, m).online == s.online
  {
    var gone := AppendedExactly(QueueOf(s.queued, m), Item(e, s.now));
  }

  /** An undelivered envelope waits at the end of its recipient's queue, from now on; */
  lemma QueueExactly(states: seq<State>, steps: seq<Step>, j: nat, t: ThreadId)
    requires IsRun(states, steps) && j < |steps| && steps[j] == Queue(t)
    ensures var e := states[j].senders[t].env;
            e in states[j].recipient
            && OneMoreWaits(states[j].queued, states[j + 1].queued, states[j].recipient[e], Item(e, states[j].now))
  {
    RunKeepsAll(states, steps, j);
    var s := states[j];
    assert SenderOk(t, s.senders[t], s.place, s.recipient);
    EnqueuedExactly(s.(senders := s.senders - {t}), s.senders[t].env, RecipientOf(s, s.senders[t].env));
  }

  /** so does the one a flush could not write, in the queue of the member it was flushing for; */
  lemma PutBackExactly(states: seq<State>, steps: seq<Step>, j: nat, f: FlushId)
    requires IsRun(states, steps) && j < |steps| && steps[j] == PutBack(f)
    ensures var fl := states[j].flushes[f];
            OneMoreWaits(states[j].queued, states[j + 1].queued, fl.conn.member,
                         Item(fl.taken[fl.pos].env, states[j].now))
  {
    RunKeepsAll(states, steps, j);
    var s := states[j];
    var fl := s.flushes[f];
    EnqueuedExactly(s.(flushes := s.flushes[f := fl.(stage := Done)]), fl.taken[fl.pos].env, fl.conn.member);
  }

  /** and nothing else changes a queue, but a flush that takes it. */
  lemma OtherwiseQueuesStay(s: State, step: Step)
    requires Enabled(s, step) && !step.Queue? && !step.PutBack? && !step.Take?
    ensures Do(s, step).queued == s.queued
  {
  }

  // ---------- The flushes ----------

  /** The flush began at that step with the whole queue of its connection's member, which was empty then. */
  ghost predicate TookAt(states: seq<State>, steps: seq<Step>, i: nat, f: FlushId, fl: Flush) {
    && i < |steps| < |states| && steps[i] == Take(f, fl.conn)
    && fl.taken == QueueOf(states[i].queued, fl.conn.member)
    && states[i + 1].queued == states[i].queued - {fl.conn.member}
  }

  lemma TakeIs(s: State, f: FlushId, c: Conn)
    requires Enabled(s, Take(f, c))
    ensures var next := Do(s, Take(f, c));
            && f in next.flushes && next.flushes[f].conn == c && next.flushes[f].stage.Took?
            && next.flushes[f].taken == QueueOf(s.queued, c.member) && next.queued == s.queued - {c.member}
  {
  }

  /** The flush as it is after a step that did not begin it. */
  predicate Continues(was: Flush, s: State, step: Step, f: FlushId, fl: Flush) {
    && fl.conn == was.conn && fl.taken == was.taken
    && (if step == ReadClock(f) then fl.cutoff == s.now - 72 * 3600
        else fl.cutoff == was.cutoff && (fl.stage.Took? <==> was.stage.Took?))
  }

  lemma OwnFlushStep(s: State, step: Step)
    requires Enabled(s, step) && (step.ReadClock? || step.Next? || step.PutBack? || step.Finish?)
    ensures step.f in s.flushes && step.f in Do(s, step).flushes
    ensures Continues(s.flushes[step.f], s, step, step.f, Do(s, step).flushes[step.f])
  {
    match step
    case Next(f, ok) => assert Do(s, step) == NextOf(s, f, ok);
    case _ =>
  }

  lemma OtherFlushStays(s: State, step: Step, f: FlushId)
    requires Enabled(s, step) && f in Do(s, step).flushes
    requires step.Take? || step.ReadClock? || step.Next? || step.PutBack? || step.Finish? ==> step.f != f
    ensures f in s.flushes && Do(s, step).flushes[f] == s.flushes[f]
  {
  }

  lemma FlushStep(s: State, step: Step, f: FlushId)
    requires Enabled(s, step) && f in Do(s, step).flushes && !(step.Take? && step.f == f)
    ensures f in s.flushes && Continues(s.flushes[f], s, step, f, Do(s, step).flushes[f])
  {
    if (step.ReadClock? || step.Next? || step.PutBack? || step.Finish?) && step.f == f {
      OwnFlushStep(s, step);
    } else {
      OtherFlushStays(s, step, f);
    }
  }

  lemma {:induction false} FlushBegan(states: seq<State>, steps: seq<Step>, j: nat, f: FlushId) returns (i: nat)
    requires IsRun(states, steps) && j < |states| && f in states[j].flushes
    ensures i < j && TookAt(states, steps, i, f, states[j].flushes[f])
    decreases j
  {
    if steps[j - 1].Take? && steps[j - 1].f == f {
      TakeIs(states[j - 1], f, steps[j - 1].c);
      i := j - 1;
    } else {
      FlushStep(states[j - 1], steps[j - 1], f);
      i := FlushBegan(states, steps, j - 1, f);
    }
  }

  lemma {:induction false} ClockRead(states: seq<State>, steps: seq<Step>, j: nat, f: FlushId) returns (i: nat)
    requires IsRun(states, steps) && j < |states| && f in states[j].flushes && !states[j].flushes[f].stage.Took?
    ensures i < j && steps[i] == ReadClock(f) && states[j].flushes[f].cutoff == states[i].now - 72 * 3600
    decreases j
  {
    if steps[j - 1].Take? && steps[j - 1].f == f {
      TakeIs(states[j - 1], f, steps[j - 1].c);
      assert false;
    } else {
      FlushStep(states[j - 1], steps[j - 1], f);
      if steps[j - 1] == ReadClock(f) {
        i := j - 1;
      } else {
        i := ClockRead(states, steps, j - 1, f);
      }
    }
  }

  /** What a flush does with the next envelope is decided by three earlier steps: the one that queued it,
      the one that took the queue of the connection's member, and the one that read the clock. It expires
      exactly when it was queued more than 72 hours before that clock; otherwise it is written to the
      connection whose queue was taken, or put back. */
  lemma ExpiresExactly(states: seq<State>, steps: seq<Step>, j: nat) returns (q: nat, i: nat, k: nat, e: EnvId)
    requires IsRun(states, steps) && j < |steps| && steps[j].Next?
    ensures q < j && i < j && k < j
    ensures Queued(states[q], steps[q]).Some? && Queued(states[q], steps[q]).value.0 == e
    ensures steps[i].Take? && steps[i].f == steps[j].f && steps[k] == ReadClock(steps[j].f)
    ensures e in states[j + 1].place
    ensures states[j + 1].place[e] == Expired <==> states[k].now - states[q].now > 72 * 3600
    ensures states[k].now - states[q].now <= 72 * 3600 && steps[j].ok ==>
            states[j + 1].log == states[j].log + [Sent(e, steps[i].c, Some(steps[j].f))]
    ensures states[k].now - states[q].now > 72 * 3600 || !steps[j].ok ==> states[j + 1].log == states[j].log
  {
    var f := steps[j].f;
    var fl := states[j].flushes[f];
    e := fl.taken[fl.pos].env;
    i := FlushBegan(states, steps, j, f);
    k := ClockRead(states, steps, j, f);
    RunDated(states, steps, j);
    assert Dated(fl.taken, Dates(states, steps, j));
    q := QueuedWhen(states, steps, j, e, fl.taken[fl.pos].at);
    NextPlaces(states, steps, j);
  }

  lemma NextPlaces(states: seq<State>, steps: seq<Step>, j: nat)
    requires IsRun(states, steps) && j < |steps| && steps[j].Next?
    ensures var fl := states[j].flushes[steps[j].f]; var item := fl.taken[fl.pos];
            item.env in states[j + 1].place && (states[j + 1].place[item.env] == Expired <==> item.at < fl.cutoff)
  {
    var s, f := states[j], steps[j].f;
    var fl := s.flushes[f];
    RunKeepsAll(states, steps, j);
    FlushHeld(s, f);
    if Meets(s, f, false) && !steps[j].ok {
      TailEnvs(fl.taken, fl.pos + 1);
    }
  }

  // ---------- What gets through ----------

  ghost predicate Leads(s: State, steps: seq<Step>, t: State)
    decreases |steps|
  {
    if steps == [] then t == s else Enabled(s, steps[0]) && Leads(Do(s, steps[0]), steps[1..], t)
  }

  lemma Onward(s: State, step: Step, t: State, steps: seq<Step>) returns (all: seq<Step>)
    requires Enabled(s, step) && Leads(Do(s, step), steps, t)
    ensures Leads(s, all, t)
  {
    all := [step] + steps;
    assert all[1..] == steps;
  }

  /** An envelope for a connected member can be written at once, to that connection. */
  lemma DirectGetsThrough(s: State, t: ThreadId, e: EnvId, m: Member) returns (after: State, steps: seq<Step>)
    requires t !in s.senders && e !in s.recipient && m in s.online
    ensures Leads(s, steps, after) && after.log == s.log + [Sent(e, s.online[m], None)]
    ensures after.queued == s.queued && after.senders == s.senders
  {
    var s1 := Do(s, Accept(t, e, m));
    after, steps := Do(s1, WriteDirect(t, true)), [];
    steps := Onward(s1, WriteDirect(t, true), after, steps);
    steps := Onward(s, Accept(t, e, m), after, steps);
  }

  /** The writes of some items to one connection by one flush. */
  function Writes(items: seq<Item>, c: Conn, f: FlushId): seq<Sent> {
    seq(|items|, i requires 0 <= i < |items| => Sent(items[i].env, c, Some(f)))
  }

  lemma WritesOne(item: Item, cutoff: int, c: Conn, f: FlushId)
    ensures Writes(Unexpired([item], cutoff), c, f) == if item.at < cutoff then [] else [Sent(item.env, c, Some(f))]
  {
    assert [item][1..] == [];
    assert Unexpired([item], cutoff) == if item.at < cutoff then [] else [item];
  }

  lemma NextWrites(s: State, f: FlushId)
    requires Enabled(s, Next(f, true))
    ensures var fl, next := s.flushes[f], Do(s, Next(f, true));
            && next.flushes == s.flushes[f := fl.(pos := fl.pos + 1)] && next.queued == s.queued
            && next.log == s.log + Writes(Unexpired([fl.taken[fl.pos]], fl.cutoff), fl.conn, f)
  {
    var fl := s.flushes[f];
    WritesOne(fl.taken[fl.pos], fl.cutoff, fl.conn, f);
    assert s.log + [] == s.log;
  }

  /** A flush whose writes all succeed writes all it has left that is not too old, in order, and ends. */
  lemma {:induction false} FlushOn(s: State, f: FlushId) returns (t: State, steps: seq<Step>)
    requires FlushIs(s, f, Writing) && s.flushes[f].pos <= |s.flushes[f].taken|
    ensures Leads(s, steps, t) && FlushIs(t, f, Done) && t.queued == s.queued
    ensures var fl := s.flushes[f]; t.log == s.log + Writes(Unexpired(fl.taken[fl.pos..], fl.cutoff), fl.conn, f)
    decreases |s.flushes[f].taken| - s.flushes[f].pos
  {
    var fl := s.flushes[f];
    if fl.pos == |fl.taken| {
      t, steps := Do(s, Finish(f)), [];
      steps := Onward(s, Finish(f), t, steps);
      assert fl.taken[fl.pos..] == [];
    } else {
      NextWrites(s, f);
      t, steps := FlushOn(Do(s, Next(f, true)), f);
      steps := Onward(s, Next(f, true), t, steps);
      WritesFrom(s.log, fl.taken, fl.pos, fl.cutoff, fl.conn, f);
    }
  }

  /** The writes from a position on are that of the item there and those after it. */
  lemma WritesFrom(log: seq<Sent>, items: seq<Item>, pos: nat, cutoff: int, c: Conn, f: FlushId)
    requires pos < |items|
    ensures log + Writes(Unexpired(items[pos..], cutoff), c, f)
         == log + Writes(Unexpired([items[pos]], cutoff), c, f) + Writes(Unexpired(items[pos + 1..], cutoff), c, f)
  {
    var a, b := Unexpired([items[pos]], cutoff), Unexpired(items[pos + 1..], cutoff);
    assert items[pos..] == [items[pos]] + items[pos + 1..];
    UnexpiredSplit([items[pos]], items[pos + 1..], cutoff);
    assert Writes(a + b, c, f) == Writes(a, c, f) + Writes(b, c, f);
  }

  /** What waits for a member can be written to a connection of theirs: all of it that was queued in the
      last 72 hours, in order, and nothing waits any more. */
  lemma WaitingGetsThrough(s: State, f: FlushId, c: Conn) returns (t: State, steps: seq<Step>)
    requires f !in s.flushes
    ensures Leads(s, steps, t) && QueueOf(t.queued, c.member) == []
    ensures t.log == s.log + Writes(Unexpired(QueueOf(s.queued, c.member), s.now - 72 * 3600), c, f)
  {
    var s1 := Do(s, Take(f, c));
    var s2 := Do(s1, ReadClock(f));
    t, steps := FlushOn(s2, f);
    steps := Onward(s1, ReadClock(f), t, steps);
    steps := Onward(s, Take(f, c), t, steps);
    assert s2.flushes[f].taken[0..] == s2.flushes[f].taken;
  }

  // ---------- The server takes these steps ----------

  ghost predicate Serves(online: map<Member, Conn>, queued: map<Member, seq<Item>>, s: State) {
    online == s.online && queued == s.queued
  }

  method OnConnect(server: Server, c: Conn, ghost s: State) returns (replaced: Option<Conn>)
    requires server.Valid() && Serves(server.online, server.queued, s)
    modifies server
    ensures server.Valid() && Serves(server.online, server.queued, Do(s, Connect(c)))
    ensures replaced == if c.member in s.online then Some(s.online[c.member]) else None
  {
    replaced := server.Register(c);
  }

  method OnDisconnect(server: Server, c: Conn, ghost s: State)
    requires server.Valid() && Serves(server.online, server.queued, s)
    modifies server
    ensures server.Valid() && Serves(server.online, server.queued, Do(s, Disconnect(c)))
  {
    server.Unregister(c);
  }

  method OnQueue(server: Server, ghost t: ThreadId, e: EnvId, m: Member, now: int, ghost s: State)
    requires server.Valid() && Serves(server.online, server.queued, s) && Enabled(s, Queue(t))
    requires s.senders[t].env == e && RecipientOf(s, e) == m && s.now == now
    modifies server
    ensures server.Valid() && Serves(server.online, server.queued, Do(s, Queue(t)))
  {
    server.Enqueue(m, e, now);
  }

  method OnTake(server: Server, ghost f: FlushId, c: Conn, ghost s: State) returns (pending: seq<Item>)
    requires server.Valid() && Serves(server.online, server.queued, s) && Enabled(s, Take(f, c))
    modifies server
    ensures server.Valid() && Serves(server.online, server.queued, Do(s, Take(f, c)))
    ensures pending == Do(s, Take(f, c)).flushes[f].taken
  {
    pending := server.TakeQueue(c.member);
  }
}
