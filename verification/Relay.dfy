/**
 The relay between connectors: who is connected, what waits for whom, and the writes between.
 First the server object, then the interleavings of senders, flushes and connections around it.
 */
module Relay {
  import opened Options

  type Member = nat
  type EnvId = nat

  const QUEUE_LIMIT := 500
  const QUEUE_TTL := 72 * 3600

  datatype Conn = Conn(id: nat, member: Member)

  /** One waiting envelope and when it was queued, in seconds. */
  datatype Item = Item(env: EnvId, at: int)

  // ---------- One queue ----------

  function QueueOf(queued: map<Member, seq<Item>>, m: Member): seq<Item> {
    if m in queued then queued[m] else []
  }

  function Appended(q: seq<Item>, item: Item): seq<Item> {
    (if |q| >= QUEUE_LIMIT then q[1..] else q) + [item]
  }

  function Unexpired(items: seq<Item>, cutoff: int): seq<Item> {
    if items == [] then []
    else (if items[0].at < cutoff then [] else [items[0]]) + Unexpired(items[1..], cutoff)
  }

  ghost predicate Has(items: seq<Item>, e: EnvId) {
    exists i :: 0 <= i < |items| && items[i].env == e
  }

  ghost predicate Distinct(items: seq<Item>) {
    forall i, j :: 0 <= i < j < |items| ==> items[i].env != items[j].env
  }

  ghost predicate Ordered(items: seq<Item>) {
    forall i, j :: 0 <= i < j < |items| ==> items[i].at <= items[j].at
  }

  lemma {:induction false} UnexpiredSplit(a: seq<Item>, b: seq<Item>, cutoff: int)
    ensures Unexpired(a + b, cutoff) == Unexpired(a, cutoff) + Unexpired(b, cutoff)
  {
    if a == [] {
      assert a + b == b;
    } else {
      var first := if a[0].at < cutoff then [] else [a[0]];
      UnexpiredSplit(a[1..], b, cutoff);
      assert (a + b)[1..] == a[1..] + b;
      assert first + (Unexpired(a[1..], cutoff) + Unexpired(b, cutoff)) ==
             first + Unexpired(a[1..], cutoff) + Unexpired(b, cutoff);
    }
  }

  lemma {:induction false} AllUnexpired(items: seq<Item>, cutoff: int)
    requires forall i :: 0 <= i < |items| ==> items[i].at >= cutoff
    ensures Unexpired(items, cutoff) == items
  {
    if items != [] {
      AllUnexpired(items[1..], cutoff);
    }
  }

  /** In a queue in time order the expired envelopes come first, so what a flush sends is a suffix. */
  lemma {:induction false} UnexpiredIsSuffix(items: seq<Item>, cutoff: int) returns (k: nat)
    requires Ordered(items)
    ensures k <= |items| && Unexpired(items, cutoff) == items[k..]
    ensures forall i :: 0 <= i < |items| ==> (items[i].at < cutoff <==> i < k)
  {
    if items == [] {
      k := 0;
    } else if items[0].at >= cutoff {
      AllUnexpired(items, cutoff);
      k := 0;
    } else {
      var j := UnexpiredIsSuffix(items[1..], cutoff);
      k := j + 1;
      forall i | 0 <= i < |items| ensures items[i].at < cutoff <==> i < k {
        if i > 0 {
          assert items[i] == items[1..][i - 1];
        }
      }
    }
  }

  // ---------- The server object ----------

  class Server {
    var online: map<Member, Conn>
    var queued: map<Member, seq<Item>>

    ghost predicate Valid()
      reads this
    {
      && (forall m :: m in online ==> online[m].member == m)
      && (forall m :: m in queued ==> |queued[m]| <= QUEUE_LIMIT)
    }

    constructor ()
      ensures Valid() && online == map[] && queued == map[]
    {
      online := map[];
      queued := map[];
    }

    /** The member's connection is this one from now on; an earlier one is handed back to be closed. */
    method Register(c: Conn) returns (replaced: Option<Conn>)
      requires Valid()
      modifies this`online
      ensures Valid() && online == old(online)[c.member := c]
      ensures replaced == if c.member in old(online) then Some(old(online)[c.member]) else None
    {
      replaced := if c.member in online then Some(online[c.member]) else None;
      online := online[c.member := c];
    }

    /** Takes this connection out and no other: one that was replaced leaves the newer one in. */
    method Unregister(c: Conn)
      requires Valid()
      modifies this`online
      ensures Valid() && online == map m | m in old(online) && old(online)[m] != c :: old(online)[m]
    {
      if c.member in online && online[c.member] == c {
        online := online - {c.member};
      }
    }

    /** The newest 500 of what waits, this envelope last. */
    method Enqueue(m: Member, e: EnvId, now: int)
      requires Valid()
      modifies this`queued
      ensures Valid()
      ensures var all := QueueOf(old(queued), m) + [Item(e, now)];
              queued == old(queued)[m := all[if |all| > QUEUE_LIMIT then |all| - QUEUE_LIMIT else 0..]]
      ensures queued == old(queued)[m := Appended(QueueOf(old(queued), m), Item(e, now))]
    {
      var q := QueueOf(queued, m);
      assert |q| == QUEUE_LIMIT ==> (q + [Item(e, now)])[1..] == q[1..] + [Item(e, now)];
      if |q| >= QUEUE_LIMIT {
        q := q[1..];
      }
      queued := queued[m := q + [Item(e, now)]];
    }

    method TakeQueue(m: Member) returns (pending: seq<Item>)
      requires Valid()
      modifies this`queued
      ensures Valid() && pending == QueueOf(old(queued), m) && queued == old(queued) - {m}
    {
      pending := QueueOf(queued, m);
      queued := queued - {m};
    }

    /** A flush nothing interferes with. `fails` is the envelope the connection breaks at, if any.
        What it sends is the unexpired part of the queue up to there, in order; that one envelope is
        put back with a new time, and what came after it is in no queue any more. */
    method Flush(m: Member, cutoff: int, now: int, fails: Option<EnvId>) returns (sent: seq<Item>, stopped: nat)
      requires Valid()
      modifies this`queued
      ensures Valid() && stopped <= |QueueOf(old(queued), m)|
      ensures sent == Unexpired(QueueOf(old(queued), m)[..stopped], cutoff)
      ensures fails.Some? ==> !Has(sent, fails.value)
      ensures stopped == |QueueOf(old(queued), m)| ==> queued == old(queued) - {m}
      ensures stopped < |QueueOf(old(queued), m)| ==>
                && fails == Some(QueueOf(old(queued), m)[stopped].env)
                && QueueOf(old(queued), m)[stopped].at >= cutoff
                && queued == old(queued)[m := [Item(fails.value, now)]]
    {
      var pending := TakeQueue(m);
      sent := [];
      stopped := 0;
      while stopped < |pending|
        invariant stopped <= |pending|
        invariant sent == Unexpired(pending[..stopped], cutoff)
        invariant fails.Some? ==> !Has(sent, fails.value)
        invariant Valid() && queued == old(queued) - {m}
      {
        var item := pending[stopped];
        UnexpiredSplit(pending[..stopped], [item], cutoff);
        assert pending[..stopped + 1] == pending[..stopped] + [item];
        if item.at >= cutoff {
          if fails == Some(item.env) {
            Enqueue(m, item.env, now);
            return;
          }
          sent := sent + [item];
        }
        stopped := stopped + 1;
      }
      assert pending[..stopped] == pending;
    }
  }

  // ---------- Senders, flushes and connections, interleaved ----------

  type ThreadId = nat
  type FlushId = nat

  /** A sender that has looked its recipient up: with a connection it still means to write to, or
      on its way to the queue. */
  datatype Sender = Sender(env: EnvId, target: Option<Conn>)

  /** A flush has the queue, then the clock; then it writes one envelope after another, until it is
      through or has one to put back. */
  datatype Stage = Took | Writing | PuttingBack | Done

  datatype Flush = Flush(conn: Conn, taken: seq<Item>, pos: nat, cutoff: int, stage: Stage)

  /** Where an accepted envelope is, or what became of it. */
  datatype Place =
    | WithSender(t: ThreadId) | InQueue | InFlush(f: FlushId)
    | Written | Expired | Overflowed | Lost

  predicate Final(p: Place) {
    p.Written? || p.Expired? || p.Overflowed? || p.Lost?
  }

  /** One successful write, and the flush that made it, if one did. */
  datatype Sent = Sent(env: EnvId, conn: Conn, flush: Option<FlushId>)

  datatype State = State(
    now: int, recipient: map<EnvId, Member>, place: map<EnvId, Place>,
    online: map<Member, Conn>, queued: map<Member, seq<Item>>,
    senders: map<ThreadId, Sender>, flushes: map<FlushId, Flush>, log: seq<Sent>)

  const INITIAL := State(0, map[], map[], map[], map[], map[], map[], [])

  datatype Step =
    | Tick(d: nat)
    | Connect(c: Conn)
    | Disconnect(c: Conn)
    | Accept(t: ThreadId, e: EnvId, m: Member)     // a valid envelope arrives; look its recipient up
    | WriteDirect(t: ThreadId, ok: bool)
    | Queue(t: ThreadId)
    | Take(f: FlushId, c: Conn)
    | ReadClock(f: FlushId)
    | Next(f: FlushId, ok: bool)                   // the next envelope of the loop
    | PutBack(f: FlushId)
    | Finish(f: FlushId)

  predicate FlushIs(s: State, f: FlushId, stage: Stage) {
    f in s.flushes && s.flushes[f].stage == stage
  }

  predicate Enabled(s: State, step: Step) {
    match step
    case Accept(t, e, _) => t !in s.senders && e !in s.recipient
    case WriteDirect(t, _) => t in s.senders && s.senders[t].target.Some?
    case Queue(t) => t in s.senders && s.senders[t].target.None?
    case Take(f, _) => f !in s.flushes
    case ReadClock(f) => FlushIs(s, f, Took)
    case Next(f, _) => FlushIs(s, f, Writing) && s.flushes[f].pos < |s.flushes[f].taken|
    case PutBack(f) => FlushIs(s, f, PuttingBack) && s.flushes[f].pos < |s.flushes[f].taken|
    case Finish(f) => FlushIs(s, f, Writing) && s.flushes[f].pos == |s.flushes[f].taken|
    case _ => true
  }

  function EnvsOf(items: seq<Item>): set<EnvId> {
    set i | 0 <= i < |items| :: items[i].env
  }

  function Mark(place: map<EnvId, Place>, items: seq<Item>, p: Place): map<EnvId, Place> {
    map e | e in place :: if e in EnvsOf(items) then p else place[e]
  }

  /** `enqueue`: the oldest envelope gives way when the queue is full. */
  function Enqueued(s: State, e: EnvId, m: Member): State {
    var q := QueueOf(s.queued, m);
    var marked := if |q| >= QUEUE_LIMIT then s.place[q[0].env := Overflowed] else s.place;
    s.(queued := s.queued[m := Appended(q, Item(e, s.now))], place := marked[e := InQueue])
  }

  function RecipientOf(s: State, e: EnvId): Member {
    if e in s.recipient then s.recipient[e] else 0
  }

  function NextOf(s: State, f: FlushId, ok: bool): State
    requires FlushIs(s, f, Writing) && s.flushes[f].pos < |s.flushes[f].taken|
  {
    var fl := s.flushes[f];
    var item := fl.taken[fl.pos];
    var past := fl.(pos := fl.pos + 1);
    if item.at < fl.cutoff then
      s.(flushes := s.flushes[f := past], place := s.place[item.env := Expired])
    else if ok then
      s.(flushes := s.flushes[f := past], place := s.place[item.env := Written],
         log := s.log + [Sent(item.env, fl.conn, Some(f))])
    else
      s.(flushes := s.flushes[f := fl.(stage := PuttingBack)], place := Mark(s.place, fl.taken[fl.pos + 1..], Lost))
  }

  function Do(s: State, step: Step): State
    requires Enabled(s, step)
  {
    match step
    case Tick(d) => s.(now := s.now + d)
    case Connect(c) => s.(online := s.online[c.member := c])
    case Disconnect(c) =>
      if c.member in s.online && s.online[c.member] == c then s.(online := s.online - {c.member}) else s
    case Accept(t, e, m) =>
      var target := if m in s.online then Some(s.online[m]) else None;
      s.(recipient := s.recipient[e := m], place := s.place[e := WithSender(t)],
         senders := s.senders[t := Sender(e, target)])
    case WriteDirect(t, ok) =>
      var sender := s.senders[t];
      if ok then
        s.(senders := s.senders - {t}, place := s.place[sender.env := Written],
           log := s.log + [Sent(sender.env, sender.target.value, None)])
      else
        s.(senders := s.senders[t := sender.(target := None)])
    case Queue(t) =>
      Enqueued(s.(senders := s.senders - {t}), s.senders[t].env, RecipientOf(s, s.senders[t].env))
    case Take(f, c) =>
      var taken := QueueOf(s.queued, c.member);
      s.(queued := s.queued - {c.member}, flushes := s.flushes[f := Flush(c, taken, 0, 0, Took)],
         place := Mark(s.place, taken, InFlush(f)))
    case ReadClock(f) => s.(flushes := s.flushes[f := s.flushes[f].(stage := Writing, cutoff := s.now - QUEUE_TTL)])
    case Next(f, ok) => NextOf(s, f, ok)
    case PutBack(f) =>
      var fl := s.flushes[f];
      Enqueued(s.(flushes := s.flushes[f := fl.(stage := Done)]), fl.taken[fl.pos].env, fl.conn.member)
    case Finish(f) => s.(flushes := s.flushes[f := s.flushes[f].(stage := Done)])
  }

  // ---------- What every step keeps ----------

  ghost predicate At(place: map<EnvId, Place>, recipient: map<EnvId, Member>, e: EnvId, p: Place, m: Member) {
    e in place && place[e] == p && e in recipient && recipient[e] == m
  }

  ghost predicate OnlineOk(online: map<Member, Conn>) {
    forall m :: m in online ==> online[m].member == m
  }

  ghost predicate SenderOk(t: ThreadId, x: Sender, place: map<EnvId, Place>, recipient: map<EnvId, Member>) {
    && x.env in recipient
    && At(place, recipient, x.env, WithSender(t), recipient[x.env])
    && (x.target.Some? ==> x.target.value.member == recipient[x.env])
  }

  ghost predicate SendersOk(senders: map<ThreadId, Sender>, place: map<EnvId, Place>, recipient: map<EnvId, Member>) {
    forall t :: t in senders ==> SenderOk(t, senders[t], place, recipient)
  }

  ghost predicate HeldAt(items: seq<Item>, place: map<EnvId, Place>, recipient: map<EnvId, Member>, p: Place,
                         m: Member) {
    forall i :: 0 <= i < |items| ==> At(place, recipient, items[i].env, p, m)
  }

  ghost predicate Tidy(items: seq<Item>, now: int) {
    && |items| <= QUEUE_LIMIT
    && Distinct(items) && Ordered(items)
    && forall i :: 0 <= i < |items| ==> items[i].at <= now
  }

  ghost predicate QueuesOk(queued: map<Member, seq<Item>>, place: map<EnvId, Place>, recipient: map<EnvId, Member>,
                           now: int) {
    forall m :: m in queued ==> Tidy(queued[m], now) && HeldAt(queued[m], place, recipient, InQueue, m)
  }

  /** What a flush still holds. */
  function Rest(fl: Flush): seq<Item>
  {
    if fl.pos >= |fl.taken| || fl.stage.Done? then []
    else if fl.stage.PuttingBack? then [fl.taken[fl.pos]]
    else fl.taken[fl.pos..]
  }

  ghost predicate FlushOk(f: FlushId, fl: Flush, place: map<EnvId, Place>, recipient: map<EnvId, Member>, now: int) {
    && fl.pos <= |fl.taken|
    && (fl.stage.Took? ==> fl.pos == 0)
    && (fl.stage.PuttingBack? ==> fl.pos < |fl.taken|)
    && Tidy(fl.taken, now)
    && HeldAt(Rest(fl), place, recipient, InFlush(f), fl.conn.member)
  }

  ghost predicate FlushesOk(flushes: map<FlushId, Flush>, place: map<EnvId, Place>, recipient: map<EnvId, Member>,
                            now: int) {
    forall f :: f in flushes ==> FlushOk(f, flushes[f], place, recipient, now)
  }

  ghost predicate LogOk(log: seq<Sent>, place: map<EnvId, Place>, recipient: map<EnvId, Member>) {
    && (forall i :: 0 <= i < |log| ==> At(place, recipient, log[i].env, Written, log[i].conn.member))
    && (forall i, j :: 0 <= i < j < |log| ==> log[i].env != log[j].env)
  }

  ghost predicate Inv(s: State) {
    && s.place.Keys == s.recipient.Keys
    && OnlineOk(s.online)
    && SendersOk(s.senders, s.place, s.recipient)
    && QueuesOk(s.queued, s.place, s.recipient, s.now)
    && FlushesOk(s.flushes, s.place, s.recipient, s.now)
    && LogOk(s.log, s.place, s.recipient)
  }

  /** An envelope nobody has heard of changes nothing for those that hold others. */
  lemma NewEnvelopeSpares(s: State, e: EnvId, p: Place, m: Member)
    requires Inv(s) && e !in s.recipient
    ensures var place, recipient := s.place[e := p], s.recipient[e := m];
            && SendersOk(s.senders, place, recipient) && QueuesOk(s.queued, place, recipient, s.now)
            && FlushesOk(s.flushes, place, recipient, s.now) && LogOk(s.log, place, recipient)
  {
    var place, recipient := s.place[e := p], s.recipient[e := m];
    forall t | t in s.senders ensures SenderOk(t, s.senders[t], place, recipient) {
      assert SenderOk(t, s.senders[t], s.place, s.recipient);
    }
    forall f | f in s.flushes ensures FlushOk(f, s.flushes[f], place, recipient, s.now) {
      assert FlushOk(f, s.flushes[f], s.place, s.recipient, s.now);
    }
    forall n | n in s.queued ensures HeldAt(s.queued[n], place, recipient, InQueue, n) {
      assert HeldAt(s.queued[n], s.place, s.recipient, InQueue, n);
    }
  }

  lemma AcceptKeepsInv(s: State, t: ThreadId, e: EnvId, m: Member)
    requires Inv(s) && Enabled(s, Accept(t, e, m))
    ensures Inv(Do(s, Accept(t, e, m)))
  {
    NewEnvelopeSpares(s, e, WithSender(t), m);
  }

  lemma WriteDirectKeepsInv(s: State, t: ThreadId, ok: bool)
    requires Inv(s) && Enabled(s, WriteDirect(t, ok))
    ensures Inv(Do(s, WriteDirect(t, ok)))
  {
  }

  lemma AppendedTidy(q: seq<Item>, item: Item, now: int)
    requires Tidy(q, now) && item.at == now
    requires forall i :: 0 <= i < |q| ==> q[i].env != item.env
    ensures Tidy(Appended(q, item), now)
  {
  }

  lemma EnqueuedKeepsQueues(s: State, e: EnvId, m: Member)
    requires QueuesOk(s.queued, s.place, s.recipient, s.now) && e in s.place && e in s.recipient && s.recipient[e] == m
    requires s.place[e] != InQueue
    ensures var after := Enqueued(s, e, m); QueuesOk(after.queued, after.place, s.recipient, s.now)
  {
    var q := QueueOf(s.queued, m);
    assert Tidy(q, s.now) && HeldAt(q, s.place, s.recipient, InQueue, m);
    AppendedTidy(q, Item(e, s.now), s.now);
    var after := Enqueued(s, e, m);
    assert HeldAt(after.queued[m], after.place, s.recipient, InQueue, m);
    forall n | n in s.queued && n != m
      ensures HeldAt(s.queued[n], after.place, s.recipient, InQueue, n)
    {
      assert HeldAt(s.queued[n], s.place, s.recipient, InQueue, n);
    }
  }

  lemma EnqueuedKeepsInv(s: State, e: EnvId, m: Member)
    requires Inv(s) && e in s.place && s.recipient[e] == m
    requires forall t :: s.place[e] == WithSender(t) ==> t !in s.senders
    requires forall f :: s.place[e] == InFlush(f) ==> f in s.flushes && Rest(s.flushes[f]) == []
    requires !Final(s.place[e]) && s.place[e] != InQueue
    ensures Inv(Enqueued(s, e, m))
  {
    EnqueuedKeepsQueues(s, e, m);
    var q := QueueOf(s.queued, m);
    assert HeldAt(q, s.place, s.recipient, InQueue, m);
    OthersUntouched(s, e, m);
  }

  /** Senders, flushes and the log do not notice when an envelope none of them has moves to a queue,
      or when one falls out of a queue. */
  lemma OthersUntouched(s: State, e: EnvId, m: Member)
    requires SendersOk(s.senders, s.place, s.recipient) && FlushesOk(s.flushes, s.place, s.recipient, s.now)
    requires LogOk(s.log, s.place, s.recipient) && e in s.place
    requires HeldAt(QueueOf(s.queued, m), s.place, s.recipient, InQueue, m)
    requires forall t :: s.place[e] == WithSender(t) ==> t !in s.senders
    requires forall f :: s.place[e] == InFlush(f) ==> f in s.flushes && Rest(s.flushes[f]) == []
    requires !Final(s.place[e])
    ensures var place := Enqueued(s, e, m).place;
            SendersOk(s.senders, place, s.recipient) && FlushesOk(s.flushes, place, s.recipient, s.now)
            && LogOk(s.log, place, s.recipient)
  {
    var place := Enqueued(s, e, m).place;
    forall f | f in s.flushes ensures FlushOk(f, s.flushes[f], place, s.recipient, s.now) {
      assert FlushOk(f, s.flushes[f], s.place, s.recipient, s.now);
    }
  }

  lemma TakeKeepsInv(s: State, f: FlushId, c: Conn)
    requires Inv(s) && Enabled(s, Take(f, c))
    ensures Inv(Do(s, Take(f, c)))
  {
  }

  /** Only envelopes that were at one place move. */
  ghost predicate OnlyFrom(place: map<EnvId, Place>, after: map<EnvId, Place>, was: Place) {
    after.Keys == place.Keys && forall e :: e in place && place[e] != was ==> after[e] == place[e]
  }

  /** What a flush does with its own envelopes is nothing to senders, queues and the log so far. */
  lemma OthersSpared(s: State, f: FlushId, after: map<EnvId, Place>)
    requires SendersOk(s.senders, s.place, s.recipient) && QueuesOk(s.queued, s.place, s.recipient, s.now)
    requires LogOk(s.log, s.place, s.recipient) && OnlyFrom(s.place, after, InFlush(f))
    ensures SendersOk(s.senders, after, s.recipient) && QueuesOk(s.queued, after, s.recipient, s.now)
    ensures LogOk(s.log, after, s.recipient)
  {
    forall t | t in s.senders ensures SenderOk(t, s.senders[t], after, s.recipient) {
      assert SenderOk(t, s.senders[t], s.place, s.recipient);
    }
    forall m | m in s.queued ensures HeldAt(s.queued[m], after, s.recipient, InQueue, m) {
      assert HeldAt(s.queued[m], s.place, s.recipient, InQueue, m);
    }
  }

  lemma FlushSpared(s: State, f: FlushId, after: map<EnvId, Place>, g: FlushId)
    requires g in s.flushes && g != f && FlushOk(g, s.flushes[g], s.place, s.recipient, s.now)
    requires OnlyFrom(s.place, after, InFlush(f))
    ensures FlushOk(g, s.flushes[g], after, s.recipient, s.now)
  {
  }

  /** So the invariant is kept if the flush itself and a log that grew are in order. */
  lemma FlushMoves(s: State, f: FlushId, t: State)
    requires Inv(s) && f in s.flushes && f in t.flushes && OnlyFrom(s.place, t.place, InFlush(f))
    requires t == s.(flushes := s.flushes[f := t.flushes[f]], place := t.place, log := t.log)
    requires FlushOk(f, t.flushes[f], t.place, t.recipient, t.now)
    requires t.log == s.log || LogOk(t.log, t.place, t.recipient)
    ensures Inv(t)
  {
    OthersSpared(s, f, t.place);
    forall g | g in s.flushes && g != f ensures FlushOk(g, s.flushes[g], t.place, s.recipient, s.now) {
      FlushSpared(s, f, t.place, g);
    }
  }

  lemma HeadHeld(s: State, f: FlushId)
    requires FlushesOk(s.flushes, s.place, s.recipient, s.now)
    requires FlushIs(s, f, Writing) && s.flushes[f].pos < |s.flushes[f].taken|
    ensures At(s.place, s.recipient, s.flushes[f].taken[s.flushes[f].pos].env, InFlush(f), s.flushes[f].conn.member)
  {
    var fl := s.flushes[f];
    assert FlushOk(f, fl, s.place, s.recipient, s.now);
    assert Rest(fl)[0] == fl.taken[fl.pos];
  }

  lemma PassedFlushOk(s: State, f: FlushId, p: Place)
    requires FlushesOk(s.flushes, s.place, s.recipient, s.now)
    requires FlushIs(s, f, Writing) && s.flushes[f].pos < |s.flushes[f].taken|
    ensures var fl := s.flushes[f];
            FlushOk(f, fl.(pos := fl.pos + 1), s.place[fl.taken[fl.pos].env := p], s.recipient, s.now)
  {
    var fl := s.flushes[f];
    var past := fl.(pos := fl.pos + 1);
    assert FlushOk(f, fl, s.place, s.recipient, s.now);
    forall i | 0 <= i < |Rest(past)|
      ensures At(s.place[fl.taken[fl.pos].env := p], s.recipient, Rest(past)[i].env, InFlush(f), fl.conn.member)
    {
      assert Rest(past)[i] == Rest(fl)[i + 1] == fl.taken[fl.pos + 1 + i];
    }
  }

  lemma LogGrows(log: seq<Sent>, x: Sent, place: map<EnvId, Place>, recipient: map<EnvId, Member>)
    requires LogOk(log, place, recipient)
    requires x.env in place && place[x.env] != Written && x.env in recipient && recipient[x.env] == x.conn.member
    ensures LogOk(log + [x], place[x.env := Written], recipient)
  {
  }

  /** The flush has come to an envelope, which is or is not too old for it. */
  predicate Meets(s: State, f: FlushId, expired: bool) {
    && FlushIs(s, f, Writing) && s.flushes[f].pos < |s.flushes[f].taken|
    && (s.flushes[f].taken[s.flushes[f].pos].at < s.flushes[f].cutoff <==> expired)
  }

  lemma SkippedKeepsInv(s: State, f: FlushId, ok: bool)
    requires Inv(s) && Meets(s, f, true)
    ensures Inv(NextOf(s, f, ok))
  {
    HeadHeld(s, f);
    PassedFlushOk(s, f, Expired);
    FlushMoves(s, f, NextOf(s, f, ok));
  }

  lemma WrittenKeepsInv(s: State, f: FlushId)
    requires Inv(s) && Meets(s, f, false)
    ensures Inv(NextOf(s, f, true))
  {
    var fl := s.flushes[f];
    HeadHeld(s, f);
    PassedFlushOk(s, f, Written);
    LogGrows(s.log, Sent(fl.taken[fl.pos].env, fl.conn, Some(f)), s.place, s.recipient);
    FlushMoves(s, f, NextOf(s, f, true));
  }

  lemma TailHeld(s: State, f: FlushId)
    requires FlushesOk(s.flushes, s.place, s.recipient, s.now)
    requires FlushIs(s, f, Writing) && s.flushes[f].pos < |s.flushes[f].taken|
    ensures forall e :: e in EnvsOf(s.flushes[f].taken[s.flushes[f].pos + 1..]) ==>
            e in s.place && s.place[e] == InFlush(f)
  {
    var fl := s.flushes[f];
    var rest := fl.taken[fl.pos + 1..];
    assert FlushOk(f, fl, s.place, s.recipient, s.now);
    forall e | e in EnvsOf(rest) ensures e in s.place && s.place[e] == InFlush(f) {
      var i :| 0 <= i < |rest| && rest[i].env == e;
      assert rest[i] == Rest(fl)[i + 1];
    }
  }

  /** The envelope the flush failed on is still its own. */
  lemma HeadStays(s: State, f: FlushId)
    requires FlushesOk(s.flushes, s.place, s.recipient, s.now)
    requires FlushIs(s, f, Writing) && s.flushes[f].pos < |s.flushes[f].taken|
    ensures var fl := s.flushes[f];
            FlushOk(f, fl.(stage := PuttingBack), Mark(s.place, fl.taken[fl.pos + 1..], Lost), s.recipient, s.now)
  {
    var fl := s.flushes[f];
    assert FlushOk(f, fl, s.place, s.recipient, s.now);
    assert Rest(fl)[0] == fl.taken[fl.pos];
    var rest := fl.taken[fl.pos + 1..];
    forall i | 0 <= i < |rest| ensures rest[i].env != fl.taken[fl.pos].env {
      assert rest[i] == fl.taken[fl.pos + 1 + i];
    }
  }

  lemma FailedKeepsInv(s: State, f: FlushId)
    requires Inv(s) && Meets(s, f, false)
    ensures Inv(NextOf(s, f, false))
  {
    TailHeld(s, f);
    HeadStays(s, f);
    FlushMoves(s, f, NextOf(s, f, false));
  }

  lemma NextKeepsInv(s: State, f: FlushId, ok: bool)
    requires Inv(s) && Enabled(s, Next(f, ok))
    ensures Inv(NextOf(s, f, ok))
  {
    if Meets(s, f, true) {
      SkippedKeepsInv(s, f, ok);
    } else if ok {
      WrittenKeepsInv(s, f);
    } else {
      FailedKeepsInv(s, f);
    }
  }

  lemma PutBackKeepsInv(s: State, f: FlushId)
    requires Inv(s) && Enabled(s, PutBack(f))
    ensures Inv(Do(s, PutBack(f)))
  {
    var fl := s.flushes[f];
    var item := Rest(fl)[0];
    EnqueuedKeepsInv(s.(flushes := s.flushes[f := fl.(stage := Done)]), item.env, fl.conn.member);
  }

  lemma QueueKeepsInv(s: State, t: ThreadId)
    requires Inv(s) && Enabled(s, Queue(t))
    ensures Inv(Do(s, Queue(t)))
  {
    EnqueuedKeepsInv(s.(senders := s.senders - {t}), s.senders[t].env, RecipientOf(s, s.senders[t].env));
  }

  /** The steps that move no envelope. */
  lemma StillKeepsInv(s: State, step: Step)
    requires Inv(s) && Enabled(s, step)
    requires step.Tick? || step.Connect? || step.Disconnect? || step.ReadClock? || step.Finish?
    ensures Inv(Do(s, step))
  {
  }

  lemma StepKeepsInv(s: State, step: Step)
    requires Inv(s) && Enabled(s, step)
    ensures Inv(Do(s, step))
  {
    match step
    case Accept(t, e, m) => AcceptKeepsInv(s, t, e, m);
    case WriteDirect(t, ok) => WriteDirectKeepsInv(s, t, ok);
    case Queue(t) => QueueKeepsInv(s, t);
    case Take(f, c) => TakeKeepsInv(s, f, c);
    case Next(f, ok) => NextKeepsInv(s, f, ok);
    case PutBack(f) => PutBackKeepsInv(s, f);
    case _ => StillKeepsInv(s, step);
  }

  // ---------- Every envelope in at most one place ----------

  /** The places an envelope can be: held by a sender, waiting, held by a flush, or written. */
  datatype Slot = AtSender(t: ThreadId) | AtQueue(m: Member, i: nat) | AtFlush(f: FlushId, i: nat) | AtLog(i: nat)

  /** The envelope at a slot. A flush holds the rest of what it took, or the one it puts back. */
  function EnvAt(s: State, slot: Slot): Option<EnvId> {
    match slot
    case AtSender(t) => if t in s.senders then Some(s.senders[t].env) else None
    case AtQueue(m, i) => if i < |QueueOf(s.queued, m)| then Some(QueueOf(s.queued, m)[i].env) else None
    case AtFlush(f, i) => if f in s.flushes && Holds(s.flushes[f], i) then Some(s.flushes[f].taken[i].env) else None
    case AtLog(i) => if i < |s.log| then Some(s.log[i].env) else None
  }

  predicate Holds(fl: Flush, i: nat) {
    fl.pos <= i < |fl.taken| && !fl.stage.Done? && (fl.stage.PuttingBack? ==> i == fl.pos)
  }

  /** The place on record is the place the envelope is at. */
  lemma SlotPlace(s: State, a: Slot)
    requires Inv(s) && EnvAt(s, a).Some?
    ensures var e := EnvAt(s, a).value;
            && e in s.place && e in s.recipient
            && match a
               case AtSender(t) => s.place[e] == WithSender(t)
               case AtQueue(m, _) => s.place[e] == InQueue && s.recipient[e] == m
               case AtFlush(f, _) => s.place[e] == InFlush(f)
               case AtLog(_) => s.place[e] == Written
  {
    if a.AtFlush? {
      var fl := s.flushes[a.f];
      assert Rest(fl)[a.i - fl.pos] == fl.taken[a.i];
    }
  }

  lemma OneSlot(s: State, a: Slot, b: Slot)
    requires Inv(s) && EnvAt(s, a).Some? && EnvAt(s, a) == EnvAt(s, b)
    ensures a == b
  {
    SlotPlace(s, a);
    SlotPlace(s, b);
  }

  predicate Gone(p: Place) {
    p.Expired? || p.Overflowed? || p.Lost?
  }

  /** Nothing disappears unrecorded: an envelope is at a slot unless it expired, overflowed a queue
      or was lost by a flush that failed before it. */
  ghost predicate Accounted(s: State) {
    forall e :: e in s.place && !Gone(s.place[e]) ==> exists a :: EnvAt(s, a) == Some(e)
  }

  lemma GoneHasNoSlot(s: State, e: EnvId, a: Slot)
    requires Inv(s) && e in s.place && Gone(s.place[e])
    ensures EnvAt(s, a) != Some(e)
  {
    if EnvAt(s, a) == Some(e) {
      SlotPlace(s, a);
    }
  }

  lemma TailEnvs(items: seq<Item>, k: nat)
    requires k <= |items|
    ensures forall i :: k <= i < |items| ==> items[i].env in EnvsOf(items[k..])
  {
    forall i | k <= i < |items| ensures items[i].env in EnvsOf(items[k..]) {
      assert items[i] == items[k..][i - k];
    }
  }

  lemma FailedMoves(s: State, f: FlushId, a: Slot)
    requires FlushIs(s, f, Writing) && s.flushes[f].pos < |s.flushes[f].taken|
    requires EnvAt(s, a).Some?
    requires a.AtFlush? && a.f == f ==> EnvAt(s, a).value !in EnvsOf(s.flushes[f].taken[s.flushes[f].pos + 1..])
    ensures EnvAt(s.(flushes := s.flushes[f := s.flushes[f].(stage := PuttingBack)]), a) == EnvAt(s, a)
  {
    TailEnvs(s.flushes[f].taken, s.flushes[f].pos + 1);
  }

  lemma NextMoves(s: State, f: FlushId, ok: bool, a: Slot) returns (b: Slot)
    requires FlushIs(s, f, Writing) && s.flushes[f].pos < |s.flushes[f].taken|
    requires EnvAt(s, a).Some? && EnvAt(s, a).value in s.place
    requires !Gone(NextOf(s, f, ok).place[EnvAt(s, a).value])
    ensures EnvAt(NextOf(s, f, ok), b) == EnvAt(s, a)
  {
    var fl := s.flushes[f];
    b := a;
    if fl.taken[fl.pos].at >= fl.cutoff {
      if ok {
        b := if a == AtFlush(f, fl.pos) then AtLog(|s.log|) else a;
      } else {
        FailedMoves(s, f, a);
      }
    }
  }

  lemma SlotAfterEnqueue(s: State, mid: State, e: EnvId, m: Member, source: Slot, a: Slot) returns (b: Slot)
    requires mid.queued == s.queued && mid.place == s.place && mid.log == s.log && mid.now == s.now
    requires EnvAt(s, source) == Some(e) && EnvAt(s, a).Some?
    requires a != source ==> EnvAt(s, a) == EnvAt(mid, a)
    requires var after := Enqueued(mid, e, m); EnvAt(s, a).value in after.place && !Gone(after.place[EnvAt(s, a).value])
    requires a == source || EnvAt(s, a) != Some(e)
    ensures EnvAt(Enqueued(mid, e, m), b) == EnvAt(s, a)
  {
    var q := QueueOf(s.queued, m);
    var after := Enqueued(mid, e, m);
    var drop := if |q| >= QUEUE_LIMIT then 1 else 0;
    assert QueueOf(after.queued, m) == q[drop..] + [Item(e, s.now)];
    if a == source {
      b := AtQueue(m, |q| - drop);
    } else if a.AtQueue? && a.m == m {
      b := AtQueue(m, a.i - drop);
    } else {
      b := a;
    }
  }

  lemma QueueMoves(s: State, t: ThreadId, a: Slot) returns (b: Slot)
    requires Inv(s) && Enabled(s, Queue(t)) && EnvAt(s, a).Some?
    requires var after := Do(s, Queue(t)); EnvAt(s, a).value in after.place && !Gone(after.place[EnvAt(s, a).value])
    ensures EnvAt(Do(s, Queue(t)), b) == EnvAt(s, a)
  {
    if EnvAt(s, a) == EnvAt(s, AtSender(t)) { OneSlot(s, a, AtSender(t)); }
    b := SlotAfterEnqueue(s, s.(senders := s.senders - {t}), s.senders[t].env, RecipientOf(s, s.senders[t].env),
                          AtSender(t), a);
  }

  lemma PutBackMoves(s: State, f: FlushId, a: Slot) returns (b: Slot)
    requires Inv(s) && Enabled(s, PutBack(f)) && EnvAt(s, a).Some?
    requires var after := Do(s, PutBack(f)); EnvAt(s, a).value in after.place && !Gone(after.place[EnvAt(s, a).value])
    ensures EnvAt(Do(s, PutBack(f)), b) == EnvAt(s, a)
  {
    var fl := s.flushes[f];
    var source := AtFlush(f, fl.pos);
    if EnvAt(s, a) == EnvAt(s, source) { OneSlot(s, a, source); }
    b := SlotAfterEnqueue(s, s.(flushes := s.flushes[f := fl.(stage := Done)]), fl.taken[fl.pos].env, fl.conn.member,
                          source, a);
  }

  lemma OtherMoves(s: State, step: Step, a: Slot) returns (b: Slot)
    requires Enabled(s, step) && !step.Queue? && !step.PutBack? && EnvAt(s, a).Some?
    requires step.Next? ==> EnvAt(s, a).value in s.place && !Gone(Do(s, step).place[EnvAt(s, a).value])
    ensures EnvAt(Do(s, step), b) == EnvAt(s, a)
  {
    match step
    case WriteDirect(t, ok) => b := if ok && a == AtSender(t) then AtLog(|s.log|) else a;
    case Take(f, c) => b := if a.AtQueue? && a.m == c.member then AtFlush(f, a.i) else a;
    case Next(f, ok) => b := NextMoves(s, f, ok, a);
    case _ => b := a;
  }

  /** Where the envelope of a slot is after a step. */
  lemma SlotMoves(s: State, step: Step, a: Slot) returns (b: Slot)
    requires Inv(s) && Enabled(s, step) && EnvAt(s, a).Some?
    requires EnvAt(s, a).value in Do(s, step).place && !Gone(Do(s, step).place[EnvAt(s, a).value])
    ensures EnvAt(Do(s, step), b) == EnvAt(s, a)
  {
    match step
    case Queue(t) => b := QueueMoves(s, t, a);
    case PutBack(f) => b := PutBackMoves(s, f, a);
    case _ =>
      SlotPlace(s, a);
      b := OtherMoves(s, step, a);
  }

  lemma EnqueuedAddsNone(s: State, e: EnvId, m: Member)
    requires e in s.place
    requires forall i :: 0 <= i < |QueueOf(s.queued, m)| ==> QueueOf(s.queued, m)[i].env in s.place
    ensures Enqueued(s, e, m).place.Keys == s.place.Keys
  {
  }

  lemma QueueAddsNone(s: State, t: ThreadId)
    requires Inv(s) && Enabled(s, Queue(t))
    ensures Do(s, Queue(t)).place.Keys == s.place.Keys
  {
    SlotPlace(s, AtSender(t));
    QueueHeld(s, RecipientOf(s, s.senders[t].env));
    EnqueuedAddsNone(s.(senders := s.senders - {t}), s.senders[t].env, RecipientOf(s, s.senders[t].env));
  }

  lemma PutBackAddsNone(s: State, f: FlushId)
    requires Inv(s) && Enabled(s, PutBack(f))
    ensures Do(s, PutBack(f)).place.Keys == s.place.Keys
  {
    var fl := s.flushes[f];
    SlotPlace(s, AtFlush(f, fl.pos));
    QueueHeld(s, fl.conn.member);
    EnqueuedAddsNone(s.(flushes := s.flushes[f := fl.(stage := Done)]), fl.taken[fl.pos].env, fl.conn.member);
  }

  lemma NextAddsNone(s: State, f: FlushId, ok: bool)
    requires Inv(s) && Enabled(s, Next(f, ok))
    ensures NextOf(s, f, ok).place.Keys == s.place.Keys
  {
    FlushHeld(s, f);
  }

  lemma OtherAddsNone(s: State, step: Step)
    requires Enabled(s, step) && !step.Accept? && !step.Queue? && !step.PutBack? && !step.Next?
    requires step.WriteDirect? ==> s.senders[step.t].env in s.place
    ensures Do(s, step).place.Keys == s.place.Keys
  {
  }

  lemma OnlyAcceptAdds(s: State, step: Step, e: EnvId)
    requires Inv(s) && Enabled(s, step) && e in Do(s, step).place && e !in s.place
    ensures step.Accept? && step.e == e
  {
    match step
    case Accept(_, _, _) =>
    case Queue(t) => QueueAddsNone(s, t);
    case Next(f, ok) => NextAddsNone(s, f, ok);
    case PutBack(f) => PutBackAddsNone(s, f);
    case WriteDirect(t, _) =>
      SlotPlace(s, AtSender(t));
      OtherAddsNone(s, step);
    case _ => OtherAddsNone(s, step);
  }

  lemma StepKeepsAccounted(s: State, step: Step)
    requires Inv(s) && Accounted(s) && Enabled(s, step)
    ensures Accounted(Do(s, step))
  {
    var t := Do(s, step);
    forall e | e in t.place && !Gone(t.place[e]) ensures exists a :: EnvAt(t, a) == Some(e) {
      if e !in s.place {
        OnlyAcceptAdds(s, step, e);
        assert EnvAt(t, AtSender(step.t)) == Some(e);
      } else {
        assert !Gone(s.place[e]) by { StepKeepsFate(s, step, e); }
        var a :| EnvAt(s, a) == Some(e);
        var b := SlotMoves(s, step, a);
      }
    }
  }

  lemma EnqueuedKeepsFate(s: State, e: EnvId, m: Member, x: EnvId)
    requires x in s.place && Final(s.place[x]) && e in s.place && !Final(s.place[e])
    requires forall i :: 0 <= i < |QueueOf(s.queued, m)| ==>
               QueueOf(s.queued, m)[i].env in s.place && s.place[QueueOf(s.queued, m)[i].env] == InQueue
    ensures x in Enqueued(s, e, m).place && Enqueued(s, e, m).place[x] == s.place[x]
  {
  }

  lemma QueueHeld(s: State, m: Member)
    requires Inv(s)
    ensures forall i :: 0 <= i < |QueueOf(s.queued, m)| ==>
              QueueOf(s.queued, m)[i].env in s.place && s.place[QueueOf(s.queued, m)[i].env] == InQueue
  {
    forall i | 0 <= i < |QueueOf(s.queued, m)|
      ensures QueueOf(s.queued, m)[i].env in s.place && s.place[QueueOf(s.queued, m)[i].env] == InQueue
    {
      SlotPlace(s, AtQueue(m, i));
    }
  }

  lemma FlushHeld(s: State, f: FlushId)
    requires Inv(s) && FlushIs(s, f, Writing)
    ensures var fl := s.flushes[f];
            forall i :: fl.pos <= i < |fl.taken| ==>
              fl.taken[i].env in s.place && s.place[fl.taken[i].env] == InFlush(f)
  {
    var fl := s.flushes[f];
    forall i | fl.pos <= i < |fl.taken|
      ensures fl.taken[i].env in s.place && s.place[fl.taken[i].env] == InFlush(f)
    {
      SlotPlace(s, AtFlush(f, i));
    }
  }

  lemma OthersKeepFate(s: State, step: Step, x: EnvId)
    requires Enabled(s, step) && !step.Queue? && !step.PutBack? && x in s.place && Final(s.place[x])
    requires step.Accept? ==> x in s.recipient
    requires step.WriteDirect? ==> s.senders[step.t].env in s.place && !Final(s.place[s.senders[step.t].env])
    requires step.Take? ==> x !in EnvsOf(QueueOf(s.queued, step.c.member))
    requires step.Next? ==> x !in EnvsOf(s.flushes[step.f].taken[s.flushes[step.f].pos..])
    ensures x in Do(s, step).place && Do(s, step).place[x] == s.place[x]
  {
    if step.Next? {
      var fl := s.flushes[step.f];
      assert fl.taken[fl.pos..][0] == fl.taken[fl.pos];
      assert fl.taken[fl.pos + 1..] == fl.taken[fl.pos..][1..];
    }
  }

  lemma QueueKeepsFate(s: State, t: ThreadId, x: EnvId)
    requires Inv(s) && Enabled(s, Queue(t)) && x in s.place && Final(s.place[x])
    ensures x in Do(s, Queue(t)).place && Do(s, Queue(t)).place[x] == s.place[x]
  {
    SlotPlace(s, AtSender(t));
    QueueHeld(s, RecipientOf(s, s.senders[t].env));
    EnqueuedKeepsFate(s.(senders := s.senders - {t}), s.senders[t].env, RecipientOf(s, s.senders[t].env), x);
  }

  lemma PutBackKeepsFate(s: State, f: FlushId, x: EnvId)
    requires Inv(s) && Enabled(s, PutBack(f)) && x in s.place && Final(s.place[x])
    ensures x in Do(s, PutBack(f)).place && Do(s, PutBack(f)).place[x] == s.place[x]
  {
    var fl := s.flushes[f];
    SlotPlace(s, AtFlush(f, fl.pos));
    QueueHeld(s, fl.conn.member);
    EnqueuedKeepsFate(s.(flushes := s.flushes[f := fl.(stage := Done)]), fl.taken[fl.pos].env, fl.conn.member, x);
  }

  lemma FinalIsNotHeld(s: State, step: Step, x: EnvId)
    requires Inv(s) && Enabled(s, step) && x in s.place && Final(s.place[x])
    ensures step.Accept? ==> x in s.recipient
    ensures step.WriteDirect? ==> s.senders[step.t].env in s.place && !Final(s.place[s.senders[step.t].env])
    ensures step.Take? ==> x !in EnvsOf(QueueOf(s.queued, step.c.member))
    ensures step.Next? ==> x !in EnvsOf(s.flushes[step.f].taken[s.flushes[step.f].pos..])
  {
    match step
    case WriteDirect(t, _) => SlotPlace(s, AtSender(t));
    case Take(f, c) => QueueHeld(s, c.member);
    case Next(f, _) => FlushHeld(s, f);
    case _ =>
  }

  lemma StepAddsOnly(s: State, step: Step, x: EnvId)
    requires Inv(s) && Enabled(s, step) && x in s.place
    ensures x in Do(s, step).place
  {
    match step
    case Queue(t) => QueueAddsNone(s, t);
    case PutBack(f) => PutBackAddsNone(s, f);
    case Next(f, ok) => NextAddsNone(s, f, ok);
    case _ =>
  }

  /** What became of an envelope is final: nothing that was written, expired, overflowed or lost
      goes anywhere else. */
  lemma StepKeepsFate(s: State, step: Step, x: EnvId)
    requires Inv(s) && Enabled(s, step) && x in s.place
    ensures x in Do(s, step).place
    ensures Final(s.place[x]) ==> Do(s, step).place[x] == s.place[x]
  {
    StepAddsOnly(s, step, x);
    if Final(s.place[x]) {
      match step
      case Queue(t) => QueueKeepsFate(s, t, x);
      case PutBack(f) => PutBackKeepsFate(s, f, x);
      case _ =>
        FinalIsNotHeld(s, step, x);
        OthersKeepFate(s, step, x);
    }
  }

  // ---------- A flush writes in queue order ----------

  function WrittenBy(log: seq<Sent>, f: FlushId): seq<EnvId> {
    if log == [] then []
    else WrittenBy(log[..|log| - 1], f) + if log[|log| - 1].flush == Some(f) then [log[|log| - 1].env] else []
  }

  function EnvSeq(items: seq<Item>): seq<EnvId> {
    seq(|items|, i requires 0 <= i < |items| => items[i].env)
  }

  /** What a flush has written is the unexpired part of what it passed, in the order it was queued. */
  ghost predicate WroteInOrder(log: seq<Sent>, f: FlushId, fl: Flush) {
    fl.pos <= |fl.taken| && WrittenBy(log, f) == EnvSeq(Unexpired(fl.taken[..fl.pos], fl.cutoff))
  }

  ghost predicate InOrder(log: seq<Sent>, flushes: map<FlushId, Flush>) {
    && (forall i :: 0 <= i < |log| && log[i].flush.Some? ==> log[i].flush.value in flushes)
    && (forall f :: f in flushes ==> WroteInOrder(log, f, flushes[f]))
  }

  lemma {:induction false} WrittenByNobody(log: seq<Sent>, f: FlushId)
    requires forall i :: 0 <= i < |log| ==> log[i].flush != Some(f)
    ensures WrittenBy(log, f) == []
  {
    if log != [] {
      WrittenByNobody(log[..|log| - 1], f);
    }
  }

  lemma WrittenByNext(log: seq<Sent>, x: Sent, f: FlushId)
    ensures WrittenBy(log + [x], f) == WrittenBy(log, f) + if x.flush == Some(f) then [x.env] else []
  {
    assert (log + [x])[..|log|] == log;
  }

  lemma PassedInOrder(items: seq<Item>, pos: nat, cutoff: int)
    requires pos < |items|
    ensures EnvSeq(Unexpired(items[..pos + 1], cutoff))
         == EnvSeq(Unexpired(items[..pos], cutoff)) + if items[pos].at < cutoff then [] else [items[pos].env]
  {
    assert items[..pos + 1] == items[..pos] + [items[pos]];
    UnexpiredSplit(items[..pos], [items[pos]], cutoff);
  }

  lemma NothingInOrder(log: seq<Sent>, f: FlushId, fl: Flush)
    requires fl.pos == 0 && WrittenBy(log, f) == []
    ensures WroteInOrder(log, f, fl)
  {
    assert fl.taken[..0] == [];
  }

  lemma OthersInOrder(log: seq<Sent>, x: Sent, f: FlushId, fl: Flush)
    requires WroteInOrder(log, f, fl) && x.flush != Some(f)
    ensures WroteInOrder(log + [x], f, fl)
  {
    WrittenByNext(log, x, f);
  }

  lemma SkippedInOrder(log: seq<Sent>, f: FlushId, fl: Flush)
    requires WroteInOrder(log, f, fl) && fl.pos < |fl.taken| && fl.taken[fl.pos].at < fl.cutoff
    ensures WroteInOrder(log, f, fl.(pos := fl.pos + 1))
  {
    PassedInOrder(fl.taken, fl.pos, fl.cutoff);
  }

  lemma WrittenInOrder(log: seq<Sent>, f: FlushId, fl: Flush)
    requires WroteInOrder(log, f, fl) && fl.pos < |fl.taken| && fl.taken[fl.pos].at >= fl.cutoff
    ensures WroteInOrder(log + [Sent(fl.taken[fl.pos].env, fl.conn, Some(f))], f, fl.(pos := fl.pos + 1))
  {
    PassedInOrder(fl.taken, fl.pos, fl.cutoff);
    WrittenByNext(log, Sent(fl.taken[fl.pos].env, fl.conn, Some(f)), f);
  }

  lemma StageInOrder(log: seq<Sent>, f: FlushId, fl: Flush, stage: Stage)
    requires WroteInOrder(log, f, fl)
    ensures WroteInOrder(log, f, fl.(stage := stage))
  {
  }

  /** The log grows by writes of one flush or of none, and that flush alone moves. */
  lemma GrowsInOrder(log: seq<Sent>, flushes: map<FlushId, Flush>, x: Sent, after: map<FlushId, Flush>)
    requires InOrder(log, flushes) && after.Keys == flushes.Keys
    requires x.flush.Some? ==> x.flush.value in after && WroteInOrder(log + [x], x.flush.value, after[x.flush.value])
    requires forall f :: f in flushes && x.flush != Some(f) ==> after[f] == flushes[f]
    ensures InOrder(log + [x], after)
  {
    forall f | f in after ensures WroteInOrder(log + [x], f, after[f]) {
      if x.flush != Some(f) {
        OthersInOrder(log, x, f, flushes[f]);
      }
    }
  }

  lemma SkippedKeepsOrder(s: State, f: FlushId, ok: bool)
    requires InOrder(s.log, s.flushes) && Meets(s, f, true)
    ensures InOrder(NextOf(s, f, ok).log, NextOf(s, f, ok).flushes)
  {
    SkippedInOrder(s.log, f, s.flushes[f]);
  }

  lemma WrittenKeepsOrder(s: State, f: FlushId)
    requires InOrder(s.log, s.flushes) && Meets(s, f, false)
    ensures InOrder(NextOf(s, f, true).log, NextOf(s, f, true).flushes)
  {
    var fl := s.flushes[f];
    WrittenInOrder(s.log, f, fl);
    GrowsInOrder(s.log, s.flushes, Sent(fl.taken[fl.pos].env, fl.conn, Some(f)), NextOf(s, f, true).flushes);
  }

  lemma FailedKeepsOrder(s: State, f: FlushId)
    requires InOrder(s.log, s.flushes) && Meets(s, f, false)
    ensures InOrder(NextOf(s, f, false).log, NextOf(s, f, false).flushes)
  {
    StageInOrder(s.log, f, s.flushes[f], PuttingBack);
  }

  lemma NextKeepsOrder(s: State, f: FlushId, ok: bool)
    requires InOrder(s.log, s.flushes) && Enabled(s, Next(f, ok))
    ensures InOrder(NextOf(s, f, ok).log, NextOf(s, f, ok).flushes)
  {
    if Meets(s, f, true) {
      SkippedKeepsOrder(s, f, ok);
    } else if ok {
      WrittenKeepsOrder(s, f);
    } else {
      FailedKeepsOrder(s, f);
    }
  }

  lemma StepKeepsOrder(s: State, step: Step)
    requires InOrder(s.log, s.flushes) && Enabled(s, step)
    requires step.ReadClock? ==> s.flushes[step.f].pos == 0
    ensures InOrder(Do(s, step).log, Do(s, step).flushes)
  {
    match step
    case WriteDirect(t, ok) =>
      GrowsInOrder(s.log, s.flushes, Sent(s.senders[t].env, s.senders[t].target.value, None), s.flushes);
    case Take(f, c) =>
      WrittenByNobody(s.log, f);
      NothingInOrder(s.log, f, Do(s, step).flushes[f]);
    case ReadClock(f) =>
      assert WrittenBy(s.log, f) == [] by {
        assert WroteInOrder(s.log, f, s.flushes[f]);
        assert s.flushes[f].taken[..0] == [];
      }
      NothingInOrder(s.log, f, Do(s, step).flushes[f]);
    case Next(f, ok) => NextKeepsOrder(s, f, ok);
    case PutBack(f) => StageInOrder(s.log, f, s.flushes[f], Done);
    case Finish(f) => StageInOrder(s.log, f, s.flushes[f], Done);
    case _ =>
  }

  // ---------- Runs ----------

  ghost predicate IsRun(states: seq<State>, steps: seq<Step>) {
    && |states| == |steps| + 1
    && states[0] == INITIAL
    && forall i :: 0 <= i < |steps| ==> Enabled(states[i], steps[i]) && states[i + 1] == Do(states[i], steps[i])
  }

  lemma {:induction false} RunKeepsAll(states: seq<State>, steps: seq<Step>, i: nat)
    requires IsRun(states, steps) && i < |states|
    ensures Inv(states[i]) && Accounted(states[i]) && InOrder(states[i].log, states[i].flushes)
    decreases i
  {
    if i > 0 {
      RunKeepsAll(states, steps, i - 1);
      StepKeepsInv(states[i - 1], steps[i - 1]);
      StepKeepsAccounted(states[i - 1], steps[i - 1]);
      StepKeepsOrder(states[i - 1], steps[i - 1]);
    }
  }

  /** At most once: in every state of every run an accepted envelope is at one slot or at none, so
      it is never written twice and never waits where it was also written. It is at none exactly
      when it expired, overflowed a queue or was lost by a flush. */
  lemma AtMostOnce(states: seq<State>, steps: seq<Step>, i: nat, e: EnvId)
    requires IsRun(states, steps) && i < |states| && e in states[i].recipient
    ensures forall a, b :: EnvAt(states[i], a) == Some(e) && EnvAt(states[i], b) == Some(e) ==> a == b
    ensures e in states[i].place && (Gone(states[i].place[e]) <==> forall a :: EnvAt(states[i], a) != Some(e))
  {
    var s := states[i];
    RunKeepsAll(states, steps, i);
    forall a, b | EnvAt(s, a) == Some(e) && EnvAt(s, b) == Some(e) ensures a == b {
      OneSlot(s, a, b);
    }
    if Gone(s.place[e]) {
      forall a ensures EnvAt(s, a) != Some(e) {
        GoneHasNoSlot(s, e, a);
      }
    }
  }

  /** Every successful write goes to a connection of the envelope's own recipient. */
  lemma OnlyToTheRecipient(states: seq<State>, steps: seq<Step>, i: nat)
    requires IsRun(states, steps) && i < |states|
    ensures forall k :: 0 <= k < |states[i].log| ==>
              && states[i].log[k].env in states[i].recipient
              && states[i].recipient[states[i].log[k].env] == states[i].log[k].conn.member
  {
    RunKeepsAll(states, steps, i);
  }

  lemma QueuesAreBounded(states: seq<State>, steps: seq<Step>, i: nat, m: Member)
    requires IsRun(states, steps) && i < |states|
    ensures |QueueOf(states[i].queued, m)| <= QUEUE_LIMIT
  {
    RunKeepsAll(states, steps, i);
  }

  /** What a flush has written is one unbroken stretch of the queue it took, in order: it skips the
      expired ones at the front and nothing else. */
  lemma FlushWritesAStretch(states: seq<State>, steps: seq<Step>, i: nat, f: FlushId) returns (k: nat)
    requires IsRun(states, steps) && i < |states| && f in states[i].flushes
    ensures var fl := states[i].flushes[f];
            && k <= fl.pos <= |fl.taken|
            && WrittenBy(states[i].log, f) == EnvSeq(fl.taken[k..fl.pos])
            && forall j :: 0 <= j < fl.pos ==> (fl.taken[j].at < fl.cutoff <==> j < k)
  {
    RunKeepsAll(states, steps, i);
    var fl := states[i].flushes[f];
    k := UnexpiredIsSuffix(fl.taken[..fl.pos], fl.cutoff);
    assert fl.taken[..fl.pos][k..] == fl.taken[k..fl.pos];
    forall j | 0 <= j < fl.pos ensures fl.taken[j].at < fl.cutoff <==> j < k {
      assert fl.taken[j] == fl.taken[..fl.pos][j];
    }
  }

  lemma {:induction false} FateIsFinal(states: seq<State>, steps: seq<Step>, i: nat, j: nat, e: EnvId)
    requires IsRun(states, steps) && i <= j < |states|
    requires e in states[i].place && Final(states[i].place[e])
    ensures e in states[j].place && states[j].place[e] == states[i].place[e]
    decreases j
  {
    if i < j {
      FateIsFinal(states, steps, i, j - 1, e);
      RunKeepsAll(states, steps, j - 1);
      StepKeepsFate(states[j - 1], steps[j - 1], e);
    }
  }

  /** A flush that fails puts back the envelope it failed on and loses the rest: whatever it had
      still to write after that one is nowhere in any later state, and is never written. */
  lemma FailedFlushLosesTheRest(states: seq<State>, steps: seq<Step>, i: nat, f: FlushId, n: nat, j: nat, a: Slot)
    requires IsRun(states, steps) && i < |steps| && steps[i] == Next(f, false)
    requires var fl := states[i].flushes[f]; fl.pos < n < |fl.taken| && fl.taken[fl.pos].at >= fl.cutoff
    requires i < j < |states|
    ensures EnvAt(states[j], a) != Some(states[i].flushes[f].taken[n].env)
  {
    var fl := states[i].flushes[f];
    var e := fl.taken[n].env;
    RunKeepsAll(states, steps, i);
    FlushHeld(states[i], f);
    TailEnvs(fl.taken, fl.pos + 1);
    assert states[i + 1].place[e] == Lost;
    FateIsFinal(states, steps, i + 1, j, e);
    RunKeepsAll(states, steps, j);
    GoneHasNoSlot(states[j], e, a);
  }
}
