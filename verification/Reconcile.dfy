/**
 Which remote sessions get a process of their own on this machine, and bringing the supervised
 processes in line with that.
 */
module Reconcile {
  import opened Options
  import opened StableSort

  type Id = nat
  type Name = nat
  type Time = nat

  const DEFAULT_MAX_GHOSTS := 8

  datatype Mode = Auto | Manual | Off

  datatype Policy = Policy(mode: Mode, maxGhosts: Option<int>, subscribed: seq<Id>)

  /** A remote session and the name its peer gets; two sessions can get the same name. */
  datatype Session = Session(id: Id, name: Name)

  function Cap(p: Policy): nat {
    match p.maxGhosts
    case None => DEFAULT_MAX_GHOSTS
    case Some(n) => if n < 0 then 0 else n
  }

  /** A session never used counts as used at the zero time. */
  function UsedAt(used: map<Id, Time>, id: Id): int {
    if id in used then used[id] else 0
  }

  function Recency(used: map<Id, Time>): Session -> int {
    (s: Session) => -UsedAt(used, s.id)
  }

  function SubscribedOf(roster: seq<Session>, ids: set<Id>): seq<Session> {
    if roster == [] then []
    else
      var last := roster[|roster| - 1];
      SubscribedOf(roster[..|roster| - 1], ids) + if last.id in ids then [last] else []
  }

  function Candidates(p: Policy, roster: seq<Session>): seq<Session> {
    if p.mode.Manual? then SubscribedOf(roster, set id | id in p.subscribed) else roster
  }

  function Selected(candidates: seq<Session>, used: map<Id, Time>, cap: nat): seq<Session> {
    if |candidates| > cap then SortedTake(candidates, used, cap) else candidates
  }

  function SortedTake(candidates: seq<Session>, used: map<Id, Time>, cap: nat): (r: seq<Session>)
    requires cap <= |candidates|
    ensures |r| == cap
  {
    SortIsStable(candidates, Recency(used));
    Sort(candidates, Recency(used))[..cap]
  }

  /** The peers of a workspace: its own under its name, standing for nobody, and one for each
      session, the later one where names collide. */
  function Peers(workspace: Name, sessions: seq<Session>): map<Name, Option<Id>> {
    if sessions == [] then map[workspace := None]
    else
      var last := sessions[|sessions| - 1];
      Peers(workspace, sessions[..|sessions| - 1])[last.name := Some(last.id)]
  }

  function Wanted(everConnected: bool, p: Policy, workspace: Name, roster: seq<Session>,
                  used: map<Id, Time>): map<Name, Option<Id>> {
    if !everConnected || p.mode.Off? then map[]
    else Peers(workspace, Selected(Candidates(p, roster), used, Cap(p)))
  }

  // ---------- What the selection keeps and evicts ----------

  /** As many as the cap allows are kept, every candidate is kept or evicted, nobody evicted was used
      later than anybody kept, and among those used at one time the first of the roster are kept. */
  lemma LeastRecentlyUsed(candidates: seq<Session>, used: map<Id, Time>, cap: nat) returns (evicted: seq<Session>)
    ensures var kept := Selected(candidates, used, cap);
            && |kept| == (if |candidates| < cap then |candidates| else cap)
            && multiset(kept) + multiset(evicted) == multiset(candidates)
            && (forall k, e :: k in kept && e in evicted ==> UsedAt(used, k.id) >= UsedAt(used, e.id))
            && (forall t ::
                  WithKey(kept, Recency(used), t) + WithKey(evicted, Recency(used), t) ==
                  WithKey(candidates, Recency(used), t))
  {
    if |candidates| <= cap {
      evicted := [];
      forall t ensures WithKey(candidates, Recency(used), t) + WithKey(evicted, Recency(used), t) ==
        WithKey(candidates, Recency(used), t) {}
    } else {
      SortIsStable(candidates, Recency(used));
      var sorted := Sort(candidates, Recency(used));
      evicted := sorted[cap..];
      assert sorted == sorted[..cap] + sorted[cap..];
      forall k, e | k in sorted[..cap] && e in evicted ensures UsedAt(used, k.id) >= UsedAt(used, e.id) {
        var i :| 0 <= i < cap && sorted[i] == k;
        var j :| 0 <= j < |evicted| && evicted[j] == e;
        assert sorted[cap + j] == e;
        assert Recency(used)(sorted[i]) <= Recency(used)(sorted[cap + j]);
      }
      forall t ensures WithKey(sorted[..cap], Recency(used), t) + WithKey(evicted, Recency(used), t) ==
        WithKey(candidates, Recency(used), t) {
        WithKeySplit(sorted[..cap], sorted[cap..], Recency(used), t);
      }
    }
  }

  lemma {:induction false} WithKeySplit(a: seq<Session>, b: seq<Session>, key: Session -> int, k: int)
    ensures WithKey(a + b, key, k) == WithKey(a, key, k) + WithKey(b, key, k)
  {
    if a == [] {
      assert a + b == b;
    } else {
      var head := if key(a[0]) == k then [a[0]] else [];
      WithKeySplit(a[1..], b, key, k);
      assert (a + b)[1..] == a[1..] + b;
      assert head + (WithKey(a[1..], key, k) + WithKey(b, key, k)) ==
             head + WithKey(a[1..], key, k) + WithKey(b, key, k);
    }
  }

  ghost predicate Named(sessions: seq<Session>, n: Name) {
    exists i :: 0 <= i < |sessions| && sessions[i].name == n
  }

  /** The last session with a name. */
  ghost predicate LastNamed(sessions: seq<Session>, n: Name, id: Id) {
    exists i :: 0 <= i < |sessions| && sessions[i] == Session(id, n) && !Named(sessions[i + 1..], n)
  }

  lemma NamedSnoc(init: seq<Session>, last: Session, n: Name)
    ensures Named(init + [last], n) <==> Named(init, n) || last.name == n
  {
    var all := init + [last];
    assert all[|init|] == last;
    if Named(init, n) {
      var i :| 0 <= i < |init| && init[i].name == n;
      assert all[i].name == n;
    }
  }

  lemma LastNamedSnoc(init: seq<Session>, last: Session, n: Name, id: Id)
    ensures last.name == n && last.id == id ==> LastNamed(init + [last], n, id)
    ensures last.name != n && LastNamed(init, n, id) ==> LastNamed(init + [last], n, id)
  {
    var all := init + [last];
    if last.name == n && last.id == id {
      assert all[|init|] == Session(id, n) && all[|init| + 1..] == [];
      assert !Named(all[|init| + 1..], n);
    } else if last.name != n && LastNamed(init, n, id) {
      var i :| 0 <= i < |init| && init[i] == Session(id, n) && !Named(init[i + 1..], n);
      StaysLast(init, last, n, id, i);
    }
  }

  lemma StaysLast(init: seq<Session>, last: Session, n: Name, id: Id, i: nat)
    requires i < |init| && init[i] == Session(id, n) && !Named(init[i + 1..], n) && last.name != n
    ensures LastNamed(init + [last], n, id)
  {
    var all := init + [last];
    assert all[i + 1..] == init[i + 1..] + [last];
    NamedSnoc(init[i + 1..], last, n);
    assert all[i] == Session(id, n) && !Named(all[i + 1..], n);
  }

  lemma {:induction false} PeerNames(workspace: Name, sessions: seq<Session>, n: Name)
    ensures n in Peers(workspace, sessions) <==> n == workspace || Named(sessions, n)
  {
    if sessions != [] {
      var init, last := sessions[..|sessions| - 1], sessions[|sessions| - 1];
      PeerNames(workspace, init, n);
      assert sessions == init + [last];
      NamedSnoc(init, last, n);
    }
  }

  lemma {:induction false} PeerCount(workspace: Name, sessions: seq<Session>)
    ensures |Peers(workspace, sessions)| <= |sessions| + 1
  {
    if sessions != [] {
      var init, last := sessions[..|sessions| - 1], sessions[|sessions| - 1];
      PeerCount(workspace, init);
      assert Peers(workspace, sessions).Keys == Peers(workspace, init).Keys + {last.name};
    }
  }

  /** Whom a name stands for. */
  ghost predicate StandsFor(workspace: Name, sessions: seq<Session>, n: Name, whom: Option<Id>) {
    match whom
    case None => n == workspace && !Named(sessions, n)
    case Some(id) => LastNamed(sessions, n, id)
  }

  lemma {:induction false} PeerStands(workspace: Name, sessions: seq<Session>, n: Name)
    requires n in Peers(workspace, sessions)
    ensures StandsFor(workspace, sessions, n, Peers(workspace, sessions)[n])
  {
    if sessions != [] {
      var init, last := sessions[..|sessions| - 1], sessions[|sessions| - 1];
      assert sessions == init + [last];
      NamedSnoc(init, last, n);
      if last.name == n {
        LastNamedSnoc(init, last, n, last.id);
      } else {
        PeerStands(workspace, init, n);
        match Peers(workspace, init)[n]
        case None =>
        case Some(id) => LastNamedSnoc(init, last, n, id);
      }
    }
  }

  /** At most one name per session besides the workspace's; every name stands for the last session
      that has it, and for the whole workspace only where no session took that name. */
  lemma PeersAre(workspace: Name, sessions: seq<Session>)
    ensures forall n :: n in Peers(workspace, sessions) <==> n == workspace || Named(sessions, n)
    ensures |Peers(workspace, sessions)| <= |sessions| + 1
    ensures forall n :: n in Peers(workspace, sessions) ==>
            StandsFor(workspace, sessions, n, Peers(workspace, sessions)[n])
  {
    forall n ensures n in Peers(workspace, sessions) <==> n == workspace || Named(sessions, n) {
      PeerNames(workspace, sessions, n);
    }
    PeerCount(workspace, sessions);
    forall n | n in Peers(workspace, sessions)
      ensures StandsFor(workspace, sessions, n, Peers(workspace, sessions)[n]) {
      PeerStands(workspace, sessions, n);
    }
  }

  /** A machine runs at most one peer more than its cap, and none before the first connection or in
      mode off. */
  lemma WantedIsBounded(everConnected: bool, p: Policy, workspace: Name, roster: seq<Session>, used: map<Id, Time>)
    ensures var want := Wanted(everConnected, p, workspace, roster, used);
            && |want| <= Cap(p) + 1
            && (workspace in want <==> everConnected && !p.mode.Off?)
            && (workspace !in want ==> want == map[])
  {
    var kept := Selected(Candidates(p, roster), used, Cap(p));
    PeersAre(workspace, kept);
    var evicted := LeastRecentlyUsed(Candidates(p, roster), used, Cap(p));
  }

  /** In manual mode the candidates are the subscribed of the roster, each as often as there. */
  lemma {:induction false} ManualCandidates(roster: seq<Session>, ids: set<Id>)
    ensures forall s :: multiset(SubscribedOf(roster, ids))[s] == if s.id in ids then multiset(roster)[s] else 0
  {
    if roster != [] {
      ManualCandidates(roster[..|roster| - 1], ids);
      assert roster == roster[..|roster| - 1] + [roster[|roster| - 1]];
    }
  }

  // ---------- What is wanted, from the policy, the roster and the times alone ----------

  /** Some positions of the roster, from its front to its back. */
  ghost predicate Positions(roster: seq<Session>, at: seq<nat>) {
    && (forall k :: 0 <= k < |at| ==> at[k] < |roster|)
    && forall j, k :: 0 <= j < k < |at| ==> at[j] < at[k]
  }

  function Picked(roster: seq<Session>, at: seq<nat>): seq<Session>
    requires forall k :: 0 <= k < |at| ==> at[k] < |roster|
  {
    seq(|at|, k requires 0 <= k < |at| => roster[at[k]])
  }

  /** Those are the positions a mode lets through: all of them, or those of subscribed sessions. */
  ghost predicate Eligible(p: Policy, roster: seq<Session>, at: seq<nat>) {
    forall i: nat :: i < |roster| ==> (i in at <==> (p.mode.Manual? ==> roster[i].id in p.subscribed))
  }

  lemma {:induction false} SubscribedAt(roster: seq<Session>, ids: set<Id>) returns (at: seq<nat>)
    ensures Positions(roster, at) && Picked(roster, at) == SubscribedOf(roster, ids)
    ensures forall i: nat :: i < |roster| ==> (i in at <==> roster[i].id in ids)
  {
    at := [];
    if roster != [] {
      var init, last := roster[..|roster| - 1], |roster| - 1;
      at := SubscribedAt(init, ids);
      forall i: nat | i < last ensures i in at <==> roster[i].id in ids {
        assert roster[i] == init[i];
      }
      assert Picked(roster, at) == Picked(init, at);
      if roster[last].id in ids {
        assert Picked(roster, at + [last]) == Picked(roster, at) + [roster[last]];
        at := at + [last];
      }
    }
  }

  lemma CandidatesAt(p: Policy, roster: seq<Session>) returns (at: seq<nat>)
    ensures Positions(roster, at) && Eligible(p, roster, at) && Picked(roster, at) == Candidates(p, roster)
  {
    if p.mode.Manual? {
      at := SubscribedAt(roster, set id | id in p.subscribed);
    } else {
      at := seq(|roster|, i requires 0 <= i < |roster| => i);
      forall i: nat | i < |roster| ensures i in at {
        assert at[i] == i;
      }
    }
  }

  /** How many processes a policy allows: eight unless it says otherwise, and none for a negative number. */
  ghost predicate Allows(p: Policy, limit: nat) {
    match p.maxGhosts
    case None => limit == 8
    case Some(n) => if n <= 0 then limit == 0 else limit == n
  }

  /** The first was not used before the second; one that was never used was used at the zero time. */
  predicate NotBefore(used: map<Id, Time>, a: Session, b: Session) {
    b.id in used ==> used[b.id] == 0 || (a.id in used && used[a.id] >= used[b.id])
  }

  /** From the most recently used to the least, and in the order of the roster among equals. */
  ghost predicate ByRecency(used: map<Id, Time>, sorted: seq<Session>, roster: seq<Session>) {
    && (forall i, j :: 0 <= i < j < |sorted| ==> NotBefore(used, sorted[i], sorted[j]))
    && forall t :: WithKey(sorted, Recency(used), t) == WithKey(roster, Recency(used), t)
  }

  /** The eligible of the roster are kept or evicted, as many kept as are allowed, and nobody evicted was
      used after anybody kept; within the limit they keep the order of the roster, beyond it they are
      ordered by last use. */
  ghost predicate Selects(p: Policy, roster: seq<Session>, used: map<Id, Time>, at: seq<nat>, kept: seq<Session>,
                          evicted: seq<Session>) {
    && Positions(roster, at) && Eligible(p, roster, at)
    && multiset(kept) + multiset(evicted) == multiset(Picked(roster, at))
    && (forall limit :: Allows(p, limit) ==> |kept| == if |at| < limit then |at| else limit)
    && (forall k, e :: k in kept && e in evicted ==> NotBefore(used, k, e))
    && (if evicted == [] then kept == Picked(roster, at) else ByRecency(used, kept + evicted, Picked(roster, at)))
  }

  lemma SelectionOf(candidates: seq<Session>, used: map<Id, Time>, cap: nat)
      returns (kept: seq<Session>, evicted: seq<Session>)
    ensures kept == Selected(candidates, used, cap) && |kept| == if |candidates| < cap then |candidates| else cap
    ensures multiset(kept) + multiset(evicted) == multiset(candidates)
    ensures forall k, e :: k in kept && e in evicted ==> NotBefore(used, k, e)
    ensures if evicted == [] then kept == candidates else ByRecency(used, kept + evicted, candidates)
  {
    kept, evicted := Selected(candidates, used, cap), [];
    if |candidates| > cap {
      SortIsStable(candidates, Recency(used));
      var sorted := Sort(candidates, Recency(used));
      evicted := sorted[cap..];
      assert sorted == kept + evicted;
      assert multiset(sorted) == multiset(kept) + multiset(evicted);
      forall i, j | 0 <= i < j < |sorted| ensures NotBefore(used, sorted[i], sorted[j]) {
        assert Recency(used)(sorted[i]) <= Recency(used)(sorted[j]);
      }
      forall k, e | k in kept && e in evicted ensures NotBefore(used, k, e) {
        var i :| 0 <= i < cap && sorted[i] == k;
        var j :| 0 <= j < |evicted| && evicted[j] == e;
        assert sorted[cap + j] == e;
      }
    }
  }

  /** What is wanted once connected and not off: the workspace's own name and those of the sessions kept,
      each standing for the last session that has it, where the selection is that of the most recently
      used of the eligible sessions. */
  lemma WantedExactly(p: Policy, workspace: Name, roster: seq<Session>, used: map<Id, Time>)
      returns (at: seq<nat>, kept: seq<Session>, evicted: seq<Session>)
    requires !p.mode.Off?
    ensures Selects(p, roster, used, at, kept, evicted)
    ensures var want := Wanted(true, p, workspace, roster, used);
            && (forall n :: n in want <==> n == workspace || Named(kept, n))
            && (forall n :: n in want ==> StandsFor(workspace, kept, n, want[n]))
  {
    at := CandidatesAt(p, roster);
    kept, evicted := SelectionOf(Candidates(p, roster), used, Cap(p));
    assert forall limit :: Allows(p, limit) ==> limit == Cap(p);
    PeersAre(workspace, kept);
  }

  // ---------- The supervisor, as reconciling sees it ----------

  /** A supervised peer: its number tells one started anew from one that kept running. */
  type PeerState = nat

  /** The peers of some names. */
  function PeersOf(wanted: map<Name, PeerState>, names: set<Name>): set<PeerState> {
    set n | n in names && n in wanted :: wanted[n]
  }

  /** The names a release loop has dealt with and let go. */
  function LetGo(running: set<Name>, todo: set<Name>, names: set<Name>): set<Name> {
    (running - todo) - names
  }

  lemma OneMoreLetGo(wanted: map<Name, PeerState>, running: set<Name>, todo: set<Name>, names: set<Name>, name: Name)
    requires name in todo && todo <= running
    ensures name in names ==> LetGo(running, todo - {name}, names) == LetGo(running, todo, names)
    ensures name !in names ==>
              var gone := LetGo(running, todo, names);
              && name !in gone && LetGo(running, todo - {name}, names) == gone + {name}
              && wanted - (gone + {name}) == (wanted - gone) - {name}
              && PeersOf(wanted, gone + {name}) == PeersOf(wanted, gone) + PeersOf(wanted - gone, {name})
  {
  }

  class Supervisor {
    var wanted: map<Name, PeerState>
    var started: nat
    var ended: set<PeerState>      // those that were stopped and waited for
    var closed: bool

    ghost predicate Valid()
      reads this
    {
      && (forall n :: n in wanted ==> wanted[n] < started && (wanted[n] in ended <==> closed))
      && (forall m, n :: m in wanted && n in wanted && wanted[m] == wanted[n] ==> m == n)
      && (forall p :: p in ended ==> p < started)
    }

    constructor ()
      ensures Valid() && wanted == map[] && ended == {} && !closed
    {
      wanted := map[];
      ended := {};
      started := 0;
      closed := false;
    }

    /** Fails only when the supervisor is closed; a peer that is there already is not touched. */
    method Ensure(name: Name) returns (ok: bool)
      requires Valid()
      modifies this
      ensures Valid() && ok == !old(closed) && closed == old(closed) && ended == old(ended)
      ensures wanted.Keys == if ok then old(wanted).Keys + {name} else old(wanted).Keys
      ensures forall n :: n in old(wanted) ==> wanted[n] == old(wanted)[n]
    {
      if closed { return false; }
      if name in wanted { return true; }
      wanted := wanted[name := started];
      started := started + 1;
      return true;
    }

    /** Takes out this peer and no other, and returns when its process is gone. */
    method Release(name: Name)
      requires Valid()
      modifies this
      ensures Valid() && wanted == old(wanted) - {name} && closed == old(closed)
      ensures ended == old(ended) + PeersOf(old(wanted), {name})
    {
      if name in wanted {
        ended := ended + {wanted[name]};
        wanted := wanted - {name};
      }
    }

    /** Stops every peer and returns when all have ended; a second call does nothing. The names stay. */
    method Close()
      requires Valid()
      modifies this
      ensures Valid() && closed && wanted == old(wanted)
      ensures ended == if old(closed) then old(ended) else old(ended) + PeersOf(wanted, wanted.Keys)
    {
      if closed { return; }
      closed := true;
      ended := ended + PeersOf(wanted, wanted.Keys);
    }
  }

  class Daemon {
    var policy: Policy
    var workspace: Name
    var lastUsed: map<Id, Time>
    var degraded: bool
    var peers: map<Name, Option<Id>>

    constructor (p: Policy, w: Name)
      ensures policy == p && workspace == w && lastUsed == map[] && !degraded && peers == map[]
    {
      policy := p;
      workspace := w;
      lastUsed := map[];
      degraded := false;
      peers := map[];
    }

    /** The switch on the mode inside `wanted`. */
    method CandidatesOf(roster: seq<Session>) returns (candidates: seq<Session>)
      ensures candidates == Candidates(policy, roster)
    {
      candidates := [];
      if policy.mode.Manual? {
        var subscribed := set id | id in policy.subscribed;
        for i := 0 to |roster|
          invariant candidates == SubscribedOf(roster[..i], subscribed)
        {
          assert roster[..i + 1][..i] == roster[..i];
          if roster[i].id in subscribed {
            candidates := candidates + [roster[i]];
          }
        }
        assert roster[..|roster|] == roster;
      } else {
        candidates := candidates + roster;
      }
    }

    /** `wanted`, with what the transport reports as parameters. */
    method Want(everConnected: bool, roster: seq<Session>) returns (want: map<Name, Option<Id>>)
      ensures want == Wanted(everConnected, policy, workspace, roster, lastUsed)
    {
      want := map[];
      if !everConnected || policy.mode.Off? {
        return;
      }
      want := want[workspace := None];
      var candidates := CandidatesOf(roster);
      if |candidates| > Cap(policy) {
        candidates := SortedTake(candidates, lastUsed, Cap(policy));
      }
      for i := 0 to |candidates|
        invariant want == Peers(workspace, candidates[..i])
      {
        assert candidates[..i + 1][..i] == candidates[..i];
        want := want[candidates[i].name := Some(candidates[i].id)];
      }
      assert candidates[..|candidates|] == candidates;
    }

    /** The first half of `reconcile`: start what is missing. */
    method StartMissing(sup: Supervisor, names: set<Name>, running: set<Name>)
      requires sup.Valid() && running == sup.wanted.Keys
      modifies sup
      ensures sup.Valid() && sup.closed == old(sup.closed) && sup.ended == old(sup.ended)
      ensures sup.wanted.Keys == if sup.closed then running else running + names
      ensures forall n :: n in old(sup.wanted) ==> sup.wanted[n] == old(sup.wanted)[n]
    {
      var todo := names;
      while todo != {}
        invariant sup.Valid() && todo <= names && sup.closed == old(sup.closed) && sup.ended == old(sup.ended)
        invariant sup.wanted.Keys == if sup.closed then running else running + (names - todo)
        invariant forall n :: n in old(sup.wanted) ==> sup.wanted[n] == old(sup.wanted)[n]
        decreases todo
      {
        var name :| name in todo;
        if name !in running {
          var ok := sup.Ensure(name);
        }
        todo := todo - {name};
      }
    }

    /** The second half: release what ran and is not wanted. */
    method ReleaseOthers(sup: Supervisor, names: set<Name>, running: set<Name>)
      requires sup.Valid()
      modifies sup
      ensures sup.Valid() && sup.closed == old(sup.closed)
      ensures sup.wanted == old(sup.wanted) - (running - names)
      ensures sup.ended == old(sup.ended) + PeersOf(old(sup.wanted), running - names)
    {
      ghost var was, over := sup.wanted, sup.ended;
      var todo := running;
      while todo != {}
        invariant sup.Valid() && todo <= running && sup.closed == old(sup.closed)
        invariant sup.wanted == was - LetGo(running, todo, names)
        invariant sup.ended == over + PeersOf(was, LetGo(running, todo, names))
        decreases todo
      {
        var name :| name in todo;
        OneMoreLetGo(was, running, todo, names, name);
        if name !in names {
          sup.Release(name);
        }
        todo := todo - {name};
      }
    }

    /** Afterwards the supervised names are exactly the wanted ones, if the supervisor is open or ran
        them all already; a peer that was wanted before and still is was not restarted, and exactly
        those that ran and are not wanted have ended. A degraded daemon changes nothing. */
    method Reconcile(sup: Supervisor, everConnected: bool, roster: seq<Session>)
      requires sup.Valid()
      modifies this`peers, sup
      ensures sup.Valid()
      ensures degraded ==> peers == old(peers) && sup.wanted == old(sup.wanted) && sup.ended == old(sup.ended)
      ensures !degraded ==> peers == Wanted(everConnected, policy, workspace, roster, lastUsed)
      ensures !degraded ==> (sup.wanted.Keys == peers.Keys <==> !old(sup.closed) || peers.Keys <= old(sup.wanted).Keys)
      ensures !degraded && old(sup.closed) ==> sup.wanted.Keys == peers.Keys * old(sup.wanted).Keys
      ensures !degraded ==> forall n :: n in old(sup.wanted) && n in peers ==>
                n in sup.wanted && sup.wanted[n] == old(sup.wanted)[n]
      ensures !degraded ==> sup.ended == old(sup.ended) + PeersOf(old(sup.wanted), old(sup.wanted).Keys - peers.Keys)
    {
      if degraded { return; }
      var want := Want(everConnected, roster);
      var running := sup.wanted.Keys;
      StartMissing(sup, want.Keys, running);
      ReleaseOthers(sup, want.Keys, running);
      peers := want;
    }
  }
}
