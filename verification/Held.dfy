/**
 The hold gate: the store of withheld messages as the object it is, and the runs of arrivals,
 approvals, discards and restarts around it.
 */
module Held {
  import opened Options
  import opened StableSort

  type ItemId = nat
  type Msg = nat

  const HELD_LIMIT := 200

  datatype Item = Item(id: ItemId, at: int, msg: Msg)

  function AtOf(item: Item): int { item.at }

  function Overflow(items: seq<Item>): nat {
    if |items| > HELD_LIMIT then |items| - HELD_LIMIT else 0
  }

  ghost predicate HasId(items: seq<Item>, id: ItemId) {
    exists i :: 0 <= i < |items| && items[i].id == id
  }

  /** The first position of an id, or the length when nothing has it. */
  function Find(items: seq<Item>, id: ItemId): (k: nat)
    ensures k <= |items| && (k < |items| ==> items[k].id == id)
    ensures forall i :: 0 <= i < k ==> items[i].id != id
  {
    if items == [] || items[0].id == id then 0 else 1 + Find(items[1..], id)
  }

  function Without(items: seq<Item>, k: nat): seq<Item>
    requires k < |items|
  {
    items[..k] + items[k + 1..]
  }

  // ---------- The store ----------

  class HeldStore {
    var items: seq<Item>
    var dropped: nat

    constructor (stored: seq<Item>, count: nat)
      ensures items == stored && dropped == count
    {
      items := stored;
      dropped := count;
    }

    /** Keeps the newest 200 with the new one last, and counts the rest. */
    method Add(item: Item)
      modifies this
      ensures |items| <= HELD_LIMIT && items != [] && items[|items| - 1] == item
      ensures exists gone :: old(items) + [item] == gone + items && dropped == old(dropped) + |gone|
                          && (gone != [] ==> |items| == HELD_LIMIT)
      ensures var all := old(items) + [item]; items == all[Overflow(all)..] && dropped == old(dropped) + Overflow(all)
    {
      ghost var all := items + [item];
      items := items + [item];
      if |items| > HELD_LIMIT {
        dropped := dropped + (|items| - HELD_LIMIT);
        items := items[|items| - HELD_LIMIT..];
      }
      assert all == all[..Overflow(all)] + items;
    }

    /** Removes the first item with the id and returns it; with no such item nothing changes. */
    method Take(id: ItemId) returns (taken: Option<Item>)
      modifies this`items
      ensures taken.None? <==> !HasId(old(items), id)
      ensures taken.None? ==> items == old(items)
      ensures taken.Some? ==> exists before, after ::
                old(items) == before + [taken.value] + after && items == before + after
                && taken.value.id == id && !HasId(before, id)
      ensures var k := Find(old(items), id);
              if k < |old(items)| then taken == Some(old(items)[k]) && items == Without(old(items), k)
                else taken == None
    {
      var i := 0;
      while i < |items|
        invariant i <= |items| && items == old(items)
        invariant forall j :: 0 <= j < i ==> items[j].id != id
      {
        if items[i].id == id {
          taken := Some(items[i]);
          assert items == items[..i] + [items[i]] + items[i + 1..];
          items := items[..i] + items[i + 1..];
          return;
        }
        i := i + 1;
      }
      taken := None;
    }

    /** What waits, oldest first; those with one time keep the order they were added in. */
    method List() returns (waiting: seq<Item>, lost: nat)
      ensures waiting == Sort(items, AtOf) && lost == dropped
      ensures Sorted(waiting, AtOf) && multiset(waiting) == multiset(items)
      ensures forall at :: WithKey(waiting, AtOf, at) == WithKey(items, AtOf, at)
    {
      SortIsStable(items, AtOf);
      waiting := Sort(items, AtOf);
      lost := dropped;
    }
  }

  // ---------- Runs ----------

  type ThreadId = nat

  /** What became of a message the gate withheld; `Cut` was in hand when the daemon stopped. */
  datatype Fate = Held | InHand(t: ThreadId) | Delivered | Discarded | Dropped | Cut

  /** `inHand` are the messages taken out and being delivered, `added` every item ever added, in
      order. */
  datatype State = State(items: seq<Item>, dropped: nat, inHand: map<ThreadId, Msg>,
                         fate: map<Msg, Fate>, added: seq<Item>)

  const INITIAL := State([], 0, map[], map[], [])

  datatype Step =
    | Arrive(msg: Msg, id: ItemId, at: int)
    | Approve(t: ThreadId, id: ItemId)
    | DeliveryOk(t: ThreadId)
    | DeliveryFails(t: ThreadId, id: ItemId, at: int)    // put back under a new id
    | Discard(id: ItemId)
    | Restart

  predicate Enabled(s: State, step: Step) {
    match step
    case Arrive(msg, _, _) => msg !in s.fate
    case Approve(t, _) => t !in s.inHand
    case DeliveryOk(t) => t in s.inHand
    case DeliveryFails(t, _, _) => t in s.inHand
    case _ => true
  }

  function MsgsOf(items: seq<Item>): set<Msg> {
    set i | 0 <= i < |items| :: items[i].msg
  }

  function Add(s: State, item: Item): State {
    var all := s.items + [item];
    var over := Overflow(all);
    var gone := MsgsOf(all[..over]);
    s.(items := all[over..], dropped := s.dropped + over, added := s.added + [item],
       fate := map m | m in s.fate.Keys + {item.msg} ::
                 if m in gone then Dropped else if m == item.msg then Held else s.fate[m])
  }

  function Do(s: State, step: Step): State
    requires Enabled(s, step)
  {
    match step
    case Arrive(msg, id, at) => Add(s, Item(id, at, msg))
    case Approve(t, id) =>
      var k := Find(s.items, id);
      if k == |s.items| then s
      else s.(items := Without(s.items, k), inHand := s.inHand[t := s.items[k].msg],
              fate := s.fate[s.items[k].msg := InHand(t)])
    case DeliveryOk(t) => s.(inHand := s.inHand - {t}, fate := s.fate[s.inHand[t] := Delivered])
    case DeliveryFails(t, id, at) => Add(s.(inHand := s.inHand - {t}), Item(id, at, s.inHand[t]))
    case Discard(id) =>
      var k := Find(s.items, id);
      if k == |s.items| then s
      else s.(items := Without(s.items, k), fate := s.fate[s.items[k].msg := Discarded])
    case Restart =>
      s.(inHand := map[], fate := map m | m in s.fate :: if s.fate[m].InHand? then Cut else s.fate[m])
  }

  // ---------- What every step keeps ----------

  ghost predicate DistinctMsgs(items: seq<Item>) {
    forall i, j :: 0 <= i < j < |items| ==> items[i].msg != items[j].msg
  }

  /** What is left of a list after some elements are taken out, the order kept. */
  ghost predicate Subsequence(part: seq<Item>, whole: seq<Item>) {
    || part == []
    || (whole != [] && (
          || (part[|part| - 1] == whole[|whole| - 1] && Subsequence(part[..|part| - 1], whole[..|whole| - 1]))
          || Subsequence(part, whole[..|whole| - 1])))
  }

  function WithFate(fate: map<Msg, Fate>, f: Fate): set<Msg> {
    set m | m in fate && fate[m] == f
  }

  /** The messages held, the hands and the counter are what the fates say. */
  ghost predicate FatesOk(held: set<Msg>, inHand: map<ThreadId, Msg>, fate: map<Msg, Fate>, dropped: nat) {
    && (forall m :: m in held <==> m in fate && fate[m] == Held)
    && (forall t :: t in inHand ==> inHand[t] in fate && fate[inHand[t]] == InHand(t))
    && (forall m :: m in fate && fate[m].InHand? ==> fate[m].t in inHand && inHand[fate[m].t] == m)
    && dropped == |WithFate(fate, Dropped)|
  }

  ghost predicate Sound(items: seq<Item>, inHand: map<ThreadId, Msg>, fate: map<Msg, Fate>, dropped: nat) {
    DistinctMsgs(items) && |items| <= HELD_LIMIT && FatesOk(MsgsOf(items), inHand, fate, dropped)
  }

  ghost predicate Inv(s: State) {
    Sound(s.items, s.inHand, s.fate, s.dropped) && Subsequence(s.items, s.added)
  }

  lemma {:induction false} SuffixIsSubsequence(part: seq<Item>, whole: seq<Item>, k: nat)
    requires Subsequence(part, whole) && k <= |part|
    ensures Subsequence(part[k..], whole)
    decreases |whole|
  {
    if k < |part| {
      var init := part[..|part| - 1];
      if part[|part| - 1] == whole[|whole| - 1] && Subsequence(init, whole[..|whole| - 1]) {
        SuffixIsSubsequence(init, whole[..|whole| - 1], k);
        assert part[k..][..|part| - k - 1] == init[k..];
      } else {
        SuffixIsSubsequence(part, whole[..|whole| - 1], k);
      }
    }
  }

  lemma SubsequenceGrows(part: seq<Item>, whole: seq<Item>, x: Item)
    requires Subsequence(part, whole)
    ensures Subsequence(part, whole + [x])
    ensures Subsequence(part + [x], whole + [x])
  {
    assert (whole + [x])[..|whole|] == whole;
    assert (part + [x])[..|part|] == part;
  }

  lemma {:induction false} WithoutIsSubsequence(part: seq<Item>, whole: seq<Item>, k: nat)
    requires Subsequence(part, whole) && k < |part|
    ensures Subsequence(Without(part, k), whole)
    decreases |whole|
  {
    var init := part[..|part| - 1];
    var rest := whole[..|whole| - 1];
    if part[|part| - 1] == whole[|whole| - 1] && Subsequence(init, rest) {
      assert whole == rest + [whole[|whole| - 1]];
      if k == |part| - 1 {
        assert Without(part, k) == init;
        SubsequenceGrows(init, rest, whole[|whole| - 1]);
      } else {
        WithoutIsSubsequence(init, rest, k);
        assert Without(part, k) == Without(init, k) + [part[|part| - 1]];
        SubsequenceGrows(Without(init, k), rest, whole[|whole| - 1]);
      }
    } else {
      WithoutIsSubsequence(part, rest, k);
      assert whole == rest + [whole[|whole| - 1]];
      SubsequenceGrows(Without(part, k), rest, whole[|whole| - 1]);
    }
  }

  lemma LastMsg(items: seq<Item>, x: Item)
    ensures MsgsOf(items + [x]) == MsgsOf(items) + {x.msg}
    ensures (forall i :: 0 <= i < |items| ==> items[i].msg != x.msg) <==> x.msg !in MsgsOf(items)
  {
    var all := items + [x];
    assert all[|items|] == x;
    forall i | 0 <= i < |items| ensures items[i].msg in MsgsOf(all) {
      assert all[i] == items[i];
    }
  }

  lemma {:induction false} MsgCount(items: seq<Item>)
    requires DistinctMsgs(items)
    ensures |MsgsOf(items)| == |items|
  {
    if items == [] {
      assert MsgsOf(items) == {};
    } else {
      var init := items[..|items| - 1];
      MsgCount(init);
      assert items == init + [items[|items| - 1]];
      LastMsg(init, items[|items| - 1]);
    }
  }

  lemma SplitMsgs(a: seq<Item>, b: seq<Item>)
    requires DistinctMsgs(a + b)
    ensures MsgsOf(a + b) == MsgsOf(a) + MsgsOf(b) && MsgsOf(a) !! MsgsOf(b)
    ensures DistinctMsgs(a) && DistinctMsgs(b)
  {
    forall i | 0 <= i < |a| ensures a[i].msg in MsgsOf(a + b) { assert (a + b)[i] == a[i]; }
    forall j | 0 <= j < |b| ensures b[j].msg in MsgsOf(a + b) { assert (a + b)[|a| + j] == b[j]; }
    forall i, j | 0 <= i < |a| && 0 <= j < |b| ensures a[i].msg != b[j].msg {
      assert (a + b)[i] == a[i] && (a + b)[|a| + j] == b[j];
    }
    forall i, j | 0 <= i < j < |b| ensures b[i].msg != b[j].msg {
      assert (a + b)[|a| + i] == b[i] && (a + b)[|a| + j] == b[j];
    }
    forall i, j | 0 <= i < j < |a| ensures a[i].msg != a[j].msg {
      assert (a + b)[i] == a[i] && (a + b)[j] == a[j];
    }
  }

  lemma AddedMsgs(items: seq<Item>, item: Item)
    requires DistinctMsgs(items) && item.msg !in MsgsOf(items)
    ensures var all := items + [item];
            var over := Overflow(all);
            && (forall x :: x in MsgsOf(items) || x == item.msg <==>
                 x in MsgsOf(all[..over]) || x in MsgsOf(all[over..]))
            && (forall x :: x in MsgsOf(all[..over]) ==> x !in MsgsOf(all[over..]))
            && DistinctMsgs(all[over..]) && |MsgsOf(all[..over])| == over
  {
    var all := items + [item];
    var over := Overflow(all);
    LastMsg(items, item);
    assert DistinctMsgs(all);
    assert all == all[..over] + all[over..];
    SplitMsgs(all[..over], all[over..]);
    MsgCount(all[..over]);
    assert forall x :: x in MsgsOf(all) <==> x in MsgsOf(all[..over]) || x in MsgsOf(all[over..]);
  }

  lemma TakeOut(items: seq<Item>, k: nat)
    requires DistinctMsgs(items) && k < |items|
    ensures DistinctMsgs(Without(items, k)) && MsgsOf(Without(items, k)) == MsgsOf(items) - {items[k].msg}
    ensures items[k].msg in MsgsOf(items)
  {
    var a, x, b := items[..k], [items[k]], items[k + 1..];
    assert items == (a + x) + b;
    SplitMsgs(a + x, b);
    SplitMsgs(a, x);
    assert MsgsOf(x) == {items[k].msg} by { assert x[0].msg in MsgsOf(x); }
    forall i, j | 0 <= i < j < |a + b| ensures (a + b)[i].msg != (a + b)[j].msg {
      assert (a + b)[i] == items[if i < k then i else i + 1];
      assert (a + b)[j] == items[if j < k then j else j + 1];
    }
    SplitMsgs(a, b);
  }

  /** The fates after an addition, from those of all other messages. */
  function Marked(fate: map<Msg, Fate>, m: Msg, gone: set<Msg>): map<Msg, Fate> {
    map x | x in fate.Keys + {m} :: if x in gone then Dropped else if x == m then Held else fate[x]
  }

  lemma MarkedKeepsFates(held: set<Msg>, kept: set<Msg>, gone: set<Msg>, inHand: map<ThreadId, Msg>,
                         fate: map<Msg, Fate>, dropped: nat, m: Msg)
    requires FatesOk(held, inHand, fate, dropped) && m !in fate
    requires forall x :: x in held || x == m <==> x in gone || x in kept
    requires forall x :: x in gone ==> x !in kept
    ensures FatesOk(kept, inHand, Marked(fate, m, gone), dropped + |gone|)
  {
    var after := Marked(fate, m, gone);
    var was := WithFate(fate, Dropped);
    forall x ensures x in WithFate(after, Dropped) <==> x in was || x in gone {}
    assert WithFate(after, Dropped) == was + gone;
    forall x | x in was ensures x !in gone {}
    assert |was + gone| == |was| + |gone|;
  }

  lemma AddKeepsSound(s: State, item: Item)
    requires item.msg !in MsgsOf(s.items) && Sound(s.items, s.inHand, s.fate - {item.msg}, s.dropped)
    ensures var after := Add(s, item); Sound(after.items, s.inHand, after.fate, after.dropped)
  {
    var all := s.items + [item];
    var over := Overflow(all);
    AddedMsgs(s.items, item);
    MarkedKeepsFates(MsgsOf(s.items), MsgsOf(all[over..]), MsgsOf(all[..over]), s.inHand, s.fate - {item.msg},
                     s.dropped, item.msg);
    assert Add(s, item).fate == Marked(s.fate - {item.msg}, item.msg, MsgsOf(all[..over]));
  }

  lemma AddKeepsInv(s: State, item: Item)
    requires Subsequence(s.items, s.added) && item.msg !in MsgsOf(s.items)
    requires Sound(s.items, s.inHand, s.fate - {item.msg}, s.dropped)
    ensures Inv(Add(s, item))
  {
    AddKeepsSound(s, item);
    SubsequenceGrows(s.items, s.added, item);
    SuffixIsSubsequence(s.items + [item], s.added + [item], Overflow(s.items + [item]));
  }

  lemma TakenKeepsInv(s: State, k: nat)
    requires Inv(s) && k < |s.items|
    ensures Subsequence(Without(s.items, k), s.added) && s.items[k].msg !in MsgsOf(Without(s.items, k))
    ensures Sound(Without(s.items, k), s.inHand, s.fate - {s.items[k].msg}, s.dropped)
  {
    TakeOut(s.items, k);
    WithoutIsSubsequence(s.items, s.added, k);
    assert WithFate(s.fate - {s.items[k].msg}, Dropped) == WithFate(s.fate, Dropped);
  }

  lemma LetGo(s: State, t: ThreadId)
    requires Inv(s) && t in s.inHand
    ensures Sound(s.items, s.inHand - {t}, s.fate - {s.inHand[t]}, s.dropped) && s.inHand[t] !in MsgsOf(s.items)
  {
    assert WithFate(s.fate - {s.inHand[t]}, Dropped) == WithFate(s.fate, Dropped);
  }

  /** A message that is in no place gets one again. */
  lemma Settle(held: set<Msg>, inHand: map<ThreadId, Msg>, fate: map<Msg, Fate>, dropped: nat, m: Msg, f: Fate)
    requires FatesOk(held, inHand, fate, dropped) && m !in fate
    requires f.Delivered? || f.Discarded? || (f.InHand? && f.t !in inHand)
    ensures FatesOk(held, if f.InHand? then inHand[f.t := m] else inHand, fate[m := f], dropped)
  {
    assert WithFate(fate[m := f], Dropped) == WithFate(fate, Dropped);
  }

  lemma Refated(fate: map<Msg, Fate>, m: Msg, f: Fate)
    ensures (fate - {m})[m := f] == fate[m := f]
  {
  }

  lemma RestartKeepsInv(s: State)
    requires Inv(s)
    ensures Inv(Do(s, Restart))
  {
    assert WithFate(Do(s, Restart).fate, Dropped) == WithFate(s.fate, Dropped);
  }

  lemma StepKeepsInv(s: State, step: Step)
    requires Inv(s) && Enabled(s, step)
    ensures Inv(Do(s, step))
  {
    match step
    case Arrive(msg, id, at) =>
      assert s.fate - {msg} == s.fate;
      AddKeepsInv(s, Item(id, at, msg));
    case Approve(t, id) =>
      var k := Find(s.items, id);
      if k < |s.items| {
        TakenKeepsInv(s, k);
        Settle(MsgsOf(Without(s.items, k)), s.inHand, s.fate - {s.items[k].msg}, s.dropped, s.items[k].msg, InHand(t));
        Refated(s.fate, s.items[k].msg, InHand(t));
      }
    case DeliveryOk(t) =>
      LetGo(s, t);
      Settle(MsgsOf(s.items), s.inHand - {t}, s.fate - {s.inHand[t]}, s.dropped, s.inHand[t], Delivered);
      Refated(s.fate, s.inHand[t], Delivered);
    case DeliveryFails(t, id, at) =>
      LetGo(s, t);
      AddKeepsInv(s.(inHand := s.inHand - {t}), Item(id, at, s.inHand[t]));
    case Discard(id) =>
      var k := Find(s.items, id);
      if k < |s.items| {
        TakenKeepsInv(s, k);
        Settle(MsgsOf(Without(s.items, k)), s.inHand, s.fate - {s.items[k].msg}, s.dropped, s.items[k].msg, Discarded);
        Refated(s.fate, s.items[k].msg, Discarded);
      }
    case Restart => RestartKeepsInv(s);
  }

  ghost predicate IsRun(states: seq<State>, steps: seq<Step>) {
    && |states| == |steps| + 1
    && states[0] == INITIAL
    && forall i :: 0 <= i < |steps| ==> Enabled(states[i], steps[i]) && states[i + 1] == Do(states[i], steps[i])
  }

  lemma {:induction false} RunKeepsInv(states: seq<State>, steps: seq<Step>, i: nat)
    requires IsRun(states, steps) && i < |states|
    ensures Inv(states[i])
    decreases i
  {
    if i > 0 {
      RunKeepsInv(states, steps, i - 1);
      StepKeepsInv(states[i - 1], steps[i - 1]);
    } else {
      assert MsgsOf([]) == {} && WithFate(map[], Dropped) == {};
    }
  }

  // ---------- Conservation ----------

  function InHandOf(fate: map<Msg, Fate>): set<Msg> {
    set m | m in fate && fate[m].InHand?
  }

  lemma {:induction false} HandCount(inHand: map<ThreadId, Msg>, fate: map<Msg, Fate>)
    requires forall t :: t in inHand ==> inHand[t] in fate && fate[inHand[t]] == InHand(t)
    requires forall m :: m in fate && fate[m].InHand? ==> fate[m].t in inHand && inHand[fate[m].t] == m
    ensures |InHandOf(fate)| == |inHand|
    decreases |inHand|
  {
    if inHand == map[] {
      assert InHandOf(fate) == {};
    } else {
      var t :| t in inHand;
      HandCount(inHand - {t}, fate - {inHand[t]});
      OneLessInHand(fate, inHand[t]);
    }
  }

  lemma OneLess(fate: map<Msg, Fate>, m: Msg, f: Fate)
    requires m in fate
    ensures |WithFate(fate, f)| == |WithFate(fate - {m}, f)| + if fate[m] == f then 1 else 0
  {
    assert WithFate(fate, f) == WithFate(fate - {m}, f) + if fate[m] == f then {m} else {};
  }

  lemma OneLessInHand(fate: map<Msg, Fate>, m: Msg)
    requires m in fate
    ensures |InHandOf(fate)| == |InHandOf(fate - {m})| + if fate[m].InHand? then 1 else 0
  {
    assert InHandOf(fate) == InHandOf(fate - {m}) + if fate[m].InHand? then {m} else {};
  }

  lemma {:induction false} FateCount(fate: map<Msg, Fate>)
    ensures |fate| == |WithFate(fate, Held)| + |InHandOf(fate)| + |WithFate(fate, Delivered)|
                      + |WithFate(fate, Discarded)| + |WithFate(fate, Dropped)| + |WithFate(fate, Cut)|
    decreases |fate|
  {
    if fate != map[] {
      var m :| m in fate;
      FateCount(fate - {m});
      OneLess(fate, m, Held);
      OneLess(fate, m, Delivered);
      OneLess(fate, m, Discarded);
      OneLess(fate, m, Dropped);
      OneLess(fate, m, Cut);
      OneLessInHand(fate, m);
    }
  }

  /** Conservation: the messages the gate ever withheld are those held, in hand, delivered,
      discarded, dropped and cut off by a restart, counted by the store, the hands and `dropped`
      themselves; none is in two places and none in no place. */
  lemma Conservation(states: seq<State>, steps: seq<Step>, i: nat)
    requires IsRun(states, steps) && i < |states|
    ensures var s := states[i];
            |s.fate| == |s.items| + |s.inHand| + |WithFate(s.fate, Delivered)| + |WithFate(s.fate, Discarded)|
                        + s.dropped + |WithFate(s.fate, Cut)|
    ensures var s := states[i];
            && DistinctMsgs(s.items)
            && (forall m :: m in MsgsOf(s.items) <==> m in s.fate && s.fate[m] == Held)
            && (forall m, t :: m in s.fate && s.fate[m] == InHand(t) <==> t in s.inHand && s.inHand[t] == m)
    ensures |states[i].items| <= HELD_LIMIT
  {
    RunKeepsInv(states, steps, i);
    var s := states[i];
    MsgCount(s.items);
    HandCount(s.inHand, s.fate);
    FateCount(s.fate);
    assert MsgsOf(s.items) == WithFate(s.fate, Held);
  }

  /** Whatever happens to the others, those still held are in the order they were added in. */
  lemma SurvivorsKeepOrder(states: seq<State>, steps: seq<Step>, i: nat)
    requires IsRun(states, steps) && i < |states|
    ensures Subsequence(states[i].items, states[i].added)
  {
    RunKeepsInv(states, steps, i);
  }

  /** What became of a message is final, and only a withheld message changes its fate. */
  lemma {:induction false} FateIsFinal(states: seq<State>, steps: seq<Step>, i: nat, j: nat, m: Msg)
    requires IsRun(states, steps) && i <= j < |states| && m in states[i].fate
    ensures m in states[j].fate
    ensures states[i].fate[m].Held? || states[i].fate[m].InHand? || states[j].fate[m] == states[i].fate[m]
    decreases j
  {
    if i < j {
      FateIsFinal(states, steps, i, j - 1, m);
      RunKeepsInv(states, steps, j - 1);
      StepKeepsFate(states[j - 1], steps[j - 1], m);
    }
  }

  lemma AddKeepsFate(s: State, item: Item, m: Msg)
    requires DistinctMsgs(s.items) && item.msg !in MsgsOf(s.items)
    requires m in s.fate && m !in MsgsOf(s.items) && m != item.msg
    ensures m in Add(s, item).fate && Add(s, item).fate[m] == s.fate[m]
  {
    AddedMsgs(s.items, item);
  }

  lemma StepKeepsFate(s: State, step: Step, m: Msg)
    requires Inv(s) && Enabled(s, step) && m in s.fate
    ensures m in Do(s, step).fate
    ensures s.fate[m].Held? || s.fate[m].InHand? || Do(s, step).fate[m] == s.fate[m]
  {
    if !s.fate[m].Held? && !s.fate[m].InHand? {
      match step
      case Arrive(msg, id, at) => AddKeepsFate(s, Item(id, at, msg), m);
      case DeliveryFails(t, id, at) => AddKeepsFate(s.(inHand := s.inHand - {t}), Item(id, at, s.inHand[t]), m);
      case Approve(_, id) => if Find(s.items, id) < |s.items| { TakeOut(s.items, Find(s.items, id)); }
      case Discard(id) => if Find(s.items, id) < |s.items| { TakeOut(s.items, Find(s.items, id)); }
      case _ =>
    }
  }
}
