/**
 What each step of the hold gate does to the messages, said by identifiers and order alone; the store's
 own methods take those steps; and a delivered message is one that somebody asked for.
 */
module HeldSteps {
  import opened Options
  import opened Held
  import opened HeldFates

  /** The item is the first one held under the identifier, with these before and after it. */
  ghost predicate FirstUnder(items: seq<Item>, id: ItemId, before: seq<Item>, item: Item, after: seq<Item>) {
    items == before + [item] + after && item.id == id && !HasId(before, id)
  }

  /** Nothing but the fate of one message changes. */
  ghost predicate OnlyFate(s: State, t: State, m: Msg, f: Fate) {
    && m in t.fate && t.fate[m] == f
    && t.fate - {m} == s.fate - {m}
    && t.dropped == s.dropped && t.added == s.added
  }

  lemma SplitAtFirst(items: seq<Item>, id: ItemId) returns (before: seq<Item>, item: Item, after: seq<Item>)
    requires HasId(items, id)
    ensures var k := Find(items, id);
            k < |items| && before == items[..k] && item == items[k] && after == items[k + 1..]
    ensures FirstUnder(items, id, before, item, after) && Without(items, Find(items, id)) == before + after
  {
    var k := Find(items, id);
    before, item, after := items[..k], items[k], items[k + 1..];
  }

  /** An approval takes the first message held under the identifier asked for, into the hand of the one
      who asked; the others stay as they are, in their order. Without one nothing changes. */
  lemma ApproveExactly(s: State, t: ThreadId, id: ItemId)
      returns (before: seq<Item>, item: Item, after: seq<Item>)
    requires Enabled(s, Approve(t, id))
    ensures !HasId(s.items, id) ==> Do(s, Approve(t, id)) == s
    ensures HasId(s.items, id) ==>
              var next := Do(s, Approve(t, id));
              && FirstUnder(s.items, id, before, item, after) && next.items == before + after
              && next.inHand == s.inHand[t := item.msg] && OnlyFate(s, next, item.msg, InHand(t))
  {
    before, item, after := [], Item(id, 0, 0), [];
    if HasId(s.items, id) {
      before, item, after := SplitAtFirst(s.items, id);
    }
  }

  /** A discard takes the first message held under the identifier out for good. */
  lemma DiscardExactly(s: State, id: ItemId) returns (before: seq<Item>, item: Item, after: seq<Item>)
    ensures !HasId(s.items, id) ==> Do(s, Discard(id)) == s
    ensures HasId(s.items, id) ==>
              var next := Do(s, Discard(id));
              && FirstUnder(s.items, id, before, item, after) && next.items == before + after
              && next.inHand == s.inHand && OnlyFate(s, next, item.msg, Discarded)
  {
    before, item, after := [], Item(id, 0, 0), [];
    if HasId(s.items, id) {
      before, item, after := SplitAtFirst(s.items, id);
    }
  }

  /** The new item is last, the newest 200 are held, and those that gave way are counted and dropped. */
  ghost predicate Adds(s: State, item: Item, t: State, gone: seq<Item>) {
    && s.items + [item] == gone + t.items
    && |t.items| <= HELD_LIMIT && (gone != [] ==> |t.items| == HELD_LIMIT)
    && t.dropped == s.dropped + |gone| && t.added == s.added + [item]
    && t.fate.Keys == s.fate.Keys + {item.msg}
    && (forall m :: m in MsgsOf(gone) && m in t.fate ==> t.fate[m] == Dropped)
    && (item.msg !in MsgsOf(gone) ==> t.fate[item.msg] == Held)
    && (forall m :: m in s.fate && m != item.msg && m !in MsgsOf(gone) ==> t.fate[m] == s.fate[m])
  }

  lemma AddExactly(s: State, item: Item) returns (gone: seq<Item>)
    ensures Adds(s, item, Add(s, item), gone) && Add(s, item).inHand == s.inHand
  {
    var all := s.items + [item];
    gone := all[..Overflow(all)];
  }

  /** An arrival is held under its identifier and its time. */
  lemma ArriveExactly(s: State, msg: Msg, id: ItemId, at: int) returns (gone: seq<Item>)
    requires Enabled(s, Arrive(msg, id, at))
    ensures var next := Do(s, Arrive(msg, id, at));
            Adds(s, Item(id, at, msg), next, gone) && next.inHand == s.inHand
  {
    gone := AddExactly(s, Item(id, at, msg));
  }

  /** A delivery that fails puts the very message back, last and under its new identifier; one that
      succeeds ends it. Only this hand lets go. */
  lemma DeliveryExactly(s: State, t: ThreadId, id: ItemId, at: int) returns (gone: seq<Item>)
    requires t in s.inHand
    ensures var next := Do(s, DeliveryFails(t, id, at));
            Adds(s, Item(id, at, s.inHand[t]), next, gone) && next.inHand == s.inHand - {t}
    ensures var next := Do(s, DeliveryOk(t));
            next.items == s.items && next.inHand == s.inHand - {t} && OnlyFate(s, next, s.inHand[t], Delivered)
  {
    gone := AddExactly(s.(inHand := s.inHand - {t}), Item(id, at, s.inHand[t]));
  }

  /** A restart keeps what is held and lets every hand go. */
  lemma RestartExactly(s: State)
    requires Inv(s)
    ensures var next := Do(s, Restart);
            && next.items == s.items && next.dropped == s.dropped && next.added == s.added && next.inHand == map[]
            && next.fate.Keys == s.fate.Keys
            && forall m :: m in s.fate ==> next.fate[m] == if m in s.inHand.Values then Cut else s.fate[m]
  {
    forall m | m in s.fate ensures m in s.inHand.Values <==> s.fate[m].InHand? {
      assert s.fate[m].InHand? ==> s.inHand[s.fate[m].t] == m;
      if m in s.inHand.Values {
        var t :| t in s.inHand && s.inHand[t] == m;
        assert s.fate[s.inHand[t]] == InHand(t);
      }
    }
  }

  // ---------- The store takes these steps ----------

  ghost predicate Holds(items: seq<Item>, dropped: nat, s: State) {
    items == s.items && dropped == s.dropped
  }

  /** The state after an approval, with the delivery that follows when something was found. */
  ghost function Approved(s: State, t: ThreadId, id: ItemId, delivers: bool, newId: ItemId, at: int): State
    requires Enabled(s, Approve(t, id))
  {
    var taken := Do(s, Approve(t, id));
    if !HasId(s.items, id) then taken
    else if delivers then Do(taken, DeliveryOk(t))
    else Do(taken, DeliveryFails(t, newId, at))
  }

  lemma ApprovedHolds(s: State, t: ThreadId, id: ItemId, delivers: bool, newId: ItemId, at: int)
    requires Enabled(s, Approve(t, id))
    ensures var k, r := Find(s.items, id), Approved(s, t, id, delivers, newId, at);
            if k == |s.items| then Holds(s.items, s.dropped, r)
            else if delivers then Holds(Without(s.items, k), s.dropped, r)
            else
              var all := Without(s.items, k) + [Item(newId, at, s.items[k].msg)];
              Holds(all[Overflow(all)..], s.dropped + Overflow(all), r)
  {
    if HasId(s.items, id) {
      var before, item, after := SplitAtFirst(s.items, id);
    }
  }

  /** `approveByID`: what was found under the identifier is taken, delivered, and put back if that fails. */
  method ApproveById(store: HeldStore, id: ItemId, delivers: bool, newId: ItemId, at: int, ghost s: State,
                     ghost t: ThreadId)
    returns (found: bool)
    requires Holds(store.items, store.dropped, s) && t !in s.inHand
    modifies store
    ensures found <==> HasId(s.items, id)
    ensures Holds(store.items, store.dropped, Approved(s, t, id, delivers, newId, at))
  {
    ApprovedHolds(s, t, id, delivers, newId, at);
    var taken := store.Take(id);
    if taken.None? {
      return false;
    }
    if !delivers {
      store.Add(Item(newId, at, taken.value.msg));
    }
    return true;
  }

  /** Withholding a message is an arrival, taking one to discard it a discard. */
  method Withhold(store: HeldStore, id: ItemId, at: int, msg: Msg, ghost s: State)
    requires Holds(store.items, store.dropped, s) && msg !in s.fate
    modifies store
    ensures Holds(store.items, store.dropped, Do(s, Arrive(msg, id, at)))
  {
    store.Add(Item(id, at, msg));
  }

  method DiscardById(store: HeldStore, id: ItemId, ghost s: State) returns (found: bool)
    requires Holds(store.items, store.dropped, s)
    modifies store
    ensures found <==> HasId(s.items, id)
    ensures Holds(store.items, store.dropped, Do(s, Discard(id)))
  {
    var taken := store.Take(id);
    found := taken.Some?;
  }

  // ---------- Whole runs ----------

  /** The step is an approval that took the message from under the identifier it names. */
  ghost predicate TookUnder(s: State, step: Step, t: ThreadId, m: Msg) {
    && step.Approve? && step.t == t
    && exists before, item, after :: FirstUnder(s.items, step.id, before, item, after) && item.msg == m
  }

  lemma HandsChange(s: State, step: Step, t: ThreadId, m: Msg)
    requires Inv(s) && Enabled(s, step) && t in Do(s, step).inHand && Do(s, step).inHand[t] == m
    ensures (t in s.inHand && s.inHand[t] == m) || TookUnder(s, step, t, m)
  {
    if step.Approve? && step.t == t {
      var before, item, after := ApproveExactly(s, t, step.id);
    }
  }

  lemma {:induction false} TakenWhen(states: seq<State>, steps: seq<Step>, j: nat, t: ThreadId, m: Msg) returns (i: nat)
    requires IsRun(states, steps) && j < |states| && t in states[j].inHand && states[j].inHand[t] == m
    ensures i < j && TookUnder(states[i], steps[i], t, m)
    ensures forall k :: i < k <= j ==> t in states[k].inHand && states[k].inHand[t] == m
    decreases j
  {
    RunKeepsInv(states, steps, j - 1);
    HandsChange(states[j - 1], steps[j - 1], t, m);
    if t in states[j - 1].inHand && states[j - 1].inHand[t] == m {
      i := TakenWhen(states, steps, j - 1, t, m);
    } else {
      i := j - 1;
    }
  }

  /** A message that was delivered had been taken by an approval naming an identifier it was held under,
      and was in that hand until its delivery succeeded: nothing is delivered unasked. */
  lemma DeliveredWasAskedFor(states: seq<State>, steps: seq<Step>, j: nat, m: Msg)
      returns (i: nat, k: nat, t: ThreadId)
    requires IsRun(states, steps) && j < |states| && m in states[j].fate && states[j].fate[m] == Delivered
    ensures i < k < j && TookUnder(states[i], steps[i], t, m) && steps[k] == DeliveryOk(t)
    ensures forall n :: i < n <= k ==> t in states[n].inHand && states[n].inHand[t] == m
  {
    EndsExactly(states, steps, j, m, ByDelivery);
    k :| 0 <= k < j && Ends(ByDelivery, states[k], steps[k], m);
    t := steps[k].t;
    i := TakenWhen(states, steps, k, t, m);
  }
}
