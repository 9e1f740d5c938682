/**
 What becomes of the messages the hold gate withheld, and exactly which steps decide it: when one is
 delivered, discarded, dropped for lack of room, or cut off by a restart.
 */
module HeldFates {
  import opened Held

  /** The four ways a withheld message ends. */
  datatype End = ByDelivery | ByDiscard | ByOverflow | ByRestart

  function FateOf(end: End): Fate {
    match end
    case ByDelivery => Delivered
    case ByDiscard => Discarded
    case ByOverflow => Dropped
    case ByRestart => Cut
  }

  /** The step ends the message in that way, told by the guards of the code: its delivery succeeds; it
      is the first held under the identifier asked for; it is the oldest of a full store that takes one
      more; it is out for delivery when the daemon stops. */
  predicate Ends(end: End, s: State, step: Step, m: Msg) {
    match end
    case ByDelivery => step.DeliveryOk? && step.t in s.inHand && s.inHand[step.t] == m
    case ByDiscard =>
      step.Discard? && Find(s.items, step.id) < |s.items| && s.items[Find(s.items, step.id)].msg == m
    case ByOverflow =>
      (step.Arrive? || step.DeliveryFails?) && |s.items| == HELD_LIMIT && s.items[0].msg == m
    case ByRestart => step.Restart? && m in s.inHand.Values
  }

  // ---------- One step ----------

  /** The messages an addition drops are the oldest of a full store. */
  lemma OldestGoes(items: seq<Item>, item: Item, m: Msg)
    requires |items| <= HELD_LIMIT
    ensures var all := items + [item];
            m in MsgsOf(all[..Overflow(all)]) <==> |items| == HELD_LIMIT && items[0].msg == m
  {
    var all := items + [item];
    if |items| == HELD_LIMIT {
      assert all[..1] == [items[0]];
      assert MsgsOf([items[0]]) == {items[0].msg} by { assert [items[0]][0].msg in MsgsOf([items[0]]); }
    } else {
      assert all[..0] == [];
    }
  }

  lemma AddEnds(s: State, item: Item, m: Msg, end: End)
    requires |s.items| <= HELD_LIMIT && m in s.fate
    requires m == item.msg ==> s.fate[m] != FateOf(end)
    requires |s.items| == HELD_LIMIT ==> s.items[0].msg != item.msg
    ensures m in Add(s, item).fate
    ensures Add(s, item).fate[m] == FateOf(end) <==>
              if |s.items| == HELD_LIMIT && s.items[0].msg == m then end.ByOverflow? else s.fate[m] == FateOf(end)
  {
    OldestGoes(s.items, item, m);
  }

  lemma HeadIsHeld(s: State)
    requires Inv(s) && s.items != []
    ensures s.items[0].msg in s.fate && s.fate[s.items[0].msg] == Held
  {
    assert s.items[0].msg in MsgsOf(s.items);
  }

  lemma ArriveEnds(s: State, msg: Msg, id: ItemId, at: int, m: Msg, end: End)
    requires Inv(s) && Enabled(s, Arrive(msg, id, at)) && m in s.fate
    ensures var t := Do(s, Arrive(msg, id, at));
            m in t.fate && (t.fate[m] == FateOf(end)
              <==> s.fate[m] == FateOf(end) || Ends(end, s, Arrive(msg, id, at), m))
  {
    if s.items != [] {
      HeadIsHeld(s);
    }
    AddEnds(s, Item(id, at, msg), m, end);
  }

  lemma PutBackEnds(s: State, t: ThreadId, id: ItemId, at: int, m: Msg, end: End)
    requires Inv(s) && Enabled(s, DeliveryFails(t, id, at)) && m in s.fate
    ensures var after := Do(s, DeliveryFails(t, id, at));
            && m in after.fate
            && (after.fate[m] == FateOf(end) <==> s.fate[m] == FateOf(end) || Ends(end, s, DeliveryFails(t, id, at), m))
  {
    if s.items != [] {
      HeadIsHeld(s);
    }
    AddEnds(s.(inHand := s.inHand - {t}), Item(id, at, s.inHand[t]), m, end);
  }

  lemma RestartEnds(s: State, m: Msg, end: End)
    requires Inv(s) && m in s.fate
    ensures var t := Do(s, Restart);
            m in t.fate && (t.fate[m] == FateOf(end) <==> s.fate[m] == FateOf(end) || Ends(end, s, Restart, m))
  {
    assert s.fate[m].InHand? ==> s.inHand[s.fate[m].t] == m;
    if m in s.inHand.Values {
      var t :| t in s.inHand && s.inHand[t] == m;
      assert s.fate[s.inHand[t]] == InHand(t);
    }
  }

  lemma OtherEnds(s: State, step: Step, m: Msg, end: End)
    requires Inv(s) && Enabled(s, step) && m in s.fate
    requires step.Approve? || step.DeliveryOk? || step.Discard?
    ensures var t := Do(s, step);
            m in t.fate && (t.fate[m] == FateOf(end) <==> s.fate[m] == FateOf(end) || Ends(end, s, step, m))
  {
    match step
    case Approve(_, id) => if Find(s.items, id) < |s.items| { TakeOut(s.items, Find(s.items, id)); }
    case Discard(id) => if Find(s.items, id) < |s.items| { TakeOut(s.items, Find(s.items, id)); }
    case DeliveryOk(_) =>
  }

  /** A step ends a message in a certain way exactly when its guards say so, and ends none twice. */
  lemma StepEnds(s: State, step: Step, m: Msg, end: End)
    requires Inv(s) && Enabled(s, step) && m in s.fate
    ensures var t := Do(s, step);
            m in t.fate && (t.fate[m] == FateOf(end) <==> s.fate[m] == FateOf(end) || Ends(end, s, step, m))
  {
    match step
    case Arrive(msg, id, at) => ArriveEnds(s, msg, id, at, m, end);
    case DeliveryFails(t, id, at) => PutBackEnds(s, t, id, at, m, end);
    case Restart => RestartEnds(s, m, end);
    case _ => OtherEnds(s, step, m, end);
  }

  lemma EndsPresent(s: State, step: Step, m: Msg, end: End)
    requires Inv(s) && Enabled(s, step) && Ends(end, s, step, m)
    ensures m in s.fate
  {
    match end
    case ByDiscard => TakeOut(s.items, Find(s.items, step.id));
    case ByOverflow => HeadIsHeld(s);
    case _ =>
  }

  /** A message that is new came by an arrival, and is held. */
  lemma NewIsHeld(s: State, step: Step, m: Msg)
    requires Inv(s) && Enabled(s, step) && m in Do(s, step).fate && m !in s.fate
    ensures Do(s, step).fate[m] == Held
  {
    match step
    case Arrive(msg, id, at) =>
      assert msg !in MsgsOf(s.items);
      AddedMsgs(s.items, Item(id, at, msg));
    case Approve(_, id) => if Find(s.items, id) < |s.items| { TakeOut(s.items, Find(s.items, id)); }
    case Discard(id) => if Find(s.items, id) < |s.items| { TakeOut(s.items, Find(s.items, id)); }
    case _ =>
  }

  /** What a step says of any message there is after it. */
  lemma StepEndsAny(s: State, step: Step, m: Msg, end: End)
    requires Inv(s) && Enabled(s, step) && m in Do(s, step).fate
    ensures Do(s, step).fate[m] == FateOf(end)
            <==> (m in s.fate && s.fate[m] == FateOf(end)) || Ends(end, s, step, m)
  {
    if m in s.fate {
      StepEnds(s, step, m, end);
    } else {
      NewIsHeld(s, step, m);
      if Ends(end, s, step, m) {
        EndsPresent(s, step, m, end);
      }
    }
  }

  // ---------- Whole runs ----------

  /** One of the first `j` steps ended the message in that way. */
  ghost predicate EndedBefore(end: End, states: seq<State>, steps: seq<Step>, j: nat, m: Msg)
    requires j <= |steps| < |states|
  {
    exists i :: 0 <= i < j && Ends(end, states[i], steps[i], m)
  }

  lemma OneMore(end: End, states: seq<State>, steps: seq<Step>, j: nat, m: Msg)
    requires j < |steps| < |states|
    ensures EndedBefore(end, states, steps, j + 1, m)
            <==> EndedBefore(end, states, steps, j, m) || Ends(end, states[j], steps[j], m)
  {
  }

  lemma NoneBeforeIt(states: seq<State>, steps: seq<Step>, j: nat, m: Msg, end: End)
    requires IsRun(states, steps) && j < |states| && m !in states[j].fate
    ensures !EndedBefore(end, states, steps, j, m)
  {
    forall i | 0 <= i < j ensures !Ends(end, states[i], steps[i], m) {
      if Ends(end, states[i], steps[i], m) {
        RunKeepsInv(states, steps, i);
        EndsPresent(states[i], steps[i], m, end);
        FateIsFinal(states, steps, i, j, m);
      }
    }
  }

  /** Exactly when a withheld message is delivered, discarded, dropped or cut off: there was a step at
      which the guards of the code decided it. In particular a message is lost to a restart exactly
      when some restart found it out for delivery. */
  lemma {:induction false} EndsExactly(states: seq<State>, steps: seq<Step>, j: nat, m: Msg, end: End)
    requires IsRun(states, steps) && j < |states| && m in states[j].fate
    ensures states[j].fate[m] == FateOf(end) <==> EndedBefore(end, states, steps, j, m)
    decreases j
  {
    if j > 0 {
      RunKeepsInv(states, steps, j - 1);
      StepEndsAny(states[j - 1], steps[j - 1], m, end);
      OneMore(end, states, steps, j - 1, m);
      if m in states[j - 1].fate {
        EndsExactly(states, steps, j - 1, m, end);
      } else {
        NoneBeforeIt(states, steps, j - 1, m, end);
      }
    }
  }

  /** A restart cuts nothing off exactly when nothing is out for delivery. */
  lemma RestartCutsNothing(s: State)
    requires Inv(s)
    ensures (forall m :: m in s.fate && s.fate[m] != Cut ==> Do(s, Restart).fate[m] != Cut) <==> s.inHand == map[]
  {
    forall m | m in s.fate
      ensures Do(s, Restart).fate[m] == Cut <==> s.fate[m] == Cut || m in s.inHand.Values
    {
      RestartEnds(s, m, ByRestart);
    }
    if s.inHand != map[] {
      var t :| t in s.inHand;
      assert s.fate[s.inHand[t]] == InHand(t) && s.inHand[t] in s.inHand.Values;
    }
  }

  /** A message is withheld, taken out for approval, and the daemon restarts: it is held nowhere, was
      never delivered, and is not counted as dropped. */
  lemma CutOffHappens(m: Msg) returns (states: seq<State>, steps: seq<Step>)
    ensures IsRun(states, steps)
    ensures var end := states[|steps|];
            && m in end.fate && end.fate[m] == Cut && end.items == [] && end.inHand == map[] && end.dropped == 0
  {
    var s1 := Do(INITIAL, Arrive(m, 1, 0));
    assert s1.items == [Item(1, 0, m)];
    assert MsgsOf([]) == {};
    var s2 := Do(s1, Approve(0, 1));
    var s3 := Do(s2, Restart);
    steps := [Arrive(m, 1, 0), Approve(0, 1), Restart];
    states := [INITIAL, s1, s2, s3];
  }
}
