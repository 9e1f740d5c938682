/**
 Closing an inbox always gets to its end: wherever the accept loop and the connections are, there are
 steps after which a caller of Close has returned.
 */
module InboxEnds {
  import opened Inbox

  ghost predicate Reaches(s: State, t: State, steps: seq<Step>)
    decreases |steps|
  {
    if steps == [] then s == t else Enabled(s, steps[0]) && Reaches(Do(s, steps[0]), t, steps[1..])
  }

  /** Steps that lead to a state in which that caller has returned. */
  ghost predicate Returns(s: State, k: CallerId, t: State, steps: seq<Step>) {
    Reaches(s, t, steps) && CallerIs(t, k, CloseReturned)
  }

  lemma Then(s: State, step: Step, k: CallerId, t: State, steps: seq<Step>) returns (all: seq<Step>)
    requires Enabled(s, step) && Returns(Do(s, step), k, t, steps)
    ensures Returns(s, k, t, all)
  {
    all := [step] + steps;
    assert all[1..] == steps;
  }

  /** The call has begun and not returned. */
  predicate IsCalling(s: State, k: CallerId) {
    k in s.callers && !s.callers[k].CloseReturned?
  }

  lemma FromRan(s: State, k: CallerId) returns (t: State, steps: seq<Step>)
    requires Inv(s) && IsCalling(s, k) && s.once.Ran?
    ensures Returns(s, k, t, steps)
  {
    assert CallerOk(s.once, k, s.callers[k]);
    t, steps := Do(s, PassOnce(k)), [];
    steps := Then(s, PassOnce(k), k, t, steps);
  }

  /** The accept loop is over: the one inside gets through, and then everybody. */
  lemma FromAcceptDone(s: State, k: CallerId) returns (t: State, steps: seq<Step>)
    requires Inv(s) && IsCalling(s, k) && s.once.Running? && s.accept.AcceptDone?
    requires CallerIs(s, s.once.caller, WaitingForAll)
    ensures Returns(s, k, t, steps)
  {
    var j := s.once.caller;
    var s1 := Do(s, AllWaited(j));
    StepKeepsInv(s, AllWaited(j));
    if k == j {
      t, steps := s1, [];
    } else {
      t, steps := FromRan(s1, k);
    }
    steps := Then(s, AllWaited(j), k, t, steps);
  }

  /** No connection is left: the channel is closed and the accept loop ends. */
  lemma FromClosing(s: State, k: CallerId) returns (t: State, steps: seq<Step>)
    requires Inv(s) && IsCalling(s, k) && s.once.Running? && CallerIs(s, s.once.caller, WaitingForAll)
    requires s.accept.ClosingFrames? || s.accept.FramesClosed?
    ensures Returns(s, k, t, steps)
    decreases if s.accept.ClosingFrames? then 1 else 0
  {
    if s.accept.ClosingFrames? {
      StepKeepsInv(s, CloseFrames);
      t, steps := FromClosing(Do(s, CloseFrames), k);
      steps := Then(s, CloseFrames, k, t, steps);
    } else {
      StepKeepsInv(s, AcceptReturns);
      t, steps := FromAcceptDone(Do(s, AcceptReturns), k);
      steps := Then(s, AcceptReturns, k, t, steps);
    }
  }

  function Senders(conns: map<ConnId, Conn>): set<ConnId> {
    set c | c in conns && conns[c].Sending?
  }

  /** What is still to be done until every connection has ended: a frame to send, and the end of each. */
  function Left(conns: map<ConnId, Conn>): nat {
    2 * |Live(conns)| + |Senders(conns)|
  }

  lemma EndsOne(conns: map<ConnId, Conn>, c: ConnId)
    requires c in conns && conns[c].Reading?
    ensures Left(conns[c := ConnDone]) < Left(conns)
  {
    LiveAfter(conns, c, ConnDone);
    assert c in Live(conns);
    assert Senders(conns[c := ConnDone]) == Senders(conns);
    assert |Live(conns)| == |Live(conns) - {c}| + 1;
  }

  lemma SendsOne(conns: map<ConnId, Conn>, c: ConnId)
    requires c in conns && conns[c].Sending?
    ensures Left(conns[c := Reading]) < Left(conns)
  {
    LiveAfter(conns, c, Reading);
    assert Live(conns) + {c} == Live(conns);
    assert c in Senders(conns) && Senders(conns[c := Reading]) == Senders(conns) - {c};
    assert |Senders(conns)| == |Senders(conns) - {c}| + 1;
  }

  /** The reader makes room if there is none, and the frame goes in. */
  lemma MakesRoom(s: State) returns (t: State, steps: seq<Step>)
    requires Inv(s)
    ensures Reaches(s, t, steps) && Inv(t) && |t.buffer| < CAPACITY
    ensures t == s.(buffer := t.buffer, received := t.received)
  {
    if |s.buffer| < CAPACITY {
      t, steps := s, [];
    } else {
      t, steps := Do(s, Receive), [Receive];
      StepKeepsInv(s, Receive);
      assert steps[1..] == [];
    }
  }

  lemma {:induction false} Join(s: State, t: State, u: State, a: seq<Step>, b: seq<Step>)
    requires Reaches(s, t, a) && Reaches(t, u, b)
    ensures Reaches(s, u, a + b)
    decreases |a|
  {
    if a == [] {
      assert a + b == b;
    } else {
      Join(Do(s, a[0]), t, u, a[1..], b);
      assert (a + b)[1..] == a[1..] + b;
    }
  }

  /** The connections end one after another; one that is sending sends first. */
  lemma FromWaiting(s: State, k: CallerId) returns (t: State, steps: seq<Step>)
    requires Inv(s) && IsCalling(s, k) && s.once.Running? && CallerIs(s, s.once.caller, WaitingForAll)
    requires s.accept.WaitingForConns?
    ensures Returns(s, k, t, steps)
    decreases Left(s.conns)
  {
    if s.connCount == 0 {
      StepKeepsInv(s, ConnsWaited);
      t, steps := FromClosing(Do(s, ConnsWaited), k);
      steps := Then(s, ConnsWaited, k, t, steps);
    } else {
      assert Live(s.conns) != {};
      var c :| c in Live(s.conns);
      if s.conns[c].Reading? {
        EndsOne(s.conns, c);
        StepKeepsInv(s, ConnEnds(c));
        t, steps := FromWaiting(Do(s, ConnEnds(c)), k);
        steps := Then(s, ConnEnds(c), k, t, steps);
      } else {
        SendsOne(s.conns, c);
        var roomy, first := MakesRoom(s);
        StepKeepsInv(roomy, Send(c));
        t, steps := FromWaiting(Do(roomy, Send(c)), k);
        steps := Then(roomy, Send(c), k, t, steps);
        Join(s, roomy, t, first, steps);
        steps := first + steps;
      }
    }
  }

  lemma FromInside(s: State, k: CallerId) returns (t: State, steps: seq<Step>)
    requires Inv(s) && IsCalling(s, k) && s.once.Running? && CallerIs(s, s.once.caller, WaitingForAll)
    ensures Returns(s, k, t, steps)
  {
    match s.accept
    case Accepting =>
      StepKeepsInv(s, AcceptFails);
      t, steps := FromWaiting(Do(s, AcceptFails), k);
      steps := Then(s, AcceptFails, k, t, steps);
    case WaitingForConns => t, steps := FromWaiting(s, k);
    case AcceptDone => t, steps := FromAcceptDone(s, k);
    case _ => t, steps := FromClosing(s, k);
  }

  lemma FromCall(s: State, k: CallerId) returns (t: State, steps: seq<Step>)
    requires Inv(s) && IsCalling(s, k)
    ensures Returns(s, k, t, steps)
    decreases if s.once.NotRun? then 2 else if s.once.Running? then 1 else 0
  {
    match s.once
    case Ran => t, steps := FromRan(s, k);
    case NotRun =>
      assert CallerOk(s.once, k, s.callers[k]);
      StepKeepsInv(s, EnterOnce(k));
      t, steps := FromCall(Do(s, EnterOnce(k)), k);
      steps := Then(s, EnterOnce(k), k, t, steps);
    case Running(j) =>
      if CallerIs(s, j, ClosingListener) {
        StepKeepsInv(s, CloseListener(j));
        t, steps := FromInside(Do(s, CloseListener(j)), k);
        steps := Then(s, CloseListener(j), k, t, steps);
      } else {
        t, steps := FromInside(s, k);
      }
  }

  /** Closing never gets stuck: in every state of every run, as long as the frames are read and the
      connections come to their ends, every call of Close can return, the others' included. */
  lemma CloseCanReturn(states: seq<State>, steps: seq<Step>, n: nat, k: CallerId) returns (t: State, more: seq<Step>)
    requires IsTrace(states, steps) && n < |states| && IsCalling(states[n], k)
    ensures Reaches(states[n], t, more) && CallerIs(t, k, CloseReturned)
  {
    TraceInv(states, steps, n);
    t, more := FromCall(states[n], k);
  }

  /** And a call can be made at any time. */
  lemma AnybodyCanClose(s: State, k: CallerId) returns (t: State, steps: seq<Step>)
    requires Inv(s) && k !in s.callers
    ensures Reaches(s, t, steps) && CallerIs(t, k, CloseReturned)
  {
    StepKeepsInv(s, CallClose(k));
    t, steps := FromCall(Do(s, CallClose(k)), k);
    steps := Then(s, CallClose(k), k, t, steps);
  }

  lemma Onward(s: State, step: Step, t: State, steps: seq<Step>) returns (all: seq<Step>)
    requires Enabled(s, step) && Reaches(Do(s, step), t, steps)
    ensures Reaches(s, t, all)
  {
    all := [step] + steps;
    assert all[1..] == steps;
  }

  /** While the listener is open a new connection can bring a frame: it is the next one sent. */
  lemma FrameGetsIn(s: State, c: ConnId, frame: Frame) returns (t: State, steps: seq<Step>)
    requires Inv(s) && s.accept.Accepting? && s.listening && c !in s.conns
    ensures Reaches(s, t, steps) && t.sent == s.sent + [frame]
  {
    var s1 := Do(s, AcceptConn(c));
    StepKeepsInv(s, AcceptConn(c));
    var s2 := Do(s1, Decode(c, frame));
    StepKeepsInv(s1, Decode(c, frame));
    var roomy, room := MakesRoom(s2);
    t, steps := Do(roomy, Send(c)), [];
    steps := Onward(roomy, Send(c), t, steps);
    Join(s2, roomy, t, room, steps);
    steps := room + steps;
    steps := Onward(s1, Decode(c, frame), t, steps);
    steps := Onward(s, AcceptConn(c), t, steps);
  }

  /** Once the channel is closed a reader can take what is left and come to the end of its range. */
  lemma {:induction false} RangeCanEnd(s: State) returns (t: State, steps: seq<Step>)
    requires Inv(s) && s.closed
    ensures Reaches(s, t, steps) && t.rangeEnded && t.received == t.sent == s.sent
    decreases |s.buffer|
  {
    if s.buffer == [] {
      t, steps := Do(s, RangeEnds), [];
      steps := Onward(s, RangeEnds, t, steps);
      assert s.received + [] == s.received;
    } else {
      StepKeepsInv(s, Receive);
      t, steps := RangeCanEnd(Do(s, Receive));
      steps := Onward(s, Receive, t, steps);
    }
  }

  /** A connection has a frame to send, and the channel is full. */
  predicate IsBlocked(s: State, c: ConnId) {
    c in s.conns && s.conns[c].Sending? && |s.buffer| == CAPACITY
  }

  lemma BlockedStep(s: State, step: Step, c: ConnId)
    requires Inv(s) && Enabled(s, step) && IsBlocked(s, c) && !step.Receive?
    ensures IsBlocked(Do(s, step), c)
  {
    if s.connCount == 0 {
      NoneLive(s, c);
    }
  }

  /** The reading has to go on for that: with the channel full and a frame waiting to be sent, no run in
      which nobody reads any more takes any caller of Close to its return. */
  lemma {:induction false} StuckWithoutReader(s: State, c: ConnId, t: State, steps: seq<Step>, k: CallerId)
    requires Inv(s) && IsBlocked(s, c) && Reaches(s, t, steps)
    requires forall i :: 0 <= i < |steps| ==> !steps[i].Receive?
    ensures !CallerIs(t, k, CloseReturned)
    decreases |steps|
  {
    if steps == [] {
      if CallerIs(s, k, CloseReturned) {
        assert CallerOk(s.once, k, s.callers[k]);
        NoneLive(s, c);
      }
    } else {
      BlockedStep(s, steps[0], c);
      StepKeepsInv(s, steps[0]);
      assert forall i :: 0 <= i < |steps[1..]| ==> steps[1..][i] == steps[i + 1];
      StuckWithoutReader(Do(s, steps[0]), c, t, steps[1..], k);
    }
  }
}
