/**
 The inbox of a peer: one accept loop, any number of connections and any number of callers of
 Close around one bounded frame channel, interleaved step by step. The wait groups are the
 counters they are, and every operation that would panic says so in the state.
 */
module Inbox {
  type ConnId = nat
  type CallerId = nat
  type Frame = int

  const CAPACITY := 16

  datatype Accept = Accepting | WaitingForConns | ClosingFrames | FramesClosed | AcceptDone
  datatype Conn = Reading | Sending(frame: Frame) | ConnDone
  datatype Once = NotRun | Running(caller: CallerId) | Ran
  datatype Caller = Called | ClosingListener | WaitingForAll | CloseReturned

  datatype State = State(
    accept: Accept, conns: map<ConnId, Conn>, listening: bool,
    connCount: int,                    // the wait group of the connections
    allCount: int,                     // the wait group Close waits on
    closed: bool, closes: nat, panicked: bool,
    buffer: seq<Frame>, sent: seq<Frame>, received: seq<Frame>, rangeEnded: bool,
    once: Once, callers: map<CallerId, Caller>)

  const INITIAL := State(Accepting, map[], true, 0, 1, false, 0, false, [], [], [], false, NotRun, map[])

  datatype Step =
    | AcceptConn(c: ConnId)
    | AcceptFails              // the listener was closed, or anything else went wrong
    | ConnsWaited
    | CloseFrames
    | AcceptReturns
    | Decode(c: ConnId, frame: Frame)
    | Send(c: ConnId)
    | ConnEnds(c: ConnId)
    | Receive
    | RangeEnds
    | CallClose(k: CallerId)
    | EnterOnce(k: CallerId)
    | CloseListener(k: CallerId)
    | AllWaited(k: CallerId)
    | PassOnce(k: CallerId)

  predicate ConnIs(s: State, c: ConnId, reading: bool) {
    c in s.conns && if reading then s.conns[c].Reading? else s.conns[c].Sending?
  }

  predicate CallerIs(s: State, k: CallerId, at: Caller) {
    k in s.callers && s.callers[k] == at
  }

  predicate Enabled(s: State, step: Step) {
    match step
    case AcceptConn(c) => s.accept.Accepting? && s.listening && c !in s.conns
    case AcceptFails => s.accept.Accepting?
    case ConnsWaited => s.accept.WaitingForConns? && s.connCount == 0
    case CloseFrames => s.accept.ClosingFrames?
    case AcceptReturns => s.accept.FramesClosed?
    case Decode(c, _) => ConnIs(s, c, true)
    case Send(c) => ConnIs(s, c, false) && (s.closed || |s.buffer| < CAPACITY)
    case ConnEnds(c) => ConnIs(s, c, true)
    case Receive => s.buffer != []
    case RangeEnds => s.buffer == [] && s.closed
    case CallClose(k) => k !in s.callers
    case EnterOnce(k) => CallerIs(s, k, Called) && s.once.NotRun?
    case CloseListener(k) => CallerIs(s, k, ClosingListener)
    case AllWaited(k) => CallerIs(s, k, WaitingForAll) && s.allCount == 0
    case PassOnce(k) => CallerIs(s, k, Called) && s.once.Ran?
  }

  function Do(s: State, step: Step): State
    requires Enabled(s, step)
  {
    match step
    case AcceptConn(c) => s.(conns := s.conns[c := Reading], connCount := s.connCount + 1)
    case AcceptFails => s.(accept := WaitingForConns)
    case ConnsWaited => s.(accept := ClosingFrames)
    case CloseFrames => s.(accept := FramesClosed, closed := true, closes := s.closes + 1,
                           panicked := s.panicked || s.closed)
    case AcceptReturns => s.(accept := AcceptDone, allCount := s.allCount - 1,
                             panicked := s.panicked || s.allCount == 0)
    case Decode(c, frame) => s.(conns := s.conns[c := Sending(frame)])
    case Send(c) =>
      if s.closed then s.(panicked := true)
      else s.(conns := s.conns[c := Reading], buffer := s.buffer + [s.conns[c].frame],
              sent := s.sent + [s.conns[c].frame])
    case ConnEnds(c) => s.(conns := s.conns[c := ConnDone], connCount := s.connCount - 1,
                           panicked := s.panicked || s.connCount == 0)
    case Receive => s.(buffer := s.buffer[1..], received := s.received + [s.buffer[0]])
    case RangeEnds => s.(rangeEnded := true)
    case CallClose(k) => s.(callers := s.callers[k := Called])
    case EnterOnce(k) => s.(once := Running(k), callers := s.callers[k := ClosingListener])
    case CloseListener(k) => s.(listening := false, callers := s.callers[k := WaitingForAll])
    case AllWaited(k) => s.(once := Ran, callers := s.callers[k := CloseReturned])
    case PassOnce(k) => s.(callers := s.callers[k := CloseReturned])
  }

  // ---------- The invariant ----------

  function Live(conns: map<ConnId, Conn>): set<ConnId> {
    set c | c in conns && !conns[c].ConnDone?
  }

  predicate CallerOk(once: Once, k: CallerId, at: Caller) {
    match at
    case Called => true
    case CloseReturned => once.Ran?
    case _ => once == Running(k)
  }

  predicate Inv(s: State) {
    && s.connCount == |Live(s.conns)|
    && s.allCount == (if s.accept.AcceptDone? then 0 else 1)
    && (s.accept.ClosingFrames? || s.accept.FramesClosed? || s.accept.AcceptDone? ==> s.connCount == 0)
    && (s.closed <==> s.accept.FramesClosed? || s.accept.AcceptDone?)
    && s.closes == (if s.closed then 1 else 0)
    && !s.panicked
    && s.received + s.buffer == s.sent
    && |s.buffer| <= CAPACITY
    && (s.rangeEnded ==> s.closed && s.buffer == [])
    && (s.once.Ran? ==> s.accept.AcceptDone?)
    && (forall k :: k in s.callers ==> CallerOk(s.once, k, s.callers[k]))
    && (s.listening <==> s.once.NotRun? || (s.once.Running? && CallerIs(s, s.once.caller, ClosingListener)))
    && (s.once.Running? ==> CallerIs(s, s.once.caller, ClosingListener) || CallerIs(s, s.once.caller, WaitingForAll))
  }

  lemma LiveAfter(conns: map<ConnId, Conn>, c: ConnId, to: Conn)
    ensures Live(conns[c := to]) == if to.ConnDone? then Live(conns) - {c} else Live(conns) + {c}
  {
  }

  lemma NoneLive(s: State, c: ConnId)
    requires Inv(s) && s.connCount == 0 && c in s.conns
    ensures s.conns[c].ConnDone?
  {
    assert Live(s.conns) == {};
    assert c !in Live(s.conns);
  }

  lemma ConnStepKeepsInv(s: State, step: Step)
    requires Inv(s) && Enabled(s, step)
    requires step.AcceptConn? || step.Decode? || step.Send? || step.ConnEnds?
    ensures Inv(Do(s, step))
  {
    if step.c in s.conns && s.connCount == 0 { NoneLive(s, step.c); }
    if step.c in s.conns {
      assert step.c in Live(s.conns);
      assert Live(s.conns) + {step.c} == Live(s.conns);
    }
    LiveAfter(s.conns, step.c, if step.c in Do(s, step).conns then Do(s, step).conns[step.c] else ConnDone);
    if step.Send? { assert s.received + (s.buffer + [s.conns[step.c].frame]) == s.sent + [s.conns[step.c].frame]; }
  }

  lemma StepKeepsInv(s: State, step: Step)
    requires Inv(s) && Enabled(s, step)
    ensures Inv(Do(s, step))
  {
    if step.AcceptConn? || step.Decode? || step.Send? || step.ConnEnds? {
      ConnStepKeepsInv(s, step);
    } else if step.Receive? {
      assert s.received + [s.buffer[0]] + s.buffer[1..] == s.sent;
    }
  }

  ghost predicate IsTrace(states: seq<State>, steps: seq<Step>) {
    && |states| == |steps| + 1 && states[0] == INITIAL
    && forall i :: 0 <= i < |steps| ==> Enabled(states[i], steps[i]) && states[i + 1] == Do(states[i], steps[i])
  }

  lemma {:induction false} TraceInv(states: seq<State>, steps: seq<Step>, n: nat)
    requires IsTrace(states, steps) && n < |states|
    ensures Inv(states[n])
  {
    if n > 0 {
      TraceInv(states, steps, n - 1);
      StepKeepsInv(states[n - 1], steps[n - 1]);
    }
  }

  /** In no interleaving is a frame sent on the closed channel, the channel closed twice, or a
      wait group taken below zero: no step that would do so is ever possible. */
  lemma NeverPanics(states: seq<State>, steps: seq<Step>, n: nat)
    requires IsTrace(states, steps) && n < |states|
    ensures !states[n].panicked && states[n].closes <= 1
    ensures states[n].closed ==> !Enabled(states[n], CloseFrames) && forall c :: !Enabled(states[n], Send(c))
    ensures forall c :: Enabled(states[n], ConnEnds(c)) ==> states[n].connCount > 0
    ensures Enabled(states[n], AcceptReturns) ==> states[n].allCount > 0
  {
    TraceInv(states, steps, n);
    var s := states[n];
    forall c | c in s.conns && !s.conns[c].ConnDone? ensures s.connCount > 0 && !s.closed {
      assert c in Live(s.conns);
    }
  }

  lemma ClosedStep(s: State, step: Step)
    requires Inv(s) && s.closed && Enabled(s, step)
    ensures Do(s, step).closed && Do(s, step).sent == s.sent && Do(s, step).conns == s.conns
  {
    if step.Decode? || step.Send? || step.ConnEnds? { NoneLive(s, step.c); }
  }

  lemma AllEnded(s: State)
    requires Inv(s) && s.closed
    ensures forall c :: c in s.conns ==> s.conns[c].ConnDone?
  {
    forall c | c in s.conns ensures s.conns[c].ConnDone? { NoneLive(s, c); }
  }

  lemma {:induction false} ClosedStays(states: seq<State>, steps: seq<Step>, m: nat, n: nat)
    requires IsTrace(states, steps) && m <= n < |states| && states[m].closed
    ensures states[n].closed && states[n].sent == states[m].sent && states[n].conns == states[m].conns
    decreases n
  {
    if m < n {
      ClosedStays(states, steps, m, n - 1);
      TraceInv(states, steps, n - 1);
      ClosedStep(states[n - 1], steps[n - 1]);
    }
  }

  /** The channel is closed only when every connection has ended, and nothing is sent or opened after. */
  lemma ClosingIsLast(states: seq<State>, steps: seq<Step>, m: nat, n: nat)
    requires IsTrace(states, steps) && m <= n < |states| && states[m].closed
    ensures states[n].closed && states[n].sent == states[m].sent && states[n].conns == states[m].conns
    ensures forall c :: c in states[n].conns ==> states[n].conns[c].ConnDone?
  {
    ClosedStays(states, steps, m, n);
    TraceInv(states, steps, n);
    AllEnded(states[n]);
  }

  /** When any call of Close has returned, the channel is closed, and the accept loop and all connections have ended. */
  lemma CloseReturnsStopped(states: seq<State>, steps: seq<Step>, n: nat, k: CallerId)
    requires IsTrace(states, steps) && n < |states| && CallerIs(states[n], k, CloseReturned)
    ensures states[n].closed && states[n].accept.AcceptDone?
    ensures forall c :: c in states[n].conns ==> states[n].conns[c].ConnDone?
  {
    TraceInv(states, steps, n);
    assert CallerOk(states[n].once, k, states[n].callers[k]);
    ClosingIsLast(states, steps, n, n);
  }

  /** A reader whose range has ended has received every frame that was or will be sent, in order. */
  lemma RangeEndsComplete(states: seq<State>, steps: seq<Step>, m: nat, n: nat)
    requires IsTrace(states, steps) && m <= n < |states| && states[m].rangeEnded
    ensures states[m].received == states[n].sent
  {
    TraceInv(states, steps, m);
    ClosingIsLast(states, steps, m, n);
    assert states[m].received + [] == states[m].received;
  }

  /** While the channel is open what is read is what was sent so far, in order, at most the buffer short. */
  lemma ReceivedInOrder(states: seq<State>, steps: seq<Step>, n: nat)
    requires IsTrace(states, steps) && n < |states|
    ensures states[n].received <= states[n].sent && |states[n].sent| - |states[n].received| <= CAPACITY
  {
    TraceInv(states, steps, n);
  }

  lemma SendingSince(s: State, step: Step, c: ConnId, frame: Frame)
    requires Enabled(s, step) && c in Do(s, step).conns && Do(s, step).conns[c] == Sending(frame)
    ensures step == Decode(c, frame) || (c in s.conns && s.conns[c] == Sending(frame))
  {
  }

  lemma {:induction false} DecodedWhen(states: seq<State>, steps: seq<Step>, n: nat, c: ConnId, frame: Frame)
      returns (i: nat)
    requires IsTrace(states, steps) && n < |states| && c in states[n].conns && states[n].conns[c] == Sending(frame)
    ensures i < n && steps[i] == Decode(c, frame)
    ensures forall j :: i < j <= n ==> c in states[j].conns && states[j].conns[c] == Sending(frame)
    decreases n
  {
    SendingSince(states[n - 1], steps[n - 1], c, frame);
    if steps[n - 1] == Decode(c, frame) {
      i := n - 1;
    } else {
      i := DecodedWhen(states, steps, n - 1, c, frame);
    }
  }

  /** What a connection sends is the frame it decoded last, once. */
  lemma SentWasDecoded(states: seq<State>, steps: seq<Step>, n: nat, c: ConnId) returns (i: nat, frame: Frame)
    requires IsTrace(states, steps) && n < |steps| && steps[n] == Send(c)
    ensures i < n && steps[i] == Decode(c, frame) && states[n + 1].sent == states[n].sent + [frame]
    ensures forall j :: i < j <= n ==> c in states[j].conns && states[j].conns[c] == Sending(frame)
    ensures c in states[n + 1].conns && states[n + 1].conns[c] == Reading
  {
    TraceInv(states, steps, n);
    TraceInv(states, steps, n + 1);
    frame := states[n].conns[c].frame;
    i := DecodedWhen(states, steps, n, c, frame);
  }

  /** Once the call of Close that got in has closed the listener, and so once any call has returned, no
      connection is accepted any more. */
  lemma NoneAfterClosing(states: seq<State>, steps: seq<Step>, n: nat, k: CallerId)
    requires IsTrace(states, steps) && n < |steps|
    requires CallerIs(states[n], k, WaitingForAll) || CallerIs(states[n], k, CloseReturned)
    ensures !steps[n].AcceptConn? && !Enabled(states[n], AcceptConn(0)) && !states[n + 1].listening
  {
    TraceInv(states, steps, n);
    TraceInv(states, steps, n + 1);
    assert CallerOk(states[n].once, k, states[n].callers[k]);
  }
}
