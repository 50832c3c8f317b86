/**
  * The application task and the driver task, interleaved: two channels, one signal and the frame pool
  * between them (src/data_link_layer.rs, src/ncn51_driver.rs). One step is what a task does between two
  * points where it can be suspended.
  */
module Handshake {
  import opened Wrappers
  import opened DriverMachine

  /** Number of pool blocks and capacity of either channel. */
  const CHANNEL_SIZE := 8

  /** Frames are told apart by a number; their contents play no part here. */
  type FrameId = nat

  /** `Ready`: the signal is reset, the frame not yet in the channel. */
  datatype App = Free | Ready(frame: FrameId) | Waiting(frame: FrameId)

  /**
    * What the driver is at: nothing; reading a frame; handing it up; waiting for the end of a refused one;
    * reading the echo of a transmission; waiting for its confirmation octet.
    */
  datatype Drv =
    | AtTop
    | Receives(frame: FrameId)
    | Delivers(frame: FrameId)
    | Drains
    | Echoes(frame: FrameId)
    | Confirms(frame: FrameId)
  {
    predicate Sends() { Echoes? || Confirms? }
    predicate HoldsBlock() { !AtTop? && !Drains? }
  }

  /** A confirmation, with the frame it is about. */
  datatype Con = Con(frame: FrameId, status: ConStatus)

  /**
    * `held` are the application task's frames besides the one it sends; `rx` and `tx` are
    * FRAME_CHANNEL_RX and FRAME_CHANNEL_TX; `results` pairs every finished `send` with what it consumed;
    * `handed` and `taken` are the received frames put into the channel and taken from it so far.
    */
  datatype State = State(free: nat, held: multiset<FrameId>, app: App, drv: Drv, rx: seq<FrameId>, tx: seq<FrameId>,
                         signal: Option<Con>, dequeued: nat, signalled: nat, results: seq<(FrameId, Con)>,
                         handed: seq<FrameId>, taken: seq<FrameId>)

  predicate Init(s: State) {
    s == State(CHANNEL_SIZE, multiset{}, Free, AtTop, [], [], None, 0, 0, [], [], [])
  }

  datatype Step =
    | Allocate(f: FrameId)
    | Drop(f: FrameId)
    | TakeReceived
    | ResetSignal(f: FrameId)
    | Enqueue
    | Wake
    | StartReceive(f: FrameId)
    | RefuseReceive
    | AbortReceive
    | FinishReceive
    | EndDrain
    | Deliver
    | Dequeue
    | EchoDone
    | EchoFails
    | Confirmation(status: ConStatus)

  /** Steps that wait for the bus chip to send an octet; the others also come about by silence or by the tasks alone. */
  predicate NeedsChip(e: Step) {
    e.StartReceive? || e.RefuseReceive? || e.EchoDone? || e.Confirmation?
  }

  predicate Enabled(s: State, e: Step) {
    match e
    case Allocate(_) => s.app.Free? && s.free > 0
    case Drop(f) => f in s.held
    case TakeReceived => s.app.Free? && s.tx != []
    case ResetSignal(f) => s.app.Free? && f in s.held
    case Enqueue => s.app.Ready? && |s.rx| < CHANNEL_SIZE
    case Wake => s.app.Waiting? && s.signal.Some?
    case StartReceive(_) => s.drv.AtTop? && s.free > 0
    case RefuseReceive => s.drv.AtTop? && s.free == 0
    case AbortReceive => s.drv.Receives?
    case FinishReceive => s.drv.Receives?
    case EndDrain => s.drv.Drains?
    case Deliver => s.drv.Delivers? && |s.tx| < CHANNEL_SIZE
    case Dequeue => s.drv.AtTop? && s.rx != []
    case EchoDone => s.drv.Echoes?
    case EchoFails => s.drv.Echoes?
    case Confirmation(_) => s.drv.Confirms?
  }

  /** The frame is dropped before the signal is raised. */
  function Signalled(s: State, c: ConStatus): State
    requires s.drv.Sends()
  {
    s.(free := s.free + 1, drv := AtTop, signal := Some(Con(s.drv.frame, c)), signalled := s.signalled + 1)
  }

  function Next(s: State, e: Step): State
    requires Enabled(s, e)
  {
    match e
    case Allocate(f) => s.(free := s.free - 1, held := s.held + multiset{f})
    case Drop(f) => s.(free := s.free + 1, held := s.held - multiset{f})
    case TakeReceived => s.(tx := s.tx[1..], held := s.held + multiset{s.tx[0]}, taken := s.taken + [s.tx[0]])
    case ResetSignal(f) => s.(app := Ready(f), held := s.held - multiset{f}, signal := None)
    case Enqueue => s.(app := Waiting(s.app.frame), rx := s.rx + [s.app.frame])
    case Wake => s.(app := Free, signal := None, results := s.results + [(s.app.frame, s.signal.value)])
    case StartReceive(f) => s.(free := s.free - 1, drv := Receives(f))
    case RefuseReceive => s.(drv := Drains)
    case AbortReceive => s.(free := s.free + 1, drv := Drains)
    case FinishReceive => s.(drv := Delivers(s.drv.frame))
    case EndDrain => s.(drv := AtTop)
    case Deliver => s.(drv := AtTop, tx := s.tx + [s.drv.frame], handed := s.handed + [s.drv.frame])
    case Dequeue => s.(drv := Echoes(s.rx[0]), rx := s.rx[1..], dequeued := s.dequeued + 1)
    case EchoDone => s.(drv := Confirms(s.drv.frame))
    case EchoFails => Signalled(s, ConNotOk)
    case Confirmation(c) => Signalled(s, c)
  }

  predicate IsRun(states: seq<State>, steps: seq<Step>) {
    && |states| == |steps| + 1 && Init(states[0])
    && forall i :: 0 <= i < |steps| ==> Enabled(states[i], steps[i]) && states[i + 1] == Next(states[i], steps[i])
  }

  // Invariant

  /** Every pool block is free or behind exactly one live frame. */
  function Blocks(s: State): nat {
    s.free + |s.held| + |s.rx| + |s.tx| + (if s.app.Ready? then 1 else 0) + (if s.drv.HoldsBlock() then 1 else 0)
  }

  /** Where the frame of a waiting sender is: queued, being sent, or confirmed. */
  predicate Matched(s: State) {
    match s.app
    case Waiting(f) =>
      || (s.rx == [f] && !s.drv.Sends() && s.signal.None?)
      || (s.rx == [] && s.drv.Sends() && s.drv.frame == f && s.signal.None?)
      || (s.rx == [] && !s.drv.Sends() && s.signal.Some? && s.signal.value.frame == f)
    case _ => s.rx == [] && !s.drv.Sends() && s.signal.None?
  }

  predicate Inv(s: State) {
    && Blocks(s) == CHANNEL_SIZE
    && Matched(s)
    && s.dequeued == s.signalled + (if s.drv.Sends() then 1 else 0)
    && s.handed == s.taken + s.tx
    && s.signalled == |s.results| + (if s.signal.Some? then 1 else 0)
    && forall i :: 0 <= i < |s.results| ==> s.results[i].0 == s.results[i].1.frame
  }

  predicate IsAppStep(e: Step) {
    e.Allocate? || e.Drop? || e.TakeReceived? || e.ResetSignal? || e.Enqueue? || e.Wake?
  }

  lemma AppKeepsInv(s: State, e: Step)
    requires Inv(s) && Enabled(s, e) && IsAppStep(e)
    ensures Inv(Next(s, e))
  {
  }

  lemma DriverKeepsInv(s: State, e: Step)
    requires Inv(s) && Enabled(s, e) && !IsAppStep(e)
    ensures Inv(Next(s, e))
  {
  }

  lemma NextKeepsInv(s: State, e: Step)
    requires Inv(s) && Enabled(s, e)
    ensures Inv(Next(s, e))
  {
    if IsAppStep(e) {
      AppKeepsInv(s, e);
    } else {
      DriverKeepsInv(s, e);
    }
  }

  lemma {:induction false} RunKeepsInv(states: seq<State>, steps: seq<Step>, i: nat)
    requires IsRun(states, steps) && i < |states|
    ensures Inv(states[i])
  {
    if i > 0 {
      RunKeepsInv(states, steps, i - 1);
      NextKeepsInv(states[i - 1], steps[i - 1]);
    }
  }

  /**
    * In every reachable state, a task that wants to put a frame into a channel finds room: neither channel send
    * ever blocks.
    */
  lemma SendsNeverBlock(states: seq<State>, steps: seq<Step>, i: nat)
    requires IsRun(states, steps) && i < |states|
    ensures var s := states[i];
            && Blocks(s) == CHANNEL_SIZE && |s.rx| <= 1 && |s.tx| <= CHANNEL_SIZE
            && (s.drv.Delivers? ==> Enabled(s, Deliver))
            && (s.app.Ready? ==> Enabled(s, Enqueue))
  {
    RunKeepsInv(states, steps, i);
  }

  /**
    * Every finished `send` consumed the confirmation of its own frame, and every dequeued frame raises exactly
    * one signal.
    */
  lemma ConfirmationsMatch(states: seq<State>, steps: seq<Step>, i: nat)
    requires IsRun(states, steps) && i < |states|
    ensures var s := states[i];
            && (forall k :: 0 <= k < |s.results| ==> s.results[k].0 == s.results[k].1.frame)
            && s.dequeued == s.signalled + (if s.drv.Sends() then 1 else 0)
            && (s.app.Waiting? && s.signal.Some? ==> s.signal.value.frame == s.app.frame)
            && (!s.app.Waiting? ==> s.rx == [] && s.signal.None? && s.dequeued == s.signalled == |s.results|)
  {
    RunKeepsInv(states, steps, i);
  }

  /** The received frames come out of their channel in the order the driver handed them up, and none is lost in it. */
  lemma ReceivedInOrder(states: seq<State>, steps: seq<Step>, i: nat)
    requires IsRun(states, steps) && i < |states|
    ensures var s := states[i];
            && s.handed == s.taken + s.tx
            && (Enabled(s, TakeReceived) ==>
                |s.taken| < |s.handed| && Next(s, TakeReceived).taken == s.handed[..|s.taken| + 1])
  {
    RunKeepsInv(states, steps, i);
  }

  // The wait for a confirmation

  /** `es` can happen from `s`, one after the other. */
  predicate Can(s: State, es: seq<Step>)
    decreases es
  {
    es == [] || (Enabled(s, es[0]) && Can(Next(s, es[0]), es[1..]))
  }

  function After(s: State, es: seq<Step>): State
    requires Can(s, es)
    decreases es
  {
    if es == [] then s else After(Next(s, es[0]), es[1..])
  }

  /** They can, without an octet from the bus chip. */
  predicate Quiet(s: State, es: seq<Step>) { Can(s, es) && forall e :: e in es ==> !NeedsChip(e) }

  function Distance(s: State): nat {
    if !s.app.Waiting? then 0
    else if s.signal.Some? then 1
    else match s.drv
      case Receives(_) => 5
      case Delivers(_) => 4
      case Drains => 4
      case AtTop => 3
      case _ => 2
  }

  /**
    * Until the confirmation of a waiting sender is there, everything that can happen without the chip brings
    * it nearer, but for frames being dropped; and once it is there, so does waking up.
    */
  lemma QuietStepsHelp(s: State, e: Step)
    requires Inv(s) && s.app.Waiting? && Enabled(s, e) && !NeedsChip(e) && !e.Drop? && (s.signal.None? || e.Wake?)
    ensures Distance(Next(s, e)) < Distance(s)
  {
  }

  /** A step that can happen without the chip, unless the driver waits for the confirmation octet. */
  function Helpful(s: State): Step {
    if s.signal.Some? then Wake
    else match s.drv
      case Receives(_) => FinishReceive
      case Delivers(_) => Deliver
      case Drains => EndDrain
      case AtTop => Dequeue
      case _ => EchoFails
  }

  lemma {:induction false} FinishesQuietly(s: State) returns (es: seq<Step>)
    requires Inv(s) && (s.app.Waiting? ==> !s.drv.Confirms?)
    ensures |es| <= Distance(s) && Quiet(s, es) && !After(s, es).app.Waiting?
    decreases Distance(s)
  {
    if !s.app.Waiting? {
      es := [];
    } else {
      var e := Helpful(s);
      NextKeepsInv(s, e);
      QuietStepsHelp(s, e);
      var rest := FinishesQuietly(Next(s, e));
      es := [e] + rest;
      assert es[1..] == rest;
    }
  }

  lemma {:induction false} StuckQuietly(s: State, es: seq<Step>)
    requires Inv(s) && s.app.Waiting? && s.drv.Confirms? && Quiet(s, es)
    ensures After(s, es).app.Waiting?
    decreases es
  {
    if es != [] {
      assert es[0] in es && !NeedsChip(es[0]);
      NextKeepsInv(s, es[0]);
      StuckQuietly(Next(s, es[0]), es[1..]);
    }
  }

  /**
    * In every reachable state a waiting sender can be served without another octet from the bus chip, in at
    * most five steps, exactly if the driver does not wait for the confirmation octet. There, one octet or
    * read error is enough; the source sets no time limit for it.
    */
  lemma WaitingSenderCanFinishIff(states: seq<State>, steps: seq<Step>, i: nat)
    requires IsRun(states, steps) && i < |states| && states[i].app.Waiting?
    ensures var s := states[i];
            && (!s.drv.Confirms? <==> exists es :: Quiet(s, es) && !After(s, es).app.Waiting?)
            && (!s.drv.Confirms? ==> exists es :: Quiet(s, es) && !After(s, es).app.Waiting? && |es| <= 5)
            && (s.drv.Confirms? ==> forall c ::
                  Quiet(Next(s, Confirmation(c)), [Wake]) && !After(Next(s, Confirmation(c)), [Wake]).app.Waiting?)
  {
    var s := states[i];
    RunKeepsInv(states, steps, i);
    if s.drv.Confirms? {
      forall es | Quiet(s, es) ensures After(s, es).app.Waiting? { StuckQuietly(s, es); }
      forall c
        ensures Quiet(Next(s, Confirmation(c)), [Wake]) && !After(Next(s, Confirmation(c)), [Wake]).app.Waiting?
      {
        assert Quiet(Next(Next(s, Confirmation(c)), Wake), []) && [Wake][1..] == [];
      }
    } else {
      var es := FinishesQuietly(s);
    }
  }

  /**
    * While the frame to be sent is queued, at most seven received frames can be waiting: the pool bounds what
    * piles up.
    */
  lemma BacklogBounded(states: seq<State>, steps: seq<Step>, i: nat)
    requires IsRun(states, steps) && i < |states|
    ensures var s := states[i];
            |s.tx| + |s.held| + (if s.app.Waiting? && s.signal.None? then 1 else 0) <= CHANNEL_SIZE
  {
    RunKeepsInv(states, steps, i);
  }
}
