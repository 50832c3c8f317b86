/**
  * The driver of the interleaving (Handshake.dfy) is the driver of the machine (DriverMachine.dfy), which in
  * turn is the blocking code (Driver.dfy): whatever the machine does on a token is a sequence of steps there.
  */
module DriverSteps {
  import opened Wrappers
  import opened Frames
  import opened DriverMachine
  import H = Handshake

  predicate SameMode(m: Mode, drv: H.Drv) {
    match m
    case Idle => drv.AtTop?
    case Header(_, _) => drv.Receives?
    case Payload(_, _) => drv.Receives?
    case Drain => drv.Drains?
    case Echo(_) => drv.Echoes?
    case Confirm => drv.Confirms?
  }

  /** The same place in the code, as many frames queued, as many signals raised. */
  predicate Corresponds(d: Driver, s: H.State) {
    SameMode(d.mode, s.drv) && |d.queue| == |s.rx| && |d.signals| == s.signalled
  }

  /** From `d` and `s` to `e` and `t`: as many frames handed up, and a signal raised is the one that can be read. */
  predicate SameOutput(d: Driver, s: H.State, e: Driver, t: H.State) {
    && |t.handed| - |s.handed| == |e.up| - |d.up|
    && (|e.signals| > |d.signals| ==> t.signal.Some? && t.signal.value.status == e.signals[|e.signals| - 1])
  }

  /** What the token says of the other task: a free block, or a frame ready to be queued. */
  predicate Fits(t: Token, s: H.State) {
    match t
    case Byte(_, blockFree) => blockFree == (s.free > 0)
    case Request(_) => s.app.Ready?
    case _ => true
  }

  lemma OneCan(s: H.State, e: H.Step)
    requires H.Enabled(s, e)
    ensures H.Can(s, [e]) && H.After(s, [e]) == H.Next(s, e)
  {
    assert [e][1..] == [];
    assert H.Can(H.Next(s, e), []) && H.After(H.Next(s, e), []) == H.Next(s, e);
  }

  lemma {:induction false} CanConcat(s: H.State, a: seq<H.Step>, b: seq<H.Step>)
    requires H.Can(s, a) && H.Can(H.After(s, a), b)
    ensures H.Can(s, a + b) && H.After(s, a + b) == H.After(H.After(s, a), b)
    decreases a
  {
    if a == [] {
      assert a + b == b;
    } else {
      assert (a + b)[0] == a[0] && (a + b)[1..] == a[1..] + b;
      CanConcat(H.Next(s, a[0]), a[1..], b);
    }
  }

  lemma {:induction false} CanKeepsInv(s: H.State, es: seq<H.Step>)
    requires H.Inv(s) && H.Can(s, es)
    ensures H.Inv(H.After(s, es))
    decreases es
  {
    if es != [] {
      H.NextKeepsInv(s, es[0]);
      CanKeepsInv(H.Next(s, es[0]), es[1..]);
    }
  }

  /** The single step the token causes, if any, but for a reception that is completed. */
  function StepFor(d: Driver, t: Token): Option<H.Step>
    requires !(d.mode.Payload? && t.Silence? && Accepts(d.mode.extended, d.mode.got))
  {
    match t
    case Request(_) => Some(H.Enqueue)
    case Silence => (
      match d.mode
      case Header(_, _) => Some(H.AbortReceive)
      case Payload(_, _) => Some(H.AbortReceive)
      case Drain => Some(H.EndDrain)
      case Echo(_) => Some(H.EchoFails)
      case _ => None)
    case ReadError => (
      match d.mode
      case Header(_, _) => Some(H.AbortReceive)
      case Payload(_, _) => Some(H.AbortReceive)
      case Echo(_) => Some(H.EchoFails)
      case Confirm => Some(H.Confirmation(ConNotOk))
      case _ => None)
    case Byte(b, blockFree) => (
      match d.mode
      case Idle =>
        if !IsFrameStart(b) then None else if blockFree then Some(H.StartReceive(0)) else Some(H.RefuseReceive)
      case Payload(ext, got) => if |got| + 1 < Format(ext).maxSize then None else Some(H.AbortReceive)
      case Echo(left) => if left > 1 then None else Some(H.EchoDone)
      case Confirm => Some(H.Confirmation(ConfirmOctet(b)))
      case _ => None)
  }

  lemma ByteStep(d: Driver, t: Token, s: H.State)
    requires Corresponds(d, s) && H.Inv(s) && Fits(t, s) && t.Byte?
    ensures var o, e := StepFor(d, t), React(d, t);
            if o.None? then Corresponds(e, s) && SameOutput(d, s, e, s)
            else
              && H.Enabled(s, o.value)
              && Corresponds(e, H.Next(s, o.value)) && SameOutput(d, s, e, H.Next(s, o.value))
  {
    if d.mode.Payload? && |d.mode.got| + 1 >= Format(d.mode.extended).maxSize {
      LengthBelowMax(d.mode.extended, d.mode.got + [t.b]);
    }
  }

  lemma SingleStep(d: Driver, t: Token, s: H.State)
    requires Corresponds(d, s) && H.Inv(s) && Fits(t, s)
    requires !(d.mode.Payload? && t.Silence? && Accepts(d.mode.extended, d.mode.got))
    ensures var o, e := StepFor(d, t), React(d, t);
            if o.None? then Corresponds(e, s) && SameOutput(d, s, e, s)
            else
              && H.Enabled(s, o.value)
              && Corresponds(e, H.Next(s, o.value)) && SameOutput(d, s, e, H.Next(s, o.value))
              && (t.Silence? ==> !H.NeedsChip(o.value))
  {
    if t.Byte? {
      ByteStep(d, t, s);
    }
  }

  lemma CompletedReception(d: Driver, s: H.State)
    requires Corresponds(d, s) && H.Inv(s)
    requires d.mode.Payload? && Accepts(d.mode.extended, d.mode.got)
    ensures H.Enabled(s, H.FinishReceive) && H.Enabled(H.Next(s, H.FinishReceive), H.Deliver)
    ensures var u := H.Next(H.Next(s, H.FinishReceive), H.Deliver);
            Corresponds(React(d, Silence), u) && SameOutput(d, s, React(d, Silence), u)
  {
  }

  lemma ReactSteps(d: Driver, t: Token, s: H.State) returns (es: seq<H.Step>)
    requires Corresponds(d, s) && H.Inv(s) && Fits(t, s)
    ensures H.Can(s, es) && Corresponds(React(d, t), H.After(s, es))
    ensures SameOutput(d, s, React(d, t), H.After(s, es)) && (t.Silence? ==> H.Quiet(s, es))
  {
    if d.mode.Payload? && t.Silence? && Accepts(d.mode.extended, d.mode.got) {
      CompletedReception(d, s);
      OneCan(s, H.FinishReceive);
      OneCan(H.Next(s, H.FinishReceive), H.Deliver);
      CanConcat(s, [H.FinishReceive], [H.Deliver]);
      es := [H.FinishReceive] + [H.Deliver];
    } else {
      SingleStep(d, t, s);
      var o := StepFor(d, t);
      if o.None? {
        es := [];
      } else {
        OneCan(s, o.value);
        es := [o.value];
      }
    }
  }

  lemma SettleSteps(d: Driver, s: H.State) returns (es: seq<H.Step>)
    requires Corresponds(d, s)
    ensures H.Quiet(s, es) && Corresponds(Settle(d), H.After(s, es)) && SameOutput(d, s, Settle(d), H.After(s, es))
    ensures H.After(s, es).signal == s.signal
  {
    if d.mode.Idle? && d.queue != [] {
      OneCan(s, H.Dequeue);
      es := [H.Dequeue];
    } else {
      es := [];
    }
  }

  /**
    * Whatever the driver does on a token, it does by steps of the interleaving, with the same frames handed
    * up and the same confirmation; and on a silence by steps that need nothing from the bus chip.
    */
  lemma StepRefines(d: Driver, t: Token, s: H.State) returns (es: seq<H.Step>)
    requires Corresponds(d, s) && H.Inv(s) && Fits(t, s)
    ensures H.Can(s, es) && Corresponds(Step(d, t), H.After(s, es)) && H.Inv(H.After(s, es))
    ensures SameOutput(d, s, Step(d, t), H.After(s, es)) && (t.Silence? ==> H.Quiet(s, es))
  {
    var a := ReactSteps(d, t, s);
    var b := SettleSteps(React(d, t), H.After(s, a));
    CanConcat(s, a, b);
    es := a + b;
    CanKeepsInv(s, es);
    assert Settle(React(d, t)).signals == React(d, t).signals;
  }

  lemma StartCorresponds(s: H.State)
    requires H.Init(s)
    ensures Corresponds(START, s) && H.Inv(s)
  {
  }
}
