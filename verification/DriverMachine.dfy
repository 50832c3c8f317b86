/**
  * The NCN51 driver as a machine over what happens on the UART, one token at a time
  * (src/ncn51_driver.rs). The driver class in Driver.dfy, which blocks inside nested reads
  * like the source, is proved to follow this machine.
  */
module DriverMachine {
  import opened Frames
  import opened Checksums
  import opened Wire

  /**
    * `Byte` also tells whether the frame pool has a block when it arrives; `Silence` is one expired
    * bus-silence timeout; `Request` is a frame put into the send queue by the data link layer.
    */
  datatype Token = Byte(b: bv8, blockFree: bool) | ReadError | Silence | Request(frame: Frame)

  datatype ConStatus = ConOk | ConNotOk

  /** Where the driver stands; `got` are the octets received so far, `left` the echo octets to come. */
  datatype Mode =
    | Idle
    | Header(extended: bool, got: Bytes)
    | Payload(extended: bool, got: Bytes)
    | Drain
    | Echo(left: nat)
    | Confirm

  /** `uart` is everything written, `up` every frame delivered, `signals` every confirmation raised. */
  datatype Driver = Driver(mode: Mode, queue: seq<Frame>, uart: Bytes, up: seq<Frame>, signals: seq<ConStatus>)

  const START := Driver(Idle, [], [], [], [])

  /** U_ACKN_REQ with the ACK flag. */
  const ACK_OCTET: bv8 := 0x10 | 0x1

  function Format(extended: bool): (l: Layout)
    ensures l == STANDARD || l == EXTENDED
  {
    if extended then EXTENDED else STANDARD
  }

  /** The header is enough to tell whether to acknowledge: any group, or this device. */
  predicate Addressed(l: Layout, s: Bytes)
    requires (l == STANDARD || l == EXTENDED) && |s| >= l.Header()
  {
    s[l.at] >> 7 == 1 || ReadAddr(s, l.Dst()) == ADDRESS
  }

  /** Complete and intact: as long as its length field says, with the right check octet. */
  predicate Accepts(extended: bool, got: Bytes) {
    var l := Format(extended);
    l.minSize <= |got| <= l.maxSize && |got| == Length(l, got) && Checked(got)
  }

  /** A full buffer is never a frame: both length fields stay below the buffer size. */
  lemma LengthBelowMax(extended: bool, got: Bytes)
    requires |got| > LG_FIELD
    ensures Length(Format(extended), got) < Format(extended).maxSize
  {
  }

  /** What is handed up. `set_length` of an extended frame overwrites the length octet with 263 - 9. */
  function Received(extended: bool, got: Bytes): Frame
    requires Accepts(extended, got)
  {
    if extended then Extended(got[LG_FIELD := 0xFE]) else Standard(got)
  }

  function Finish(d: Driver, extended: bool, got: Bytes): Driver {
    if Accepts(extended, got) then d.(mode := Idle, up := d.up + [Received(extended, got)]) else d.(mode := Drain)
  }

  function Confirmed(d: Driver, c: ConStatus): Driver {
    d.(mode := Idle, signals := d.signals + [c])
  }

  function ConfirmOctet(c: bv8): ConStatus {
    if c & 0x7f == 0xb && c >> 7 != 0 then ConOk else ConNotOk
  }

  function OnHeaderByte(d: Driver, extended: bool, got: Bytes): Driver {
    var l := Format(extended);
    if |got| < l.Header() then d.(mode := Header(extended, got))
    else d.(mode := Payload(extended, got), uart := d.uart + if Addressed(l, got) then [ACK_OCTET] else [])
  }

  function OnByte(d: Driver, b: bv8, blockFree: bool): Driver {
    match d.mode
    case Idle =>
      if !IsFrameStart(b) then d
      else if blockFree then d.(mode := Header(IsExtendedStart(b), [b]))
      else d.(mode := Drain)
    case Header(ext, got) => OnHeaderByte(d, ext, got + [b])
    case Payload(ext, got) =>
      if |got| + 1 < Format(ext).maxSize then d.(mode := Payload(ext, got + [b])) else Finish(d, ext, got + [b])
    case Drain => d
    case Echo(left) => d.(mode := if left > 1 then Echo(left - 1) else Confirm)
    case Confirm => Confirmed(d, ConfirmOctet(b))
  }

  function OnSilence(d: Driver): Driver {
    match d.mode
    case Header(_, _) => d.(mode := Drain)
    case Payload(ext, got) => Finish(d, ext, got)
    case Drain => d.(mode := Idle)
    case Echo(_) => Confirmed(d, ConNotOk)
    case _ => d
  }

  function OnReadError(d: Driver): Driver {
    match d.mode
    case Header(_, _) => d.(mode := Drain)
    case Payload(_, _) => d.(mode := Drain)
    case Echo(_) => Confirmed(d, ConNotOk)
    case Confirm => Confirmed(d, ConNotOk)
    case _ => d
  }

  /** Back at the top of `run` with a frame queued, the driver starts sending it. */
  function Settle(d: Driver): Driver {
    if d.mode.Idle? && d.queue != [] then
      var s := d.queue[0].bytes;
      d.(mode := Echo(|s|), queue := d.queue[1..], uart := d.uart + SendStream(s))
    else d
  }

  function React(d: Driver, t: Token): Driver {
    match t
    case Byte(b, blockFree) => OnByte(d, b, blockFree)
    case ReadError => OnReadError(d)
    case Silence => OnSilence(d)
    case Request(f) => d.(queue := d.queue + [f])
  }

  function Step(d: Driver, t: Token): Driver { Settle(React(d, t)) }

  function Run(d: Driver, ts: seq<Token>): Driver {
    if ts == [] then d else Step(Run(d, ts[..|ts| - 1]), ts[|ts| - 1])
  }

  lemma {:induction false} RunConcat(d: Driver, a: seq<Token>, b: seq<Token>)
    ensures Run(d, a + b) == Run(Run(d, a), b)
  {
    if b == [] {
      assert a + b == a;
    } else {
      var n := |b| - 1;
      RunConcat(d, a, b[..n]);
      assert (a + b)[..|a + b| - 1] == a + b[..n];
    }
  }

  // Self-stabilisation

  predicate Receiving(ts: seq<Token>) {
    forall t :: t in ts ==> !t.Request?
  }

  /** Nothing queued and not in the middle of a transmission: a state the receive side can be in. */
  predicate ReceiveState(d: Driver) {
    d.queue == [] && !d.mode.Echo? && !d.mode.Confirm?
  }

  lemma StepStaysReceiving(d: Driver, t: Token)
    requires ReceiveState(d) && !t.Request?
    ensures ReceiveState(Step(d, t)) && Step(d, t).signals == d.signals
  {
  }

  lemma {:induction false} StaysReceiving(d: Driver, ts: seq<Token>)
    requires ReceiveState(d) && Receiving(ts)
    ensures ReceiveState(Run(d, ts)) && Run(d, ts).signals == d.signals
  {
    if ts != [] {
      var n := |ts| - 1;
      StaysReceiving(d, ts[..n]);
      StepStaysReceiving(Run(d, ts[..n]), ts[n]);
    }
  }

  /** One silence ends any reception, at the top of `run` or draining; only a wait for confirmation survives it. */
  lemma OneSilence(d: Driver)
    requires d.queue == []
    ensures var m := Step(d, Silence).mode;
            if d.mode.Confirm? then m.Confirm? else m.Idle? || m.Drain?
    ensures Step(d, Silence).queue == []
    ensures d.mode.Idle? || d.mode.Drain? ==> Step(d, Silence).mode.Idle?
  {
  }

  /**
    * With nothing queued, two silences bring the driver back to the top of `run` exactly if it is not waiting
    * for a confirmation octet.
    */
  lemma TwoSilencesIff(d: Driver)
    requires d.queue == []
    ensures Run(d, [Silence, Silence]).mode.Idle? <==> !d.mode.Confirm?
  {
    var e := Run(d, [Silence]);
    assert [Silence, Silence][..1] == [Silence] && [Silence][..0] == [];
    assert Run(d, [Silence][..0]) == d;
    OneSilence(d);
    OneSilence(e);
  }

  /** A driver waiting for the confirmation octet of its frame does so for any number of silences. */
  lemma {:induction false} ConfirmIgnoresSilence(d: Driver, n: nat)
    requires d.mode.Confirm?
    ensures Run(d, seq(n, _ => Silence)) == d
  {
    if n > 0 {
      ConfirmIgnoresSilence(d, n - 1);
      assert seq(n, _ => Silence)[..n - 1] == seq(n - 1, _ => Silence);
    }
  }

  /**
    * From any receive state, whatever came before, two silences end at the top of `run`, nothing sent or
    * confirmed meanwhile.
    */
  lemma SelfStabilises(d: Driver, ts: seq<Token>)
    requires ReceiveState(d) && Receiving(ts)
    ensures var e := Run(d, ts + [Silence, Silence]); e.mode.Idle? && e.queue == [] && e.signals == d.signals
  {
    StaysReceiving(d, ts);
    RunConcat(d, ts, [Silence, Silence]);
    TwoSilencesIff(Run(d, ts));
    StaysReceiving(Run(d, ts), [Silence, Silence]);
  }

  // Confirmations

  function Requests(ts: seq<Token>): seq<Frame> {
    if ts == [] then [] else
      var t := ts[|ts| - 1];
      Requests(ts[..|ts| - 1]) + if t.Request? then [t.frame] else []
  }

  /** How many frames have been taken from the queue: those confirmed and the one in transmission. */
  function Taken(d: Driver): nat {
    |d.signals| + if d.mode.Echo? || d.mode.Confirm? then 1 else 0
  }

  lemma ReactTakes(d: Driver, t: Token)
    ensures Taken(React(d, t)) == Taken(d)
    ensures React(d, t).queue == d.queue + if t.Request? then [t.frame] else []
  {
  }

  lemma SettleTakes(e: Driver, qs: seq<Frame>)
    requires Taken(e) <= |qs| && e.queue == qs[Taken(e)..]
    ensures Taken(Settle(e)) <= |qs| && Settle(e).queue == qs[Taken(Settle(e))..]
  {
  }

  lemma StepTakes(d: Driver, t: Token, rs: seq<Frame>)
    requires Taken(d) <= |rs| && d.queue == rs[Taken(d)..]
    ensures var e := Step(d, t);
            var qs := rs + if t.Request? then [t.frame] else [];
            Taken(e) <= |qs| && e.queue == qs[Taken(e)..]
  {
    var added := if t.Request? then [t.frame] else [];
    ReactTakes(d, t);
    assert (rs + added)[Taken(d)..] == rs[Taken(d)..] + added;
    SettleTakes(React(d, t), rs + added);
  }

  /**
    * Frames are taken in the order they were queued, and each one taken raises exactly one signal when its
    * transmission ends.
    */
  lemma {:induction false} OneSignalPerFrame(ts: seq<Token>)
    ensures var d := Run(START, ts);
            Taken(d) <= |Requests(ts)| && d.queue == Requests(ts)[Taken(d)..]
  {
    if ts != [] {
      var n := |ts| - 1;
      OneSignalPerFrame(ts[..n]);
      StepTakes(Run(START, ts[..n]), ts[n], Requests(ts[..n]));
    }
  }

  // Transmissions

  predicate AllOctets(ts: seq<Token>) { forall i :: 0 <= i < |ts| ==> ts[i].Byte? }

  /** The driver with `left` octets of the echo still to come. */
  function Echoing(d: Driver, f: Frame, left: nat): Driver {
    d.(mode := if left > 0 then Echo(left) else Confirm, uart := d.uart + SendStream(f.bytes))
  }

  lemma EchoesOctet(d: Driver, f: Frame, left: nat, t: Token)
    requires d.queue == [] && left > 0 && t.Byte?
    ensures Step(Echoing(d, f, left), t) == Echoing(d, f, left - 1)
  {
  }

  lemma StartsEcho(d: Driver, f: Frame)
    requires d.mode.Idle? && d.queue == []
    ensures Run(d, [Request(f)]) == Echoing(d, f, |f.bytes|)
  {
    assert [Request(f)][..0] == [] && Run(d, []) == d;
    assert [f][1..] == [];
  }

  lemma {:induction false} EchoesOctets(d: Driver, f: Frame, left: nat, echo: seq<Token>)
    requires d.queue == [] && AllOctets(echo) && |echo| <= left
    ensures Run(Echoing(d, f, left), echo) == Echoing(d, f, left - |echo|)
    decreases |echo|
  {
    if echo != [] {
      var n := |echo| - 1;
      EchoesOctets(d, f, left, echo[..n]);
      EchoesOctet(d, f, left - n, echo[n]);
    }
  }

  lemma ReadsEcho(d: Driver, f: Frame, echo: seq<Token>)
    requires d.mode.Idle? && d.queue == [] && AllOctets(echo) && |echo| <= |f.bytes|
    ensures Run(d, [Request(f)] + echo) == Echoing(d, f, |f.bytes| - |echo|)
  {
    StartsEcho(d, f);
    RunConcat(d, [Request(f)], echo);
    EchoesOctets(d, f, |f.bytes|, echo);
  }

  /** What ends the wait for the confirmation: an octet, of which only 0x8B is good news, or a read error. */
  function Outcome(t: Token): ConStatus
    requires t.Byte? || t.ReadError?
  {
    if t.Byte? && t.b == 0x8b then ConOk else ConNotOk
  }

  lemma ConfirmStep(d: Driver, t: Token)
    requires d.mode.Confirm? && d.queue == [] && (t.Byte? || t.ReadError?)
    ensures Step(d, t) == d.(mode := Idle, signals := d.signals + [Outcome(t)])
  {
    if t.Byte? {
      var c := t.b;
      assert c & 0x7f == 0xb && c >> 7 != 0 <==> c == 0x8b;
    }
  }

  /**
    * A frame requested at the top of `run` is written once; and once the bus chip has returned as many octets
    * as it has - whatever they are - the next octet or read error, after any number of silences, alone decides
    * the confirmation.
    */
  lemma TransmissionConfirmed(d: Driver, f: Frame, echo: seq<Token>, silences: nat, t: Token)
    requires d.mode.Idle? && d.queue == [] && AllOctets(echo) && |echo| == |f.bytes| && (t.Byte? || t.ReadError?)
    ensures Run(d, [Request(f)] + echo + seq(silences, _ => Silence) + [t])
         == d.(uart := d.uart + SendStream(f.bytes), signals := d.signals + [Outcome(t)])
  {
    var ts, quiet := [Request(f)] + echo, seq(silences, _ => Silence);
    ReadsEcho(d, f, echo);
    RunConcat(d, ts, quiet);
    ConfirmIgnoresSilence(Echoing(d, f, 0), silences);
    assert (ts + quiet + [t])[..|ts + quiet|] == ts + quiet;
    ConfirmStep(Echoing(d, f, 0), t);
  }

  /**
    * An echo cut short by a silence or a read error is a transmission that failed, and the driver is back at
    * the top of `run`.
    */
  lemma TransmissionCutShort(d: Driver, f: Frame, echo: seq<Token>, t: Token)
    requires d.mode.Idle? && d.queue == [] && AllOctets(echo) && |echo| < |f.bytes| && (t.Silence? || t.ReadError?)
    ensures Run(d, [Request(f)] + echo + [t])
         == d.(uart := d.uart + SendStream(f.bytes), signals := d.signals + [ConNotOk])
  {
    var ts := [Request(f)] + echo;
    ReadsEcho(d, f, echo);
    assert (ts + [t])[..|ts|] == ts;
  }
}
