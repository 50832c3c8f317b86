/** From a frame in the stack to the bus and back up again through every layer. */
module EndToEnd {
  import opened Wrappers
  import opened Frames
  import opened Checksums
  import opened Wire
  import opened DriverMachine
  import opened Lines
  import opened DataPoints
  import Networks
  import Transport
  import Application
  import Repetition

  /** All header getters agree on `s` and `w`; in the shortest frames the check octet is where the APCI would end. */
  predicate SameHeader(s: Bytes, w: Bytes)
    requires STANDARD.Fits(s) && STANDARD.Fits(w)
  {
    && FrameTypeBit(s) == FrameTypeBit(w) && PriorityOf(s) == PriorityOf(w) && RepeatedBit(s) == RepeatedBit(w)
    && SrcAddr(STANDARD, s) == SrcAddr(STANDARD, w) && DstAddr(STANDARD, s) == DstAddr(STANDARD, w)
    && AddrTypeBit(STANDARD, s) == AddrTypeBit(STANDARD, w) && HopCount(STANDARD, s) == HopCount(STANDARD, w)
    && Length(STANDARD, s) == Length(STANDARD, w)
    && Tpci8(STANDARD, s) == Tpci8(STANDARD, w) && Tpci6(STANDARD, s) == Tpci6(STANDARD, w)
    && TpciSeq(STANDARD, s) == TpciSeq(STANDARD, w)
    && (|s| >= 9 ==> Apci10(STANDARD, s) == Apci10(STANDARD, w) && Apci4(STANDARD, s) == Apci4(STANDARD, w))
  }

  lemma OnWireWellFormed(s: Bytes)
    requires Sendable(s)
    ensures WellFormed(OnWire(s)) && 8 <= |s| <= 23
    ensures SameHeader(s, OnWire(s))
  {
    var w := OnWire(s);
    LengthBelowMax(false, s);
    FilledSlotIff(s);
    assert forall i :: 0 <= i < |s| - 1 ==> w[i] == s[i];
    assert ReadAddr(w, 1) == ReadAddr(s, 1) && ReadAddr(w, 3) == ReadAddr(s, 3);
  }

  /**
    * Wire round trip: what `send_frame` writes for any sendable frame decodes, whatever follows it, to
    * octets that a driver waiting at the top of `run` takes and hands up, up to one silence later,
    * unchanged but for the check octet in the last slot, with every header getter as before.
    */
  lemma WireRoundTrip(s: Bytes, rest: Bytes, d: Driver)
    requires Sendable(s) && d.mode.Idle? && d.queue == []
    ensures var w := OnWire(s);
            && Decode(SendStream(s) + rest, []) == Some((w, rest))
            && |w| == |s| >= 8 && w[..|s| - 1] == s[..|s| - 1] && w[|s| - 1] == CheckOctet(s)
            && SameHeader(s, w)
            && Run(d, Burst(w)) == d.(up := d.up + [Standard(w)], uart := d.uart + Acks(false, w))
  {
    OnWireWellFormed(s);
    SendStreamDecodes(s, rest);
    AfterFrame(d, OnWire(s));
  }

  lemma SenderConfirmed(s: Bytes, w: Bytes, sender: Driver)
    requires |s| >= 8 && |w| == |s| && sender.mode.Idle? && sender.queue == []
    ensures Run(sender, [Request(Standard(s))] + Octets(w) + [Token.Byte(0x8b, true)])
         == sender.(uart := sender.uart + SendStream(s), signals := sender.signals + [ConOk])
  {
    var quiet: seq<Token> := seq(0, _ => Silence);
    var ts := [Request(Standard(s))] + Octets(w);
    OctetsHeard(w);
    assert ts + quiet == ts;
    TransmissionConfirmed(sender, Standard(s), Octets(w), 0, Token.Byte(0x8b, true));
  }

  /**
    * One station to another: the sender writes a stream the bus chip decodes, its transmission is
    * confirmed once the chip has echoed the octets and reported success, and the receiver hands the frame up.
    */
  lemma StationToStation(s: Bytes, sender: Driver, receiver: Driver)
    requires Sendable(s) && sender.mode.Idle? && sender.queue == [] && receiver.mode.Idle? && receiver.queue == []
    ensures var w := OnWire(s);
            && Decode(SendStream(s), []) == Some((w, []))
            && Run(sender, [Request(Standard(s))] + Octets(w) + [Token.Byte(0x8b, true)])
               == sender.(uart := sender.uart + SendStream(s), signals := sender.signals + [ConOk])
            && Run(receiver, Burst(w))
               == receiver.(up := receiver.up + [Standard(w)], uart := receiver.uart + Acks(false, w))
  {
    FrameOnWire(s, receiver);
    OnWireWellFormed(s);
    SenderConfirmed(s, OnWire(s), sender);
  }

  // Everything the stack builds can be sent

  lemma GroupResponseSendable(v: DataPoint, p: Priority)
    ensures Sendable(Application.ResponseFrame(v, p))
  {
    PriorityKeepsStart(p);
  }

  lemma PriorityKeepsStart(p: Priority)
    ensures IsStandardStart(Application.ControlOctet(p))
    ensures PriorityOf([Application.ControlOctet(p)]) == p
  {
  }

  /** Numbered data stays sendable under the connection's header, if it was before. */
  lemma DataTpduSendable(dst: bv16, sq: bv8, s: Bytes)
    requires Sendable(s) && STANDARD.Fits(s)
    ensures Sendable(Repetition.DataTpdu(dst, sq, s))
  {
    Repetition.DataTpduCoherent(dst, sq, s);
    Repetition.DataTpduFrame(dst, sq, s);
  }

  // Self-interpretation

  /** What the receiving layers read from a group response, given octet by octet. */
  lemma GroupResponseReads(v: DataPoint, p: Priority, w: Bytes)
    requires |w| == 9 + ByteLength(v) && w[0] == Application.ControlOctet(p)
    requires w[1..5] == [0x11, 0x78, 0x09, 0x62] && w[5] == (if v.U8? then 0xF2 else 0xF1) && w[6] == 0
    requires if v.U8? then w[7] == 0x40 && w[8] == Value(v) else w[7] == 0x40 | Value(v)
    ensures DstAddr(STANDARD, w) == Group(0x0962) && SrcAddr(STANDARD, w) == ADDRESS
    ensures PriorityOf(w) == p && HopCount(STANDARD, w) == 7 && Tpci6(STANDARD, w) == 0
    ensures Apci4(STANDARD, w) == 1 && Read(v, w) == Value(v)
  {
    assert w[1] == w[1..5][0] && w[2] == w[1..5][1] && w[3] == w[1..5][2] && w[4] == w[1..5][3];
    PriorityKeepsStart(p);
    assert PriorityOf(w) == PriorityOf([w[0]]);
    ValueBits(v);
    assert ADDRESS == 0x1178;
  }

  /**
    * A group response of any datapoint and priority, sent, received and passed up, is a group data
    * TPDU carrying A_GroupValue_Response from which the value, the priority and the hop count can be read.
    */
  lemma GroupResponseUnderstood(v: DataPoint, p: Priority, d: Driver, c: Transport.Conn, blockFree: bool)
    requires d.mode.Idle? && d.queue == []
    ensures var s := Application.ResponseFrame(v, p);
            var f: Frame := Standard(OnWire(s));
            && Decode(SendStream(s), []) == Some((f.bytes, []))
            && Run(d, Burst(f.bytes)) == d.(up := d.up + [f], uart := d.uart + [0x11])
            && Networks.Receive(f) == Networks.DataGroup(f)
            && Transport.ReceiveInd(c, Networks.DataGroup(f), blockFree)
               == Transport.Outcome(c, [], Ok(Some(Transport.DataGroup(f))))
            && Application.Receive(Ok(Transport.DataGroup(f))) == Application.GroupValueResponse
            && Read(v, f.bytes) == Value(v)
            && PriorityOf(f.bytes) == p && HopCount(STANDARD, f.bytes) == 7 && f.Source() == ADDRESS
  {
    var s := Application.ResponseFrame(v, p);
    GroupResponseSendable(v, p);
    FrameOnWire(s, d);
    GroupResponseWireReads(v, p);
    GroupFrameClassified(OnWire(s), c, blockFree);
    AcksOfFrame(OnWire(s));
  }

  lemma GroupResponseWireReads(v: DataPoint, p: Priority)
    ensures var w := OnWire(Application.ResponseFrame(v, p));
            && DstAddr(STANDARD, w) == Group(0x0962) && SrcAddr(STANDARD, w) == ADDRESS
            && PriorityOf(w) == p && HopCount(STANDARD, w) == 7 && Tpci6(STANDARD, w) == 0
            && Apci4(STANDARD, w) == 1 && Read(v, w) == Value(v)
  {
    var s := Application.ResponseFrame(v, p);
    var w := OnWire(s);
    assert forall i :: 0 <= i < |s| - 1 ==> w[i] == s[i];
    assert w[0] == s[0] && w[5] == s[5] && w[6] == s[6] && w[7] == s[7] && (v.U8? ==> w[8] == s[8]);
    assert w[1..5] == s[1..5] == [0x11, 0x78, 0x09, 0x62];
    GroupResponseReads(v, p, w);
  }

  /**
    * Any frame to a non-zero group with group data TPCI and response APCI takes this way up, acknowledged on
    * the line.
    */
  lemma GroupFrameClassified(w: Bytes, c: Transport.Conn, blockFree: bool)
    requires |w| >= 9 && DstAddr(STANDARD, w) == Group(0x0962) && Tpci6(STANDARD, w) == 0 && Apci4(STANDARD, w) == 1
    ensures ForUs(w)
    ensures var f: Frame := Standard(w);
            && Networks.Receive(f) == Networks.DataGroup(f)
            && Transport.ReceiveInd(c, Networks.DataGroup(f), blockFree)
               == Transport.Outcome(c, [], Ok(Some(Transport.DataGroup(f))))
            && Application.Receive(Ok(Transport.DataGroup(f))) == Application.GroupValueResponse
  {
    var f: Frame := Standard(w);
    assert f.Destination() == DstAddr(STANDARD, w) && f.TpciSix() == Tpci6(STANDARD, w);
  }

  /** The round trip, in the form the layers above need. */
  lemma FrameOnWire(s: Bytes, d: Driver)
    requires Sendable(s) && d.mode.Idle? && d.queue == []
    ensures var w := OnWire(s);
            && WellFormed(w) && Decode(SendStream(s), []) == Some((w, []))
            && Run(d, Burst(w)) == d.(up := d.up + [Standard(w)], uart := d.uart + Acks(false, w))
  {
    WireRoundTrip(s, [], d);
    OnWireWellFormed(s);
    assert SendStream(s) + [] == SendStream(s);
  }

  lemma ValueBits(v: DataPoint)
    ensures !v.U8? ==> ((0x40 | Value(v)) as bv16) >> 6 == 1
    ensures v.B1? ==> (0x40 | Value(v)) & 0x1 == Value(v)
    ensures v.B2? ==> (0x40 | Value(v)) & 0x3 == Value(v)
  {
  }

  /** Every T_Disconnect the stack sends arrives as one; every T_ACK it sends would be refused as an invalid TPDU. */
  lemma ResponsesUnderstood(dst: bv16, sq: bv8, d: Driver, c: Transport.Conn, blockFree: bool)
    requires d.mode.Idle? && d.queue == []
    ensures var bye: Frame := Standard(OnWire(Transport.Response(dst, 0, Transport.T_DISCONNECT)));
            && Run(d, Burst(bye.bytes)).up == d.up + [bye]
            && Networks.Receive(bye) == Networks.DataIndividual(bye) && bye.Destination() == Individual(dst)
            && Transport.KindOf(bye.Tpci()).DisconnectReq?
    ensures var ack: Frame := Standard(OnWire(Transport.Response(dst, sq, Transport.T_ACK)));
            && Run(d, Burst(ack.bytes)).up == d.up + [ack]
            && Networks.Receive(ack) == Networks.DataIndividual(ack) && ack.Destination() == Individual(dst)
            && Transport.ReceiveInd(c, Networks.DataIndividual(ack), blockFree)
               == Transport.Outcome(c, [], Err(InvalidTpdu(0xc2 | ((sq & 0x7) << 2))))
  {
    var bye, ack := Transport.Response(dst, 0, Transport.T_DISCONNECT), Transport.Response(dst, sq, Transport.T_ACK);
    Transport.ResponseSendable(dst, 0, Transport.T_DISCONNECT);
    Transport.ResponseSendable(dst, sq, Transport.T_ACK);
    WireRoundTrip(bye, [], d);
    WireRoundTrip(ack, [], d);
    Transport.KindTable(Tpci8(STANDARD, ack));
    Transport.KindTable(Tpci8(STANDARD, bye));
    assert (0xc2 | ((sq & 0x7) << 2)) > 0x81;
  }
}
