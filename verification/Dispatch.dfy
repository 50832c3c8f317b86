/** From the octets of a received frame to what each layer makes of it. */
module Dispatch {
  import opened Wrappers
  import opened Frames
  import opened DriverMachine
  import opened Lines
  import Application
  import Networks
  import Transport

  // What the getters read, octet by octet

  /**
    * Address type and hop count, source, destination and TPCI, by their places in the standard and the extended
    * frame.
    */
  function AtIndex(f: Frame): nat { if f.Standard? then 5 else 1 }
  function SrcIndex(f: Frame): nat { if f.Standard? then 1 else 2 }
  function DstIndex(f: Frame): nat { if f.Standard? then 3 else 4 }
  function TpciIndex(f: Frame): nat { if f.Standard? then 6 else 7 }

  function Word(high: bv8, low: bv8): bv16 { high as bv16 * 256 + low as bv16 }

  lemma WordBits(high: bv8, low: bv8)
    ensures (high as bv16 << 8) | low as bv16 == Word(high, low)
  {
  }

  lemma TopBit(x: bv8)
    ensures x >> 7 == 1 <==> x >= 0x80
  {
  }

  lemma DstOctets(l: Layout, s: Bytes)
    requires l.Fits(s)
    ensures DstAddr(l, s) ==
      if s[l.at] >= 0x80 then Group(Word(s[l.Dst()], s[l.Dst() + 1])) else Individual(Word(s[l.Dst()], s[l.Dst() + 1]))
  {
    WordBits(s[l.Dst()], s[l.Dst() + 1]);
    TopBit(s[l.at]);
  }

  lemma SourceOctets(f: Frame)
    ensures var b, i := f.bytes, SrcIndex(f); f.Source() == Word(b[i], b[i + 1])
  {
    WordBits(f.bytes[SrcIndex(f)], f.bytes[SrcIndex(f) + 1]);
  }

  lemma DestinationOctets(f: Frame)
    ensures var b, j := f.bytes, DstIndex(f);
            f.Destination() ==
              if b[AtIndex(f)] >= 0x80 then Group(Word(b[j], b[j + 1])) else Individual(Word(b[j], b[j + 1]))
  {
    if f.Standard? {
      DstOctets(STANDARD, f.bytes);
    } else {
      DstOctets(EXTENDED, f.bytes);
    }
  }

  lemma TpduOctets(f: Frame)
    ensures var x, y := f.bytes[TpciIndex(f)], f.bytes[TpciIndex(f) + 1];
            && f.Tpci() == x && f.TpciSix() == x / 4 && f.Seq() == (x / 4) % 8
            && f.ApciFour() == (x % 4) as bv16 * 4 + (y / 64) as bv16
            && Apci10(f.Format(), f.bytes) == (x % 4) as bv16 * 256 + y as bv16
  {
    var x, y := f.bytes[TpciIndex(f)], f.bytes[TpciIndex(f) + 1];
    TpduBits(x, y);
  }

  lemma TpduBits(x: bv8, y: bv8)
    ensures x >> 2 == x / 4 && (x >> 2) & 0x7 == (x / 4) % 8
    ensures ((x as bv16 & 0x3) << 8) | y as bv16 == (x % 4) as bv16 * 256 + y as bv16
    ensures (((x as bv16 & 0x3) << 8) | y as bv16) >> 6 == (x % 4) as bv16 * 4 + (y / 64) as bv16
  {
  }

  /** The control octet and the octet with the hop count; priorities by their two-bit codes on the bus. */
  lemma ControlOctets(f: Frame)
    ensures var c, h := f.bytes[0], f.bytes[AtIndex(f)];
            && FrameTypeBit(f.bytes) == c / 128 && RepeatedBit(f.bytes) == (c / 32) % 2
            && (PriorityOf(f.bytes).System? <==> (c / 4) % 4 == 0)
            && (PriorityOf(f.bytes).Normal? <==> (c / 4) % 4 == 1)
            && (PriorityOf(f.bytes).Urgent? <==> (c / 4) % 4 == 2)
            && (PriorityOf(f.bytes).Low? <==> (c / 4) % 4 == 3)
            && HopCount(f.Format(), f.bytes) == (h / 16) % 8 && AddrTypeBit(f.Format(), f.bytes) == h / 128
  {
    ControlBits(f.bytes[0], f.bytes[AtIndex(f)]);
  }

  lemma ControlBits(c: bv8, h: bv8)
    ensures c >> 7 == c / 128 && (c >> 5) & 0x1 == (c / 32) % 2 && (c >> 2) & 0x3 == (c / 4) % 4
    ensures h >> 7 == h / 128 && (h >> 4) & 0x7 == (h / 16) % 8
  {
  }

  /** The length field, in the low half of octet 5 of a standard frame and in the whole octet of an extended one. */
  lemma LengthOctet(f: Frame)
    ensures var x := f.bytes[5];
            Length(f.Format(), f.bytes) == if f.Standard? then 8 + x as nat % 16 else (x as nat + 9) % 256
  {
    LengthOctets(f.bytes[5]);
  }

  // The network layer

  predicate ToGroups(f: Frame) { f.bytes[AtIndex(f)] >= 0x80 }

  predicate ToZero(f: Frame) { f.bytes[DstIndex(f)] == 0 && f.bytes[DstIndex(f) + 1] == 0 }

  lemma WordZero(high: bv8, low: bv8)
    ensures Word(high, low) == 0 <==> high == 0 && low == 0
  {
  }

  /** A frame to groups is a broadcast exactly if it is to group 0; all others are individually addressed. */
  lemma NetworkTable(f: Frame)
    ensures Networks.Receive(f) ==
      if !ToGroups(f) then Networks.DataIndividual(f)
      else if ToZero(f) then Networks.DataBroadcast(f)
      else Networks.DataGroup(f)
  {
    DestinationOctets(f);
    WordZero(f.bytes[DstIndex(f)], f.bytes[DstIndex(f) + 1]);
  }

  // The transport layer

  /**
    * Whatever the connection, a frame to groups leaves it alone and causes nothing to be sent; its TPCI octet
    * decides what is told: below 4 the data of a broadcast or of a group, from 4 to 7 tagged group data, and
    * everything else is an error.
    */
  lemma GroupTransportTable(c: Transport.Conn, f: Frame, blockFree: bool)
    requires ToGroups(f)
    ensures var x := f.bytes[TpciIndex(f)];
            Transport.ReceiveInd(c, Networks.Receive(f), blockFree) == Transport.Outcome(c, [],
              if ToZero(f) && x < 4 then Ok(Some(Transport.DataBroadcast(f)))
              else if !ToZero(f) && x < 4 then Ok(Some(Transport.DataGroup(f)))
              else if !ToZero(f) && x < 8 then Ok(Some(Transport.DataTagGroup(f)))
              else Err(InvalidTpdu(x / 4)))
  {
    var x := f.bytes[TpciIndex(f)];
    NetworkTable(f);
    TpduOctets(f);
    SixBits(x);
  }

  lemma SixBits(x: bv8)
    ensures x / 4 == 0 <==> x < 4
    ensures x / 4 == 1 <==> 4 <= x < 8
  {
  }

  /**
    * An individually addressed frame is data without connection below 4, and an error unless it is one of the
    * connection's.
    */
  lemma IndividualTransportTable(c: Transport.Conn, f: Frame, blockFree: bool)
    requires !ToGroups(f)
    ensures var x, o := f.bytes[TpciIndex(f)], Transport.ReceiveInd(c, Networks.Receive(f), blockFree);
            && (x < 4 ==> o == Transport.Outcome(c, [], Ok(Some(Transport.DataIndividual(f)))))
            && (4 <= x < 0x40 || x > 0x81 ==> o == Transport.Outcome(c, [], Err(InvalidTpdu(x))))
            && (o.result.Ok? && o.result.value.Some? && o.result.value.value.DataIndividual? ==> x < 4)
            && (o.result.Ok? && o.result.value.Some? ==> !o.result.value.value.DataGroup?)
  {
    NetworkTable(f);
    TpduOctets(f);
    Transport.KindTable(f.Tpci());
  }

  /** A system broadcast is passed on whatever is in it. */
  lemma SystemBroadcastPassed(c: Transport.Conn, f: Frame, blockFree: bool)
    ensures Transport.ReceiveInd(c, Networks.DataSystemBroadcast(f), blockFree)
         == Transport.Outcome(c, [], Ok(Some(Transport.DataSystemBroadcast(f))))
  {
  }

  // The application layer

  /** What the application makes of a received frame; nothing, if the transport layer keeps it to itself. */
  function ToApplication(c: Transport.Conn, f: Frame, blockFree: bool): Option<Application.AppEvent> {
    match Transport.ReceiveInd(c, Networks.Receive(f), blockFree).result
    case Ok(None) => None
    case Ok(Some(i)) => Some(Application.Receive(Ok(i)))
    case Err(e) => Some(Application.Receive(Err(e)))
  }

  /** To a group other than 0, with a TPCI of group data. */
  predicate IsGroupData(f: Frame) { ToGroups(f) && !ToZero(f) && f.bytes[TpciIndex(f)] < 4 }

  /** The four APCI bits: two at the end of the TPCI octet, two at the start of the next. */
  function ApciOf(f: Frame): bv16 {
    (f.bytes[TpciIndex(f)] % 4) as bv16 * 4 + (f.bytes[TpciIndex(f) + 1] / 64) as bv16
  }

  lemma ApciOctets(x: bv8, y: bv8)
    requires x < 4
    ensures var a := (x % 4) as bv16 * 4 + (y / 64) as bv16;
            && (a == 0 <==> x == 0 && y < 0x40) && (a == 1 <==> x == 0 && 0x40 <= y < 0x80)
            && (a == 2 <==> x == 0 && 0x80 <= y < 0xC0)
  {
  }

  lemma GroupDataEvent(c: Transport.Conn, f: Frame, blockFree: bool)
    requires IsGroupData(f)
    ensures var a := ApciOf(f);
            ToApplication(c, f, blockFree) == Some(
              if a == 0 then Application.GroupValueRead
              else if a == 1 then Application.GroupValueResponse
              else if a == 2 then Application.GroupValueWrite
              else Application.InvalidApci(a))
  {
    GroupTransportTable(c, f, blockFree);
    TpduOctets(f);
  }

  lemma OtherEvent(c: Transport.Conn, f: Frame, blockFree: bool)
    requires !IsGroupData(f)
    ensures var e := ToApplication(c, f, blockFree);
            e == None || e == Some(Application.Ignored) || e.value.ReceptionError?
  {
    if ToGroups(f) {
      GroupTransportTable(c, f, blockFree);
    } else {
      IndividualTransportTable(c, f, blockFree);
    }
  }

  /**
    * On its way up through every layer, whatever the connection is doing, a frame is a group read for the user
    * exactly if its octets say so; likewise a response and a write; and an APCI that is none of these is
    * reported with its value. No frame of any other kind becomes one of them.
    */
  lemma ApplicationTable(c: Transport.Conn, f: Frame, blockFree: bool)
    ensures var e, x, y := ToApplication(c, f, blockFree), f.bytes[TpciIndex(f)], f.bytes[TpciIndex(f) + 1];
            var toGroup := ToGroups(f) && !ToZero(f);
            && (e == Some(Application.GroupValueRead) <==> toGroup && x == 0 && y < 0x40)
            && (e == Some(Application.GroupValueResponse) <==> toGroup && x == 0 && 0x40 <= y < 0x80)
            && (e == Some(Application.GroupValueWrite) <==> toGroup && x == 0 && 0x80 <= y < 0xC0)
            && (forall a :: e == Some(Application.InvalidApci(a)) <==> toGroup && x < 4 && a == ApciOf(f) && a > 2)
  {
    if IsGroupData(f) {
      GroupDataEvent(c, f, blockFree);
      ApciOctets(f.bytes[TpciIndex(f)], f.bytes[TpciIndex(f) + 1]);
    } else {
      OtherEvent(c, f, blockFree);
    }
  }

  /**
    * From the line to the user: a well-formed frame is handed up, and is a read for the user exactly if its
    * octets say so.
    */
  lemma ReadReachesUser(d: Driver, w: Bytes, c: Transport.Conn, blockFree: bool)
    requires d.mode.Idle? && d.queue == [] && WellFormed(w)
    ensures var f: Frame := Standard(w);
            && Run(d, Burst(w)).up == d.up + [f]
            && (ToApplication(c, f, blockFree) == Some(Application.GroupValueRead)
                <==> w[5] >= 0x80 && !(w[3] == 0 && w[4] == 0) && w[6] == 0 && w[7] < 0x40)
  {
    AfterFrame(d, w);
    ApplicationTable(c, Standard(w), blockFree);
  }

  /** A broadcast leaves the connection alone, sends nothing, and is no group event to the application. */
  lemma BroadcastIsNoGroupEvent(c: Transport.Conn, f: Frame, blockFree: bool)
    requires ToGroups(f) && ToZero(f)
    ensures var o := Transport.ReceiveInd(c, Networks.Receive(f), blockFree);
            && Networks.Receive(f) == Networks.DataBroadcast(f) && o.conn == c && o.sent == []
            && ToApplication(c, f, blockFree) ==
               Some(if f.bytes[TpciIndex(f)] < 4 then Application.Ignored
                    else Application.ReceptionError(InvalidTpdu(f.bytes[TpciIndex(f)] / 4)))
  {
    NetworkTable(f);
    GroupTransportTable(c, f, blockFree);
  }
}
