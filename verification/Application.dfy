/** Group responses on their way down, and the APCI dispatch on the way up (src/application_layer.rs). */
module Application {
  import opened Wrappers
  import opened Frames
  import opened DataPoints
  import opened StandardFrames
  import Connections
  import Transport

  datatype GroupReadResponse = GroupReadResponse(asap: bv8, data: DataPoint, hopCount: bv8, priority: Priority)

  function NewResponse(asap: bv8, data: DataPoint, priority: Priority): GroupReadResponse {
    GroupReadResponse(asap, data, 7, priority)
  }

  const A_GROUPVALUE_RESPONSE: bv16 := 0x1

  /** The group every response goes to; the source has it hard-coded. */
  const GROUP: bv16 := GroupAddress(1, 1, 98)

  /** `to_transport`. */
  function ToTransport(r: GroupReadResponse): (s: Bytes)
    ensures |s| == 9 + ByteLength(r.data)
  {
    var s := SetApci4(STANDARD, FromDataPoint(r.data), A_GROUPVALUE_RESPONSE);
    SetHopCount(STANDARD, SetPriority(s, r.priority), r.hopCount)
  }

  /** `info_frame` of the transport layer. */
  function InfoFrame(s: Bytes, dst: bv16): (t: Bytes)
    requires STANDARD.Fits(s)
    ensures |t| == |s|
  {
    SetTpci6(STANDARD, SetSrcAddr(STANDARD, SetDstAddr(STANDARD, s, Group(dst)), ADDRESS), 0)
  }

  /**
    * The group response the application sends, in the octets of the TP1 standard frame: priority, source,
    * group 1/1/98, hop count 7 and length, TPCI 0, response APCI with a small value, a byte value, the check slot.
    */
  function ResponseFrame(d: DataPoint, p: Priority): (s: Bytes)
    ensures |s| == 9 + ByteLength(d)
  {
    if d.U8? then [ControlOctet(p), 0x11, 0x78, 0x09, 0x62, 0xF2, 0x00, 0x40, Value(d), 0]
    else [ControlOctet(p), 0x11, 0x78, 0x09, 0x62, 0xF1, 0x00, 0x40 | Value(d), 0]
  }

  /** The control octet of a standard frame that is repeated if need be, by its priority. */
  function ControlOctet(p: Priority): bv8 {
    match p
    case System => 0x90
    case Normal => 0x94
    case Urgent => 0x98
    case Low => 0x9C
  }

  lemma ControlOctetBits(p: Priority)
    ensures 0x90 | (p.Code() << 2) == ControlOctet(p)
  {
  }

  /**
    * Every octet of a datapoint frame: one value octet, or the value octet after an empty APCI octet; the last
    * stays free.
    */
  lemma DataPointOctets(d: DataPoint)
    ensures FromDataPoint(d) ==
      if d.U8? then [0x90, 0, 0, 0, 0, 2, 0, 0, Value(d), 0] else [0x90, 0, 0, 0, 0, 1, 0, Value(d), 0]
  {
    NewBytes(24);
    LengthNibbleValue(24);
    assert LengthNibble(24) == 0;
    var n := 9 + ByteLength(d);
    LengthNibbleValue(n);
    SameValue(LengthNibble(n), if d.U8? then 2 else 1);
    var i := 7 + ByteLength(d);
    var s := New(24)[i := Written(d, New(24)[i])];
    assert Written(d, 0) == Value(d);
    assert s[LG_FIELD] == 0;
    assert FromDataPoint(d) == OrAt(s, LG_FIELD, LengthNibble(n))[..n];
  }

  /** The setters of `to_transport` on any frame. */
  lemma HeaderOctets(s: Bytes, p: Priority)
    requires |s| >= 9
    ensures SetHopCount(STANDARD, SetPriority(SetApci4(STANDARD, s, A_GROUPVALUE_RESPONSE), p), 7)
         == s[0 := s[0] | (p.Code() << 2)][5 := s[5] | 0x70][7 := s[7] | 0x40]
  {
    assert Apci4High(A_GROUPVALUE_RESPONSE) == 0 && Apci4Low(A_GROUPVALUE_RESPONSE) == 0x40;
    var x := s[6];
    assert x | 0 == x;
    assert SetApci4(STANDARD, s, A_GROUPVALUE_RESPONSE) == s[7 := s[7] | 0x40];
  }

  lemma ToTransportOctets(asap: bv8, d: DataPoint, p: Priority)
    ensures ToTransport(NewResponse(asap, d, p))
         == if d.U8? then [0x90 | (p.Code() << 2), 0, 0, 0, 0, 0x72, 0, 0x40, Value(d), 0]
                     else [0x90 | (p.Code() << 2), 0, 0, 0, 0, 0x71, 0, 0x40 | Value(d), 0]
  {
    DataPointOctets(d);
    HeaderOctets(FromDataPoint(d), p);
    assert Value(d) | 0x40 == 0x40 | Value(d);
  }

  /** Addresses are overwritten whatever was there; group bit and TPCI are ORed in. */
  lemma InfoFrameOctets(s: Bytes)
    requires |s| >= 9
    ensures InfoFrame(s, GROUP) == [s[0], 0x11, 0x78, 0x09, 0x62, s[5] | 0x80, s[6]] + s[7..]
  {
    AddressOctets();
    var x := s[6];
    assert x | (0 << 2) == x;
  }

  /** Datapoint, APCI, priority, hop count, addresses and TPCI, set one by one, give exactly those octets. */
  lemma ResponseFrameBuilt(asap: bv8, d: DataPoint, p: Priority)
    ensures InfoFrame(ToTransport(NewResponse(asap, d, p)), GROUP) == ResponseFrame(d, p)
  {
    var s := ToTransport(NewResponse(asap, d, p));
    ToTransportOctets(asap, d, p);
    ControlOctetBits(p);
    InfoFrameOctets(s);
    assert s[7..] == ResponseFrame(d, p)[7..];
    assert s[5] | 0x80 == ResponseFrame(d, p)[5];
  }

  lemma AddressOctets()
    ensures (ADDRESS >> 8) as bv8 == 0x11 && (ADDRESS & 0xFF) as bv8 == 0x78
    ensures (GROUP >> 8) as bv8 == 0x09 && (GROUP & 0xFF) as bv8 == 0x62
  {
  }

  /** `to_transport` as it builds the frame in place. */
  method BuildResponse(r: GroupReadResponse, blockFree: bool) returns (res: Result<StandardFrame, FrameError>)
    ensures res.Ok? <==> blockFree
    ensures res.Err? ==> res.error == OutOfMemory
    ensures res.Ok? ==> fresh(res.value) && fresh(res.value.buf)
    ensures res.Ok? ==> res.value.Usable() && res.value.Contents() == ToTransport(r)
  {
    DataPointOctets(r.data);
    res := StandardFrame.FromDataPoint(r.data, blockFree);
    if res.Ok? {
      var frame := res.value;
      frame.SetApci4(A_GROUPVALUE_RESPONSE);
      frame.SetPriority(r.priority);
      frame.SetHopCount(r.hopCount);
    }
  }

  /** `info_frame` in place. */
  method AddInfo(frame: StandardFrame, dst: bv16)
    requires frame.Usable()
    modifies frame.buf
    ensures frame.Contents() == InfoFrame(old(frame.Contents()), dst)
  {
    frame.SetDstAddr(Group(dst));
    frame.SetSrcAddr(ADDRESS);
    frame.SetTpci6(0x0);
  }

  /**
    * The sending branch of `run`, through the transport layer's `send`. The source panics where this reports an
    * error.
    */
  method SendResponse(network: Connections.NetworkLayer, asap: bv8, d: DataPoint, p: Priority, blockFree: bool)
    returns (res: Result<(), FrameError>)
    modifies network
    ensures res == if blockFree then Ok(()) else Err(OutOfMemory)
    ensures network.sent == old(network.sent) + if blockFree then [ResponseFrame(d, p)] else []
  {
    var built := BuildResponse(NewResponse(asap, d, p), blockFree);
    if built.Err? {
      return Err(built.error);
    }
    var frame := built.value;
    AddInfo(frame, GROUP);
    ResponseFrameBuilt(asap, d, p);
    network.Send(frame);
    res := Ok(());
  }

  /** What `receive` makes of an indication; only a read goes on to the user. */
  datatype AppEvent =
    | GroupValueRead
    | GroupValueResponse
    | GroupValueWrite
    | InvalidApci(apci: bv16)
    | Ignored
    | ReceptionError(error: FrameError)

  function Receive(ind: Result<Transport.TransportServiceInd, FrameError>): AppEvent {
    match ind
    case Ok(DataGroup(f)) =>
      var apci := f.ApciFour();
      if apci == 0 then GroupValueRead
      else if apci == 1 then GroupValueResponse
      else if apci == 2 then GroupValueWrite
      else InvalidApci(apci)
    case Ok(_) => Ignored
    case Err(e) => ReceptionError(e)
  }
}
