/**
  * The connection-oriented transport layer as a function on values (src/transport_layer.rs).
  *
  * `Handle` says what the connection does with each kind of TPDU; the class in Connection.dfy,
  * with the source's events and actions, is proved equal to it. The lemmas here hold of every run.
  */
module Transport {
  import opened Wrappers
  import opened Frames
  import Networks

  datatype TransportServiceInd =
    | DataBroadcast(frame: Frame)
    | DataSystemBroadcast(frame: Frame)
    | DataGroup(frame: Frame)
    | DataTagGroup(frame: Frame)
    | DataIndividual(frame: Frame)
    | DataConnected(frame: Frame)
    | Connect(frame: Frame)
    | Disconnect(frame: Frame)
    | ACK(frame: Frame)
    | NAK(frame: Frame)

  datatype States = Closed | OpenIdle | OpenWait | Connecting

  /** `timer`: the connection timeout is running. `stored`: the frame kept for repetition. */
  datatype Conn = Conn(state: States, seqNoSend: bv8, seqNoRecv: bv8, repCount: bv8, srcAddr: Option<bv16>,
                       timer: bool, stored: Option<Bytes>)

  const NEW := Conn(Closed, 0, 0, 0, None, false, None)

  type IndResult = Result<Option<TransportServiceInd>, FrameError>

  /** One step: the new state, the frames given to the network, and what is returned upward. */
  datatype Outcome = Outcome(conn: Conn, sent: seq<Bytes>, result: IndResult)

  // TPCI codes of the frames the stack sends

  const T_DISCONNECT: bv8 := 0x81
  const T_ACK: bv8 := 0xc2
  const T_CONNECT: bv8 := 0x80

  /** The TPDU kinds of `receive_ind`, in the order of its tests. */
  datatype Kind = UnnumberedData | NumberedData | ConnectReq | DisconnectReq | Ack | Nak | Invalid

  function KindOf(tpci: bv8): Kind {
    if tpci >> 2 == 0 then UnnumberedData
    else if tpci >> 6 == 1 then NumberedData
    else if tpci == T_CONNECT then ConnectReq
    else if tpci == T_DISCONNECT then DisconnectReq
    else if tpci & 0x3c == 0xc2 then Ack
    else if tpci & 0x3c == 0xc4 then Nak
    else Invalid
  }

  /**
    * A response TPDU in the octets of the TP1 standard frame: control octet with system priority, source,
    * destination, an individual address type with hop count 7 and length 0, the TPCI, and the empty check slot.
    */
  function Response(dst: bv16, sq: bv8, tpci: bv8): Bytes {
    [0x90, 0x11, 0x78, (dst >> 8) as bv8, (dst & 0xFF) as bv8, 0x70, tpci | ((sq & 0x7) << 2), 0]
  }

  predicate Owns(c: Conn, f: Frame) { c.srcAddr == Some(f.Source()) }

  function Ignore(c: Conn): Outcome { Outcome(c, [], Ok(None)) }

  /**
    * Send a response, if the pool has a block for it, and only then go on to `done`; otherwise report and stay
    * in `c`.
    */
  function Respond(c: Conn, f: Frame, sq: bv8, tpci: bv8, blockFree: bool,
                   done: Conn, ind: Option<TransportServiceInd>): Outcome
  {
    if blockFree then Outcome(done, [Response(f.Source(), sq, tpci)], Ok(ind)) else Outcome(c, [], Err(OutOfMemory))
  }

  function Reject(c: Conn, f: Frame, blockFree: bool): Outcome {
    Respond(c, f, 0, T_DISCONNECT, blockFree, c, None)
  }

  function HandleConnect(c: Conn, f: Frame, blockFree: bool): Outcome {
    if c.state.Closed? then
      Outcome(c.(state := OpenIdle, seqNoRecv := 0, seqNoSend := 0, srcAddr := Some(f.Source()), timer := true), [],
              Ok(Some(Connect(f))))
    else if Owns(c, f) then
      // the state changes before the response is built, so a full pool leaves the timer running
      var d := c.(state := Closed);
      Respond(d, f, 0, T_DISCONNECT, blockFree, d.(timer := false), Some(Disconnect(f)))
    else Reject(c, f, blockFree)
  }

  function HandleDisconnect(c: Conn, f: Frame): Outcome {
    if Owns(c, f) && !c.state.Closed? then Outcome(c.(state := Closed, timer := false), [], Ok(Some(Disconnect(f))))
    else Ignore(c)
  }

  function HandleData(c: Conn, f: Frame, blockFree: bool): Outcome {
    var sq := f.Seq();
    if !Owns(c, f) || (sq != c.seqNoRecv && sq != c.seqNoRecv - 1) then Ignore(c)
    else if c.state.Closed? then Reject(c, f, blockFree)
    else if sq == c.seqNoRecv then
      Respond(c, f, sq, T_ACK, blockFree, c.(timer := true, seqNoRecv := sq + 1), Some(DataConnected(f)))
    else
      Respond(c, f, sq, T_ACK, blockFree, c.(timer := true), None)
  }

  function Handle(c: Conn, k: Kind, f: Frame, blockFree: bool): Outcome {
    match k
    case ConnectReq => HandleConnect(c, f, blockFree)
    case DisconnectReq => HandleDisconnect(c, f)
    case NumberedData => HandleData(c, f, blockFree)
    case _ => Ignore(c)
  }

  /** `receive_ind`. */
  function ReceiveInd(c: Conn, ind: Networks.NetworkServiceInd, blockFree: bool): Outcome {
    var f := ind.frame;
    match ind
    case DataIndividual(_) =>
      var k := KindOf(f.Tpci());
      if k.UnnumberedData? then Outcome(c, [], Ok(Some(DataIndividual(f))))
      else if k.Invalid? then Outcome(c, [], Err(InvalidTpdu(f.Tpci())))
      else Handle(c, k, f, blockFree)
    case DataBroadcast(_) =>
      if f.TpciSix() == 0 then Outcome(c, [], Ok(Some(DataBroadcast(f))))
      else Outcome(c, [], Err(InvalidTpdu(f.TpciSix())))
    case DataGroup(_) =>
      if f.TpciSix() == 0 then Outcome(c, [], Ok(Some(DataGroup(f))))
      else if f.TpciSix() == 1 then Outcome(c, [], Ok(Some(DataTagGroup(f))))
      else Outcome(c, [], Err(InvalidTpdu(f.TpciSix())))
    case DataSystemBroadcast(_) => Outcome(c, [], Ok(Some(DataSystemBroadcast(f))))
  }

  // TPDU classification

  /** The classification as a table of octets: acknowledges of either sign are never recognised. */
  lemma KindTable(t: bv8)
    ensures KindOf(t).UnnumberedData? <==> t < 0x04
    ensures KindOf(t).NumberedData? <==> 0x40 <= t < 0x80
    ensures KindOf(t).ConnectReq? <==> t == 0x80
    ensures KindOf(t).DisconnectReq? <==> t == 0x81
    ensures !KindOf(t).Ack? && !KindOf(t).Nak?
    ensures KindOf(t).Invalid? <==> 0x04 <= t < 0x40 || t > 0x81
  {
  }

  /** `send_response_frame`, setter by setter. */
  function BuildResponse(dst: bv16, sq: bv8, tpci: bv8): Bytes {
    var s := SetPriority(New(STANDARD.minSize), System);
    var s := SetDstAddr(STANDARD, s, Individual(dst));
    var s := SetSrcAddr(STANDARD, s, ADDRESS);
    var s := SetHopCount(STANDARD, s, 7);
    var s := SetTpci8(STANDARD, s, tpci);
    SetTpciSeq(STANDARD, s, sq)
  }

  /** The setters produce exactly the standard's octets. */
  lemma ResponseBuilt(dst: bv16, sq: bv8, tpci: bv8)
    ensures BuildResponse(dst, sq, tpci) == Response(dst, sq, tpci)
  {
    NewBytes(8);
    LengthNibbleValue(8);
    assert LengthNibble(8) == 0;
    assert (ADDRESS >> 8) as bv8 == 0x11 && (ADDRESS & 0xFF) as bv8 == 0x78;
  }

  /** Every response can be sent, and each side reads from it what the connection put in. */
  lemma ResponseSendable(dst: bv16, sq: bv8, tpci: bv8)
    ensures Sendable(Response(dst, sq, tpci))
    ensures STANDARD.Fits(Response(dst, sq, tpci))
    ensures var r := Response(dst, sq, tpci);
            && DstAddr(STANDARD, r) == Individual(dst) && SrcAddr(STANDARD, r) == ADDRESS
            && Tpci8(STANDARD, r) == tpci | ((sq & 0x7) << 2)
            && HopCount(STANDARD, r) == 7 && PriorityOf(r).System? && Length(STANDARD, r) == 8
  {
    assert (((dst >> 8) as bv8) as bv16 << 8) | ((dst & 0xFF) as bv8) as bv16 == dst;
  }
}
