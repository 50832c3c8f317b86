/**
  * `Connection` as it is written: TPDUs are sorted into events, a state-event match picks an action,
  * actions change the fields and build response frames in place. Proved equal to `Transport.Handle`.
  */
module Connections {
  import opened Wrappers
  import opened Frames
  import opened StandardFrames
  import opened Transport
  import opened Repetition
  import Networks

  /** The way down: records what is sent. The driver reads the echo into the frame's own buffer. */
  class NetworkLayer {
    ghost var sent: seq<Bytes>

    constructor ()
      ensures sent == []
    {
      sent := [];
    }

    method Send(frame: StandardFrame)
      requires frame.Valid()
      modifies this, frame.buf
      ensures sent == old(sent + [frame.Contents()])
    {
      sent := sent + [frame.Contents()];
      var i := 0;
      while i < frame.len
        invariant sent == old(sent + [frame.Contents()])
      {
        var echo: bv8 := *;
        frame.buf[i] := echo;
        i := i + 1;
      }
    }
  }

  datatype Events =
    | ConnectReqSameAddress_E00
    | ConnectReqNewAddress_E01
    | DisconnectReqSameAddress_E02
    | DisconnectReqNewAddress_E03
    | DataConnected_E04
    | DataConnected_E05
    | DataConnected_E06
    | DataConnectedNewAddress_E07
    | Ack_E08
    | Ack_E09
    | AckNewAddress_E10
    | Nak_E11
    | Nak_E12
    | Nak_E13
    | NakNewAddress_E14

  /** When the event means what its name says. */
  predicate Classified(c: Conn, event: Events, f: Frame) {
    match event
    case ConnectReqSameAddress_E00 => Owns(c, f)
    case ConnectReqNewAddress_E01 => !Owns(c, f)
    case DisconnectReqSameAddress_E02 => Owns(c, f)
    case DisconnectReqNewAddress_E03 => !Owns(c, f)
    case DataConnected_E04 => Owns(c, f) && f.Seq() == c.seqNoRecv
    case DataConnected_E05 => Owns(c, f) && f.Seq() != c.seqNoRecv && f.Seq() == c.seqNoRecv - 1
    case DataConnected_E06 => Owns(c, f) && f.Seq() != c.seqNoRecv && f.Seq() != c.seqNoRecv - 1
    case DataConnectedNewAddress_E07 => !Owns(c, f)
    case _ => true
  }

  function KindOfEvent(event: Events): Kind {
    match event
    case ConnectReqSameAddress_E00 => ConnectReq
    case ConnectReqNewAddress_E01 => ConnectReq
    case DisconnectReqSameAddress_E02 => DisconnectReq
    case DisconnectReqNewAddress_E03 => DisconnectReq
    case DataConnected_E04 => NumberedData
    case DataConnected_E05 => NumberedData
    case DataConnected_E06 => NumberedData
    case DataConnectedNewAddress_E07 => NumberedData
    case Ack_E08 => Kind.Ack
    case Ack_E09 => Kind.Ack
    case AckNewAddress_E10 => Kind.Ack
    case _ => Kind.Nak
  }

  /** The events without a row of their own are ignored in every state. */
  lemma OtherEventsIgnored(c: Conn, event: Events, f: Frame, blockFree: bool)
    requires Classified(c, event, f)
    requires !event.ConnectReqSameAddress_E00? && !event.ConnectReqNewAddress_E01?
    requires !event.DisconnectReqSameAddress_E02? && !event.DataConnected_E04? && !event.DataConnected_E05?
    ensures Handle(c, KindOfEvent(event), f, blockFree) == Ignore(c)
  {
  }

  class Connection {
    const MAX_REP_COUNT: bv8 := 3
    const network: NetworkLayer
    var state: States
    var seqNoSend: bv8
    var seqNoRecv: bv8
    var repCount: bv8
    var srcAddr: Option<bv16>
    var timer: bool
    var stored: StandardFrame?

    ghost predicate Valid()
      reads this, stored, if stored != null then {stored.buf} else {}
    {
      stored != null ==> stored.Usable() && Coherent(stored.Contents())
    }

    /** The connection as a value. */
    ghost function View(): Conn
      reads this, stored, if stored != null then {stored.buf} else {}
      requires Valid()
    {
      Conn(state, seqNoSend, seqNoRecv, repCount, srcAddr, timer,
           if stored == null then None else Some(stored.Contents()))
    }

    /** `t` is kept for repetition. */
    ghost predicate Stores(t: Bytes)
      reads this, stored, if stored != null then {stored.buf} else {}
    {
      stored != null && Valid() && stored.Contents() == t
    }

    constructor (network: NetworkLayer)
      ensures Valid() && View() == NEW && this.network == network
    {
      this.network := network;
      state, seqNoSend, seqNoRecv, repCount := Closed, 0, 0, 0;
      srcAddr, timer, stored := None, false, null;
    }

    /** What a method that took the step `o` leaves behind. */
    twostate predicate Took(o: Outcome, new result: IndResult)
      reads this, stored, if stored != null then {stored.buf} else {}, network
    {
      && Valid() && stored == old(stored) && View() == o.conn
      && network.sent == old(network.sent) + o.sent
      && result == o.result
    }

    method HandleInd(ind: TransportServiceInd, blockFree: bool) returns (r: IndResult)
      requires Valid() && (ind.Connect? || ind.Disconnect? || ind.DataConnected? || ind.ACK? || ind.NAK?)
      modifies this, network
      ensures var k := if ind.Connect? then ConnectReq else if ind.Disconnect? then DisconnectReq
                       else if ind.DataConnected? then NumberedData else if ind.ACK? then Kind.Ack else Kind.Nak;
              Took(Handle(old(View()), k, ind.frame, blockFree), r)
    {
      var frame := ind.frame;
      var same := srcAddr == Some(frame.Source());
      var event;
      match ind {
        case Connect(_) => event := if same then ConnectReqSameAddress_E00 else ConnectReqNewAddress_E01;
        case Disconnect(_) => event := if same then DisconnectReqSameAddress_E02 else DisconnectReqNewAddress_E03;
        case DataConnected(_) =>
          var val := frame.Seq();
          event := if !same then DataConnectedNewAddress_E07
                   else if val == seqNoRecv then DataConnected_E04
                   else if val == seqNoRecv - 1 then DataConnected_E05
                   else DataConnected_E06;
        case ACK(_) =>
          event := if !same then AckNewAddress_E10 else if frame.Seq() == seqNoSend then Ack_E08 else Ack_E09;
        case NAK(_) =>
          event := if !same then NakNewAddress_E14
                   else if frame.Seq() == seqNoSend then (if repCount < MAX_REP_COUNT then Nak_E12 else Nak_E13)
                   else Nak_E11;
      }
      r := HandleEvent(event, frame, blockFree);
    }

    /** The state-event match; each event that can do anything has its row below. */
    method HandleEvent(event: Events, frame: Frame, blockFree: bool) returns (r: IndResult)
      requires Valid() && Classified(View(), event, frame)
      modifies this, network
      ensures Took(Handle(old(View()), KindOfEvent(event), frame, blockFree), r)
    {
      match event {
        case ConnectReqSameAddress_E00 => r := OnOwnerConnect(frame, blockFree);
        case ConnectReqNewAddress_E01 => r := OnNewConnect(frame, blockFree);
        case DisconnectReqSameAddress_E02 => r := OnOwnerDisconnect(frame);
        case DataConnected_E04 => r := OnNextData(frame, blockFree);
        case DataConnected_E05 => r := OnRepeatedData(frame, blockFree);
        case _ =>
          OtherEventsIgnored(View(), event, frame, blockFree);
          r := Ok(None);
      }
    }

    /** E00 */
    method OnOwnerConnect(frame: Frame, blockFree: bool) returns (r: IndResult)
      requires Valid() && Classified(View(), ConnectReqSameAddress_E00, frame)
      modifies this, network
      ensures Took(HandleConnect(old(View()), frame, blockFree), r)
    {
      if state.Closed? {
        state := OpenIdle;
        r := NewConnectionA1(frame);
      } else {
        state := Closed;
        r := DisconnectA6(frame, blockFree);
      }
    }

    /** E01 */
    method OnNewConnect(frame: Frame, blockFree: bool) returns (r: IndResult)
      requires Valid() && Classified(View(), ConnectReqNewAddress_E01, frame)
      modifies this, network
      ensures Took(HandleConnect(old(View()), frame, blockFree), r)
    {
      if state.Closed? {
        state := OpenIdle;
        r := NewConnectionA1(frame);
      } else {
        r := RejectA10(frame, blockFree);
      }
    }

    /** E02 */
    method OnOwnerDisconnect(frame: Frame) returns (r: IndResult)
      requires Valid() && Classified(View(), DisconnectReqSameAddress_E02, frame)
      modifies this
      ensures Took(HandleDisconnect(old(View()), frame), r)
    {
      if state.Closed? {
        r := Ok(None);
      } else {
        state := Closed;
        r := NotifyDisconnectA5(frame);
      }
    }

    /** E04 */
    method OnNextData(frame: Frame, blockFree: bool) returns (r: IndResult)
      requires Valid() && Classified(View(), DataConnected_E04, frame)
      modifies this, network
      ensures Took(HandleData(old(View()), frame, blockFree), r)
    {
      if state.Closed? {
        r := RejectA10(frame, blockFree);
      } else {
        r := AckDataA2(frame, blockFree);
      }
    }

    /** E05 */
    method OnRepeatedData(frame: Frame, blockFree: bool) returns (r: IndResult)
      requires Valid() && Classified(View(), DataConnected_E05, frame)
      modifies this, network
      ensures Took(HandleData(old(View()), frame, blockFree), r)
    {
      if state.Closed? {
        r := RejectA10(frame, blockFree);
      } else {
        r := AckA3(frame, blockFree);
      }
    }

    method SendResponseFrame(dst: bv16, sq: bv8, tpci: bv8, blockFree: bool) returns (r: Result<(), FrameError>)
      requires Valid()
      modifies network
      ensures r == if blockFree then Ok(()) else Err(OutOfMemory)
      ensures network.sent == old(network.sent) + if blockFree then [Response(dst, sq, tpci)] else []
      ensures Valid() && View() == old(View())
    {
      var built := StandardFrame.New(STANDARD.minSize, blockFree);
      if built.Err? {
        return Err(built.error);
      }
      var frame := built.value;
      frame.SetPriority(System);
      frame.SetDstAddr(Individual(dst));
      frame.SetSrcAddr(ADDRESS);
      frame.SetHopCount(7);
      frame.SetTpci8(tpci);
      frame.SetTpciSeq(sq);
      assert frame.Contents() == BuildResponse(dst, sq, tpci);
      ResponseBuilt(dst, sq, tpci);
      network.Send(frame);
      r := Ok(());
    }

    method NewConnectionA1(frame: Frame) returns (r: IndResult)
      requires Valid()
      modifies this`seqNoRecv, this`seqNoSend, this`srcAddr, this`timer
      ensures var c := old(View());
              Took(Outcome(c.(seqNoRecv := 0, seqNoSend := 0, srcAddr := Some(frame.Source()), timer := true), [],
                           Ok(Some(Connect(frame)))), r)
    {
      seqNoRecv := 0;
      seqNoSend := 0;
      srcAddr := Some(frame.Source());
      timer := true;
      r := Ok(Some(Connect(frame)));
    }

    method AckDataA2(frame: Frame, blockFree: bool) returns (r: IndResult)
      requires Valid()
      modifies this`seqNoRecv, this`timer, network
      ensures var c := old(View());
              Took(Respond(c, frame, c.seqNoRecv, T_ACK, blockFree, c.(timer := true, seqNoRecv := c.seqNoRecv + 1),
                           Some(DataConnected(frame))), r)
    {
      var sent := SendResponseFrame(frame.Source(), seqNoRecv, T_ACK, blockFree);
      if sent.Err? {
        return Err(sent.error);
      }
      timer := true;
      seqNoRecv := seqNoRecv + 1;
      r := Ok(Some(DataConnected(frame)));
    }

    method AckA3(frame: Frame, blockFree: bool) returns (r: IndResult)
      requires Valid()
      modifies this`timer, network
      ensures var c := old(View()); Took(Respond(c, frame, frame.Seq(), T_ACK, blockFree, c.(timer := true), None), r)
    {
      var sent := SendResponseFrame(frame.Source(), frame.Seq(), T_ACK, blockFree);
      if sent.Err? {
        return Err(sent.error);
      }
      timer := true;
      r := Ok(None);
    }

    method NotifyDisconnectA5(frame: Frame) returns (r: IndResult)
      requires Valid()
      modifies this`timer
      ensures Took(Outcome(old(View()).(timer := false), [], Ok(Some(Disconnect(frame)))), r)
    {
      timer := false;
      r := Ok(Some(Disconnect(frame)));
    }

    method DisconnectA6(frame: Frame, blockFree: bool) returns (r: IndResult)
      requires Valid()
      modifies this`timer, network
      ensures var c := old(View());
              Took(Respond(c, frame, 0, T_DISCONNECT, blockFree, c.(timer := false), Some(Disconnect(frame))), r)
    {
      var sent := SendResponseFrame(frame.Source(), 0, T_DISCONNECT, blockFree);
      if sent.Err? {
        return Err(sent.error);
      }
      timer := false;
      r := Ok(Some(Disconnect(frame)));
    }

    method RejectA10(frame: Frame, blockFree: bool) returns (r: IndResult)
      requires Valid()
      modifies network
      ensures Took(Reject(old(View()), frame, blockFree), r)
    {
      var sent := SendResponseFrame(frame.Source(), 0, T_DISCONNECT, blockFree);
      if sent.Err? {
        return Err(sent.error);
      }
      r := Ok(None);
    }

    /** `send_data_A7`; the caller gives the frame away, so it is not the stored one. */
    method SendDataA7(frame: StandardFrame, blockFree: bool) returns (r: Result<(), FrameError>)
      requires Valid() && srcAddr.Some? && frame.Usable() && Coherent(frame.Contents())
      requires stored != null ==> stored != frame && stored.buf != frame.buf
      modifies this`stored, this`repCount, this`timer, network, frame, frame.buf
      ensures Valid()
      ensures var o := SendData(old(View()), old(frame.Contents()), blockFree);
              View() == o.conn && network.sent == old(network.sent) + o.sent && r == o.result
    {
      ghost var s := frame.Contents();
      frame.SetDstAddr(Individual(srcAddr.value));
      frame.SetSrcAddr(ADDRESS);
      frame.SetHopCount(7);
      frame.SetTpci6(0x10);
      frame.SetTpciSeq(seqNoSend);
      assert frame.Contents() == DataTpdu(srcAddr.value, seqNoSend, s);
      DataTpduCoherent(srcAddr.value, seqNoSend, s);
      var copy := StandardFrame.TryCopy(frame, blockFree);
      if copy.Err? {
        return Err(copy.error);
      }
      stored := copy.value;
      network.Send(frame);
      repCount := 0;
      timer := true;
      r := Ok(());
    }

    /** `repeat_data_A9`. */
    method RepeatDataA9(blockFree: bool) returns (r: Result<(), FrameError>)
      requires Valid() && stored != null
      modifies this`repCount, this`timer, network
      ensures Valid()
      ensures var o := RepeatData(old(View()), blockFree);
              View() == o.conn && network.sent == old(network.sent) + o.sent && r == o.result
    {
      var copy := StandardFrame.TryCopy(stored, blockFree);
      if copy.Err? {
        return Err(copy.error);
      }
      network.Send(copy.value);
      repCount := repCount + 1;
      timer := true;
      r := Ok(());
    }
  }

  class TransportLayer {
    const connection: Connection

    constructor (connection: Connection)
      ensures this.connection == connection
    {
      this.connection := connection;
    }

    /** `receive_ind`. */
    method ReceiveInd(ind: Networks.NetworkServiceInd, blockFree: bool) returns (r: IndResult)
      requires connection.Valid()
      modifies connection, connection.network
      ensures connection.Took(Transport.ReceiveInd(old(connection.View()), ind, blockFree), r)
    {
      var frame := ind.frame;
      match ind {
        case DataIndividual(_) =>
          var tpci := frame.Tpci();
          KindTable(tpci);
          if tpci >> 2 == 0 {
            r := Ok(Some(DataIndividual(frame)));
          } else if tpci >> 6 == 1 {
            r := connection.HandleInd(DataConnected(frame), blockFree);
          } else if tpci == 0x80 {
            r := connection.HandleInd(Connect(frame), blockFree);
          } else if tpci == 0x81 {
            r := connection.HandleInd(Disconnect(frame), blockFree);
          } else {
            // The source tests for T_ACK and T_NAK here, but no octet passes those tests (Transport.KindTable).
            r := Err(InvalidTpdu(tpci));
          }
        case DataBroadcast(_) =>
          var tpci := frame.TpciSix();
          r := if tpci == 0 then Ok(Some(DataBroadcast(frame))) else Err(InvalidTpdu(tpci));
        case DataGroup(_) =>
          var tpci := frame.TpciSix();
          r := if tpci == 0 then Ok(Some(DataGroup(frame)))
               else if tpci == 1 then Ok(Some(DataTagGroup(frame)))
               else Err(InvalidTpdu(tpci));
        case DataSystemBroadcast(_) => r := Ok(Some(DataSystemBroadcast(frame)));
      }
    }
  }

  method Arrives(layer: TransportLayer, ind: Networks.NetworkServiceInd, blockFree: bool, ghost t: Bytes)
    returns (ghost part: seq<Bytes>)
    requires layer.connection.Stores(t)
    modifies layer.connection, layer.connection.network
    ensures layer.connection.Stores(t)
    ensures Share(Indicated(ind, blockFree), t, part)
    ensures layer.connection.network.sent == old(layer.connection.network.sent) + part
    ensures layer.connection.repCount == old(layer.connection.repCount)
  {
    ghost var c := layer.connection.View();
    IndicationShare(c, ind, blockFree, t);
    part := Transport.ReceiveInd(c, ind, blockFree).sent;
    var _ := layer.ReceiveInd(ind, blockFree);
    assert layer.connection.View().repCount == c.repCount;
  }

  method Repeats(layer: TransportLayer, blockFree: bool, ghost t: Bytes) returns (ghost part: seq<Bytes>)
    requires layer.connection.Stores(t)
    modifies layer.connection, layer.connection.network
    ensures layer.connection.Stores(t) && part == if blockFree then [t] else []
    ensures layer.connection.network.sent == old(layer.connection.network.sent) + part
    ensures layer.connection.repCount == old(layer.connection.repCount) + if blockFree then 1 else 0
    ensures if blockFree then layer.connection.timer else layer.connection.timer == old(layer.connection.timer)
  {
    ghost var o := RepeatData(layer.connection.View(), blockFree);
    part := if blockFree then [t] else [];
    var _ := layer.connection.RepeatDataA9(blockFree);
    assert layer.connection.View().repCount == o.conn.repCount && layer.connection.View().timer == o.conn.timer;
  }

  method Happen(layer: TransportLayer, op: Between, ghost t: Bytes) returns (ghost part: seq<Bytes>)
    requires layer.connection.Stores(t)
    modifies layer.connection, layer.connection.network
    ensures layer.connection.Stores(t)
    ensures Share(op, t, part) && layer.connection.network.sent == old(layer.connection.network.sent) + part
    ensures layer.connection.repCount == old(layer.connection.repCount) + if Granted(op) then 1 else 0
    ensures Granted(op) ==> layer.connection.timer
  {
    match op {
      case Indicated(ind, free) => part := Arrives(layer, ind, free, t);
      case Repeat(free) => part := Repeats(layer, free, t);
    }
  }

  method HappenAll(layer: TransportLayer, ops: seq<Between>, ghost t: Bytes) returns (ghost parts: seq<seq<Bytes>>)
    requires layer.connection.Stores(t)
    requires layer.connection.repCount == 0 && layer.connection.timer
    modifies layer.connection, layer.connection.network
    ensures |parts| == |ops| && forall i :: 0 <= i < |ops| ==> Share(ops[i], t, parts[i])
    ensures layer.connection.network.sent == old(layer.connection.network.sent) + Flatten(parts)
    ensures layer.connection.repCount == AsU8(Attempts(ops))
    ensures ops == [] || Granted(ops[|ops| - 1]) ==> layer.connection.timer
  {
    ghost var before := layer.connection.network.sent;
    parts := [];
    for i := 0 to |ops|
      invariant layer.connection.Stores(t)
      invariant |parts| == i && forall k :: 0 <= k < i ==> Share(ops[k], t, parts[k])
      invariant layer.connection.network.sent == before + Flatten(parts)
      invariant layer.connection.repCount == AsU8(Attempts(ops[..i]))
      invariant i == 0 || Granted(ops[i - 1]) ==> layer.connection.timer
    {
      assert ops[..i + 1][..i] == ops[..i];
      ghost var part := Happen(layer, ops[i], t);
      FlattenAppend(parts, part);
      parts := parts + [part];
    }
    assert ops[..|ops|] == ops;
  }

  /**
    * A client of the connection: data is sent, then anything arrives and the data is repeated at any time,
    * each frame overwritten with arbitrary octets once it has been sent. Every repetition that gets a block
    * goes out as the first transmission did, is counted, and restarts the timer; otherwise only responses go
    * out. Without a block for the copy nothing goes out at all.
    */
  method SendThenRepeat(layer: TransportLayer, frame: StandardFrame, blockFree: bool, ops: seq<Between>)
    returns (r: Result<(), FrameError>, ghost parts: seq<seq<Bytes>>)
    requires var c := layer.connection;
             && c.Valid() && c.srcAddr.Some? && frame.Usable() && Coherent(frame.Contents())
             && (c.stored != null ==> c.stored != frame && c.stored.buf != frame.buf)
    modifies layer.connection, layer.connection.network, frame, frame.buf
    ensures r == if blockFree then Ok(()) else Err(OutOfMemory)
    ensures r.Err? ==> layer.connection.network.sent == old(layer.connection.network.sent)
    ensures r.Err? ==> layer.connection.Valid() && layer.connection.View() == old(layer.connection.View())
    ensures var c, s := old(layer.connection.View()), old(frame.Contents());
            var t := DataTpdu(c.srcAddr.value, c.seqNoSend, s);
            r.Ok? ==>
              && |parts| == |ops| && (forall i :: 0 <= i < |ops| ==> Share(ops[i], t, parts[i]))
              && layer.connection.network.sent == old(layer.connection.network.sent) + [t] + Flatten(parts)
    ensures r.Ok? ==> layer.connection.repCount == AsU8(Attempts(ops))
    ensures r.Ok? && (ops == [] || Granted(ops[|ops| - 1])) ==> layer.connection.timer
  {
    ghost var t := DataTpdu(layer.connection.srcAddr.value, layer.connection.seqNoSend, frame.Contents());
    parts := [];
    r := layer.connection.SendDataA7(frame, blockFree);
    if r.Ok? {
      parts := HappenAll(layer, ops, t);
    }
  }
}
