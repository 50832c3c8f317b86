/** What holds of the connection after any sequence of network indications, from any sources. */
module ConnectionRuns {
  import opened Wrappers
  import opened Frames
  import opened Transport
  import Networks

  /** `blockFree`: whether the frame pool can give a block for a response to this indication. */
  datatype Input = Input(ind: Networks.NetworkServiceInd, blockFree: bool)

  /** A run so far: the connection, everything sent, and everything about connections told upward. */
  datatype Log = Log(conn: Conn, sent: seq<Bytes>, told: seq<TransportServiceInd>)

  const START := Log(NEW, [], [])

  function Told(r: IndResult): seq<TransportServiceInd> {
    if r.Ok? && r.value.Some? && (r.value.value.Connect? || r.value.value.Disconnect? || r.value.value.DataConnected?)
    then [r.value.value] else []
  }

  function Advance(g: Log, x: Input): Log {
    var o := ReceiveInd(g.conn, x.ind, x.blockFree);
    Log(o.conn, g.sent + o.sent, g.told + Told(o.result))
  }

  function Run(g: Log, xs: seq<Input>): Log {
    if xs == [] then g else Advance(Run(g, xs[..|xs| - 1]), xs[|xs| - 1])
  }

  // Invariant

  /**
    * Only two states are ever reached; an open connection has an owner and a running timer; at most eight data
    * frames count.
    */
  predicate Sound(c: Conn) {
    && (c.state.Closed? || c.state.OpenIdle?)
    && (c.state.OpenIdle? ==> c.srcAddr.Some? && c.timer)
    && c.seqNoRecv <= 8
  }

  lemma HandleSound(c: Conn, k: Kind, f: Frame, blockFree: bool)
    requires Sound(c)
    ensures Sound(Handle(c, k, f, blockFree).conn)
  {
    assert f.Seq() <= 7;
  }

  lemma StepSound(c: Conn, x: Input)
    requires Sound(c)
    ensures Sound(ReceiveInd(c, x.ind, x.blockFree).conn)
  {
    var f := x.ind.frame;
    HandleSound(c, KindOf(f.Tpci()), f, x.blockFree);
  }

  /**
    * Timer and state disagree after a step exactly if the owner's T_Connect closed the connection while the
    * pool was empty.
    */
  lemma TimerLeftRunningIff(c: Conn, k: Kind, f: Frame, blockFree: bool)
    requires Sound(c) && (c.state.Closed? ==> !c.timer)
    ensures var d := Handle(c, k, f, blockFree).conn;
            (d.state.Closed? && d.timer) <==> (k.ConnectReq? && !c.state.Closed? && Owns(c, f) && !blockFree)
  {
    match k
    case ConnectReq =>
      assert HandleConnect(c, f, blockFree).conn.timer <==> !(!c.state.Closed? && Owns(c, f) && blockFree);
    case NumberedData => assert HandleData(c, f, blockFree).conn.state == c.state;
    case _ =>
  }

  /**
    * The connection invariant after every run from start; without allocation failures a closed connection has
    * no timer.
    */
  lemma {:induction false} RunsAreSound(xs: seq<Input>)
    ensures Sound(Run(START, xs).conn)
    ensures (forall x :: x in xs ==> x.blockFree) && Run(START, xs).conn.state.Closed? ==> !Run(START, xs).conn.timer
  {
    if xs != [] {
      var before, x := xs[..|xs| - 1], xs[|xs| - 1];
      RunsAreSound(before);
      StepSound(Run(START, before).conn, x);
      if forall y :: y in xs ==> y.blockFree {
        assert x in xs && forall y :: y in before ==> y in xs;
        TimerLeftRunningIff(Run(START, before).conn, KindOf(x.ind.frame.Tpci()), x.ind.frame, x.blockFree);
      }
    }
  }

  /** `seq_no_recv + 1` never overflows: a data frame is accepted only below eight. */
  lemma AcceptedBelowEight(c: Conn, k: Kind, f: Frame, blockFree: bool)
    requires Sound(c) && Handle(c, k, f, blockFree).conn.seqNoRecv == c.seqNoRecv + 1
    ensures c.seqNoRecv <= 7
  {
    assert f.Seq() <= 7;
    assert k.ConnectReq? ==> c.seqNoRecv + 1 != 0;
  }

  // Whom a frame is addressed to

  /** The same effect, and the same told upward but for the frame it is told with. */
  predicate Alike(o: Outcome, p: Outcome) {
    && o.conn == p.conn && o.sent == p.sent
    && (o.result.Err? || o.result.value.None? ==> p.result == o.result)
    && (o.result.Ok? && o.result.value.Some? ==>
        p.result.Ok? && p.result.value.Some? && SameKind(o.result.value.value, p.result.value.value))
  }

  predicate SameKind(i: TransportServiceInd, j: TransportServiceInd) {
    && (i.DataIndividual? <==> j.DataIndividual?) && (i.DataConnected? <==> j.DataConnected?)
    && (i.Connect? <==> j.Connect?) && (i.Disconnect? <==> j.Disconnect?)
  }

  lemma ConnectAlike(c: Conn, f: Frame, g: Frame, blockFree: bool)
    requires f.Source() == g.Source()
    ensures Alike(HandleConnect(c, f, blockFree), HandleConnect(c, g, blockFree))
  {
  }

  lemma DisconnectAlike(c: Conn, f: Frame, g: Frame)
    requires f.Source() == g.Source()
    ensures Alike(HandleDisconnect(c, f), HandleDisconnect(c, g))
  {
  }

  lemma DataAlike(c: Conn, f: Frame, g: Frame, blockFree: bool)
    requires f.Source() == g.Source() && f.Seq() == g.Seq()
    ensures Alike(HandleData(c, f, blockFree), HandleData(c, g, blockFree))
  {
  }

  lemma HandleAlike(c: Conn, k: Kind, f: Frame, g: Frame, blockFree: bool)
    requires f.Source() == g.Source() && f.Seq() == g.Seq()
    ensures Alike(Handle(c, k, f, blockFree), Handle(c, k, g, blockFree))
  {
    match k
    case ConnectReq => ConnectAlike(c, f, g, blockFree);
    case DisconnectReq => DisconnectAlike(c, f, g);
    case NumberedData => DataAlike(c, f, g, blockFree);
    case _ =>
  }

  /**
    * The stack never compares an individual destination with its own address: frames that differ in their
    * destination and payload only have the same effect, and are told upward alike.
    */
  lemma DestinationIgnored(c: Conn, f: Frame, g: Frame, blockFree: bool)
    requires f.Destination().Individual? && g.Destination().Individual?
    requires f.Source() == g.Source() && f.Tpci() == g.Tpci()
    ensures Alike(ReceiveInd(c, Networks.Receive(f), blockFree), ReceiveInd(c, Networks.Receive(g), blockFree))
  {
    var k := KindOf(f.Tpci());
    HandleAlike(c, k, f, g, blockFree);
    assert Networks.Receive(f) == Networks.DataIndividual(f) && Networks.Receive(g) == Networks.DataIndividual(g);
  }

  lemma TwoSteps(g: Log, x: Input, y: Input)
    ensures Run(g, [x, y]) == Advance(Advance(g, x), y)
  {
    assert [x, y][..1] == [x] && [x][..0] == [];
    assert Run(g, [x][..0]) == g;
  }

  /** So a station that connects to any other, and sends it data, opens a connection here, is acknowledged and heard. */
  lemma OverheardConversation(connect: Frame, data: Frame)
    requires connect.Destination().Individual? && data.Destination().Individual? && connect.Source() == data.Source()
    requires KindOf(connect.Tpci()).ConnectReq? && KindOf(data.Tpci()).NumberedData? && data.Seq() == 0
    ensures var g := Run(START, [Input(Networks.Receive(connect), true), Input(Networks.Receive(data), true)]);
            && g.told == [Connect(connect), DataConnected(data)]
            && g.sent == [Response(data.Source(), 0, T_ACK)]
            && g.conn.state.OpenIdle? && g.conn.srcAddr == Some(data.Source()) && g.conn.seqNoRecv == 1
  {
    var x, y := Input(Networks.Receive(connect), true), Input(Networks.Receive(data), true);
    var c := Advance(START, x);
    TwoSteps(START, x, y);
    assert ReceiveInd(NEW, x.ind, true) == HandleConnect(NEW, connect, true);
    assert ReceiveInd(c.conn, y.ind, true) == HandleData(c.conn, data, true);
  }

  // Delivery and acknowledgement

  /** A T_ACK as its receiver reads it: the acknowledge code and the sequence number it carries. */
  predicate IsAck(s: Bytes, sq: bv8) {
    STANDARD.Fits(s) && Tpci8(STANDARD, s) & 0xC3 == T_ACK && (Tpci8(STANDARD, s) >> 2) & 0xF == sq
  }

  lemma ResponseIsAckIff(dst: bv16, sq: bv8, tpci: bv8, n: bv8)
    requires tpci == T_ACK || tpci == T_DISCONNECT
    requires sq <= 7 && n <= 15
    ensures IsAck(Response(dst, sq, tpci), n) <==> tpci == T_ACK && sq == n
  {
    ResponseSendable(dst, sq, tpci);
    assert (0xc2 | ((sq & 0x7) << 2)) & 0xC3 == 0xc2;
    assert sq <= 7 ==> ((0xc2 | ((sq & 0x7) << 2)) >> 2) & 0xF == sq;
    assert (0x81 | ((sq & 0x7) << 2)) & 0xC3 == 0x81;
  }

  predicate TellsData(o: Outcome) { o.result.Ok? && o.result.value.Some? && o.result.value.value.DataConnected? }

  /**
    * In every step, three things happen together or not at all: a data TPDU is told upward, the
    * sequence number advances, a T_ACK with the current sequence number goes out. If the ACK cannot
    * be built, the connection is as before.
    */
  lemma DeliveredIffAcknowledged(c: Conn, k: Kind, f: Frame, blockFree: bool)
    requires Sound(c)
    ensures var o := Handle(c, k, f, blockFree);
            && (TellsData(o) <==> exists s :: s in o.sent && IsAck(s, c.seqNoRecv))
            && (TellsData(o) ==> o.conn.seqNoRecv == c.seqNoRecv + 1 && o.conn.srcAddr == c.srcAddr == Some(f.Source()))
            && (TellsData(o) ==> k.NumberedData? && f.Seq() == c.seqNoRecv && o.result.value.value == DataConnected(f))
            && (!TellsData(o) ==> o.conn.seqNoRecv == c.seqNoRecv || (k.ConnectReq? && o.conn.seqNoRecv == 0))
            && (k.NumberedData? && o.result.Err? ==> o.conn == c && o.sent == [] && !blockFree)
  {
    var o := Handle(c, k, f, blockFree);
    var sq := f.Seq();
    assert sq <= 7;
    ResponseIsAckIff(f.Source(), sq, T_ACK, c.seqNoRecv);
    ResponseIsAckIff(f.Source(), 0, T_DISCONNECT, c.seqNoRecv);
    if TellsData(o) {
      assert o.sent[0] == Response(f.Source(), sq, T_ACK);
    }
  }

  // Sessions

  /** How far the indications told upward have got: no connection, or one with a peer and its data frames so far. */
  datatype Session = NoSession | InSession(peer: bv16, count: nat)

  /**
    * Connect, up to eight data indications of the same peer with consecutive sequence numbers, Disconnect, and
    * again.
    */
  function After(s: Option<Session>, i: TransportServiceInd): Option<Session> {
    if s.None? then None
    else match (s.value, i)
      case (NoSession, Connect(f)) => Some(InSession(f.Source(), 0))
      case (InSession(p, n), DataConnected(f)) =>
        if n < 8 && f.Source() == p && f.Seq() as nat == n then Some(InSession(p, n + 1)) else None
      case (InSession(p, _), Disconnect(f)) => if f.Source() == p then Some(NoSession) else None
      case _ => None
  }

  function Parse(told: seq<TransportServiceInd>): Option<Session> {
    if told == [] then Some(NoSession) else After(Parse(told[..|told| - 1]), told[|told| - 1])
  }

  function SessionOf(c: Conn): Option<Session> {
    if c.state.OpenIdle? && c.srcAddr.Some? then Some(InSession(c.srcAddr.value, c.seqNoRecv as nat))
    else Some(NoSession)
  }

  lemma NextNumber(b: bv8)
    requires b <= 7
    ensures (b + 1) as nat == b as nat + 1 <= 8
  {
  }

  /** The owner asks to connect again while the pool is empty: the connection closes, but nobody above is told. */
  predicate ClosesSilently(c: Conn, x: Input) {
    var f := x.ind.frame;
    x.ind.DataIndividual? && KindOf(f.Tpci()).ConnectReq? && c.state.OpenIdle? && Owns(c, f) && !x.blockFree
  }

  predicate NeverClosesSilently(xs: seq<Input>) {
    xs == [] || (NeverClosesSilently(xs[..|xs| - 1]) && !ClosesSilently(Run(START, xs[..|xs| - 1]).conn, xs[|xs| - 1]))
  }

  lemma DataSession(c: Conn, f: Frame, blockFree: bool)
    requires Sound(c)
    ensures var o := HandleData(c, f, blockFree);
            SessionOf(o.conn) == if Told(o.result) == [] then SessionOf(c) else After(SessionOf(c), Told(o.result)[0])
  {
    assert f.Seq() <= 7;
    NextNumber(f.Seq());
  }

  lemma StepSession(c: Conn, x: Input)
    requires Sound(c) && !ClosesSilently(c, x)
    ensures var o := ReceiveInd(c, x.ind, x.blockFree);
            SessionOf(o.conn) == if Told(o.result) == [] then SessionOf(c) else After(SessionOf(c), Told(o.result)[0])
  {
    var f := x.ind.frame;
    var k := KindOf(f.Tpci());
    if x.ind.DataIndividual? && k.NumberedData? {
      assert ReceiveInd(c, x.ind, x.blockFree) == HandleData(c, f, x.blockFree);
      DataSession(c, f, x.blockFree);
    } else if x.ind.DataIndividual? && k.ConnectReq? {
      assert ReceiveInd(c, x.ind, x.blockFree) == HandleConnect(c, f, x.blockFree);
      ConnectSession(c, f, x.blockFree);
    }
  }

  lemma ConnectSession(c: Conn, f: Frame, blockFree: bool)
    requires Sound(c) && (blockFree || !c.state.OpenIdle? || !Owns(c, f))
    ensures var o := HandleConnect(c, f, blockFree);
            SessionOf(o.conn) == if Told(o.result) == [] then SessionOf(c) else After(SessionOf(c), Told(o.result)[0])
  {
  }

  /** In a closed connection nothing but a Connect is told, and that opens it. */
  lemma ClosedTells(c: Conn, x: Input)
    requires Sound(c) && c.state.Closed?
    ensures var o := ReceiveInd(c, x.ind, x.blockFree);
            if Told(o.result) == [] then o.conn.state.Closed? else Told(o.result)[0].Connect?
  {
    var f := x.ind.frame;
    var k := KindOf(f.Tpci());
    if x.ind.DataIndividual? && k.NumberedData? {
      assert ReceiveInd(c, x.ind, x.blockFree) == HandleData(c, f, x.blockFree);
    }
  }

  lemma ParseAppend(told: seq<TransportServiceInd>, more: seq<TransportServiceInd>)
    requires |more| <= 1
    ensures Parse(told + more) == if more == [] then Parse(told) else After(Parse(told), more[0])
  {
    if more == [] {
      assert told + more == told;
    } else {
      assert (told + more)[..|told|] == told;
    }
  }

  /** What is told no longer fits the connection: a session was left open, or one began inside another. */
  predicate OutOfStep(g: Log) {
    var s := Parse(g.told);
    s.None? || (s.value.InSession? && g.conn.state.Closed?)
  }

  lemma StaysOutOfStep(g: Log, x: Input)
    requires Sound(g.conn) && OutOfStep(g)
    ensures OutOfStep(Advance(g, x))
  {
    ParseAppend(g.told, Told(ReceiveInd(g.conn, x.ind, x.blockFree).result));
    if Parse(g.told).Some? {
      ClosedTells(g.conn, x);
    }
  }

  /**
    * The indications of the connection form whole sessions - each a Connect, data of that peer in
    * sequence, a Disconnect of that peer - and the last one stands where the connection stands, exactly in
    * the runs in which the owner never reconnects on an empty pool.
    */
  lemma {:induction false} ToldInSessionsIff(xs: seq<Input>)
    ensures Parse(Run(START, xs).told) == SessionOf(Run(START, xs).conn) <==> NeverClosesSilently(xs)
    ensures NeverClosesSilently(xs) || OutOfStep(Run(START, xs))
  {
    if xs != [] {
      var before, x := xs[..|xs| - 1], xs[|xs| - 1];
      var g := Run(START, before);
      ToldInSessionsIff(before);
      RunsAreSound(before);
      RunsAreSound(xs);
      if !NeverClosesSilently(before) {
        StaysOutOfStep(g, x);
      } else if ClosesSilently(g.conn, x) {
        SilentClose(g, x);
      } else {
        StepSession(g.conn, x);
        ParseAppend(g.told, Told(ReceiveInd(g.conn, x.ind, x.blockFree).result));
      }
    }
  }

  lemma SilentClose(g: Log, x: Input)
    requires Sound(g.conn) && Parse(g.told) == SessionOf(g.conn) && ClosesSilently(g.conn, x)
    ensures OutOfStep(Advance(g, x))
  {
    var f := x.ind.frame;
    assert ReceiveInd(g.conn, x.ind, x.blockFree) == HandleConnect(g.conn, f, false);
    ParseAppend(g.told, []);
  }
}
