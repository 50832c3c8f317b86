/**
  * Reliable delivery: the connection against a stop-and-wait peer over a bus that loses,
  * duplicates and reorders, among arbitrary other traffic and with the frame pool empty at any time.
  *
  * The peer numbers its items with the four bits the standard gives them; the stack reads three.
  */
module Delivery {
  import opened Wrappers
  import opened Frames
  import opened Transport
  import opened ConnectionRuns
  import Networks

  /**
    * `data` and `acks` hold what may still arrive, any number of times and in any order, whichever
    * connection it belongs to; `Lose` takes away. `items` is what the peer has numbered in the current
    * connection, `cur` the item it is at; `delivered` is what has been told upward since it was opened.
    * `PeerOther` is any numbered data the peer sends outside this numbering: to another station, or in a
    * numbering of its own that the T_Connect heard here did not restart.
    */
  datatype World = World(conn: Conn, peer: bv16, items: seq<Frame>, cur: nat, data: set<Frame>, acks: set<Bytes>,
                         delivered: seq<Frame>)

  datatype Event =
    | PeerSend(item: Frame)
    | PeerRepeat
    | PeerOther(frame: Frame)
    | PeerAcked(ack: Bytes)
    | Lose(data: set<Frame>, acks: set<Bytes>)
    | Arrive(x: Input)

  function Seq4(k: nat): bv8 { AsU8(k) & 0xF }

  /** A numbered data TPDU of the peer. */
  predicate IsData(f: Frame, peer: bv16) { f.Source() == peer && KindOf(f.Tpci()).NumberedData? }

  /** The peer's k-th item: a numbered data TPDU of its own to this device, with sequence number k modulo 16. */
  predicate IsItem(f: Frame, k: nat, peer: bv16) {
    IsData(f, peer) && f.Destination() == Individual(ADDRESS) && (f.Tpci() >> 2) & 0xF == Seq4(k)
  }

  /** A T_ACK of this device to the peer with the number `q`. */
  predicate IsAckTo(a: Bytes, peer: bv16, q: bv8) {
    IsAck(a, q) && SrcAddr(STANDARD, a) == ADDRESS && DstAddr(STANDARD, a) == Individual(peer)
  }

  /** Numbered data can come from the peer only if the bus still holds it; everything else is unrestricted. */
  predicate Possible(s: World, x: Input) {
    x.ind.DataIndividual? && IsData(x.ind.frame, s.peer) ==> x.ind.frame in s.data
  }

  predicate Enabled(s: World, e: Event) {
    match e
    case PeerSend(f) => |s.items| == s.cur && IsItem(f, s.cur, s.peer)
    case PeerRepeat => |s.items| == s.cur + 1
    case PeerOther(f) => IsData(f, s.peer)
    case PeerAcked(a) => |s.items| == s.cur + 1 && a in s.acks && IsAckTo(a, s.peer, Seq4(s.cur))
    case Lose(d, a) => d <= s.data && a <= s.acks
    case Arrive(x) => Possible(s, x)
  }

  /** The event is a T_Connect that is accepted. */
  predicate Opens(s: World, e: Event) {
    e.Arrive? &&
    var told := Told(ReceiveInd(s.conn, e.x.ind, e.x.blockFree).result);
    told != [] && told[0].Connect?
  }

  /** A new connection: its peer starts at item 0. What is on the bus stays there. */
  function Arrived(s: World, x: Input): World {
    var o := ReceiveInd(s.conn, x.ind, x.blockFree);
    var told := Told(o.result);
    if told != [] && told[0].Connect? then
      s.(conn := o.conn, peer := x.ind.frame.Source(), items := [], cur := 0, delivered := [])
    else
      s.(conn := o.conn, acks := s.acks + (set a | a in o.sent),
         delivered := s.delivered + if told != [] && told[0].DataConnected? then [told[0].frame] else [])
  }

  function Next(s: World, e: Event): World
    requires Enabled(s, e)
  {
    match e
    case PeerSend(f) => s.(items := s.items + [f], data := s.data + {f})
    case PeerRepeat => s.(data := s.data + {s.items[s.cur]})
    case PeerOther(f) => s.(data := s.data + {f})
    case PeerAcked(_) => s.(cur := s.cur + 1)
    case Lose(d, a) => s.(data := d, acks := a)
    case Arrive(x) => Arrived(s, x)
  }

  /** From start-up, with anything on the bus. */
  predicate IsRun(states: seq<World>, events: seq<Event>) {
    && |states| == |events| + 1
    && (var s := states[0]; s == World(NEW, s.peer, [], 0, s.data, s.acks, []))
    && forall i :: 0 <= i < |events| ==> Enabled(states[i], events[i]) && states[i + 1] == Next(states[i], events[i])
  }

  // Which events the guarantee survives

  /**
    * The guarantee: what has been told upward in the current connection is exactly the first `seq_no_recv`
    * items of its peer, each once and in order, and the peer is at that item or the one before.
    */
  predicate Right(s: World) {
    var r := s.conn.seqNoRecv as nat;
    && r == |s.delivered| <= 8 && s.delivered <= s.items
    && (s.cur == r || s.cur + 1 == r)
  }

  /** What holds whether or not anything stale arrives. */
  predicate Shape(s: World) {
    && Sound(s.conn)
    && (s.conn.srcAddr.Some? ==> s.conn.srcAddr.value == s.peer)
    && s.cur <= |s.items| <= s.cur + 1
    && forall k :: 0 <= k < |s.items| ==> IsItem(s.items[k], k, s.peer)
  }

  /** Numbered data that the connection will accept as the next. */
  predicate Accepted(s: World, x: Input) {
    && x.ind.DataIndividual? && x.blockFree && KindOf(x.ind.frame.Tpci()).NumberedData?
    && s.conn.state.OpenIdle? && Owns(s.conn, x.ind.frame) && x.ind.frame.Seq() == s.conn.seqNoRecv
  }

  /**
    * The connection accepts a frame that is not the peer's next item, or the peer an acknowledge of what has
    * not been delivered.
    */
  predicate Misled(s: World, e: Event) {
    var r := s.conn.seqNoRecv as nat;
    match e
    case Arrive(x) => Accepted(s, x) && !(r < |s.items| && s.items[r] == x.ind.frame)
    case PeerAcked(_) => s.cur == r
    case _ => false
  }

  lemma SuccOf(b: bv8)
    requires b < 255
    ensures (b + 1) as nat == b as nat + 1
  {
  }

  lemma AcceptedArrives(s: World, x: Input)
    requires Sound(s.conn) && Accepted(s, x)
    ensures var t := Arrived(s, x);
            && !Opens(s, Arrive(x)) && s.conn.seqNoRecv <= 7
            && t == s.(conn := s.conn.(timer := true, seqNoRecv := s.conn.seqNoRecv + 1),
                       acks := s.acks + {Response(x.ind.frame.Source(), s.conn.seqNoRecv, T_ACK)},
                       delivered := s.delivered + [x.ind.frame])
  {
    var f, c := x.ind.frame, s.conn;
    assert f.Seq() <= 7;
    assert ReceiveInd(c, x.ind, true) == HandleData(c, f, true);
  }

  lemma ConnectArrives(s: World, x: Input)
    requires Sound(s.conn) && x.ind.DataIndividual? && KindOf(x.ind.frame.Tpci()).ConnectReq?
    ensures var c := ReceiveInd(s.conn, x.ind, x.blockFree).conn;
            if Opens(s, Arrive(x)) then
              && c.seqNoRecv == 0 && c.state.OpenIdle? && c.srcAddr == Some(x.ind.frame.Source())
              && Arrived(s, x) == s.(conn := c, peer := x.ind.frame.Source(), items := [], cur := 0, delivered := [])
            else Passed(s, x)
  {
    assert ReceiveInd(s.conn, x.ind, x.blockFree) == HandleConnect(s.conn, x.ind.frame, x.blockFree);
  }

  /** Counter, owner and what was told stay; at most one response joins the bus, an ACK only for the item before. */
  predicate Passed(s: World, x: Input) {
    var f, t := x.ind.frame, Arrived(s, x);
    && t == s.(conn := t.conn, acks := t.acks)
    && t.conn.seqNoRecv == s.conn.seqNoRecv && t.conn.srcAddr == s.conn.srcAddr
    && (|| t.acks == s.acks || t.acks == s.acks + {Response(f.Source(), 0, T_DISCONNECT)}
        || (f.Seq() == s.conn.seqNoRecv - 1 && t.acks == s.acks + {Response(f.Source(), f.Seq(), T_ACK)}))
  }

  lemma OtherDataPasses(s: World, x: Input)
    requires x.ind.DataIndividual? && KindOf(x.ind.frame.Tpci()).NumberedData? && !Accepted(s, x)
    requires Sound(s.conn)
    ensures !Opens(s, Arrive(x)) && Passed(s, x)
  {
    assert ReceiveInd(s.conn, x.ind, x.blockFree) == HandleData(s.conn, x.ind.frame, x.blockFree);
  }

  lemma OtherPasses(s: World, x: Input)
    requires Sound(s.conn)
    requires x.ind.DataIndividual? ==> var k := KindOf(x.ind.frame.Tpci()); !k.NumberedData? && !k.ConnectReq?
    ensures !Opens(s, Arrive(x)) && Passed(s, x)
  {
  }

  /** An arriving frame is the next data, opens a connection, or passes. */
  lemma ArrivalCases(s: World, x: Input)
    requires Sound(s.conn)
    ensures Accepted(s, x) ==> !Opens(s, Arrive(x))
    ensures Opens(s, Arrive(x)) ==> x.ind.DataIndividual? && KindOf(x.ind.frame.Tpci()).ConnectReq?
    ensures !Accepted(s, x) && !Opens(s, Arrive(x)) ==> Passed(s, x)
  {
    var k := KindOf(x.ind.frame.Tpci());
    if Accepted(s, x) {
      AcceptedArrives(s, x);
    } else if x.ind.DataIndividual? && k.NumberedData? {
      OtherDataPasses(s, x);
    } else if x.ind.DataIndividual? && k.ConnectReq? {
      ConnectArrives(s, x);
    } else {
      OtherPasses(s, x);
    }
  }

  lemma ShapeKept(s: World, e: Event)
    requires Shape(s) && Enabled(s, e)
    ensures Shape(Next(s, e))
  {
    if e.Arrive? {
      StepSound(s.conn, e.x);
      ArrivalCases(s, e.x);
      if Accepted(s, e.x) {
        AcceptedArrives(s, e.x);
      } else if Opens(s, e) {
        ConnectArrives(s, e.x);
      }
    }
  }

  lemma ArrivalRightIff(s: World, x: Input)
    requires Shape(s) && Right(s)
    ensures Right(Arrived(s, x)) <==> !Misled(s, Arrive(x))
  {
    ArrivalCases(s, x);
    if Accepted(s, x) {
      AcceptedArrives(s, x);
      SuccOf(s.conn.seqNoRecv);
      var r := s.conn.seqNoRecv as nat;
      assert s.conn.seqNoRecv <= 7 ==> r <= 7;
      NextItemIff(s.delivered, x.ind.frame, s.items);
    } else if Opens(s, Arrive(x)) {
      ConnectArrives(s, x);
    }
  }

  lemma NextItemIff(done: seq<Frame>, f: Frame, items: seq<Frame>)
    requires done <= items
    ensures done + [f] <= items <==> |done| < |items| && items[|done|] == f
  {
  }

  /** One step keeps the guarantee exactly if it does not mislead either side. */
  lemma NextRightIff(s: World, e: Event)
    requires Shape(s) && Right(s) && Enabled(s, e)
    ensures Right(Next(s, e)) <==> !Misled(s, e)
  {
    if e.Arrive? {
      ArrivalRightIff(s, e.x);
    }
  }

  predicate RightUpTo(states: seq<World>, i: nat)
    requires i < |states|
  {
    forall j :: 0 <= j <= i ==> Right(states[j])
  }

  predicate NeverMisled(states: seq<World>, events: seq<Event>, i: nat)
    requires i <= |events| < |states|
  {
    forall j :: 0 <= j < i ==> !Misled(states[j], events[j])
  }

  lemma UpToStep(states: seq<World>, events: seq<Event>, i: nat)
    requires 0 < i <= |events| < |states|
    ensures RightUpTo(states, i) <==> RightUpTo(states, i - 1) && Right(states[i])
    ensures NeverMisled(states, events, i)
       <==> NeverMisled(states, events, i - 1) && !Misled(states[i - 1], events[i - 1])
  {
  }

  lemma {:induction false} RunShape(states: seq<World>, events: seq<Event>, i: nat)
    requires IsRun(states, events) && i < |states|
    ensures Shape(states[i])
  {
    if i > 0 {
      RunShape(states, events, i - 1);
      ShapeKept(states[i - 1], events[i - 1]);
    }
  }

  /**
    * In every run, with anything on the bus from the start and between connections, and whatever the peer
    * sends besides: the guarantee holds at every moment so far exactly if neither side has been misled.
    */
  lemma {:induction false} PrefixDeliveryIff(states: seq<World>, events: seq<Event>, i: nat)
    requires IsRun(states, events) && i < |states|
    ensures RightUpTo(states, i) <==> NeverMisled(states, events, i)
  {
    if i == 0 {
      assert Right(states[0]);
    } else {
      PrefixDeliveryIff(states, events, i - 1);
      RunShape(states, events, i - 1);
      assert states[i] == Next(states[i - 1], events[i - 1]);
      UpToStep(states, events, i);
      if Right(states[i - 1]) {
        NextRightIff(states[i - 1], events[i - 1]);
      }
    }
  }

  // Which bus contents the guarantee survives

  /** Nothing on the bus can mislead: numbered data of the peer is its items, its acknowledges are of delivered ones. */
  ghost predicate Clean(s: World) {
    && (forall f :: f in s.data && IsData(f, s.peer) ==> f in s.items)
    && (forall a, q: bv8 :: a in s.acks && IsAckTo(a, s.peer, q) && q <= 8 ==> q as nat < s.conn.seqNoRecv as nat)
  }

  ghost predicate Inv(s: World) { Shape(s) && Right(s) && Clean(s) }

  lemma ItemNumber(f: Frame, k: nat, peer: bv16)
    requires IsItem(f, k, peer) && k <= 8
    ensures f.Seq() as nat == k % 8
    ensures Seq4(k) as nat == k
  {
    AsU8Value(k);
    var t, b := f.Tpci(), AsU8(k);
    assert b <= 8;
    assert b & 0xF == b;
    assert (t >> 2) & 0x7 == ((t >> 2) & 0xF) & 0x7;
    assert b & 0x7 == if b == 8 then 0 else b;
  }

  /** On a clean bus an item is accepted only if it is the next one, and only delivered items are acknowledged. */
  lemma CleanNeverMisleads(s: World, e: Event)
    requires Inv(s) && Enabled(s, e)
    ensures !Misled(s, e)
  {
    var r := s.conn.seqNoRecv as nat;
    assert s.conn.seqNoRecv <= 8 && r <= 8;
    match e
    case Arrive(x) =>
      var f := x.ind.frame;
      if Accepted(s, x) {
        assert f.Seq() <= 7;
        var k :| 0 <= k < |s.items| && s.items[k] == f;
        ItemNumber(f, k, s.peer);
      }
    case PeerAcked(a) =>
      ItemNumber(s.items[s.cur], s.cur, s.peer);
      assert Seq4(s.cur) <= 8;
    case _ =>
  }

  lemma PredOf(b: bv8, q: bv8)
    requires q <= 7 && b <= 8 && q == b - 1
    ensures q as nat + 1 == b as nat
  {
    assert b != 0;
    SuccOf(q);
  }

  /** A response that joins the bus is an acknowledge to the peer only of items below `r`. */
  lemma ResponseClean(s: World, acks: set<Bytes>, dst: bv16, sq: bv8, tpci: bv8, r: nat)
    requires acks <= s.acks + {Response(dst, sq, tpci)} && sq <= 7
    requires tpci == T_DISCONNECT || (tpci == T_ACK && sq as nat < r)
    requires forall a, q: bv8 :: a in s.acks && IsAckTo(a, s.peer, q) && q <= 8 ==> q as nat < r
    ensures forall a, q: bv8 :: a in acks && IsAckTo(a, s.peer, q) && q <= 8 ==> q as nat < r
  {
    forall a, q: bv8 | a in acks && IsAckTo(a, s.peer, q) && q <= 8 ensures q as nat < r {
      if a !in s.acks {
        ResponseIsAckIff(dst, sq, tpci, q);
      }
    }
  }

  lemma AcceptedKeepsClean(s: World, x: Input)
    requires Inv(s) && Accepted(s, x)
    ensures Clean(Arrived(s, x))
  {
    var sq := s.conn.seqNoRecv;
    var t := Arrived(s, x);
    AcceptedArrives(s, x);
    SuccOf(sq);
    ResponseClean(s, t.acks, x.ind.frame.Source(), sq, T_ACK, sq as nat + 1);
  }

  lemma PassedKeepsClean(s: World, x: Input)
    requires Inv(s) && Passed(s, x)
    ensures Clean(Arrived(s, x))
  {
    var f, t, r := x.ind.frame, Arrived(s, x), s.conn.seqNoRecv;
    assert f.Seq() <= 7;
    if t.acks == s.acks + {Response(f.Source(), 0, T_DISCONNECT)} {
      ResponseClean(s, t.acks, f.Source(), 0, T_DISCONNECT, r as nat);
    } else if t.acks != s.acks {
      PredOf(r, f.Seq());
      ResponseClean(s, t.acks, f.Source(), f.Seq(), T_ACK, r as nat);
    }
  }

  /** A clean bus stays clean as long as no new connection is opened and the peer sends nothing else. */
  lemma CleanKept(s: World, e: Event)
    requires Inv(s) && Enabled(s, e) && !Opens(s, e) && !e.PeerOther?
    ensures Clean(Next(s, e))
  {
    if e.Arrive? {
      ArrivalCases(s, e.x);
      if Accepted(s, e.x) {
        AcceptedKeepsClean(s, e.x);
      } else {
        PassedKeepsClean(s, e.x);
      }
    }
  }

  lemma InvKept(s: World, e: Event)
    requires Inv(s) && Enabled(s, e) && !e.PeerOther? && (Opens(s, e) ==> Clean(Next(s, e)))
    ensures Inv(Next(s, e))
  {
    ShapeKept(s, e);
    CleanNeverMisleads(s, e);
    NextRightIff(s, e);
    if !Opens(s, e) {
      CleanKept(s, e);
    }
  }

  /**
    * If the bus is clean at the start and whenever a connection is opened, and the peer of the moment sends
    * no other numbered data to anybody, the guarantee holds at every moment of the run.
    */
  lemma {:induction false} PrefixDelivery(states: seq<World>, events: seq<Event>, i: nat)
    requires IsRun(states, events) && i < |states|
    requires Clean(states[0]) && forall j :: 0 <= j < i && Opens(states[j], events[j]) ==> Clean(states[j + 1])
    requires forall j :: 0 <= j < i ==> !events[j].PeerOther?
    ensures Inv(states[i])
  {
    if i > 0 {
      PrefixDelivery(states, events, i - 1);
      assert states[i] == Next(states[i - 1], events[i - 1]);
      InvKept(states[i - 1], events[i - 1]);
    } else {
      assert Right(states[0]);
    }
  }

  // A connection from its opening

  /** `es` can happen from `s`, within one connection, if `other` is what the peer may send besides its items. */
  ghost predicate Within(s: World, other: iset<Frame>, es: seq<Event>)
    decreases |es|, 0
  {
    es == [] ||
    var n := |es| - 1;
    Within(s, other, es[..n]) && Allowed(After(s, other, es[..n]), other, es[n])
  }

  ghost predicate Allowed(s: World, other: iset<Frame>, e: Event) {
    Enabled(s, e) && !Opens(s, e) && (e.PeerOther? ==> e.frame in other)
  }

  ghost function After(s: World, other: iset<Frame>, es: seq<Event>): World
    requires Within(s, other, es)
    decreases |es|, 1
  {
    if es == [] then s else Next(After(s, other, es[..|es| - 1]), es[|es| - 1])
  }

  lemma Extend(s: World, other: iset<Frame>, es: seq<Event>, e: Event)
    requires Within(s, other, es) && Allowed(After(s, other, es), other, e)
    ensures Within(s, other, es + [e]) && After(s, other, es + [e]) == Next(After(s, other, es), e)
  {
    assert (es + [e])[..|es|] == es;
  }

  /** Open, with everything the peer has numbered delivered and acknowledged. */
  predicate AtRest(s: World) {
    && Shape(s) && Right(s) && s.conn.state.OpenIdle? && s.conn.srcAddr == Some(s.peer)
    && |s.items| == s.cur == s.conn.seqNoRecv as nat
  }

  /** Every accepted T_Connect leads to such a state. */
  lemma OpensAtRest(s: World, e: Event)
    requires Shape(s) && Enabled(s, e) && Opens(s, e)
    ensures AtRest(Next(s, e)) && Next(s, e).cur == 0
  {
    ArrivalCases(s, e.x);
    ConnectArrives(s, e.x);
    ShapeKept(s, e);
  }

  /** Some item number `k` that the peer could send. */
  function SomeItem(k: nat, peer: bv16): Frame {
    Standard([0x90, (peer >> 8) as bv8, (peer & 0xFF) as bv8, 0x11, 0x78, 0x60, 0x40 | (Seq4(k) << 2), 0])
  }

  lemma SomeItemIs(k: nat, peer: bv16)
    ensures IsItem(SomeItem(k, peer), k, peer)
  {
    var f, n := SomeItem(k, peer), Seq4(k);
    assert (((peer >> 8) as bv8) as bv16 << 8) | ((peer & 0xFF) as bv8) as bv16 == peer;
    assert f.Source() == peer;
    assert n <= 15;
    NumberedOctet(n);
  }

  lemma NumberedOctet(n: bv8)
    requires n <= 15
    ensures KindOf(0x40 | (n << 2)).NumberedData? && ((0x40 | (n << 2)) >> 2) & 0xF == n
  {
    assert (0x40 | (n << 2)) >> 6 == 1 && (0x40 | (n << 2)) >> 2 != 0;
  }

  /** Below eight, a sent item that is not lost is delivered. */
  lemma NextItemAccepted(s: World, f: Frame)
    requires Shape(s) && s.conn.state.OpenIdle? && s.conn.srcAddr == Some(s.peer)
    requires IsItem(f, s.conn.seqNoRecv as nat, s.peer) && s.conn.seqNoRecv as nat < 8
    ensures Accepted(s, Input(Networks.DataIndividual(f), true))
  {
    ItemNumber(f, s.conn.seqNoRecv as nat, s.peer);
    SameValue(f.Seq(), s.conn.seqNoRecv);
  }

  lemma AckOfItem(peer: bv16, sq: bv8, k: nat)
    requires sq as nat == k < 8
    ensures IsAckTo(Response(peer, sq, T_ACK), peer, Seq4(k))
  {
    AsU8Value(k);
    SameValue(AsU8(k), sq);
    assert sq <= 7 && sq & 0xF == sq;
    ResponseIsAckIff(peer, sq, T_ACK, sq);
    ResponseSendable(peer, sq, T_ACK);
  }

  /**
    * Below eight, a round that loses nothing makes progress: the current item is delivered and its ACK moves
    * the peer on.
    */
  lemma RoundMakesProgress(s: World)
    requires Shape(s) && Right(s) && s.conn.state.OpenIdle? && s.conn.srcAddr == Some(s.peer)
    requires |s.items| == s.cur + 1 && s.conn.seqNoRecv as nat == s.cur < 8 && s.items[s.cur] in s.data
    ensures var f := s.items[s.cur];
            var x := Input(Networks.DataIndividual(f), true);
            var ack := PeerAcked(Response(s.peer, s.conn.seqNoRecv, T_ACK));
            && Enabled(s, Arrive(x)) && !Opens(s, Arrive(x))
            && Next(s, Arrive(x)).delivered == s.delivered + [f]
            && Enabled(Next(s, Arrive(x)), ack)
            && Next(Next(s, Arrive(x)), ack).cur == s.cur + 1
            && AtRest(Next(Next(s, Arrive(x)), ack)) && Next(Next(s, Arrive(x)), ack).data == s.data
            && s.acks <= Next(Next(s, Arrive(x)), ack).acks
            && Next(Next(s, Arrive(x)), ack).peer == s.peer
  {
    var f := s.items[s.cur];
    var x := Input(Networks.DataIndividual(f), true);
    NextItemAccepted(s, f);
    AcceptedArrives(s, x);
    AckOfItem(s.peer, s.conn.seqNoRecv, s.cur);
    SuccOf(s.conn.seqNoRecv);
    ShapeKept(s, Arrive(x));
    var t := Next(s, Arrive(x));
    var ack := PeerAcked(Response(s.peer, s.conn.seqNoRecv, T_ACK));
    ShapeKept(t, ack);
    NextItemIff(s.delivered, f, s.items);
  }

  /**
    * The item the peer is at arrives again, though its ACK is lost: nothing is told, and it is acknowledged
    * once more.
    */
  lemma RepeatedItemAcknowledged(s: World)
    requires Shape(s) && Right(s) && s.conn.state.OpenIdle? && s.conn.srcAddr == Some(s.peer)
    requires |s.items| == s.cur + 1 && s.cur + 1 == s.conn.seqNoRecv as nat
    ensures var f := s.items[s.cur];
            && s.cur < 8 && s.conn.seqNoRecv > 0 && f.Seq() == s.conn.seqNoRecv - 1
            && Arrived(s, Input(Networks.DataIndividual(f), true))
               == s.(acks := s.acks + {Response(s.peer, f.Seq(), T_ACK)})
  {
    var f, r := s.items[s.cur], s.conn.seqNoRecv;
    assert r <= 8 && r as nat <= 8;
    ItemNumber(f, s.cur, s.peer);
    assert r > 0 && (r - 1) as nat == r as nat - 1;
    SameValue(f.Seq(), r - 1);
    assert f.Seq() <= 7 && f.Seq() != r;
    assert ReceiveInd(s.conn, Networks.DataIndividual(f), true) == HandleData(s.conn, f, true);
    assert s.conn.(timer := true) == s.conn;
    assert (set a | a in [Response(s.peer, f.Seq(), T_ACK)]) == {Response(s.peer, f.Seq(), T_ACK)};
    assert s.delivered + [] == s.delivered;
  }

  lemma AckedIsAtRest(s: World, sq: bv8)
    requires Shape(s) && Right(s) && s.conn.state.OpenIdle? && s.conn.srcAddr == Some(s.peer)
    requires |s.items| == s.cur + 1 && s.cur + 1 == s.conn.seqNoRecv as nat && sq as nat == s.cur < 8
    requires Response(s.peer, sq, T_ACK) in s.acks
    ensures var ack := PeerAcked(Response(s.peer, sq, T_ACK));
            Enabled(s, ack) && AtRest(Next(s, ack)) && Next(s, ack) == s.(cur := s.cur + 1)
  {
    AckOfItem(s.peer, sq, s.cur);
    ShapeKept(s, PeerAcked(Response(s.peer, sq, T_ACK)));
  }

  /**
    * Recovery from any loss: whether the item the peer is at was lost, or its ACK, or everything on the bus, below
    * eight one repetition that gets through, a block and the ACK for it are enough. The item is told exactly if
    * it had not been, and the peer moves on with everything delivered.
    */
  lemma RecoversFromLoss(s: World)
    requires Shape(s) && Right(s) && s.conn.state.OpenIdle? && s.conn.srcAddr == Some(s.peer)
    requires |s.items| == s.cur + 1 <= 8
    ensures var f := s.items[s.cur];
            var x := Arrive(Input(Networks.DataIndividual(f), true));
            var ack := PeerAcked(Response(s.peer, f.Seq(), T_ACK));
            && Enabled(s, PeerRepeat) && Enabled(Next(s, PeerRepeat), x) && !Opens(Next(s, PeerRepeat), x)
            && var t := Next(Next(s, PeerRepeat), x);
               && t.delivered == s.items && Enabled(t, ack)
               && AtRest(Next(t, ack)) && Next(t, ack).cur == s.cur + 1 && Next(t, ack).delivered == s.items
  {
    var f := s.items[s.cur];
    var t := Next(s, PeerRepeat);
    ItemNumber(f, s.cur, s.peer);
    if s.conn.seqNoRecv as nat == s.cur {
      RoundMakesProgress(t);
      SameValue(f.Seq(), s.conn.seqNoRecv);
      assert t.delivered + [f] == s.items;
    } else {
      RepeatedItemAcknowledged(t);
      AckedIsAtRest(Next(t, Arrive(Input(Networks.DataIndividual(f), true))), f.Seq());
      assert s.delivered == s.items;
    }
  }

  /** Even if everything on the bus is lost first. */
  lemma RecoversFromLosingAll(s: World)
    requires Shape(s) && Right(s) && s.conn.state.OpenIdle? && s.conn.srcAddr == Some(s.peer)
    requires |s.items| == s.cur + 1 <= 8
    ensures var lose := Lose({}, {});
            Enabled(s, lose) &&
            var l := Next(s, lose);
            var x := Arrive(Input(Networks.DataIndividual(s.items[s.cur]), true));
            var ack := PeerAcked(Response(s.peer, s.items[s.cur].Seq(), T_ACK));
            && l.data == {} && l.acks == {} && Enabled(l, PeerRepeat) && Enabled(Next(l, PeerRepeat), x)
            && Enabled(Next(Next(l, PeerRepeat), x), ack)
            && AtRest(Next(Next(Next(l, PeerRepeat), x), ack))
            && Next(Next(Next(l, PeerRepeat), x), ack).delivered == s.items
  {
    RecoversFromLoss(Next(s, Lose({}, {})));
  }

  lemma OneRound(s: World, other: iset<Frame>, es: seq<Event>) returns (more: seq<Event>)
    requires Within(s, other, es) && AtRest(After(s, other, es)) && After(s, other, es).cur < 8
    ensures Within(s, other, more) && AtRest(After(s, other, more))
    ensures var t, u := After(s, other, es), After(s, other, more);
            u.cur == t.cur + 1 && u.peer == t.peer && t.data <= u.data && t.acks <= u.acks
  {
    var t := After(s, other, es);
    var f := SomeItem(t.cur, t.peer);
    SomeItemIs(t.cur, t.peer);
    var t1 := Next(t, PeerSend(f));
    ShapeKept(t, PeerSend(f));
    assert t1.items[t1.cur] == f;
    RoundMakesProgress(t1);
    var x := Arrive(Input(Networks.DataIndividual(f), true));
    var ack := PeerAcked(Response(t.peer, t.conn.seqNoRecv, T_ACK));
    Extend(s, other, es, PeerSend(f));
    Extend(s, other, es + [PeerSend(f)], x);
    Extend(s, other, es + [PeerSend(f)] + [x], ack);
    more := es + [PeerSend(f)] + [x] + [ack];
  }

  /** From its opening a connection can get to any number up to eight, with all that was on the bus still there. */
  lemma {:induction false} Reaches(s: World, other: iset<Frame>, k: nat) returns (es: seq<Event>)
    requires AtRest(s) && s.cur == 0 && k <= 8
    ensures Within(s, other, es) && AtRest(After(s, other, es)) && After(s, other, es).cur == k
    ensures After(s, other, es).peer == s.peer
    ensures s.data <= After(s, other, es).data && s.acks <= After(s, other, es).acks
  {
    if k == 0 {
      es := [];
    } else {
      var before := Reaches(s, other, k - 1);
      es := OneRound(s, other, before);
    }
  }

  /** At rest, any numbered data of the peer with the expected number is accepted, though it is none of its items. */
  lemma ArrivalMisleads(s: World, f: Frame)
    requires AtRest(s) && f in s.data && IsData(f, s.peer) && f.Seq() as nat == s.cur
    ensures var x := Arrive(Input(Networks.DataIndividual(f), true));
            Enabled(s, x) && !Opens(s, x) && !Right(Next(s, x)) && Next(s, x).delivered == s.delivered + [f]
  {
    var x := Input(Networks.DataIndividual(f), true);
    SameValue(f.Seq(), s.conn.seqNoRecv);
    AcceptedArrives(s, x);
    NextRightIff(s, Arrive(x));
  }

  /** Data of the peer left over from an earlier connection can be taken for the item of its number, whatever it is. */
  lemma StaleItemMisleads(s: World, other: iset<Frame>, stale: Frame) returns (es: seq<Event>)
    requires AtRest(s) && s.cur == 0 && stale in s.data && IsData(stale, s.peer)
    ensures Within(s, other, es) && !Right(After(s, other, es)) && stale in After(s, other, es).delivered
  {
    assert stale.Seq() <= 7;
    var before := Reaches(s, other, stale.Seq() as nat);
    var x := Arrive(Input(Networks.DataIndividual(stale), true));
    ArrivalMisleads(After(s, other, before), stale);
    Extend(s, other, before, x);
    es := before + [x];
  }

  /** So can data the peer sends meanwhile that is none of its items here, be it to another station. */
  lemma OverheardItemMisleads(s: World, other: iset<Frame>, f: Frame) returns (es: seq<Event>)
    requires AtRest(s) && s.cur == 0 && f in other && IsData(f, s.peer)
    ensures Within(s, other, es) && !Right(After(s, other, es)) && f in After(s, other, es).delivered
  {
    assert f.Seq() <= 7;
    var before := Reaches(s, other, f.Seq() as nat);
    var x := Arrive(Input(Networks.DataIndividual(f), true));
    Extend(s, other, before, PeerOther(f));
    ArrivalMisleads(After(s, other, before + [PeerOther(f)]), f);
    Extend(s, other, before + [PeerOther(f)], x);
    es := before + [PeerOther(f)] + [x];
  }

  /** An acknowledge left over, numbered up to eight, can move the peer on past an item that has not been delivered. */
  lemma StaleAckMisleads(s: World, other: iset<Frame>, stale: Bytes, q: bv8) returns (es: seq<Event>)
    requires AtRest(s) && s.cur == 0 && stale in s.acks && IsAckTo(stale, s.peer, q) && q <= 8
    ensures Within(s, other, es) && !Right(After(s, other, es))
    ensures After(s, other, es).cur > After(s, other, es).conn.seqNoRecv as nat
  {
    var before := Reaches(s, other, q as nat);
    var t := After(s, other, before);
    var f := SomeItem(t.cur, t.peer);
    SomeItemIs(t.cur, t.peer);
    ItemNumber(f, t.cur, t.peer);
    SameValue(Seq4(t.cur), q);
    Extend(s, other, before, PeerSend(f));
    Extend(s, other, before + [PeerSend(f)], PeerAcked(stale));
    es := before + [PeerSend(f)] + [PeerAcked(stale)];
  }

  /** Nothing of the peer on the bus. */
  ghost predicate Swept(s: World) {
    && (forall f :: f in s.data ==> !IsData(f, s.peer))
    && (forall a, q: bv8 :: a in s.acks && q <= 8 ==> !IsAckTo(a, s.peer, q))
  }

  /** No numbered data of the peer in `other`. */
  ghost predicate Nothing(other: iset<Frame>, peer: bv16) { forall f :: f in other ==> !IsData(f, peer) }

  lemma {:induction false} CleanWithin(s: World, other: iset<Frame>, es: seq<Event>)
    requires Inv(s) && Within(s, other, es) && Nothing(other, s.peer)
    ensures Inv(After(s, other, es)) && After(s, other, es).peer == s.peer
  {
    if es != [] {
      var before, e := es[..|es| - 1], es[|es| - 1];
      var t := After(s, other, before);
      CleanWithin(s, other, before);
      assert Allowed(t, other, e);
      InvKept(t, e);
      if e.Arrive? {
        PeerStays(t, e.x);
      }
    }
  }

  lemma PeerStays(s: World, x: Input)
    requires !Opens(s, Arrive(x))
    ensures Arrived(s, x).peer == s.peer
  {
  }

  /** The guarantee, at every moment of every way the connection can go on. */
  ghost predicate Guaranteed(s: World, other: iset<Frame>) {
    forall es :: Within(s, other, es) ==> Right(After(s, other, es))
  }

  lemma GuaranteedIsSwept(s: World, other: iset<Frame>)
    requires AtRest(s) && s.cur == 0 && Guaranteed(s, other)
    ensures Swept(s) && Nothing(other, s.peer)
  {
    forall f | f in s.data ensures !IsData(f, s.peer) {
      if IsData(f, s.peer) {
        var es := StaleItemMisleads(s, other, f);
        assert false;
      }
    }
    forall f | f in other ensures !IsData(f, s.peer) {
      if IsData(f, s.peer) {
        var es := OverheardItemMisleads(s, other, f);
        assert false;
      }
    }
    forall a, q: bv8 | a in s.acks && q <= 8 ensures !IsAckTo(a, s.peer, q) {
      if IsAckTo(a, s.peer, q) {
        var es := StaleAckMisleads(s, other, a, q);
        assert false;
      }
    }
  }

  /**
    * The guarantee holds through a whole connection, whatever is lost, repeated or delayed and whatever other
    * stations send, exactly if at its opening the bus held no numbered data of the peer and no acknowledge to
    * it numbered up to eight, and the peer sends no numbered data but its items while the connection lasts -
    * not even to other stations.
    */
  lemma CleanOpeningIff(s: World, other: iset<Frame>)
    requires AtRest(s) && s.cur == 0
    ensures Guaranteed(s, other) <==> Swept(s) && Nothing(other, s.peer)
    ensures Swept(s) <==> Clean(s)
  {
    if Swept(s) && Nothing(other, s.peer) {
      assert Inv(s);
      forall es | Within(s, other, es) ensures Right(After(s, other, es)) { CleanWithin(s, other, es); }
    }
    if Guaranteed(s, other) {
      GuaranteedIsSwept(s, other);
    }
  }

  // What the guarantee does not include

  /**
    * After eight items the connection delivers nothing more until it is opened again; and on a clean bus
    * the peer never gets past item 8.
    */
  lemma StuckAfterEight(s: World, e: Event)
    requires Shape(s) && Right(s) && |s.delivered| == 8 && Enabled(s, e)
    ensures var t := Next(s, e); t.delivered == if Opens(s, e) then [] else s.delivered
    ensures Clean(s) ==> Next(s, e).cur <= 8
  {
    if e.Arrive? {
      ArrivalCases(s, e.x);
      if Accepted(s, e.x) {
        AcceptedArrives(s, e.x);
      } else if Opens(s, e) {
        ConnectArrives(s, e.x);
      }
    } else if Clean(s) {
      CleanNeverMisleads(s, e);
    }
  }
}
