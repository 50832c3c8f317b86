/**
  * What each TPDU does to the connection, over runs: given by who sent it and its TPCI octet, with everything
  * sent and told. `RunsAreSound` makes every state of a run one these laws speak of.
  */
module ConnectionLaws {
  import opened Wrappers
  import opened Frames
  import opened Transport
  import opened ConnectionRuns
  import opened Repetition
  import Networks

  /** The frame arrives; `blockFree`: the pool has a block for a response. */
  function In(f: Frame, blockFree: bool): Input { Input(Networks.Receive(f), blockFree) }

  predicate Connects(f: Frame) { f.Destination().Individual? && f.Tpci() == 0x80 }

  predicate Disconnects(f: Frame) { f.Destination().Individual? && f.Tpci() == 0x81 }

  predicate CarriesData(f: Frame) { f.Destination().Individual? && 0x40 <= f.Tpci() < 0x80 }

  predicate IsOpenFor(g: Log, p: bv16) {
    Sound(g.conn) && g.conn.state.OpenIdle? && g.conn.srcAddr == Some(p)
  }

  predicate IsClosed(g: Log) { Sound(g.conn) && g.conn.state.Closed? }

  // Opening and closing

  lemma Connected(g: Log, k: Frame, blockFree: bool)
    requires Sound(g.conn) && Connects(k)
    ensures ReceiveInd(g.conn, In(k, blockFree).ind, blockFree) == HandleConnect(g.conn, k, blockFree)
  {
  }

  lemma Disconnected(g: Log, f: Frame, blockFree: bool)
    requires Sound(g.conn) && Disconnects(f)
    ensures ReceiveInd(g.conn, In(f, blockFree).ind, blockFree) == HandleDisconnect(g.conn, f)
  {
  }

  lemma HasData(g: Log, f: Frame, blockFree: bool)
    requires Sound(g.conn) && CarriesData(f)
    ensures ReceiveInd(g.conn, In(f, blockFree).ind, blockFree) == HandleData(g.conn, f, blockFree)
  {
    KindTable(f.Tpci());
  }

  lemma NothingAdded(g: Log)
    ensures Log(g.conn, g.sent + [], g.told + []) == g
  {
  }

  /** A T_Connect to a closed connection opens it for its sender, with both counters at 0 and the timer running. */
  lemma ConnectOpens(g: Log, k: Frame, blockFree: bool)
    requires IsClosed(g) && Connects(k)
    ensures var h := Advance(g, In(k, blockFree));
            && IsOpenFor(h, k.Source()) && h.conn.timer && h.conn.seqNoRecv == 0 && h.conn.seqNoSend == 0
            && h.sent == g.sent && h.told == g.told + [Connect(k)]
  {
    Connected(g, k, blockFree);
  }

  /**
    * The owner's T_Disconnect closes the connection, stops the timer and is told, whether or not the pool has a
    * block, and nothing is sent; the next T_Connect, from whomever, opens it again.
    */
  lemma OwnerDisconnects(g: Log, f: Frame, blockFree: bool, k: Frame, blockFreeThen: bool)
    requires IsOpenFor(g, f.Source()) && Disconnects(f) && Connects(k)
    ensures var h := Advance(g, In(f, blockFree));
            && IsClosed(h) && h.conn == g.conn.(state := Closed, timer := false)
            && h.sent == g.sent && h.told == g.told + [Disconnect(f)]
            && IsOpenFor(Advance(h, In(k, blockFreeThen)), k.Source())
            && Advance(h, In(k, blockFreeThen)).told == g.told + [Disconnect(f)] + [Connect(k)]
  {
    Disconnected(g, f, blockFree);
    ConnectOpens(Advance(g, In(f, blockFree)), k, blockFreeThen);
  }

  /** The T_Disconnect of anybody else, or to a closed connection, changes nothing at all. */
  lemma OtherDisconnectIgnored(g: Log, f: Frame, blockFree: bool)
    requires Sound(g.conn) && Disconnects(f) && !IsOpenFor(g, f.Source())
    ensures Advance(g, In(f, blockFree)) == g
  {
    Disconnected(g, f, blockFree);
    NothingAdded(g);
  }

  /**
    * If the owner connects again, the connection closes: with a T_Disconnect to it and told so, or, without a
    * block, silently.
    */
  lemma OwnerReconnects(g: Log, k: Frame, blockFree: bool)
    requires IsOpenFor(g, k.Source()) && Connects(k)
    ensures var h := Advance(g, In(k, blockFree));
            && IsClosed(h) && h.conn == g.conn.(state := Closed, timer := !blockFree)
            && h.sent == g.sent + (if blockFree then [Response(k.Source(), 0, T_DISCONNECT)] else [])
            && h.told == g.told + (if blockFree then [Disconnect(k)] else [])
  {
    Connected(g, k, blockFree);
  }

  /**
    * Anybody else who asks for an open connection is refused with a T_Disconnect, if the pool has a block;
    * nothing else happens.
    */
  lemma OthersRefused(g: Log, p: bv16, k: Frame, blockFree: bool)
    requires IsOpenFor(g, p) && Connects(k) && k.Source() != p
    ensures Advance(g, In(k, blockFree))
         == g.(sent := g.sent + if blockFree then [Response(k.Source(), 0, T_DISCONNECT)] else [])
  {
    Connected(g, k, blockFree);
    NothingAdded(g);
  }

  // Data

  /** The owner's data with the number before the expected one: sent again, because its acknowledge was lost. */
  predicate IsRepeated(g: Log, f: Frame) { f.Seq() as nat + 1 == g.conn.seqNoRecv as nat }

  lemma Numbers(q: bv8, r: bv8)
    requires q <= 7 && r <= 8
    ensures q == r - 1 <==> q as nat + 1 == r as nat
  {
    assert r == 0 ==> r - 1 == 255;
    assert r > 0 ==> (r - 1) as nat == r as nat - 1;
    if q as nat + 1 == r as nat {
      SameValue(q, r - 1);
    }
  }

  /**
    * The owner's data with the expected number, if the pool has a block: acknowledged with its number, told,
    * counted.
    */
  lemma NextDataTaken(g: Log, f: Frame)
    requires IsOpenFor(g, f.Source()) && CarriesData(f) && f.Seq() == g.conn.seqNoRecv
    ensures Advance(g, In(f, true))
         == Log(g.conn.(seqNoRecv := g.conn.seqNoRecv + 1), g.sent + [Response(f.Source(), f.Seq(), T_ACK)],
                g.told + [DataConnected(f)])
  {
    HasData(g, f, true);
  }

  lemma RepeatedDataAcknowledged(g: Log, f: Frame)
    requires IsOpenFor(g, f.Source()) && CarriesData(f) && IsRepeated(g, f)
    ensures Advance(g, In(f, true)) == g.(sent := g.sent + [Response(f.Source(), f.Seq(), T_ACK)])
  {
    assert f.Seq() <= 7 && g.conn.seqNoRecv <= 8;
    Numbers(f.Seq(), g.conn.seqNoRecv);
    HasData(g, f, true);
    assert g.told + [] == g.told;
  }

  /**
    * However often it comes again: every time it is acknowledged with its own number, and never told or counted
    * again.
    */
  lemma {:induction false} EveryRepeatAcknowledged(g: Log, f: Frame, n: nat)
    requires IsOpenFor(g, f.Source()) && CarriesData(f) && IsRepeated(g, f)
    ensures Run(g, seq(n, _ => In(f, true)))
         == g.(sent := g.sent + seq(n, _ => Response(f.Source(), f.Seq(), T_ACK)))
  {
    var xs := seq(n, _ => In(f, true));
    if n == 0 {
      assert g.sent + [] == g.sent;
    } else {
      EveryRepeatAcknowledged(g, f, n - 1);
      assert xs[..n - 1] == seq(n - 1, _ => In(f, true));
      RepeatedDataAcknowledged(Run(g, xs[..n - 1]), f);
    }
  }

  /** All other data changes nothing: of other stations, with another number, or when there is no block to answer it. */
  lemma OtherDataIgnored(g: Log, f: Frame, blockFree: bool)
    requires Sound(g.conn) && CarriesData(f)
    requires || g.conn.srcAddr != Some(f.Source())
             || (f.Seq() != g.conn.seqNoRecv && !IsRepeated(g, f))
             || !blockFree
    ensures Advance(g, In(f, blockFree)) == g
  {
    assert f.Seq() <= 7 && g.conn.seqNoRecv <= 8;
    Numbers(f.Seq(), g.conn.seqNoRecv);
    HasData(g, f, blockFree);
    NothingAdded(g);
  }

  /** Data of the last owner to a closed connection, with a number it could have, is answered with a T_Disconnect. */
  lemma LateDataRefused(g: Log, f: Frame)
    requires IsClosed(g) && g.conn.srcAddr == Some(f.Source()) && CarriesData(f)
    requires f.Seq() == g.conn.seqNoRecv || IsRepeated(g, f)
    ensures Advance(g, In(f, true)) == g.(sent := g.sent + [Response(f.Source(), 0, T_DISCONNECT)])
  {
    assert f.Seq() <= 7 && g.conn.seqNoRecv <= 8;
    Numbers(f.Seq(), g.conn.seqNoRecv);
    HasData(g, f, true);
    assert g.told + [] == g.told;
  }

  /** So whoever was disconnected by its own second T_Connect learns it from the answer to its next data too. */
  lemma DataAfterReconnect(g: Log, k: Frame, blockFree: bool, f: Frame)
    requires IsOpenFor(g, k.Source()) && Connects(k) && f.Source() == k.Source() && CarriesData(f)
    requires f.Seq() == g.conn.seqNoRecv || IsRepeated(g, f)
    ensures var h := Advance(g, In(k, blockFree));
            Advance(h, In(f, true)) == h.(sent := h.sent + [Response(f.Source(), 0, T_DISCONNECT)])
  {
    OwnerReconnects(g, k, blockFree);
    LateDataRefused(Advance(g, In(k, blockFree)), f);
  }

  // Everything else

  /** No other frame, individually addressed or not, has anything to do with the connection. */
  lemma OtherFramesPass(g: Log, f: Frame, blockFree: bool)
    requires Sound(g.conn) && !Connects(f) && !Disconnects(f) && !CarriesData(f)
    ensures Advance(g, In(f, blockFree)) == g
  {
    KindTable(f.Tpci());
    NothingAdded(g);
  }

  /** One of the TPDUs the connection is about. */
  predicate IsConnectionTpdu(f: Frame) { Connects(f) || Disconnects(f) || CarriesData(f) }

  /**
    * What is returned: without a block, OutOfMemory exactly when the same TPDU with a block would be answered;
    * otherwise what is told upward, or nothing.
    */
  lemma FailsIffItWouldAnswer(g: Log, f: Frame, blockFree: bool)
    requires Sound(g.conn) && IsConnectionTpdu(f)
    ensures var o, p := ReceiveInd(g.conn, In(f, blockFree).ind, blockFree), ReceiveInd(g.conn, In(f, true).ind, true);
            if !blockFree && p.sent != [] then o.result == Err(OutOfMemory) && o.sent == []
            else o == p && o.result == Ok(if Told(o.result) == [] then None else Some(Told(o.result)[0]))
  {
    if Connects(f) {
      Connected(g, f, blockFree);
      Connected(g, f, true);
    } else if Disconnects(f) {
      Disconnected(g, f, blockFree);
      Disconnected(g, f, true);
    } else {
      HasData(g, f, blockFree);
      HasData(g, f, true);
    }
  }

  // The sending side

  /** No indication touches what the sending side keeps, but for the number, which starts at 0 with a connection. */
  lemma SendingSideKept(g: Log, x: Input)
    ensures var c, d := g.conn, Advance(g, x).conn;
            && d.stored == c.stored && d.repCount == c.repCount
            && (d.seqNoSend == c.seqNoSend || (d.seqNoSend == 0 && d.seqNoRecv == 0))
  {
    var f := x.ind.frame;
    if x.ind.DataIndividual? && KindOf(f.Tpci()).NumberedData? {
      assert ReceiveInd(g.conn, x.ind, x.blockFree) == HandleData(g.conn, f, x.blockFree);
    }
  }

  /** The send number never leaves 0, as nothing reachable confirms data. */
  lemma {:induction false} SendNumberStaysZero(xs: seq<Input>)
    ensures Run(START, xs).conn.seqNoSend == 0
  {
    if xs != [] {
      SendNumberStaysZero(xs[..|xs| - 1]);
      SendingSideKept(Run(START, xs[..|xs| - 1]), xs[|xs| - 1]);
    }
  }

  /**
    * So in every run the data a connection sends on a frame with a free TPCI octet goes out as number 0, is
    * stored as sent, and leaves the timer running and no repetition counted.
    */
  lemma SentDataIsNumberZero(xs: seq<Input>, s: Bytes)
    requires Run(START, xs).conn.state.OpenIdle? && STANDARD.Fits(s) && Tpci8(STANDARD, s) & 0xFC == 0
    ensures var c := Run(START, xs).conn;
            && c.srcAddr.Some?
            && var o := SendData(c, s, true);
               && |o.sent| == 1 && o.conn == c.(stored := Some(o.sent[0]), repCount := 0, timer := true)
               && STANDARD.Fits(o.sent[0]) && Tpci8(STANDARD, o.sent[0]) & 0xFC == 0x40
  {
    RunsAreSound(xs);
    SendNumberStaysZero(xs);
    var c := Run(START, xs).conn;
    DataTpduView(c.srcAddr.value, 0, s);
    ZeroNumber(Tpci8(STANDARD, s), Tpci8(STANDARD, DataTpdu(c.srcAddr.value, 0, s)));
  }

  lemma ZeroNumber(x: bv8, y: bv8)
    requires x & 0xFC == 0 && y >> 5 == (x >> 5) | 2 && (y >> 2) & 0x7 == ((x >> 2) & 0x7) | (0 & 0x7)
    ensures y & 0xFC == 0x40
  {
  }
}
