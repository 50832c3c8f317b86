/** While one peer owns the connection, the traffic of everybody else leaves no trace in it. */
module Isolation {
  import opened Wrappers
  import opened Frames
  import opened Transport
  import opened ConnectionRuns

  predicate OpenFor(c: Conn, p: bv16) { Sound(c) && c.state.OpenIdle? && c.srcAddr == Some(p) }

  /** Individually addressed by `p`. */
  predicate IsFrom(p: bv16, x: Input) { x.ind.DataIndividual? && x.ind.frame.Source() == p }

  function Only(p: bv16, xs: seq<Input>): seq<Input> {
    if xs == [] then [] else
      var x := xs[|xs| - 1];
      Only(p, xs[..|xs| - 1]) + if IsFrom(p, x) then [x] else []
  }

  predicate SentTo(p: bv16, s: Bytes) { STANDARD.Fits(s) && DstAddr(STANDARD, s) == Individual(p) }

  function OnlyTo(p: bv16, ss: seq<Bytes>): seq<Bytes> {
    if ss == [] then [] else
      var s := ss[|ss| - 1];
      OnlyTo(p, ss[..|ss| - 1]) + if SentTo(p, s) then [s] else []
  }

  /** The connection is open after every prefix of the run. */
  predicate StaysOpen(g: Log, xs: seq<Input>) {
    Run(g, xs).conn.state.OpenIdle? && (xs == [] || StaysOpen(g, xs[..|xs| - 1]))
  }

  /** Asked for a connection, individually addressed, by somebody else. */
  predicate Knocks(p: bv16, q: bv16, x: Input) {
    IsFrom(q, x) && q != p && KindOf(x.ind.frame.Tpci()).ConnectReq?
  }

  /** Some input of `xs` explains the refusal `s`. */
  predicate Refusal(p: bv16, s: Bytes, xs: seq<Input>) {
    exists x :: x in xs && x.ind.DataIndividual? && Knocks(p, x.ind.frame.Source(), x)
                && s == Response(x.ind.frame.Source(), 0, T_DISCONNECT)
  }

  lemma OnlyToAppend(p: bv16, ss: seq<Bytes>, ts: seq<Bytes>)
    requires |ts| <= 1
    ensures OnlyTo(p, ss + ts) == OnlyTo(p, ss) + if ts != [] && SentTo(p, ts[0]) then ts else []
  {
    if ts == [] {
      assert ss + ts == ss;
    } else {
      assert (ss + ts)[..|ss + ts| - 1] == ss;
    }
  }

  lemma OwnStep(c: Conn, p: bv16, x: Input)
    requires OpenFor(c, p) && IsFrom(p, x)
    ensures var o := ReceiveInd(c, x.ind, x.blockFree);
            && Sound(o.conn) && (o.conn.state.OpenIdle? ==> OpenFor(o.conn, p))
            && |o.sent| <= 1 && forall s :: s in o.sent ==> SentTo(p, s)
  {
    var f := x.ind.frame;
    var k := KindOf(f.Tpci());
    StepSound(c, x);
    ResponseSendable(p, f.Seq(), T_ACK);
    ResponseSendable(p, 0, T_DISCONNECT);
    if k.NumberedData? {
      assert Handle(c, k, f, x.blockFree) == HandleData(c, f, x.blockFree);
    } else if k.ConnectReq? {
      assert Handle(c, k, f, x.blockFree) == HandleConnect(c, f, x.blockFree);
    }
  }

  lemma ForeignStep(c: Conn, p: bv16, x: Input)
    requires OpenFor(c, p) && !IsFrom(p, x)
    ensures var o := ReceiveInd(c, x.ind, x.blockFree);
            && o.conn == c && Told(o.result) == [] && |o.sent| <= 1
            && forall s :: s in o.sent ==> !SentTo(p, s) && Refusal(p, s, [x])
  {
    var f := x.ind.frame;
    var o := ReceiveInd(c, x.ind, x.blockFree);
    if x.ind.DataIndividual? {
      var k := KindOf(f.Tpci());
      ResponseSendable(f.Source(), 0, T_DISCONNECT);
      if k.ConnectReq? {
        assert Handle(c, k, f, x.blockFree) == Reject(c, f, x.blockFree);
        assert Knocks(p, f.Source(), x) && x in [x];
      }
    }
  }

  /**
    * If the owner's own TPDUs keep the connection open, any others mixed in between leave every field
    * of the connection, what is told upward about it and what is sent to the owner as if they had not
    * been there; all they cause is a T_Disconnect to others that asked for a connection.
    */
  lemma {:induction false} OthersDoNotInterfere(c: Conn, p: bv16, xs: seq<Input>)
    requires OpenFor(c, p)
    requires StaysOpen(Log(c, [], []), Only(p, xs))
    ensures var full := Run(Log(c, [], []), xs);
            var own := Run(Log(c, [], []), Only(p, xs));
            && full.conn == own.conn && OpenFor(own.conn, p)
            && full.told == own.told
            && OnlyTo(p, full.sent) == own.sent
            && forall s :: s in full.sent ==> SentTo(p, s) || Refusal(p, s, xs)
  {
    var g := Log(c, [], []);
    if xs != [] {
      var n := |xs| - 1;
      var before, x := xs[..n], xs[n];
      var rest := Only(p, before);
      if IsFrom(p, x) {
        assert Only(p, xs)[..|Only(p, xs)| - 1] == rest;
      } else {
        assert Only(p, xs) == rest;
      }
      OthersDoNotInterfere(c, p, before);
      var d := Run(g, before).conn;
      var o := ReceiveInd(d, x.ind, x.blockFree);
      if IsFrom(p, x) {
        OwnStep(d, p, x);
      } else {
        ForeignStep(d, p, x);
      }
      OnlyToAppend(p, Run(g, before).sent, o.sent);
      forall s | s in Run(g, xs).sent ensures SentTo(p, s) || Refusal(p, s, xs) {
        if s in Run(g, before).sent && !SentTo(p, s) {
          var y :| y in before && y.ind.DataIndividual? && Knocks(p, y.ind.frame.Source(), y)
                   && s == Response(y.ind.frame.Source(), 0, T_DISCONNECT);
          assert y in xs;
        } else if s in o.sent && !SentTo(p, s) {
          assert Refusal(p, s, [x]);
          assert x in xs;
        }
      }
    }
  }
}
