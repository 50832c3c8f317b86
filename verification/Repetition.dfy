/** Sending numbered data and repeating it: actions A7 and A9 of the connection. */
module Repetition {
  import opened Wrappers
  import opened Frames
  import opened Transport
  import opened SetterAlgebra
  import Networks

  datatype SendOutcome = SendOutcome(conn: Conn, sent: seq<Bytes>, result: Result<(), FrameError>)

  /** The header the connection writes into the frame it is given. */
  function DataTpdu(dst: bv16, sq: bv8, s: Bytes): Bytes
    requires STANDARD.Fits(s)
  {
    var s := SetDstAddr(STANDARD, s, Individual(dst));
    var s := SetSrcAddr(STANDARD, s, ADDRESS);
    var s := SetHopCount(STANDARD, s, 7);
    var s := SetTpci6(STANDARD, s, 0x10);
    SetTpciSeq(STANDARD, s, sq)
  }

  /** `send_data_A7`: a copy is stored before the frame goes out. */
  function SendData(c: Conn, s: Bytes, blockFree: bool): SendOutcome
    requires c.srcAddr.Some? && STANDARD.Fits(s)
  {
    var t := DataTpdu(c.srcAddr.value, c.seqNoSend, s);
    if blockFree then SendOutcome(c.(stored := Some(t), repCount := 0, timer := true), [t], Ok(()))
    else SendOutcome(c, [], Err(OutOfMemory))
  }

  /** `repeat_data_A9`: a copy of the stored frame goes out. */
  function RepeatData(c: Conn, blockFree: bool): SendOutcome
    requires c.stored.Some?
  {
    if blockFree then SendOutcome(c.(repCount := c.repCount + 1, timer := true), [c.stored.value], Ok(()))
    else SendOutcome(c, [], Err(OutOfMemory))
  }

  function DataTpduSetters(dst: bv16, sq: bv8): seq<SetterAlgebra.Op> {
    [DstOp(Individual(dst)), SrcOp(ADDRESS), HopCountOp(7), Tpci6Op(0x10), SeqOp(sq)]
  }

  lemma DataTpduIsSetters(dst: bv16, sq: bv8, s: Bytes)
    requires STANDARD.Fits(s)
    ensures DataTpdu(dst, sq, s) == ApplyAll(STANDARD, s, DataTpduSetters(dst, sq))
  {
    var ops := DataTpduSetters(dst, sq);
    var s1 := Apply(STANDARD, s, ops[0]);
    var s2 := Apply(STANDARD, s1, ops[1]);
    var s3 := Apply(STANDARD, s2, ops[2]);
    var s4 := Apply(STANDARD, s3, ops[3]);
    var s5 := Apply(STANDARD, s4, ops[4]);
    assert ops[1..][1..] == ops[2..] && ops[2..][1..] == ops[3..] && ops[3..][1..] == ops[4..] && ops[4..][1..] == [];
    assert ApplyAll(STANDARD, s5, []) == s5;
    assert ApplyAll(STANDARD, s4, ops[4..]) == s5;
    assert ApplyAll(STANDARD, s3, ops[3..]) == s5;
    assert ApplyAll(STANDARD, s2, ops[2..]) == s5;
    assert ApplyAll(STANDARD, s1, ops[1..]) == s5;
  }

  lemma DataTpduCoherent(dst: bv16, sq: bv8, s: Bytes)
    requires STANDARD.Fits(s) && Coherent(s)
    ensures Coherent(DataTpdu(dst, sq, s)) && |DataTpdu(dst, sq, s)| == |s|
  {
    DataTpduIsSetters(dst, sq, s);
    ApplyAllView(STANDARD, s, DataTpduSetters(dst, sq));
  }

  lemma DataTpduFrame(dst: bv16, sq: bv8, s: Bytes)
    requires STANDARD.Fits(s)
    ensures var t := DataTpdu(dst, sq, s);
            && |t| == |s| && t[CTRL] & FRAME_TYPE_MASK == s[CTRL] & FRAME_TYPE_MASK
            && forall i :: 7 <= i < |s| ==> t[i] == s[i]
  {
    DataTpduIsSetters(dst, sq, s);
    ApplyAllView(STANDARD, s, DataTpduSetters(dst, sq));
    assert DataTpdu(dst, sq, s)[7] == s[7];
  }

  lemma JoinCode(t: TpduView)
    ensures JoinTpci(t, 0x10 << 2) == t.(code := t.code | 2)
  {
    assert (0x10 as bv8 << 2) >> 5 == 2 && ((0x10 as bv8 << 2) >> 2) & 0x7 == 0 && (0x10 as bv8 << 2) & 0x3 == 0;
  }

  lemma TwoUpdates(h: Header, ops: seq<SetterAlgebra.Op>)
    requires |ops| >= 2
    ensures UpdateAll(h, ops) == UpdateAll(Update(Update(h, ops[0]), ops[1]), ops[2..])
  {
    assert ops[1..][1..] == ops[2..];
  }

  lemma FiveUpdates(h: Header, ops: seq<SetterAlgebra.Op>)
    requires |ops| == 5
    ensures UpdateAll(h, ops) == Update(Update(Update(Update(Update(h, ops[0]), ops[1]), ops[2]), ops[3]), ops[4])
  {
    var rest := ops[2..];
    TwoUpdates(h, ops);
    TwoUpdates(Update(Update(h, ops[0]), ops[1]), rest);
    assert rest[0] == ops[2] && rest[1] == ops[3] && rest[2..][0] == ops[4];
    assert |rest[2..]| == 1 && rest[2..][1..] == [];
  }

  /** The five setters on any header: two fields overwritten, the others ORed into what was there. */
  lemma DataTpduView(dst: bv16, sq: bv8, s: Bytes)
    requires STANDARD.Fits(s)
    ensures |DataTpdu(dst, sq, s)| == |s|
    ensures var h := View(STANDARD, s);
            View(STANDARD, DataTpdu(dst, sq, s)) ==
              Header(h.ctrl, AtView(h.kind.at | 0, h.kind.hop | 7), ADDRESS, dst,
                     TpduView(h.tpdu.code | 2, h.tpdu.sq | (sq & 0x7), h.tpdu.apci))
  {
    var ops, h := DataTpduSetters(dst, sq), View(STANDARD, s);
    DataTpduIsSetters(dst, sq, s);
    ApplyAllView(STANDARD, s, ops);
    FiveUpdates(h, ops);
    JoinCode(h.tpdu);
    assert (7 as bv8) & 0x7 == 7;
  }

  lemma OredFields(was: bv8, sq: bv8)
    ensures (was & 0x7) | 7 == 7
    ensures sq <= 7 ==> (was | (sq & 0x7) == sq <==> was & !sq == 0)
  {
  }

  lemma NumberedCode(x: bv8, y: bv8)
    requires y >> 5 == (x >> 5) | 2
    ensures KindOf(y).NumberedData? <==> x >> 7 == 0
  {
    assert y >> 6 == 1 <==> x >> 7 == 0;
    assert y >> 2 != 0;
  }

  /**
    * What the receiver reads from the TPDU, whatever frame it was built on: own source address and hop
    * count 7 always; the owner as destination, the connection's number, and numbered data at all, exactly
    * if the frame it was given had nothing in the bits concerned that stays behind.
    */
  lemma DataTpduReadsBackIff(dst: bv16, sq: bv8, s: Bytes)
    requires STANDARD.Fits(s) && sq <= 7
    ensures STANDARD.Fits(DataTpdu(dst, sq, s))
    ensures var t := DataTpdu(dst, sq, s);
            && SrcAddr(STANDARD, t) == ADDRESS && HopCount(STANDARD, t) == 7
            && (DstAddr(STANDARD, t) == Individual(dst) <==> AddrTypeBit(STANDARD, s) == 0)
            && (TpciSeq(STANDARD, t) == sq <==> TpciSeq(STANDARD, s) & !sq == 0)
            && (KindOf(Tpci8(STANDARD, t)).NumberedData? <==> Tpci8(STANDARD, s) >> 7 == 0)
  {
    var t := DataTpdu(dst, sq, s);
    DataTpduView(dst, sq, s);
    OredFields(s[5] >> 4, sq);
    OredFields(TpciSeq(STANDARD, s), sq);
    NumberedCode(s[6], t[6]);
    assert s[5] >> 7 == 0 || s[5] >> 7 == 1;
  }

  // Runs

  /** What can happen after a transmission: an indication from the network, or a repetition. */
  datatype Between = Indicated(ind: Networks.NetworkServiceInd, blockFree: bool) | Repeat(blockFree: bool)

  /**
    * What one of them may send when `t` was the first transmission: `t` again, or at most one response to the
    * sender.
    */
  predicate Share(op: Between, t: Bytes, part: seq<Bytes>) {
    match op
    case Repeat(b) => part == if b then [t] else []
    case Indicated(ind, _) =>
      var f := ind.frame;
      part == [] || part == [Response(f.Source(), 0, T_DISCONNECT)] || part == [Response(f.Source(), f.Seq(), T_ACK)]
  }

  /** A repetition that gets a block. */
  predicate Granted(op: Between) { op.Repeat? && op.blockFree }

  function Attempts(ops: seq<Between>): nat {
    if ops == [] then 0 else Attempts(ops[..|ops| - 1]) + if Granted(ops[|ops| - 1]) then 1 else 0
  }

  function Flatten(parts: seq<seq<Bytes>>): seq<Bytes> {
    if parts == [] then [] else Flatten(parts[..|parts| - 1]) + parts[|parts| - 1]
  }

  lemma FlattenAppend(parts: seq<seq<Bytes>>, part: seq<Bytes>)
    ensures Flatten(parts + [part]) == Flatten(parts) + part
  {
    assert (parts + [part])[..|parts|] == parts;
  }

  lemma IndicationShare(c: Conn, ind: Networks.NetworkServiceInd, blockFree: bool, t: Bytes)
    ensures var o := ReceiveInd(c, ind, blockFree);
            Share(Indicated(ind, blockFree), t, o.sent) && o.conn.stored == c.stored && o.conn.repCount == c.repCount
  {
  }
}
