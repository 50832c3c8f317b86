/** The UART command stream of one frame: indexed start, continue and end services (src/ncn51_driver.rs). */
module Wire {
  import opened Wrappers
  import opened Frames
  import opened Checksums

  const U_L_DATA_START_REQ: bv8 := 0x80
  const U_L_DATA_CONT_REQ: bv8 := 0x80
  const U_L_DATA_END_REQ: bv8 := 0x40

  /** Service octets carry the index of the data octet behind them. */
  function Continue(k: nat): bv8 { U_L_DATA_CONT_REQ + AsU8(k) }
  function End(k: nat): bv8 { U_L_DATA_END_REQ | AsU8(k) }

  /** What the chip reads in a service octet. */
  predicate IsContinue(c: bv8) { c & 0xC0 == 0x80 }
  predicate IsEnd(c: bv8) { c & 0xC0 == 0x40 }
  function Index(c: bv8): nat { (c & 0x3F) as nat }

  /** The octets written for `s[..k]`. */
  function Commands(s: Bytes, k: nat): (r: Bytes)
    requires k <= |s|
    ensures |r| == 2 * k
  {
    if k == 0 then [] else Commands(s, k - 1) + [Continue(k - 1), s[k - 1]]
  }

  /** Everything `send_frame` writes: at least one data octet, then the check octet in place of the last one. */
  function SendStream(s: Bytes): Bytes
    requires |s| > 0
  {
    Commands(s, if |s| == 1 then 1 else |s| - 1) + [End(|s| - 1), CheckOctet(s)]
  }

  /** The octets on the bus for buffer `s`: the check octet takes the place of the last one. */
  function OnWire(s: Bytes): (w: Bytes)
    requires |s| > 0
    ensures |w| == |s|
  {
    s[..|s| - 1] + [CheckOctet(s)]
  }

  /** The stream for octets `w[k..]` of a frame whose check octet is in place. */
  function StreamFrom(w: Bytes, k: nat): (r: Bytes)
    requires k < |w|
    ensures |r| == 2 * (|w| - k)
    decreases |w| - k
  {
    if k == |w| - 1 then [End(k), w[k]] else [Continue(k), w[k]] + StreamFrom(w, k + 1)
  }

  /**
    * The bus chip's side: collect data octets while their index is the number already held,
    * until an end service with the right index brings the check octet. Returns what is left too.
    */
  function Decode(t: Bytes, got: Bytes): Option<(Bytes, Bytes)>
    decreases |t|
  {
    if |t| < 2 || Index(t[0]) != |got| then None
    else if IsContinue(t[0]) then Decode(t[2..], got + [t[1]])
    else if IsEnd(t[0]) && got != [] then Some((got + [t[1]], t[2..]))
    else None
  }

  lemma ServiceOctets(k: nat)
    requires k < 64
    ensures IsContinue(Continue(k)) && Index(Continue(k)) == k
    ensures IsEnd(End(k)) && !IsContinue(End(k)) && Index(End(k)) == k
  {
    AsU8Value(k);
    var b := AsU8(k);
    assert b < 64;
    assert (0x80 + b) & 0xC0 == 0x80 && (0x80 + b) & 0x3F == b;
    assert (0x40 | b) & 0xC0 == 0x40 && (0x40 | b) & 0x3F == b;
  }

  lemma ServiceOctetsUnique(c: bv8, k: nat)
    requires Index(c) == k
    ensures k < 64
    ensures IsContinue(c) ==> c == Continue(k)
    ensures IsEnd(c) ==> c == End(k)
  {
    var b := c & 0x3F;
    assert b < 64;
    AsU8Value(k);
    SameValue(b, AsU8(k));
    assert c & 0xC0 == 0x80 ==> c == 0x80 + b;
    assert c & 0xC0 == 0x40 ==> c == 0x40 | b;
  }

  lemma {:induction false} StreamSplit(s: Bytes, w: Bytes, k: nat)
    requires 2 <= |s| == |w| && k < |s| && s[..|s| - 1] == w[..|s| - 1]
    ensures Commands(s, |s| - 1) + [End(|s| - 1), w[|s| - 1]] == Commands(s, k) + StreamFrom(w, k)
    decreases |s| - k
  {
    if k < |s| - 1 {
      StreamSplit(s, w, k + 1);
      assert s[k] == s[..|s| - 1][k] == w[..|s| - 1][k] == w[k];
      assert Commands(s, k + 1) == Commands(s, k) + [Continue(k), s[k]];
      assert Commands(s, k) + [Continue(k), w[k]] + StreamFrom(w, k + 1) == Commands(s, k) + StreamFrom(w, k);
    }
  }

  lemma StreamStep(w: Bytes, k: nat, rest: Bytes)
    requires 2 <= |w| && k < |w|
    ensures StreamFrom(w, k) + rest ==
      if k < |w| - 1 then [Continue(k), w[k]] + (StreamFrom(w, k + 1) + rest) else [End(k), w[k]] + rest
  {
    if k < |w| - 1 {
      assert StreamFrom(w, k) == [Continue(k), w[k]] + StreamFrom(w, k + 1);
    }
  }

  lemma {:induction false} DecodeFrom(w: Bytes, k: nat, rest: Bytes)
    requires 2 <= |w| <= 64 && k < |w|
    ensures Decode(StreamFrom(w, k) + rest, w[..k]) == Some((w, rest))
    decreases |w| - k
  {
    var c := if k < |w| - 1 then Continue(k) else End(k);
    var more := (if k < |w| - 1 then StreamFrom(w, k + 1) else []) + rest;
    var t := StreamFrom(w, k) + rest;
    ServiceOctets(k);
    assert t == [c, w[k]] + more by { StreamStep(w, k, rest); }
    assert t[0] == c && t[1] == w[k] && t[2..] == more;
    assert w[..k] + [w[k]] == w[..k + 1];
    if k < |w| - 1 {
      DecodeFrom(w, k + 1, rest);
    } else {
      assert w[..k + 1] == w && more == rest;
    }
  }

  /**
    * What the send loop writes decodes to the data octets plus check octet, whatever follows on the
    * line; and those octets pass the bus check exactly if the buffer's last octet was empty.
    */
  lemma SendStreamDecodes(s: Bytes, rest: Bytes)
    requires 2 <= |s| <= 64
    ensures |SendStream(s)| == 2 * |s|
    ensures Decode(SendStream(s) + rest, []) == Some((OnWire(s), rest))
    ensures Xor(OnWire(s)) == 0xFF <==> s[|s| - 1] == 0
  {
    var w := OnWire(s);
    StreamSplit(s, w, 0);
    assert SendStream(s) == StreamFrom(w, 0);
    DecodeFrom(w, 0, rest);
    assert w[..0] == [];
    FilledSlotIff(s);
    CheckedIffXor(w);
  }

  /** No other stream decodes to the same octets: decoding inverts encoding in both directions. */
  lemma DecodeIff(t: Bytes, w: Bytes, rest: Bytes)
    ensures Decode(t, []) == Some((w, rest)) <==> 2 <= |w| <= 64 && t == StreamFrom(w, 0) + rest
  {
    if 2 <= |w| <= 64 && t == StreamFrom(w, 0) + rest {
      DecodeFrom(w, 0, rest);
      assert w[..0] == [];
    }
    if Decode(t, []) == Some((w, rest)) {
      DecodedFrom(t, [], w, rest);
    }
  }

  lemma {:induction false} DecodedFrom(t: Bytes, got: Bytes, w: Bytes, rest: Bytes)
    requires Decode(t, got) == Some((w, rest))
    ensures 2 <= |w| <= 64 && |got| < |w| && got == w[..|got|]
    ensures t == StreamFrom(w, |got|) + rest
    decreases |t|
  {
    var k, c, d := |got|, t[0], t[1];
    ServiceOctetsUnique(c, k);
    assert t == [c, d] + t[2..];
    if IsContinue(c) {
      DecodedFrom(t[2..], got + [d], w, rest);
      PrefixStep(w, got, d);
    } else {
      assert w == got + [d] && rest == t[2..];
    }
    StreamStep(w, k, rest);
  }

  lemma PrefixStep(w: Bytes, got: Bytes, d: bv8)
    requires |got| < |w| && w[..|got| + 1] == got + [d]
    ensures w[..|got|] == got && w[|got|] == d
  {
    assert w[..|got|] == w[..|got| + 1][..|got|];
    assert w[|got|] == w[..|got| + 1][|got|];
  }
}
