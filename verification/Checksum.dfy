/** The XOR check octet, and what the driver's test of it accepts. */
module Checksums {
  import opened Frames

  function Xor(s: Bytes): bv8 {
    if s == [] then 0 else Xor(s[..|s| - 1]) ^ s[|s| - 1]
  }

  /** `checksum()`: the complement of the XOR of the whole buffer. */
  function CheckOctet(s: Bytes): bv8 { !Xor(s) }

  /** The octets a complete frame on the wire must satisfy: its last octet is the check octet of the others. */
  predicate Checked(s: Bytes) {
    |s| > 0 && s[|s| - 1] == CheckOctet(s[..|s| - 1])
  }

  lemma {:induction false} XorConcat(a: Bytes, b: Bytes)
    ensures Xor(a + b) == Xor(a) ^ Xor(b)
  {
    if b == [] {
      assert a + b == a;
    } else {
      var n := |b| - 1;
      XorConcat(a, b[..n]);
      assert (a + b)[..|a + b| - 1] == a + b[..n];
      assert (Xor(a) ^ Xor(b[..n])) ^ b[n] == Xor(a) ^ (Xor(b[..n]) ^ b[n]);
    }
  }

  lemma {:induction false} XorZeros(n: nat)
    ensures Xor(Zeros(n)) == 0
  {
    if n > 0 {
      XorZeros(n - 1);
      assert Zeros(n)[..n - 1] == Zeros(n - 1);
    }
  }

  lemma XorSplit(s: Bytes, i: nat)
    requires i < |s|
    ensures Xor(s) == Xor(s[..i]) ^ s[i] ^ Xor(s[i + 1..])
  {
    assert s == s[..i] + [s[i]] + s[i + 1..];
    XorConcat(s[..i] + [s[i]], s[i + 1..]);
    assert (s[..i] + [s[i]])[..i] == s[..i];
  }

  lemma CheckedIffXor(s: Bytes)
    requires |s| > 0
    ensures Checked(s) <==> Xor(s) == 0xFF
  {
    var x, c := Xor(s[..|s| - 1]), s[|s| - 1];
    assert c == !x <==> x ^ c == 0xFF;
  }

  /**
    * The driver compares the octet just after the received data, a zero it never wrote, with the
    * check octet of the whole zero-filled buffer. That is the standard's test on the received octets.
    */
  lemma PaddedTestIff(got: Bytes, size: nat)
    requires 0 < |got| < size
    ensures var buf := got + Zeros(size - |got|);
            buf[|got|] == CheckOctet(buf) <==> Checked(got)
  {
    XorConcat(got, Zeros(size - |got|));
    XorZeros(size - |got|);
    CheckedIffXor(got);
    var x := Xor(got);
    assert 0 == !x <==> x == 0xFF;
  }

  /** Two frames that both pass the check cannot differ in exactly one octet. */
  lemma OneOctetErrorDetected(a: Bytes, b: Bytes, i: nat)
    requires |a| == |b| && i < |a| && Checked(a) && Checked(b)
    requires forall j :: 0 <= j < |a| && j != i ==> a[j] == b[j]
    ensures a == b
  {
    CheckedIffXor(a);
    CheckedIffXor(b);
    XorSplit(a, i);
    XorSplit(b, i);
    assert a[..i] == b[..i] && a[i + 1..] == b[i + 1..];
    var p, q, x, y := Xor(a[..i]), Xor(a[i + 1..]), a[i], b[i];
    assert p ^ x ^ q == p ^ y ^ q ==> x == y;
  }

  /** Filling the empty last slot of a frame with the check octet makes it pass; any other last octet does not. */
  lemma FilledSlotIff(s: Bytes)
    requires |s| > 0
    ensures Checked(s[..|s| - 1] + [CheckOctet(s)]) <==> s[|s| - 1] == 0
  {
    var n := |s| - 1;
    var w := s[..n] + [CheckOctet(s)];
    assert w[..n] == s[..n];
    var x, c := Xor(s[..n]), s[n];
    assert !(x ^ c) == !x <==> c == 0;
  }
}
