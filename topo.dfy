/**
  The topology script's side of the datapath-id convention: `dpid_from_bytes`
  writes the id `00:00:00:00:00:b1:b2:b3` as 16 hexadecimal characters, and
  `FatTreeTopo.build` gives one client edge, one server edge and k middle
  switches ids that the controller's classifier recognises.
 */
module Topology {
  import opened Hex
  import opened Classifier

  /** n copies of s, one after the other (Python's `s * n`). */
  function Repeat(s: string, n: nat): (r: string)
    ensures |r| == n * |s|
  {
    if n == 0 then [] else s + Repeat(s, n - 1)
  }

  /** `dpid_from_bytes(b1, b2, b3)`: five `"00"` pairs, then b1, b2, b3 as `"%02x"`. */
  function DpidFromBytes(b1: nat, b2: nat, b3: nat): (s: string)
    ensures |s| >= 16
  {
    Repeat(FormatHex(0, 2), 5) + FormatHex(b1, 2) + FormatHex(b2, 2) + FormatHex(b3, 2)
  }

  /** A byte is written as exactly two digits, high nibble first. */
  lemma TwoDigits(b: nat)
    requires b < 256
    ensures FormatHex(b, 2) == [HexDigit(b / 16), HexDigit(b % 16)]
    ensures HexValue(FormatHex(b, 2)) == b
  {
    assert FormatHex(b, 2) == FormatHex(b / 16, 1) + [HexDigit(b % 16)];
    assert FormatHex(b / 16, 1) == [HexDigit(b / 16)];
    PairValue(b / 16, b % 16);
  }

  /** Repeating a string of '0's gives a string of '0's. */
  lemma {:induction false} RepeatZeros(s: string, n: nat)
    requires forall i :: 0 <= i < |s| ==> s[i] == '0'
    ensures forall i :: 0 <= i < |Repeat(s, n)| ==> Repeat(s, n)[i] == '0'
  {
    if n > 0 {
      RepeatZeros(s, n - 1);
      var r, rest := Repeat(s, n), Repeat(s, n - 1);
      assert r == s + rest;
      forall i | 0 <= i < |r| ensures r[i] == '0' {
        if i >= |s| {
          assert r[i] == rest[i - |s|];
        }
      }
    }
  }

  /** A string of '0's is zero. */
  lemma {:induction false} ZerosValue(s: string)
    requires forall i :: 0 <= i < |s| ==> s[i] == '0'
    ensures IsHexString(s) && HexValue(s) == 0
  {
    if s != [] {
      ZerosValue(s[..|s| - 1]);
    }
  }

  /** The five leading `"00"` pairs. */
  lemma Padding()
    ensures |Repeat(FormatHex(0, 2), 5)| == 10
    ensures forall i :: 0 <= i < 10 ==> Repeat(FormatHex(0, 2), 5)[i] == '0'
    ensures IsHexString(Repeat(FormatHex(0, 2), 5)) && HexValue(Repeat(FormatHex(0, 2), 5)) == 0
  {
    TwoDigits(0);
    RepeatZeros(FormatHex(0, 2), 5);
    ZerosValue(Repeat(FormatHex(0, 2), 5));
  }

  /**
    For bytes below 256 the text is 16 lower-case hexadecimal characters: ten
    '0's, then the two digits of b1, of b2 and of b3.
   */
  lemma DpidTextShape(b1: nat, b2: nat, b3: nat)
    requires b1 < 256 && b2 < 256 && b3 < 256
    ensures var s := DpidFromBytes(b1, b2, b3);
      && |s| == 16
      && IsLowerHexString(s) && IsHexString(s)
      && (forall i :: 0 <= i < 10 ==> s[i] == '0')
      && s[10..12] == [HexDigit(b1 / 16), HexDigit(b1 % 16)]
      && s[12..14] == [HexDigit(b2 / 16), HexDigit(b2 % 16)]
      && s[14..16] == [HexDigit(b3 / 16), HexDigit(b3 % 16)]
  {
    Padding();
    TwoDigits(b1);
    TwoDigits(b2);
    TwoDigits(b3);
    var z := Repeat(FormatHex(0, 2), 5);
    var s := DpidFromBytes(b1, b2, b3);
    assert s == z + FormatHex(b1, 2) + FormatHex(b2, 2) + FormatHex(b3, 2);
    assert s[..10] == z;
    assert s[10..12] == FormatHex(b1, 2);
    assert s[12..14] == FormatHex(b2, 2);
    assert s[14..16] == FormatHex(b3, 2);
    forall i | 0 <= i < 16 ensures IsLowerHexDigit(s[i]) {
      if i < 10 {
        assert s[i] == z[i];
      } else if i < 12 {
        assert s[i] == s[10..12][i - 10];
      } else if i < 14 {
        assert s[i] == s[12..14][i - 12];
      } else {
        assert s[i] == s[14..16][i - 14];
      }
    }
    forall i | 0 <= i < 10 ensures s[i] == '0' {
      assert s[i] == z[i];
    }
  }

  /** Read as a hexadecimal number, the text is b1 * 2^16 + b2 * 2^8 + b3. */
  lemma DpidTextValue(b1: nat, b2: nat, b3: nat)
    requires b1 < 256 && b2 < 256 && b3 < 256
    ensures IsHexString(DpidFromBytes(b1, b2, b3))
    ensures HexValue(DpidFromBytes(b1, b2, b3)) == b1 * 0x1_0000 + b2 * 0x100 + b3
  {
    Padding();
    TwoDigits(b1);
    TwoDigits(b2);
    TwoDigits(b3);
    var z := Repeat(FormatHex(0, 2), 5);
    var x1, x2, x3 := FormatHex(b1, 2), FormatHex(b2, 2), FormatHex(b3, 2);
    assert Pow16(2) == 256;
    HexValueAppend(z, x1);
    HexValueAppend(z + x1, x2);
    HexValueAppend(z + x1 + x2, x3);
  }

  /** The 64-bit id a switch reports for the text `dpid_from_bytes` wrote. */
  function DpidOf(b1: nat, b2: nat, b3: nat): (d: Dpid)
    requires b1 < 256 && b2 < 256 && b3 < 256
    ensures d == b1 * 0x1_0000 + b2 * 0x100 + b3
  {
    DpidTextValue(b1, b2, b3);
    HexValue(DpidFromBytes(b1, b2, b3))
  }

  /** Round trip: the classifier's byte extraction recovers the three bytes. */
  lemma DpidRoundTrip(b1: nat, b2: nat, b3: nat)
    requires b1 < 256 && b2 < 256 && b3 < 256
    ensures DpidBytes(DpidOf(b1, b2, b3)) == (b1, b2, b3)
  {
    BytesOfSum(DpidOf(b1, b2, b3), b1, b2, b3);
  }

  /** The id b1 * 2^16 + b2 * 2^8 + b3 yields the bytes b1, b2, b3. */
  lemma BytesOfSum(d: Dpid, b1: nat, b2: nat, b3: nat)
    requires b1 < 256 && b2 < 256 && b3 < 256
    requires d == b1 * 0x1_0000 + b2 * 0x100 + b3
    ensures DpidBytes(d) == (b1, b2, b3)
  {
    ByteArithmetic(b1, b2, b3);
  }

  /** The bytes of b1 * 2^16 + b2 * 2^8 + b3, read back by division. */
  lemma ByteArithmetic(b1: nat, b2: nat, b3: nat)
    requires b1 < 256 && b2 < 256 && b3 < 256
    ensures var d := b1 * 0x1_0000 + b2 * 0x100 + b3;
      (d / 0x1_0000) % 0x100 == b1 && (d / 0x100) % 0x100 == b2 && d % 0x100 == b3
  {
    var d := b1 * 0x1_0000 + b2 * 0x100 + b3;
    var hi := b1 * 0x100 + b2;
    assert d == hi * 0x100 + b3;
    assert d / 0x100 == hi && d % 0x100 == b3;
    assert hi / 0x100 == b1 && hi % 0x100 == b2;
    assert d / 0x1_0000 == hi / 0x100;
  }

  /** An id built as `dpid_from_bytes(1, 1, e)` is the client edge. */
  lemma Edge1Role(e: nat)
    requires e < 256
    ensures Classify(DpidOf(1, 1, e)) == Some(Edge1(1, 1))
  {
    ByteArithmetic(1, 1, e);
  }

  /** An id built as `dpid_from_bytes(1, 2, e)` is the server edge. */
  lemma Edge2Role(e: nat)
    requires e < 256
    ensures Classify(DpidOf(1, 2, e)) == Some(Edge2(1, 2))
  {
    ByteArithmetic(1, 2, e);
  }

  /** An id built as `dpid_from_bytes(2, m, 0)` is middle switch (m, 0). */
  lemma MiddleRole(m: nat)
    requires m < 256
    ensures Classify(DpidOf(2, m, 0)) == Some(Middle(m, 0))
  {
    ByteArithmetic(2, m, 0);
  }

  /**
    The ids `FatTreeTopo.build` gives its switches, loop by loop: one client
    edge, one server edge, then middle switches 0 .. k-1. With at most 256
    middle switches every id is 16 hexadecimal characters and classifies as
    the role the script meant.
   */
  method BuildSwitchIds(k: nat) returns (edge1: seq<string>, edge2: seq<string>, middle: seq<string>)
    ensures |edge1| == 1 && edge1[0] == DpidFromBytes(1, 1, 1)
    ensures |edge2| == 1 && edge2[0] == DpidFromBytes(1, 2, 1)
    ensures |middle| == k && forall m :: 0 <= m < k ==> middle[m] == DpidFromBytes(2, m, 0)
    ensures Classify(DpidOf(1, 1, 1)) == Some(Edge1(1, 1))
    ensures Classify(DpidOf(1, 2, 1)) == Some(Edge2(1, 2))
    ensures k <= 256 ==> forall m :: 0 <= m < k ==>
      |middle[m]| == 16 && Classify(DpidOf(2, m, 0)) == Some(Middle(m, 0))
  {
    edge1 := [];
    for e1 := 0 to 1
      invariant |edge1| == e1 && forall i :: 0 <= i < e1 ==> edge1[i] == DpidFromBytes(1, 1, i + 1)
    {
      edge1 := edge1 + [DpidFromBytes(1, 1, e1 + 1)];
    }
    edge2 := [];
    for e2 := 0 to 1
      invariant |edge2| == e2 && forall i :: 0 <= i < e2 ==> edge2[i] == DpidFromBytes(1, 2, i + 1)
    {
      edge2 := edge2 + [DpidFromBytes(1, 2, e2 + 1)];
    }
    middle := [];
    for m := 0 to k
      invariant |middle| == m && forall i :: 0 <= i < m ==> middle[i] == DpidFromBytes(2, i, 0)
    {
      middle := middle + [DpidFromBytes(2, m, 0)];
    }
    Edge1Role(1);
    Edge2Role(1);
    if k <= 256 {
      forall m | 0 <= m < k
        ensures |middle[m]| == 16 && Classify(DpidOf(2, m, 0)) == Some(Middle(m, 0))
      {
        DpidTextShape(2, m, 0);
        MiddleRole(m);
      }
    }
  }
}
