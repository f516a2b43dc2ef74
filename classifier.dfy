/**
  Switch roles from datapath ids (`Controller.classify_switch`). The low three
  bytes b1, b2, b3 of a 64-bit datapath id name a switch's place in the fabric.
 */
module Classifier {
  import opened Hex

  /** An OpenFlow datapath id: an unsigned 64-bit number. */
  type Dpid = n: nat | n < 0x1_0000_0000_0000_0000

  datatype Option<+T> = None | Some(value: T)

  /**
    What `classify_switch` returns when it matches: a middle (spine) switch
    with its coordinates i = b2 and j = b3, or a client-side (`edge1`) or
    server-side (`edge2`) edge switch with pod = b1 and idx = b2.
   */
  datatype SwitchRole =
    | Middle(i: nat, j: nat)
    | Edge1(pod: nat, idx: nat)
    | Edge2(pod: nat, idx: nat)

  /** The third-lowest byte of a datapath id, read arithmetically. */
  function B1(dpid: Dpid): nat { (dpid / 0x1_0000) % 0x100 }
  /** The second-lowest byte. */
  function B2(dpid: Dpid): nat { (dpid / 0x100) % 0x100 }
  /** The lowest byte. */
  function B3(dpid: Dpid): nat { dpid % 0x100 }

  /**
    The three bytes as `classify_switch` reads them: format the id with
    `"%016x"`, take the hexadecimal pairs at `[-6:-4]`, `[-4:-2]` and `[-2:]`
    and parse each with `int(_, 16)`. They are exactly the low three bytes.
   */
  function DpidBytes(dpid: Dpid): (b: (nat, nat, nat))
    ensures b == (B1(dpid), B2(dpid), B3(dpid))
  {
    var s := FormatHex(dpid, 16);
    DpidBytesAreLowBytes(dpid);
    (HexValue(s[|s| - 6..|s| - 4]), HexValue(s[|s| - 4..|s| - 2]), HexValue(s[|s| - 2..]))
  }

  /** The hexadecimal slices of `"%016x" % dpid` denote its low three bytes. */
  lemma DpidBytesAreLowBytes(dpid: Dpid)
    ensures var s := FormatHex(dpid, 16);
      && |s| >= 16
      && HexValue(s[|s| - 6..|s| - 4]) == B1(dpid)
      && HexValue(s[|s| - 4..|s| - 2]) == B2(dpid)
      && HexValue(s[|s| - 2..]) == B3(dpid)
  {
    var n := dpid;
    var n1, n2 := n / 256, n / 256 / 256;
    SplitLowByte(n, 16);
    SplitLowByte(n1, 14);
    SplitLowByte(n2, 12);
    var p0 := [HexDigit((n / 16) % 16), HexDigit(n % 16)];
    var p1 := [HexDigit((n1 / 16) % 16), HexDigit(n1 % 16)];
    var p2 := [HexDigit((n2 / 16) % 16), HexDigit(n2 % 16)];
    var rest := FormatHex(n2 / 256, 10);
    var s := FormatHex(n, 16);
    assert s == rest + p2 + p1 + p0;
    assert s[|s| - 2..] == p0;
    assert s[|s| - 4..|s| - 2] == p1;
    assert s[|s| - 6..|s| - 4] == p2;
    PairValue((n / 16) % 16, n % 16);
    PairValue((n1 / 16) % 16, n1 % 16);
    PairValue((n2 / 16) % 16, n2 % 16);
    LowByte(n);
    LowByte(n1);
    LowByte(n2);
    assert n2 == n / 0x1_0000;
  }

  /**
    `classify_switch`: b1 = 2 is a middle switch, b1 = 1 with b2 = 1 the
    client edge, b1 = 1 with b2 = 2 the server edge; any other id falls off
    the end of the Python function, which then returns None. The bytes are
    the ones the source slices out of the id's hexadecimal text; DpidBytes
    shows that they are B1, B2 and B3, which the body reads directly.
   */
  function Classify(dpid: Dpid): (r: Option<SwitchRole>)
    ensures r == Some(Middle(B2(dpid), B3(dpid))) <==> B1(dpid) == 2
    ensures r == Some(Edge1(1, 1)) <==> B1(dpid) == 1 && B2(dpid) == 1
    ensures r == Some(Edge2(1, 2)) <==> B1(dpid) == 1 && B2(dpid) == 2
    ensures r == None <==> B1(dpid) != 2 && !(B1(dpid) == 1 && (B2(dpid) == 1 || B2(dpid) == 2))
  {
    var b1, b2, b3 := B1(dpid), B2(dpid), B3(dpid);
    if b1 == 2 then Some(Middle(b2, b3))
    else if b1 == 1 && b2 == 1 then Some(Edge1(b1, b2))
    else if b1 == 1 && b2 == 2 then Some(Edge2(b1, b2))
    else None
  }

  predicate IsMiddle(r: Option<SwitchRole>) { r.Some? && r.value.Middle? }
  predicate IsEdge1(r: Option<SwitchRole>) { r.Some? && r.value.Edge1? }
}
