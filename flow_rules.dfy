/**
  The rule lists the controller installs: for each switch role, the ordered
  sequence of (priority, IPv4 destination, output port) flow entries that the
  nested `for` loops of `install_middle_flows`, `install_client_flows`,
  `install_server_flows` and `install_ecmp_flows` emit, one `add_flow` or
  `send_msg` per loop iteration. Every entry matches IPv4 (eth_type 0x0800)
  on an exact destination address and has a single output action.
 */
module FlowRules {
  import opened Classifier

  const ETH_TYPE_IPV4: nat := 0x0800

  /** Priority of the default and uplink rules. */
  const DEFAULT_PRIORITY: nat := 10
  /** Priority of the server edge's local-host rules and of the ECMP rules. */
  const OVERRIDE_PRIORITY: nat := 100

  /** A dotted-quad address a.b.c.d. */
  datatype Ipv4 = Ipv4(a: nat, b: nat, c: nat, d: nat)

  /** One `OFPFlowMod`: priority, match (eth_type, ipv4_dst) and the output port. */
  datatype FlowRule = FlowRule(priority: nat, ethType: nat, ipv4Dst: Ipv4, outPort: nat)

  /** The rule for destination 10.o2.o3.o4 to `port`. */
  function Rule(priority: nat, o2: nat, o3: nat, o4: nat, port: nat): FlowRule {
    FlowRule(priority, ETH_TYPE_IPV4, Ipv4(10, o2, o3, o4), port)
  }

  /**
    The first n iterations of `for h in range(k)` that send 10.o2.o3.(h+2) to
    the host's own port h+1.
   */
  function HostRules(priority: nat, o2: nat, o3: nat, n: nat): (r: seq<FlowRule>)
    ensures |r| == n
    ensures forall h :: 0 <= h < n ==> r[h] == Rule(priority, o2, o3, h + 2, h + 1)
  {
    if n == 0 then [] else HostRules(priority, o2, o3, n - 1) + [Rule(priority, o2, o3, n + 1, n)]
  }

  /**
    The first n iterations of `for h in range(k)` that send 10.o2.o3.(h+2) to
    one fixed port.
   */
  function UplinkRules(priority: nat, o2: nat, o3: nat, n: nat, port: nat): (r: seq<FlowRule>)
    ensures |r| == n
    ensures forall h :: 0 <= h < n ==> r[h] == Rule(priority, o2, o3, h + 2, port)
  {
    if n == 0 then [] else UplinkRules(priority, o2, o3, n - 1, port) + [Rule(priority, o2, o3, n + 1, port)]
  }

  lemma MulMonotone(a: nat, b: nat, k: nat)
    requires a <= b
    ensures a * k <= b * k
  {
    assert b * k == a * k + (b - a) * k;
  }

  lemma MulStep(m: nat, k: nat)
    requires m >= 1
    ensures (m - 1) * k + k == m * k
  {
  }

  /** Slot h of block e lies inside m blocks of k. */
  lemma SlotBound(e: nat, h: nat, m: nat, k: nat)
    requires e < m && h < k
    ensures e * k + h < m * k
  {
    MulMonotone(e + 1, m, k);
    assert (e + 1) * k == e * k + k;
  }

  /** Quotient and remainder of a position inside m blocks of k. */
  lemma Slot(x: nat, m: nat, k: nat) returns (e: nat, h: nat)
    requires k > 0 && x < m * k
    ensures e == x / k && h == x % k
    ensures e < m && h < k && x == e * k + h
  {
    e, h := x / k, x % k;
    if e >= m {
      MulMonotone(m, e, k);
      assert false;
    }
  }

  /**
    The first m iterations of the nested loops `for e in range(m): for h in
    range(k)`, each sending 10.o2.(e+1).(h+2) to one fixed port.
   */
  function DomainRules(priority: nat, o2: nat, m: nat, k: nat, port: nat): (r: seq<FlowRule>)
    ensures |r| == m * k
  {
    if m == 0 then []
    else
      MulStep(m, k);
      DomainRules(priority, o2, m - 1, k, port) + UplinkRules(priority, o2, m, k, port)
  }

  /** Iteration (e, h) of the nested loops is rule x = e * k + h: 10.o2.(e+1).(h+2) to the port. */
  lemma {:induction false} DomainRulesAt(priority: nat, o2: nat, m: nat, k: nat, port: nat, e: nat, h: nat, x: nat)
    requires e < m && h < k && x == e * k + h
    ensures x < m * k
    ensures DomainRules(priority, o2, m, k, port)[x] == Rule(priority, o2, e + 1, h + 2, port)
    decreases m
  {
    SlotBound(e, h, m, k);
    var prev := DomainRules(priority, o2, m - 1, k, port);
    var r := DomainRules(priority, o2, m, k, port);
    assert r == prev + UplinkRules(priority, o2, m, k, port);
    if e == m - 1 {
      assert r[x] == UplinkRules(priority, o2, m, k, port)[h];
    } else {
      DomainRulesAt(priority, o2, m - 1, k, port, e, h, x);
      assert r[x] == prev[x];
    }
  }

  /** Rule x of the nested loops in closed form: host x % k of edge domain x / k. */
  function NestedRule(priority: nat, o2: nat, x: nat, k: nat, port: nat): FlowRule
    requires k > 0
  {
    Rule(priority, o2, x / k + 1, x % k + 2, port)
  }

  /** Rule x of the nested loops is host x % k of edge domain x / k. */
  lemma DomainRulesIndex(priority: nat, o2: nat, m: nat, k: nat, port: nat, x: nat)
    requires k > 0 && x < m * k
    ensures DomainRules(priority, o2, m, k, port)[x] == NestedRule(priority, o2, x, k, port)
    ensures DomainRules(priority, o2, m, k, port)[x] == Rule(priority, o2, x / k + 1, x % k + 2, port)
  {
    var e, h := Slot(x, m, k);
    DomainRulesAt(priority, o2, m, k, port, e, h, x);
  }

  /** Every rule of the nested loops has the given priority and matches IPv4. */
  lemma DomainRulesUniform(priority: nat, o2: nat, m: nat, k: nat, port: nat)
    ensures forall x :: 0 <= x < |DomainRules(priority, o2, m, k, port)| ==>
      DomainRules(priority, o2, m, k, port)[x].priority == priority
      && DomainRules(priority, o2, m, k, port)[x].ethType == ETH_TYPE_IPV4
  {
    var r := DomainRules(priority, o2, m, k, port);
    if k == 0 {
      assert m * k == 0;
    } else {
      forall x | 0 <= x < |r| ensures r[x].priority == priority && r[x].ethType == ETH_TYPE_IPV4 {
        DomainRulesIndex(priority, o2, m, k, port, x);
      }
    }
  }

  /**
    The first n iterations of `install_middle_flows`' outer loop `for ip2 in
    range(1, 3)`: direction ip2 sends every 10.ip2.(ip3+1).(ip4+2) to port ip2.
   */
  function MiddleUpTo(n: nat, k: nat, ed: nat): seq<FlowRule> {
    if n == 0 then [] else MiddleUpTo(n - 1, k, ed) + DomainRules(DEFAULT_PRIORITY, n, ed, k, n)
  }

  /** `install_middle_flows`: both directions of the outer loop. */
  function MiddleRules(k: nat, ed: nat): (r: seq<FlowRule>)
    ensures r == MiddleUpTo(2, k, ed)
    ensures |r| == 2 * ed * k
  {
    var d1 := DomainRules(DEFAULT_PRIORITY, 1, ed, k, 1);
    var d2 := DomainRules(DEFAULT_PRIORITY, 2, ed, k, 2);
    assert MiddleUpTo(1, k, ed) == [] + d1;
    assert 2 * ed * k == ed * k + ed * k;
    d1 + d2
  }

  /**
    The middle switch's 2 * ed * k rules are all priority 10; the first ed * k
    send the client side 10.1.*.* to port 1 and the rest the server side
    10.2.*.* to port 2, each half in (ip3, ip4) loop order.
   */
  lemma MiddleRulesShape(k: nat, ed: nat)
    ensures var r := MiddleRules(k, ed);
      && ed * k <= |r|
      && (forall x :: 0 <= x < |r| ==> r[x].priority == DEFAULT_PRIORITY && r[x].ethType == ETH_TYPE_IPV4)
      && (k > 0 ==> forall x :: 0 <= x < ed * k ==>
           r[x] == NestedRule(DEFAULT_PRIORITY, 1, x, k, 1))
      && (k > 0 ==> forall x :: ed * k <= x < |r| ==>
           r[x] == NestedRule(DEFAULT_PRIORITY, 2, x - ed * k, k, 2))
  {
    var d1 := DomainRules(DEFAULT_PRIORITY, 1, ed, k, 1);
    var d2 := DomainRules(DEFAULT_PRIORITY, 2, ed, k, 2);
    var r := MiddleRules(k, ed);
    assert r == d1 + d2;
    DomainRulesUniform(DEFAULT_PRIORITY, 1, ed, k, 1);
    DomainRulesUniform(DEFAULT_PRIORITY, 2, ed, k, 2);
    forall x | 0 <= x < |r| ensures r[x].priority == DEFAULT_PRIORITY && r[x].ethType == ETH_TYPE_IPV4 {
      if x < |d1| { assert r[x] == d1[x]; } else { assert r[x] == d2[x - |d1|]; }
    }
    if k > 0 {
      forall x | 0 <= x < ed * k ensures r[x] == NestedRule(DEFAULT_PRIORITY, 1, x, k, 1) {
        assert r[x] == d1[x];
        DomainRulesIndex(DEFAULT_PRIORITY, 1, ed, k, 1, x);
      }
      forall x | ed * k <= x < |r|
        ensures r[x] == NestedRule(DEFAULT_PRIORITY, 2, x - ed * k, k, 2)
      {
        assert r[x] == d2[x - ed * k];
        DomainRulesIndex(DEFAULT_PRIORITY, 2, ed, k, 2, x - ed * k);
      }
    }
  }

  /**
    The rule list of an edge switch: k local-host rules at priority lp for
    10.lo2.1.(h+2) to port h+1, then ed * k priority-10 uplink rules for
    10.ro2.(e+1).(h+2) to port k+1.
   */
  lemma EdgeRulesShape(lp: nat, lo2: nat, ro2: nat, k: nat, ed: nat)
    ensures var r := HostRules(lp, lo2, 1, k) + DomainRules(DEFAULT_PRIORITY, ro2, ed, k, k + 1);
      && |r| == k + ed * k && k <= |r|
      && (forall x :: 0 <= x < |r| ==>
           r[x].ethType == ETH_TYPE_IPV4 && r[x].priority == (if x < k then lp else DEFAULT_PRIORITY))
      && (forall h :: 0 <= h < k ==> r[h] == Rule(lp, lo2, 1, h + 2, h + 1))
      && (k > 0 ==> forall x :: k <= x < |r| ==>
           r[x] == NestedRule(DEFAULT_PRIORITY, ro2, x - k, k, k + 1))
  {
    var local := HostRules(lp, lo2, 1, k);
    var remote := DomainRules(DEFAULT_PRIORITY, ro2, ed, k, k + 1);
    var r := local + remote;
    DomainRulesUniform(DEFAULT_PRIORITY, ro2, ed, k, k + 1);
    forall x | 0 <= x < |r|
      ensures r[x].ethType == ETH_TYPE_IPV4 && r[x].priority == (if x < k then lp else DEFAULT_PRIORITY)
    {
      if x < k { assert r[x] == local[x]; } else { assert r[x] == remote[x - k]; }
    }
    forall h | 0 <= h < k ensures r[h] == Rule(lp, lo2, 1, h + 2, h + 1) {
      assert r[h] == local[h];
    }
    if k > 0 {
      forall x | k <= x < |r|
        ensures r[x] == NestedRule(DEFAULT_PRIORITY, ro2, x - k, k, k + 1)
      {
        assert r[x] == remote[x - k];
        DomainRulesIndex(DEFAULT_PRIORITY, ro2, ed, k, k + 1, x - k);
      }
    }
  }

  /**
    `install_client_flows` (the edge1 switch): k local rules, then ed * k
    uplink rules.
   */
  function ClientRules(k: nat, ed: nat): (r: seq<FlowRule>)
    ensures |r| == k + ed * k
  {
    HostRules(DEFAULT_PRIORITY, 1, 1, k) + DomainRules(DEFAULT_PRIORITY, 2, ed, k, k + 1)
  }

  /**
    The client edge's rules are all priority 10: the first k send 10.1.1.(h+2)
    to host port h+1, the rest send 10.2.(e+1).(h+2) to the uplink port k+1.
   */
  lemma ClientRulesShape(k: nat, ed: nat)
    ensures var r := ClientRules(k, ed);
      && k <= |r|
      && (forall x :: 0 <= x < |r| ==> r[x].priority == DEFAULT_PRIORITY && r[x].ethType == ETH_TYPE_IPV4)
      && (forall h :: 0 <= h < k ==> r[h] == Rule(DEFAULT_PRIORITY, 1, 1, h + 2, h + 1))
      && (k > 0 ==> forall x :: k <= x < |r| ==>
           r[x] == NestedRule(DEFAULT_PRIORITY, 2, x - k, k, k + 1))
  {
    EdgeRulesShape(DEFAULT_PRIORITY, 1, 2, k, ed);
  }

  /**
    `install_server_flows` (the edge2 switch): k local rules, then ed * k
    uplink rules.
   */
  function ServerRules(k: nat, ed: nat): (r: seq<FlowRule>)
    ensures |r| == k + ed * k
  {
    HostRules(OVERRIDE_PRIORITY, 2, 1, k) + DomainRules(DEFAULT_PRIORITY, 1, ed, k, k + 1)
  }

  /**
    The server edge's first k rules are priority 100, sending 10.2.1.(h+2) to
    host port h+1; the other ed * k are priority 10, sending 10.1.(e+1).(h+2)
    to the uplink port k+1.
   */
  lemma ServerRulesShape(k: nat, ed: nat)
    ensures var r := ServerRules(k, ed);
      && k <= |r|
      && (forall x :: 0 <= x < |r| ==>
           r[x].ethType == ETH_TYPE_IPV4 && r[x].priority == (if x < k then OVERRIDE_PRIORITY else DEFAULT_PRIORITY))
      && (forall h :: 0 <= h < k ==> r[h] == Rule(OVERRIDE_PRIORITY, 2, 1, h + 2, h + 1))
      && (k > 0 ==> forall x :: k <= x < |r| ==>
           r[x] == NestedRule(DEFAULT_PRIORITY, 1, x - k, k, k + 1))
  {
    EdgeRulesShape(OVERRIDE_PRIORITY, 2, 1, k, ed);
  }

  /**
    `install_ecmp_flows`: k rules at priority 100 sending 10.2.1.(h+2) to
    port h+1 (the log line beside the loop names other ports; the rule sends
    to h+1).
   */
  function EcmpRules(k: nat): (r: seq<FlowRule>)
    ensures |r| == k
    ensures forall h :: 0 <= h < k ==> r[h] == Rule(OVERRIDE_PRIORITY, 2, 1, h + 2, h + 1)
  {
    HostRules(OVERRIDE_PRIORITY, 2, 1, k)
  }

  /** Rule sets whose entries all match different destinations. */
  predicate DistinctDestinations(r: seq<FlowRule>) {
    forall x, y :: 0 <= x < y < |r| ==> r[x].ipv4Dst != r[y].ipv4Dst
  }

  /** x is recovered from its quotient and remainder. */
  lemma DivModRecompose(x: nat, k: nat)
    requires k > 0
    ensures x == (x / k) * k + x % k
  {
  }

  /** No two client-edge rules match the same destination, so priorities never have to break a tie. */
  lemma {:induction false} ClientDestinationsDistinct(k: nat, ed: nat)
    ensures DistinctDestinations(ClientRules(k, ed))
  {
    var r := ClientRules(k, ed);
    ClientRulesShape(k, ed);
    forall x, y | 0 <= x < y < |r| ensures r[x].ipv4Dst != r[y].ipv4Dst {
      if k <= x {
        DivModRecompose(x - k, k);
        DivModRecompose(y - k, k);
      }
    }
  }

  /** No two middle-switch rules match the same destination. */
  lemma {:induction false} MiddleDestinationsDistinct(k: nat, ed: nat)
    ensures DistinctDestinations(MiddleRules(k, ed))
  {
    var r := MiddleRules(k, ed);
    MiddleRulesShape(k, ed);
    forall x, y | 0 <= x < y < |r| ensures r[x].ipv4Dst != r[y].ipv4Dst {
      if y < ed * k {
        DivModRecompose(x, k);
        DivModRecompose(y, k);
      } else if ed * k <= x {
        DivModRecompose(x - ed * k, k);
        DivModRecompose(y - ed * k, k);
      }
    }
  }

  /** No two server-edge rules match the same destination. */
  lemma {:induction false} ServerDestinationsDistinct(k: nat, ed: nat)
    ensures DistinctDestinations(ServerRules(k, ed))
  {
    var r := ServerRules(k, ed);
    ServerRulesShape(k, ed);
    forall x, y | 0 <= x < y < |r| ensures r[x].ipv4Dst != r[y].ipv4Dst {
      if k <= x {
        DivModRecompose(x - k, k);
        DivModRecompose(y - k, k);
      }
    }
  }

  /** The ECMP rule set is exactly the server edge's local-host block, now sent to the client edge. */
  lemma EcmpIsServerLocalBlock(k: nat, ed: nat)
    ensures EcmpRules(k) == ServerRules(k, ed)[..k]
  {
  }

  /**
    The rule a switch applies to an IPv4 packet with destination d: among the
    entries matching d, one of highest priority, the latest installed winning
    a tie (a later `OFPFlowMod` add with the same match and priority replaces
    the earlier entry). None when no entry matches.
   */
  function Lookup(table: seq<FlowRule>, d: Ipv4): (r: Option<FlowRule>)
    ensures r.Some? ==> r.value in table && r.value.ipv4Dst == d
    ensures r.None? <==> forall x :: 0 <= x < |table| ==> table[x].ipv4Dst != d
    ensures r.Some? ==> forall x :: 0 <= x < |table| && table[x].ipv4Dst == d ==> table[x].priority <= r.value.priority
  {
    if table == [] then None
    else
      var earlier := Lookup(table[..|table| - 1], d);
      var last := table[|table| - 1];
      assert table == table[..|table| - 1] + [last];
      if last.ipv4Dst == d && (earlier.None? || earlier.value.priority <= last.priority) then Some(last)
      else earlier
  }

  /**
    Why the ECMP rules need no deletion: before they are added, the client
    edge sends 10.2.1.(h+2) up to port k+1; once they are appended it sends
    it to port h+1, because the new entry has the higher priority.
   */
  lemma EcmpOverridesClientUplink(k: nat, ed: nat, h: nat)
    requires ed >= 1 && h < k
    ensures Lookup(ClientRules(k, ed), Ipv4(10, 2, 1, h + 2)) == Some(Rule(DEFAULT_PRIORITY, 2, 1, h + 2, k + 1))
    ensures Lookup(ClientRules(k, ed) + EcmpRules(k), Ipv4(10, 2, 1, h + 2))
         == Some(Rule(OVERRIDE_PRIORITY, 2, 1, h + 2, h + 1))
  {
    var c, e := ClientRules(k, ed), EcmpRules(k);
    var d := Ipv4(10, 2, 1, h + 2);
    ClientUplinkOnly(k, ed, h);
    LookupUnique(c, d, k + h);
    var t := c + e;
    forall x | 0 <= x < |t| && x != k + h && x != |c| + h ensures t[x].ipv4Dst != d {
      if x < |c| {
        assert t[x] == c[x];
      } else {
        assert t[x] == e[x - |c|];
      }
    }
    assert t[k + h] == c[k + h] && t[|c| + h] == e[h];
    LookupTwo(t, d, k + h, |c| + h);
  }

  /** Among the client edge's rules, only the uplink rule k + h is for 10.2.1.(h+2). */
  lemma ClientUplinkOnly(k: nat, ed: nat, h: nat)
    requires ed >= 1 && h < k
    ensures k + h < |ClientRules(k, ed)|
    ensures ClientRules(k, ed)[k + h] == Rule(DEFAULT_PRIORITY, 2, 1, h + 2, k + 1)
    ensures forall x :: 0 <= x < |ClientRules(k, ed)| && x != k + h ==>
      ClientRules(k, ed)[x].ipv4Dst != Ipv4(10, 2, 1, h + 2)
  {
    ClientUplinkAt(k, ed, h);
    ClientDestinationsDistinct(k, ed);
    OnlyMatch(ClientRules(k, ed), k + h);
  }


  /** The client edge's uplink rule for server host h sits at position k + h. */
  lemma ClientUplinkAt(k: nat, ed: nat, h: nat)
    requires ed >= 1 && h < k
    ensures k + h < |ClientRules(k, ed)|
    ensures ClientRules(k, ed)[k + h] == Rule(DEFAULT_PRIORITY, 2, 1, h + 2, k + 1)
  {
    DomainRulesAt(DEFAULT_PRIORITY, 2, ed, k, k + 1, 0, h, h);
    assert ClientRules(k, ed)[k + h] == DomainRules(DEFAULT_PRIORITY, 2, ed, k, k + 1)[h];
  }

  /** In a table with distinct destinations, only entry i matches entry i's destination. */
  lemma OnlyMatch(table: seq<FlowRule>, i: nat)
    requires DistinctDestinations(table) && i < |table|
    ensures forall x :: 0 <= x < |table| && x != i ==> table[x].ipv4Dst != table[i].ipv4Dst
  {
    forall x | 0 <= x < |table| && x != i ensures table[x].ipv4Dst != table[i].ipv4Dst {
      if x < i {
        assert table[x].ipv4Dst != table[i].ipv4Dst;
      } else {
        assert table[i].ipv4Dst != table[x].ipv4Dst;
      }
    }
  }

  /** With a single matching entry, that entry is the one applied. */
  lemma {:induction false} LookupUnique(table: seq<FlowRule>, d: Ipv4, i: nat)
    requires i < |table| && table[i].ipv4Dst == d
    requires forall x :: 0 <= x < |table| && x != i ==> table[x].ipv4Dst != d
    ensures Lookup(table, d) == Some(table[i])
  {
    var r := Lookup(table, d);
    assert r.Some?;
    var x :| 0 <= x < |table| && table[x] == r.value;
  }

  /** With two matching entries, the later one applies when its priority is not lower. */
  lemma {:induction false} LookupTwo(table: seq<FlowRule>, d: Ipv4, i: nat, j: nat)
    requires i < j < |table| && table[i].ipv4Dst == d && table[j].ipv4Dst == d
    requires table[i].priority < table[j].priority
    requires forall x :: 0 <= x < |table| && x != i && x != j ==> table[x].ipv4Dst != d
    ensures Lookup(table, d) == Some(table[j])
  {
    var r := Lookup(table, d);
    assert r.Some?;
    var x :| 0 <= x < |table| && table[x] == r.value;
  }
}
