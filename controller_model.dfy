/**
  The controller's decisions as values: the registry of connected datapaths,
  one iteration of the monitor loop, the port-statistics trigger, and one step
  of the whole controller per event. The class in module ControllerApp runs
  the same logic with loops over its own fields and is proved to agree.
 */
module ControllerModel {
  import opened Classifier
  import opened FlowRules

  /** The switch's own local port, in an OpenFlow 1.3 port-number field. */
  const OFPP_LOCAL: nat := 0xffff_fffe
  /** The wildcard port of a port-statistics request: all ports. */
  const OFPP_ANY: nat := 0xffff_ffff
  /** Ports above this number are not physical host or uplink ports. */
  const MAX_PHYSICAL_PORT: nat := 20
  /** 100 MiB: the per-port traffic (tx plus rx bytes) that triggers ECMP. */
  const ECMP_THRESHOLD_BYTES: nat := 100 * 1024 * 1024

  /** A connection to a switch: its datapath id and which connection it is. */
  datatype Datapath = Datapath(id: Dpid, conn: nat)

  /** What the controller sends to a switch. */
  datatype Message =
    | FlowMod(rule: FlowRule)
    | PortStatsRequest(flags: nat, portNo: nat)

  /** One `send_msg`: the message and the datapath it went to. */
  datatype Sent = Sent(to: Datapath, msg: Message)

  /** One entry of a port-statistics reply body. */
  datatype PortStat = PortStat(portNo: nat, txBytes: nat, rxBytes: nat)

  /**
    How a handler ends: normally, or with the TypeError Python raises when a
    caller unpacks or indexes the None that `classify_switch` returns for an id
    it does not recognise.
   */
  datatype Outcome = Ok | Unclassified(dpid: Dpid)

  /** The two dispatcher states `_state_change_handler` is registered for. */
  datatype Dispatcher = MainDispatcher | DeadDispatcher

  // ----- The datapath registry, `self.datapaths` -----

  /** The keys of the registry, in insertion order. */
  function Ids(dps: seq<Datapath>): seq<Dpid> {
    seq(|dps|, i requires 0 <= i < |dps| => dps[i].id)
  }

  /** A dictionary keyed by `dp.id` has each key once. */
  predicate DistinctIds(dps: seq<Datapath>) {
    forall i, j :: 0 <= i < j < |dps| ==> dps[i].id != dps[j].id
  }

  /** `self.datapaths.get(id)`. */
  function Find(dps: seq<Datapath>, id: Dpid): (r: Option<Datapath>)
    ensures r.Some? <==> id in Ids(dps)
    ensures r.Some? ==> r.value in dps && r.value.id == id
  {
    if dps == [] then None
    else if dps[0].id == id then
      assert Ids(dps)[0] == id;
      Some(dps[0])
    else
      assert Ids(dps) == [dps[0].id] + Ids(dps[1..]);
      Find(dps[1..], id)
  }

  /** Where key id sits in the registry. */
  function IndexOf(dps: seq<Datapath>, id: Dpid): (i: nat)
    requires id in Ids(dps)
    ensures i < |dps| && dps[i].id == id
    ensures forall j :: 0 <= j < i ==> dps[j].id != id
  {
    if dps[0].id == id then 0
    else
      assert Ids(dps) == [dps[0].id] + Ids(dps[1..]);
      1 + IndexOf(dps[1..], id)
  }

  /** In a registry with distinct keys, the entry for a key is the one at its index. */
  lemma FindAt(dps: seq<Datapath>, i: nat)
    requires DistinctIds(dps) && i < |dps|
    ensures Find(dps, dps[i].id) == Some(dps[i])
  {
    var r := Find(dps, dps[i].id);
    assert dps[i].id == Ids(dps)[i];
    var j :| 0 <= j < |dps| && dps[j] == r.value;
  }

  /**
    `self.datapaths[dp.id] = dp`: a new key is appended; an existing key keeps
    its place and its entry is overwritten.
   */
  function Put(dps: seq<Datapath>, dp: Datapath): (r: seq<Datapath>)
    ensures Ids(r) == if dp.id in Ids(dps) then Ids(dps) else Ids(dps) + [dp.id]
    ensures DistinctIds(dps) ==> DistinctIds(r)
    ensures DistinctIds(dps) ==> forall x :: Find(r, x) == if x == dp.id then Some(dp) else Find(dps, x)
  {
    if dp.id in Ids(dps) then
      var r := dps[IndexOf(dps, dp.id) := dp];
      PutPreserves(dps, dp, r);
      r
    else
      var r := dps + [dp];
      PutPreserves(dps, dp, r);
      r
  }

  lemma PutPreserves(dps: seq<Datapath>, dp: Datapath, r: seq<Datapath>)
    requires r == if dp.id in Ids(dps) then dps[IndexOf(dps, dp.id) := dp] else dps + [dp]
    ensures Ids(r) == if dp.id in Ids(dps) then Ids(dps) else Ids(dps) + [dp.id]
    ensures DistinctIds(dps) ==> DistinctIds(r)
    ensures DistinctIds(dps) ==> forall x :: Find(r, x) == if x == dp.id then Some(dp) else Find(dps, x)
  {
    PutIds(dps, dp, r);
    if DistinctIds(dps) {
      PutFind(dps, dp, r);
    }
  }

  /** The keys after a put, and their distinctness. */
  lemma PutIds(dps: seq<Datapath>, dp: Datapath, r: seq<Datapath>)
    requires r == if dp.id in Ids(dps) then dps[IndexOf(dps, dp.id) := dp] else dps + [dp]
    ensures Ids(r) == if dp.id in Ids(dps) then Ids(dps) else Ids(dps) + [dp.id]
    ensures DistinctIds(dps) ==> DistinctIds(r)
  {
    var ids := Ids(dps);
    if dp.id in ids {
      assert Ids(r) == ids;
    } else {
      assert Ids(r) == ids + [dp.id];
      assert forall i :: 0 <= i < |dps| ==> dps[i].id != dp.id by {
        forall i | 0 <= i < |dps| ensures dps[i].id != dp.id { assert ids[i] == dps[i].id; }
      }
    }
  }

  /** The lookups after a put: only the stored key's has changed. */
  lemma PutFind(dps: seq<Datapath>, dp: Datapath, r: seq<Datapath>)
    requires r == if dp.id in Ids(dps) then dps[IndexOf(dps, dp.id) := dp] else dps + [dp]
    requires Ids(r) == if dp.id in Ids(dps) then Ids(dps) else Ids(dps) + [dp.id]
    requires DistinctIds(dps) && DistinctIds(r)
    ensures forall x :: Find(r, x) == if x == dp.id then Some(dp) else Find(dps, x)
  {
    forall x ensures Find(r, x) == if x == dp.id then Some(dp) else Find(dps, x) {
      if x in Ids(r) {
        var i :| 0 <= i < |r| && Ids(r)[i] == x;
        FindAt(r, i);
        if x != dp.id {
          assert r[i] == dps[i];
          FindAt(dps, i);
        }
      } else {
        assert x !in Ids(dps);
      }
    }
  }


  /** `del self.datapaths[id]`: the entry with that key goes; the others keep their order. */
  function Remove(dps: seq<Datapath>, id: Dpid): (r: seq<Datapath>)
    ensures id !in Ids(dps) ==> r == dps
    ensures id in Ids(dps) ==> r == dps[..IndexOf(dps, id)] + dps[IndexOf(dps, id) + 1..]
  {
    if dps == [] then []
    else if dps[0].id == id then
      assert Ids(dps)[0] == id;
      dps[1..]
    else
      assert Ids(dps) == [dps[0].id] + Ids(dps[1..]);
      var rest := Remove(dps[1..], id);
      assert id in Ids(dps) ==> dps[..IndexOf(dps, id)] == [dps[0]] + dps[1..][..IndexOf(dps[1..], id)];
      [dps[0]] + rest
  }

  /** A key distinct from the first entry's is not in the rest of a registry with distinct keys. */
  lemma HeadNotInTail(dps: seq<Datapath>)
    requires DistinctIds(dps) && dps != []
    ensures dps[0].id !in Ids(dps[1..])
  {
    forall j | 0 <= j < |dps| - 1 ensures Ids(dps[1..])[j] != dps[0].id {
      assert dps[1..][j] == dps[j + 1];
    }
  }

  /** After a removal, the lookup of the removed key fails and every other lookup is as before. */
  lemma {:induction false} RemoveFindAt(dps: seq<Datapath>, id: Dpid, x: Dpid)
    requires DistinctIds(dps)
    ensures Find(Remove(dps, id), x) == if x == id then None else Find(dps, x)
    decreases |dps|
  {
    if dps == [] {
    } else if dps[0].id == id {
      HeadNotInTail(dps);
    } else {
      var tail := dps[1..];
      assert DistinctIds(tail);
      RemoveFindAt(tail, id, x);
      assert ([dps[0]] + Remove(tail, id))[1..] == Remove(tail, id);
    }
  }

  /** Putting an entry with a fresh key in front keeps the keys distinct. */
  lemma ConsDistinct(d: Datapath, rest: seq<Datapath>)
    requires DistinctIds(rest) && d.id !in Ids(rest)
    ensures DistinctIds([d] + rest)
  {
    var r := [d] + rest;
    forall a, b | 0 <= a < b < |r| ensures r[a].id != r[b].id {
      if a == 0 {
        assert Ids(rest)[b - 1] == r[b].id;
      } else {
        assert r[a] == rest[a - 1] && r[b] == rest[b - 1];
      }
    }
  }

  /** A removal keeps the keys distinct. */
  lemma {:induction false} RemoveDistinct(dps: seq<Datapath>, id: Dpid)
    requires DistinctIds(dps)
    ensures DistinctIds(Remove(dps, id))
    decreases |dps|
  {
    if dps != [] && dps[0].id != id {
      var tail := dps[1..];
      assert DistinctIds(tail);
      RemoveDistinct(tail, id);
      var rest := Remove(tail, id);
      HeadNotInTail(dps);
      RemoveFindAt(tail, id, dps[0].id);
      assert dps[0].id !in Ids(rest);
      ConsDistinct(dps[0], rest);
    } else if dps != [] {
      assert DistinctIds(dps[1..]);
    }
  }

  /** After a removal, only the removed key's entry has gone. */
  lemma RemoveFind(dps: seq<Datapath>, id: Dpid)
    requires DistinctIds(dps)
    ensures DistinctIds(Remove(dps, id))
    ensures forall x :: Find(Remove(dps, id), x) == if x == id then None else Find(dps, x)
  {
    RemoveDistinct(dps, id);
    forall x ensures Find(Remove(dps, id), x) == if x == id then None else Find(dps, x) {
      RemoveFindAt(dps, id, x);
    }
  }

  /**
    `_state_change_handler`: MAIN registers the datapath (overwriting any
    entry with its id), DEAD unregisters its id when present.
   */
  function RegistryUpdate(dps: seq<Datapath>, st: Dispatcher, dp: Datapath): (r: seq<Datapath>)
    ensures st == MainDispatcher ==> Ids(r) == if dp.id in Ids(dps) then Ids(dps) else Ids(dps) + [dp.id]
    ensures st == DeadDispatcher && dp.id !in Ids(dps) ==> r == dps
    ensures st == DeadDispatcher && dp.id in Ids(dps) ==>
      r == dps[..IndexOf(dps, dp.id)] + dps[IndexOf(dps, dp.id) + 1..]
  {
    match st
    case MainDispatcher => Put(dps, dp)
    case DeadDispatcher => if dp.id in Ids(dps) then Remove(dps, dp.id) else dps
  }

  /** Each event changes the lookup of its own id and of no other. */
  lemma {:induction false} RegistryUpdateFind(dps: seq<Datapath>, st: Dispatcher, dp: Datapath)
    requires DistinctIds(dps)
    ensures DistinctIds(RegistryUpdate(dps, st, dp))
    ensures forall x :: x != dp.id ==> Find(RegistryUpdate(dps, st, dp), x) == Find(dps, x)
    ensures st == MainDispatcher ==> Find(RegistryUpdate(dps, st, dp), dp.id) == Some(dp)
    ensures st == DeadDispatcher ==> Find(RegistryUpdate(dps, st, dp), dp.id) == None
  {
    if st == DeadDispatcher && dp.id in Ids(dps) {
      RemoveFind(dps, dp.id);
    }
  }

  // ----- Messages -----

  /** The `OFPFlowMod`s that install `rules` on dp, in order. */
  function Sends(dp: Datapath, rules: seq<FlowRule>): seq<Sent> {
    seq(|rules|, i requires 0 <= i < |rules| => Sent(dp, FlowMod(rules[i])))
  }

  /** Sending one more rule. */
  lemma SendsSnoc(dp: Datapath, a: seq<FlowRule>, rule: FlowRule)
    ensures Sends(dp, a + [rule]) == Sends(dp, a) + [Sent(dp, FlowMod(rule))]
  {
  }

  /** `OFPPortStatsRequest(dp, 0, OFPP_ANY)`. */
  function StatsRequest(dp: Datapath): Sent {
    Sent(dp, PortStatsRequest(0, OFPP_ANY))
  }

  /** The rule set `switch_features_handler` installs on a switch of a role. */
  function RulesFor(role: SwitchRole, k: nat, ed: nat): (r: seq<FlowRule>)
    ensures |r| == if role.Middle? then 2 * ed * k else k + ed * k
  {
    match role
    case Middle(_, _) => MiddleRules(k, ed)
    case Edge1(_, _) => ClientRules(k, ed)
    case Edge2(_, _) => ServerRules(k, ed)
  }

  // ----- One iteration of `_monitor` -----

  datatype PollResult = PollResult(sends: seq<Sent>, outcome: Outcome)

  /**
    The rest of one pass of `_monitor`'s `for dp in self.datapaths.values()`
    from entry i on: a statistics request to each middle switch, in registry
    order, until an unclassifiable id raises and ends the pass.
   */
  function PollFrom(dps: seq<Datapath>, i: nat): (r: PollResult)
    requires i <= |dps|
    ensures |r.sends| <= |dps| - i
    decreases |dps| - i
  {
    if i == |dps| then PollResult([], Ok)
    else
      match Classify(dps[i].id)
      case None => PollResult([], Unclassified(dps[i].id))
      case Some(role) =>
        var rest := PollFrom(dps, i + 1);
        PollResult((if role.Middle? then [StatsRequest(dps[i])] else []) + rest.sends, rest.outcome)
  }

  /**
    Every request of a pass goes to a middle switch of the registry that comes
    before the first unclassifiable id.
   */
  lemma {:induction false} PollSound(dps: seq<Datapath>, i: nat)
    requires i <= |dps|
    ensures forall x :: x in PollFrom(dps, i).sends ==>
      exists j :: i <= j < |dps| && x == StatsRequest(dps[j]) && IsMiddle(Classify(dps[j].id))
        && forall l :: i <= l < j ==> Classify(dps[l].id).Some?
    decreases |dps| - i
  {
    if i < |dps| && Classify(dps[i].id).Some? {
      PollSound(dps, i + 1);
    }
  }

  /** A pass completes exactly when every registered id classifies. */
  lemma {:induction false} PollOutcome(dps: seq<Datapath>, i: nat)
    requires i <= |dps|
    ensures PollFrom(dps, i).outcome == Ok <==> forall j :: i <= j < |dps| ==> Classify(dps[j].id).Some?
    decreases |dps| - i
  {
    if i < |dps| && Classify(dps[i].id).Some? {
      PollOutcome(dps, i + 1);
    }
  }

  /**
    Every middle switch registered before the first unclassifiable id (all of
    them when there is none) is sent a request; a pass that stops names that id.
   */
  lemma {:induction false} PollComplete(dps: seq<Datapath>, i: nat, j: nat)
    requires i <= j < |dps| && IsMiddle(Classify(dps[j].id))
    requires forall l :: i <= l < j ==> Classify(dps[l].id).Some?
    ensures StatsRequest(dps[j]) in PollFrom(dps, i).sends
    decreases j - i
  {
    if i < j {
      PollComplete(dps, i + 1, j);
    }
  }

  /** A pass that raises does so at the first unclassifiable id. */
  lemma {:induction false} PollStopsAt(dps: seq<Datapath>, i: nat)
    requires i <= |dps|
    ensures PollFrom(dps, i).outcome.Unclassified? ==>
      exists j :: i <= j < |dps| && dps[j].id == PollFrom(dps, i).outcome.dpid && Classify(dps[j].id).None?
        && (forall l :: i <= l < j ==> Classify(dps[l].id).Some?)
    decreases |dps| - i
  {
    if i < |dps| {
      if Classify(dps[i].id).None? {
        assert dps[i].id == PollFrom(dps, i).outcome.dpid;
      } else {
        PollStopsAt(dps, i + 1);
        if PollFrom(dps, i).outcome.Unclassified? {
          var j :| i + 1 <= j < |dps| && dps[j].id == PollFrom(dps, i + 1).outcome.dpid && Classify(dps[j].id).None?
            && (forall l :: i + 1 <= l < j ==> Classify(dps[l].id).Some?);
          assert forall l :: i <= l < j ==> Classify(dps[l].id).Some?;
        }
      }
    }
  }

  /** The requests to the middle switches among entries i .. n-1, in registry order. */
  function MiddleRequests(dps: seq<Datapath>, i: nat, n: nat): seq<Sent>
    requires i <= n <= |dps|
    decreases n
  {
    if n == i then []
    else MiddleRequests(dps, i, n - 1) + (if IsMiddle(Classify(dps[n - 1].id)) then [StatsRequest(dps[n - 1])] else [])
  }

  /** The filter, read from its first entry. */
  lemma {:induction false} MiddleRequestsCons(dps: seq<Datapath>, i: nat, n: nat)
    requires i < n <= |dps|
    ensures MiddleRequests(dps, i, n)
         == (if IsMiddle(Classify(dps[i].id)) then [StatsRequest(dps[i])] else []) + MiddleRequests(dps, i + 1, n)
    decreases n
  {
    if n > i + 1 {
      MiddleRequestsCons(dps, i, n - 1);
      var head := if IsMiddle(Classify(dps[i].id)) then [StatsRequest(dps[i])] else [];
      var last := if IsMiddle(Classify(dps[n - 1].id)) then [StatsRequest(dps[n - 1])] else [];
      assert MiddleRequests(dps, i, n) == (head + MiddleRequests(dps, i + 1, n - 1)) + last;
      assert MiddleRequests(dps, i + 1, n) == MiddleRequests(dps, i + 1, n - 1) + last;
    }
  }

  /**
    With n the first unclassifiable entry from i on (|dps| when there is none),
    a pass sends exactly one request to each middle switch before n, in
    registry order, and to nothing else; it completes when n is the end and
    otherwise raises for the id at n.
   */
  lemma {:induction false} PollIsFilter(dps: seq<Datapath>, i: nat, n: nat)
    requires i <= n <= |dps|
    requires forall l :: i <= l < n ==> Classify(dps[l].id).Some?
    requires n == |dps| || Classify(dps[n].id).None?
    ensures PollFrom(dps, i).sends == MiddleRequests(dps, i, n)
    ensures PollFrom(dps, i).outcome == if n == |dps| then Ok else Unclassified(dps[n].id)
    decreases n - i
  {
    if i < n {
      PollIsFilter(dps, i + 1, n);
      MiddleRequestsCons(dps, i, n);
    }
  }

  // ----- `_port_stats_reply_handler` -----

  /** Ports the handler `continue`s past: the local port and every port above 20. */
  predicate Skipped(stat: PortStat) {
    stat.portNo == OFPP_LOCAL || stat.portNo > MAX_PHYSICAL_PORT
  }

  /** A port that fires the trigger: not skipped, and over 100 MiB of tx plus rx. */
  predicate Hot(stat: PortStat)
    ensures Hot(stat) <==> stat.portNo <= MAX_PHYSICAL_PORT && stat.txBytes + stat.rxBytes > ECMP_THRESHOLD_BYTES
  {
    !Skipped(stat) && stat.txBytes + stat.rxBytes > ECMP_THRESHOLD_BYTES
  }

  /** The local port is above 20, so the first test alone already skips it. */
  lemma SkippedIsAboveTwenty(stat: PortStat)
    ensures Skipped(stat) <==> stat.portNo > MAX_PHYSICAL_PORT
  {
  }

  /** The index at which the scan of a reply body, from i on, breaks out; None when it runs to the end. */
  function FirstHotFrom(body: seq<PortStat>, i: nat): (r: Option<nat>)
    requires i <= |body|
    ensures r.Some? ==> i <= r.value < |body| && Hot(body[r.value])
    ensures r.Some? ==> forall j :: i <= j < r.value ==> !Hot(body[j])
    ensures r.None? <==> forall j :: i <= j < |body| ==> !Hot(body[j])
    decreases |body| - i
  {
    if i == |body| then None
    else if Hot(body[i]) then Some(i)
    else FirstHotFrom(body, i + 1)
  }

  /** What `get_edge1_dp` finds. */
  datatype Edge1Search = Found(dp: Datapath) | NotConnected | Failed(id: Dpid)

  /** `get_edge1_dp` looks past entry l and goes on: it is classified, and not edge1. */
  predicate PassedOver(dps: seq<Datapath>, l: nat)
    requires l < |dps|
  {
    Classify(dps[l].id).Some? && !IsEdge1(Classify(dps[l].id))
  }

  /**
    `get_edge1_dp`, from entry i on: the first registered datapath classified
    edge1; an unclassifiable id met before it raises.
   */
  function FindEdge1From(dps: seq<Datapath>, i: nat): (r: Edge1Search)
    requires i <= |dps|
    ensures r.Found? ==> exists j :: (i <= j < |dps| && dps[j] == r.dp && IsEdge1(Classify(dps[j].id))
      && forall l :: i <= l < j ==> PassedOver(dps, l))
    ensures r.NotConnected? <==> forall j :: i <= j < |dps| ==> PassedOver(dps, j)
    ensures r.Failed? ==> exists j :: (i <= j < |dps| && dps[j].id == r.id && Classify(dps[j].id).None?
      && forall l :: i <= l < j ==> PassedOver(dps, l))
    decreases |dps| - i
  {
    if i == |dps| then NotConnected
    else
      match Classify(dps[i].id)
      case None =>
        assert !PassedOver(dps, i);
        Failed(dps[i].id)
      case Some(role) =>
        if role.Edge1? then
          assert !PassedOver(dps, i);
          Found(dps[i])
        else
          var rest := FindEdge1From(dps, i + 1);
          assert PassedOver(dps, i);
          assert rest.Found? ==> exists j :: (i <= j < |dps| && dps[j] == rest.dp && IsEdge1(Classify(dps[j].id))
            && forall l :: i <= l < j ==> PassedOver(dps, l));
          assert rest.Failed? ==> exists j :: (i <= j < |dps| && dps[j].id == rest.id && Classify(dps[j].id).None?
            && forall l :: i <= l < j ==> PassedOver(dps, l));
          rest
  }

  datatype EcmpResult = EcmpResult(sends: seq<Sent>, outcome: Outcome)

  /**
    `install_ecmp_flows`: the ECMP rules to the edge1 datapath when one is
    registered; nothing when none is (the handler only logs that).
   */
  function EcmpEffect(dps: seq<Datapath>, k: nat): (r: EcmpResult)
    ensures FindEdge1From(dps, 0).Found? ==>
      r == EcmpResult(Sends(FindEdge1From(dps, 0).dp, EcmpRules(k)), Ok)
    ensures FindEdge1From(dps, 0).NotConnected? ==> r == EcmpResult([], Ok)
    ensures FindEdge1From(dps, 0).Failed? ==> r == EcmpResult([], Unclassified(FindEdge1From(dps, 0).id))
    ensures r.sends != [] ==> |r.sends| == k && forall x :: 0 <= x < k ==>
      r.sends[x].msg == FlowMod(Rule(OVERRIDE_PRIORITY, 2, 1, x + 2, x + 1))
      && IsEdge1(Classify(r.sends[x].to.id)) && r.sends[x].to in dps
  {
    match FindEdge1From(dps, 0)
    case Found(dp) => EcmpResult(Sends(dp, EcmpRules(k)), Ok)
    case NotConnected => EcmpResult([], Ok)
    case Failed(id) => EcmpResult([], Unclassified(id))
  }

  // ----- The whole controller -----

  /** The controller's state: the fabric parameters, `datapaths`, `ecmp_triggered` and everything sent so far. */
  datatype ControllerState = ControllerState(
    k: nat, ed: nat, datapaths: seq<Datapath>, ecmpTriggered: bool, outbox: seq<Sent>)

  function Initial(k: nat, ed: nat): ControllerState {
    ControllerState(k, ed, [], false, [])
  }

  /** The events the controller reacts to; MonitorPoll is one iteration of `_monitor`'s loop. */
  datatype Event =
    | StateChange(st: Dispatcher, dp: Datapath)
    | SwitchFeatures(dp: Datapath)
    | PortStatsReply(sender: Datapath, body: seq<PortStat>)
    | MonitorPoll

  datatype StepResult = StepResult(state: ControllerState, outcome: Outcome)

  /** `switch_features_handler`: the rule set of the switch's role. */
  function FeaturesStep(s: ControllerState, dp: Datapath): (r: StepResult)
    ensures r.outcome == Ok <==> Classify(dp.id).Some?
    ensures r.outcome != Ok ==> r == StepResult(s, Unclassified(dp.id))
    ensures r.state == s.(outbox := r.state.outbox)
    ensures r.outcome == Ok ==> r.state.outbox == s.outbox + Sends(dp, RulesFor(Classify(dp.id).value, s.k, s.ed))
  {
    match Classify(dp.id)
    case None => StepResult(s, Unclassified(dp.id))
    case Some(role) => StepResult(s.(outbox := s.outbox + Sends(dp, RulesFor(role, s.k, s.ed))), Ok)
  }

  /** `_port_stats_reply_handler`. */
  function StatsReplyStep(s: ControllerState, sender: Datapath, body: seq<PortStat>): (r: StepResult)
    ensures r.state.k == s.k && r.state.ed == s.ed && r.state.datapaths == s.datapaths
    ensures Classify(sender.id).None? ==> r == StepResult(s, Unclassified(sender.id))
    ensures r.state.ecmpTriggered <==>
      s.ecmpTriggered || (IsMiddle(Classify(sender.id)) && exists j :: 0 <= j < |body| && Hot(body[j]))
    ensures r.state.ecmpTriggered == s.ecmpTriggered ==>
      r.state == s && (Classify(sender.id).Some? ==> r.outcome == Ok)
    ensures r.state.ecmpTriggered != s.ecmpTriggered ==>
      r.state.outbox == s.outbox + EcmpEffect(s.datapaths, s.k).sends && r.outcome == EcmpEffect(s.datapaths, s.k).outcome
  {
    match Classify(sender.id)
    case None => StepResult(s, Unclassified(sender.id))
    case Some(role) =>
      if !role.Middle? || s.ecmpTriggered then StepResult(s, Ok)
      else if FirstHotFrom(body, 0).None? then StepResult(s, Ok)
      else
        var e := EcmpEffect(s.datapaths, s.k);
        StepResult(s.(ecmpTriggered := true, outbox := s.outbox + e.sends), e.outcome)
  }

  /** One iteration of `_monitor`'s loop. */
  function PollStep(s: ControllerState): (r: StepResult)
    ensures r.state == s.(outbox := r.state.outbox) && s.outbox <= r.state.outbox
    ensures r.outcome == Ok <==> forall j :: 0 <= j < |s.datapaths| ==> Classify(s.datapaths[j].id).Some?
  {
    PollOutcome(s.datapaths, 0);
    var p := PollFrom(s.datapaths, 0);
    StepResult(s.(outbox := s.outbox + p.sends), p.outcome)
  }

  /** One event delivered to its handler. */
  function Step(s: ControllerState, ev: Event): (r: StepResult)
    ensures r.state.k == s.k && r.state.ed == s.ed
    ensures s.outbox <= r.state.outbox
    ensures s.ecmpTriggered ==> r.state.ecmpTriggered
    ensures !ev.PortStatsReply? ==> r.state.ecmpTriggered == s.ecmpTriggered
    ensures !ev.StateChange? ==> r.state.datapaths == s.datapaths
  {
    match ev
    case StateChange(st, dp) => StepResult(s.(datapaths := RegistryUpdate(s.datapaths, st, dp)), Ok)
    case SwitchFeatures(dp) => FeaturesStep(s, dp)
    case PortStatsReply(sender, body) => StatsReplyStep(s, sender, body)
    case MonitorPoll => PollStep(s)
  }

  /** A step that sets `ecmp_triggered`. */
  predicate Fires(s: ControllerState, ev: Event) {
    !s.ecmpTriggered && Step(s, ev).state.ecmpTriggered
  }

  /**
    Only a statistics reply from a middle switch, before the trigger has
    fired, with a port over the threshold, fires it; and it always does.
   */
  lemma FiresIff(s: ControllerState, ev: Event)
    ensures Fires(s, ev) <==>
      ev.PortStatsReply? && !s.ecmpTriggered && IsMiddle(Classify(ev.sender.id))
      && exists j :: 0 <= j < |ev.body| && Hot(ev.body[j])
  {
    if ev.PortStatsReply? && (exists j :: 0 <= j < |ev.body| && Hot(ev.body[j])) {
      var j :| 0 <= j < |ev.body| && Hot(ev.body[j]);
      assert FirstHotFrom(ev.body, 0).Some?;
    }
  }

  /** A firing step sends the ECMP rules to the edge1 datapath, and nothing else. */
  lemma FiringSendsEcmp(s: ControllerState, ev: Event)
    requires Fires(s, ev)
    ensures Step(s, ev).state == s.(ecmpTriggered := true, outbox := s.outbox + EcmpEffect(s.datapaths, s.k).sends)
    ensures Step(s, ev).outcome == EcmpEffect(s.datapaths, s.k).outcome
  {
  }

  /** A reply that does not fire changes nothing at all. */
  lemma QuietReplyChangesNothing(s: ControllerState, sender: Datapath, body: seq<PortStat>)
    requires !Fires(s, PortStatsReply(sender, body))
    ensures Step(s, PortStatsReply(sender, body)).state == s
  {
  }

  /**
    Every step keeps the fabric parameters, keeps the registry's keys
    distinct, only appends to what was sent, and never clears the flag.
   */
  lemma StepInvariants(s: ControllerState, ev: Event)
    requires DistinctIds(s.datapaths)
    ensures var t := Step(s, ev).state;
      && t.k == s.k && t.ed == s.ed
      && DistinctIds(t.datapaths)
      && s.outbox <= t.outbox
      && (s.ecmpTriggered ==> t.ecmpTriggered)
  {
    if ev.StateChange? {
      RegistryUpdateFind(s.datapaths, ev.st, ev.dp);
    }
  }

  /** The state after a sequence of events. */
  function Run(s: ControllerState, evs: seq<Event>): ControllerState
    decreases |evs|
  {
    if evs == [] then s else Run(Step(s, evs[0]).state, evs[1..])
  }

  /** How many steps of a run fire the trigger. */
  function Firings(s: ControllerState, evs: seq<Event>): nat
    decreases |evs|
  {
    if evs == [] then 0
    else (if Fires(s, evs[0]) then 1 else 0) + Firings(Step(s, evs[0]).state, evs[1..])
  }

  /**
    ECMP is installed at most once over any sequence of events, never once the
    flag is set, and the flag ends set exactly when it started set or fired.
   */
  lemma {:induction false} AtMostOnce(s: ControllerState, evs: seq<Event>)
    ensures Firings(s, evs) <= 1
    ensures s.ecmpTriggered ==> Firings(s, evs) == 0
    ensures Run(s, evs).ecmpTriggered <==> s.ecmpTriggered || Firings(s, evs) == 1
    decreases |evs|
  {
    if evs != [] {
      var t := Step(s, evs[0]).state;
      assert s.ecmpTriggered ==> t.ecmpTriggered by {
        match evs[0]
        case StateChange(_, _) =>
        case SwitchFeatures(_) =>
        case PortStatsReply(_, _) =>
        case MonitorPoll =>
      }
      AtMostOnce(t, evs[1..]);
    }
  }
}
