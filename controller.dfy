/**
  The Ryu application `Controller`: its fields, updated in place by its
  handlers, and the loops that emit flow rules and statistics requests one
  message at a time. Each method is proved to have exactly the effect the
  corresponding function of module ControllerModel describes.
 */
module ControllerApp {
  import opened Classifier
  import opened FlowRules
  import opened ControllerModel

  /** One more iteration of an inner `for h` loop that sends to a fixed port. */
  lemma UplinkStep(sent: seq<Sent>, dp: Datapath, before: seq<FlowRule>, p: nat, o2: nat, o3: nat, n: nat, port: nat)
    ensures sent + Sends(dp, before + UplinkRules(p, o2, o3, n + 1, port))
         == (sent + Sends(dp, before + UplinkRules(p, o2, o3, n, port))) + [Sent(dp, FlowMod(Rule(p, o2, o3, n + 2, port)))]
  {
    var rule := Rule(p, o2, o3, n + 2, port);
    assert before + UplinkRules(p, o2, o3, n + 1, port) == (before + UplinkRules(p, o2, o3, n, port)) + [rule];
    SendsSnoc(dp, before + UplinkRules(p, o2, o3, n, port), rule);
  }

  /** One more iteration of an inner `for h` loop that sends to the host's port. */
  lemma HostStep(sent: seq<Sent>, dp: Datapath, p: nat, o2: nat, o3: nat, n: nat)
    ensures sent + Sends(dp, HostRules(p, o2, o3, n + 1))
         == (sent + Sends(dp, HostRules(p, o2, o3, n))) + [Sent(dp, FlowMod(Rule(p, o2, o3, n + 2, n + 1)))]
  {
    SendsSnoc(dp, HostRules(p, o2, o3, n), Rule(p, o2, o3, n + 2, n + 1));
  }

  /** One more edge domain of a `for e` loop: its block of uplink rules. */
  lemma DomainStep(before: seq<FlowRule>, p: nat, o2: nat, m: nat, k: nat, port: nat)
    ensures before + DomainRules(p, o2, m + 1, k, port)
         == (before + DomainRules(p, o2, m, k, port)) + UplinkRules(p, o2, m + 1, k, port)
  {
    assert DomainRules(p, o2, m + 1, k, port) == DomainRules(p, o2, m, k, port) + UplinkRules(p, o2, m + 1, k, port);
  }

  /** One more direction of `install_middle_flows`' outer loop. */
  lemma MiddleStep(n: nat, k: nat, ed: nat)
    ensures MiddleUpTo(n + 1, k, ed) == MiddleUpTo(n, k, ed) + DomainRules(DEFAULT_PRIORITY, n + 1, ed, k, n + 1)
  {
  }

  class Controller {
    /** Hosts per edge switch (6 in the source). */
    const k: nat
    /** Server-side edge domains (1 in the source). */
    const ed: nat
    /** `self.datapaths`, in insertion order. */
    var datapaths: seq<Datapath>
    /** `self.ecmp_triggered`. */
    var ecmpTriggered: bool
    /** Every message sent so far, in order, with the datapath it went to. */
    var outbox: seq<Sent>

    ghost predicate Valid()
      reads this
    {
      DistinctIds(datapaths)
    }

    function State(): ControllerState
      reads this
    {
      ControllerState(k, ed, datapaths, ecmpTriggered, outbox)
    }

    /** `__init__`: an empty registry and the trigger armed. */
    constructor (k: nat, ed: nat)
      ensures Valid() && State() == Initial(k, ed)
    {
      this.k := k;
      this.ed := ed;
      datapaths := [];
      ecmpTriggered := false;
      outbox := [];
    }

    /** `_state_change_handler`. */
    method StateChangeHandler(st: Dispatcher, dp: Datapath)
      requires Valid()
      modifies this`datapaths
      ensures Valid()
      ensures datapaths == RegistryUpdate(old(datapaths), st, dp)
      ensures forall x :: x != dp.id ==> Find(datapaths, x) == Find(old(datapaths), x)
      ensures st == MainDispatcher ==> Find(datapaths, dp.id) == Some(dp)
      ensures st == DeadDispatcher ==> Find(datapaths, dp.id) == None
    {
      RegistryUpdateFind(datapaths, st, dp);
      if st == MainDispatcher {
        datapaths := Put(datapaths, dp);
      } else if st == DeadDispatcher && dp.id in Ids(datapaths) {
        datapaths := Remove(datapaths, dp.id);
      }
    }

    /** `add_flow`: one `OFPFlowMod` matching IPv4 traffic to dst, output to port. */
    method AddFlow(dp: Datapath, priority: nat, dst: Ipv4, port: nat)
      modifies this`outbox
      ensures outbox == old(outbox) + [Sent(dp, FlowMod(FlowRule(priority, ETH_TYPE_IPV4, dst, port)))]
    {
      outbox := outbox + [Sent(dp, FlowMod(FlowRule(priority, ETH_TYPE_IPV4, dst, port)))];
    }

    /** `install_middle_flows`. */
    method InstallMiddleFlows(dp: Datapath)
      modifies this`outbox
      ensures outbox == old(outbox) + Sends(dp, MiddleRules(k, ed))
    {
      for ip2 := 1 to 3
        invariant outbox == old(outbox) + Sends(dp, MiddleUpTo(ip2 - 1, k, ed))
      {
        var outPort := ip2;
        ghost var done := MiddleUpTo(ip2 - 1, k, ed);
        for ip3 := 0 to ed
          invariant outbox == old(outbox) + Sends(dp, done + DomainRules(DEFAULT_PRIORITY, ip2, ip3, k, outPort))
        {
          ghost var before := done + DomainRules(DEFAULT_PRIORITY, ip2, ip3, k, outPort);
          for ip4 := 0 to k
            invariant outbox == old(outbox) + Sends(dp, before + UplinkRules(DEFAULT_PRIORITY, ip2, ip3 + 1, ip4, outPort))
          {
            AddFlow(dp, DEFAULT_PRIORITY, Ipv4(10, ip2, ip3 + 1, ip4 + 2), outPort);
            UplinkStep(old(outbox), dp, before, DEFAULT_PRIORITY, ip2, ip3 + 1, ip4, outPort);
          }
          DomainStep(done, DEFAULT_PRIORITY, ip2, ip3, k, outPort);
        }
        MiddleStep(ip2 - 1, k, ed);
      }
    }

    /** `install_client_flows` (the edge1 switch). */
    method InstallClientFlows(dp: Datapath)
      modifies this`outbox
      ensures outbox == old(outbox) + Sends(dp, ClientRules(k, ed))
    {
      for h := 0 to k
        invariant outbox == old(outbox) + Sends(dp, HostRules(DEFAULT_PRIORITY, 1, 1, h))
      {
        AddFlow(dp, DEFAULT_PRIORITY, Ipv4(10, 1, 1, h + 2), h + 1);
        HostStep(old(outbox), dp, DEFAULT_PRIORITY, 1, 1, h);
      }
      ghost var local := HostRules(DEFAULT_PRIORITY, 1, 1, k);
      for e := 0 to ed
        invariant outbox == old(outbox) + Sends(dp, local + DomainRules(DEFAULT_PRIORITY, 2, e, k, k + 1))
      {
        ghost var before := local + DomainRules(DEFAULT_PRIORITY, 2, e, k, k + 1);
        for h := 0 to k
          invariant outbox == old(outbox) + Sends(dp, before + UplinkRules(DEFAULT_PRIORITY, 2, e + 1, h, k + 1))
        {
          AddFlow(dp, DEFAULT_PRIORITY, Ipv4(10, 2, e + 1, h + 2), k + 1);
          UplinkStep(old(outbox), dp, before, DEFAULT_PRIORITY, 2, e + 1, h, k + 1);
        }
        DomainStep(local, DEFAULT_PRIORITY, 2, e, k, k + 1);
      }
    }

    /** `install_server_flows` (the edge2 switch). */
    method InstallServerFlows(dp: Datapath)
      modifies this`outbox
      ensures outbox == old(outbox) + Sends(dp, ServerRules(k, ed))
    {
      for h := 0 to k
        invariant outbox == old(outbox) + Sends(dp, HostRules(OVERRIDE_PRIORITY, 2, 1, h))
      {
        AddFlow(dp, OVERRIDE_PRIORITY, Ipv4(10, 2, 1, h + 2), h + 1);
        HostStep(old(outbox), dp, OVERRIDE_PRIORITY, 2, 1, h);
      }
      ghost var local := HostRules(OVERRIDE_PRIORITY, 2, 1, k);
      for e := 0 to ed
        invariant outbox == old(outbox) + Sends(dp, local + DomainRules(DEFAULT_PRIORITY, 1, e, k, k + 1))
      {
        ghost var before := local + DomainRules(DEFAULT_PRIORITY, 1, e, k, k + 1);
        for h := 0 to k
          invariant outbox == old(outbox) + Sends(dp, before + UplinkRules(DEFAULT_PRIORITY, 1, e + 1, h, k + 1))
        {
          AddFlow(dp, DEFAULT_PRIORITY, Ipv4(10, 1, e + 1, h + 2), k + 1);
          UplinkStep(old(outbox), dp, before, DEFAULT_PRIORITY, 1, e + 1, h, k + 1);
        }
        DomainStep(local, DEFAULT_PRIORITY, 1, e, k, k + 1);
      }
    }

    /** `switch_features_handler`: the rule set of the switch's role. */
    method SwitchFeaturesHandler(dp: Datapath) returns (r: Outcome)
      modifies this`outbox
      ensures State() == FeaturesStep(old(State()), dp).state
      ensures r == FeaturesStep(old(State()), dp).outcome
    {
      var role := Classify(dp.id);
      if role.None? {
        return Unclassified(dp.id);
      }
      match role.value {
        case Middle(_, _) => InstallMiddleFlows(dp);
        case Edge1(_, _) => InstallClientFlows(dp);
        case Edge2(_, _) => InstallServerFlows(dp);
      }
      r := Ok;
    }

    /** `get_edge1_dp`: scan the registry in insertion order. */
    method GetEdge1Dp() returns (r: Edge1Search)
      ensures r == FindEdge1From(datapaths, 0)
    {
      for i := 0 to |datapaths|
        invariant FindEdge1From(datapaths, i) == FindEdge1From(datapaths, 0)
      {
        var role := Classify(datapaths[i].id);
        if role.None? {
          return Failed(datapaths[i].id);
        }
        if role.value.Edge1? {
          return Found(datapaths[i]);
        }
      }
      return NotConnected;
    }

    /** `install_ecmp_flows`. */
    method InstallEcmpFlows() returns (r: Outcome)
      modifies this`outbox
      ensures outbox == old(outbox) + EcmpEffect(datapaths, k).sends
      ensures r == EcmpEffect(datapaths, k).outcome
    {
      var found := GetEdge1Dp();
      match found
      case Failed(id) => return Unclassified(id);
      case NotConnected => return Ok;
      case Found(dp) =>
        for h := 0 to k
          invariant outbox == old(outbox) + Sends(dp, HostRules(OVERRIDE_PRIORITY, 2, 1, h))
        {
          var rule := FlowRule(OVERRIDE_PRIORITY, ETH_TYPE_IPV4, Ipv4(10, 2, 1, h + 2), h + 1);
          outbox := outbox + [Sent(dp, FlowMod(rule))];
          HostStep(old(outbox), dp, OVERRIDE_PRIORITY, 2, 1, h);
        }
        return Ok;
    }

    /** `_port_stats_reply_handler`. */
    method PortStatsReplyHandler(sender: Datapath, body: seq<PortStat>) returns (r: Outcome)
      modifies this`ecmpTriggered, this`outbox
      ensures State() == StatsReplyStep(old(State()), sender, body).state
      ensures r == StatsReplyStep(old(State()), sender, body).outcome
    {
      var role := Classify(sender.id);
      if role.None? {
        return Unclassified(sender.id);
      }
      if !role.value.Middle? || ecmpTriggered {
        return Ok;
      }
      r := Ok;
      for i := 0 to |body|
        invariant FirstHotFrom(body, i) == FirstHotFrom(body, 0)
        invariant !ecmpTriggered && outbox == old(outbox)
      {
        var stat := body[i];
        if stat.portNo == OFPP_LOCAL || stat.portNo > MAX_PHYSICAL_PORT {
          continue;
        }
        if stat.txBytes + stat.rxBytes > ECMP_THRESHOLD_BYTES {
          ecmpTriggered := true;
          r := InstallEcmpFlows();
          return;
        }
      }
    }

    /** One iteration of `_monitor`'s loop (without the two-second sleep). */
    method MonitorIteration() returns (r: Outcome)
      modifies this`outbox
      ensures outbox == old(outbox) + PollFrom(datapaths, 0).sends
      ensures r == PollFrom(datapaths, 0).outcome
    {
      var dps := datapaths;
      ghost var total := PollFrom(dps, 0);
      for i := 0 to |dps|
        invariant old(outbox) + total.sends == outbox + PollFrom(dps, i).sends
        invariant PollFrom(dps, i).outcome == total.outcome
      {
        var dp := dps[i];
        var role := Classify(dp.id);
        if role.None? {
          return Unclassified(dp.id);
        }
        ghost var rest := PollFrom(dps, i + 1);
        if role.value.Middle? {
          assert PollFrom(dps, i).sends == [StatsRequest(dp)] + rest.sends;
          outbox := outbox + [StatsRequest(dp)];
        } else {
          assert PollFrom(dps, i).sends == rest.sends;
        }
      }
      return Ok;
    }

    /** The framework's delivery of one event to the handler registered for it. */
    method Handle(ev: Event) returns (r: Outcome)
      requires Valid()
      modifies this`datapaths, this`ecmpTriggered, this`outbox
      ensures Valid()
      ensures State() == Step(old(State()), ev).state
      ensures r == Step(old(State()), ev).outcome
    {
      match ev
      case StateChange(st, dp) =>
        StateChangeHandler(st, dp);
        r := Ok;
      case SwitchFeatures(dp) =>
        r := SwitchFeaturesHandler(dp);
      case PortStatsReply(sender, body) =>
        r := PortStatsReplyHandler(sender, body);
      case MonitorPoll =>
        r := MonitorIteration();
    }
  }
}
