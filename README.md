# Fat-tree Ryu controller: a Dafny model

This project models the control logic of a small Ryu OpenFlow 1.3 controller
for a fat-tree-style fabric with three switch roles: one client edge
(`edge1`), one server edge (`edge2`) and k middle (spine) switches. It also
models the topology script's encoding of datapath ids.

- **Hex** (`hex.dfy`): Python's `"%0<w>x" % n` formatting and `int(s, 16)`
  parsing over natural numbers. Parsing what was formatted gives back the
  number.
- **Classifier** (`classifier.dfy`): `classify_switch`. It formats the 64-bit
  datapath id as 16 hexadecimal characters, slices out bytes b1, b2 and b3,
  and maps them to a role. For any other pattern the Python function returns
  `None`, so the model returns `Option<SwitchRole>`. Every caller unpacks the
  result without checking it. The model therefore turns `None` into the error
  outcome `Unclassified(dpid)` at each call site; it stands for the
  `TypeError` the handler raises.
- **FlowRules** (`flow_rules.dfy`): the ordered rule list that each
  `install_*_flows` loop emits, as a pure function of k and ed. Each rule is a
  priority, an exact IPv4 destination (eth_type 0x0800) and one output port.
  The module has closed forms for every position and a priority lookup. It
  proves that the destinations are pairwise distinct on the middle, client
  and server switches. `Lookup` is not code of the controller: it stands for
  the switch's OpenFlow 1.3 flow-table matching (the highest-priority entry
  that matches wins), which gives the priorities at projectcontrollerr.py:87
  and :129-137 their meaning. With it the model shows that the ECMP rules
  override the client edge's uplink rule without deleting it.
- **ControllerModel** (`controller_model.dfy`): pure functions for the
  controller's state and for each handler's effect. The `datapaths`
  dictionary is a sequence in insertion order with distinct keys. A send is a
  record appended to an outbox. Lemmas cover the registry, the monitor poll,
  the statistics trigger and runs over any sequence of events.
- **ControllerApp** (`controller.dfy`): class `Controller`, whose fields the
  handlers update in place. Its methods have the source's loops, including the
  `continue`/`break` scan of a statistics reply. Each method is proved to
  have exactly the effect of the matching ControllerModel function.
- **Topology** (`topo.dfy`): `dpid_from_bytes` and the switch ids that
  `FatTreeTopo.build` assigns. These ids round-trip through the classifier.

Constants: eth_type 0x0800; priorities 10 and 100; `OFPP_LOCAL` = 0xfffffffe
and `OFPP_ANY` = 0xffffffff (section A.2.1 of the OpenFlow Switch
Specification 1.3.0); highest physical port 20; threshold 100 * 2^20 bytes.

On the client edge, the ECMP rules send 10.2.1.(h+2) to port h+1. That is the
port on which the client rules deliver local host 10.1.1.(h+2) (topo.py:57-62
attaches host h1 at port h1+1). The log line at projectcontrollerr.py:91
names ports k+1 to k+4 instead. The model follows the code.

The controller also keeps no byte counts across statistics replies. Each
reply is judged only on the counters it carries. A reply that does not fire
leaves the state unchanged (`QuietReplyChangesNothing`), so two replies of 50 MB
and then 60 MB on the same port fire neither time.

## Model

| member | source | states |
|---|---|---|
| Hex.FormatHex | projectcontrollerr.py:118 | `"%0<w>x"` output is lower-case hexadecimal, at least w characters and at least one |
| Hex.HexValue | projectcontrollerr.py:119-121 | `int(s, 16)` of a digit string is below 16^len(s) |
| Hex.FormatHexValue | projectcontrollerr.py:118-121 | parsing `"%0<w>x" % n` as hexadecimal gives n back, for every width |
| Hex.FormatHexLength | topo.py:12 | a value below 16^w is written with exactly w digits |
| Classifier.DpidBytes | projectcontrollerr.py:118-121 | the slices `[-6:-4]`, `[-4:-2]` and `[-2:]` of `"%016x" % dpid`, parsed, are (dpid/2^16)%256, (dpid/2^8)%256 and dpid%256 |
| Classifier.DpidBytesAreLowBytes | projectcontrollerr.py:118-121 | the text has at least 16 characters, and each slice parses to its byte |
| Classifier.Classify | projectcontrollerr.py:117-127 | middle (b2, b3) iff b1 = 2; edge1 (1, 1) iff b1 = 1 and b2 = 1; edge2 (1, 2) iff b1 = 1 and b2 = 2; None otherwise |
| FlowRules.HostRules | projectcontrollerr.py:152-156 | n rules; rule h sends 10.o2.o3.(h+2) to host port h+1 |
| FlowRules.UplinkRules | projectcontrollerr.py:159-163 | n rules; rule h sends 10.o2.o3.(h+2) to one fixed port |
| FlowRules.DomainRules | projectcontrollerr.py:143-148 | the nested `for ip3` / `for ip4` (or `for e` / `for h`) loops emit m*k rules; DomainRulesAt and DomainRulesIndex give each one |
| FlowRules.DomainRulesAt | projectcontrollerr.py:158-163 | iteration (e, h) of the nested `for e` / `for h` loops is rule e*k+h, of the m*k rules: it sends 10.o2.(e+1).(h+2) to the fixed port |
| FlowRules.DomainRulesIndex | projectcontrollerr.py:158-163 | read the other way: rule x of the nested loops is host x%k of edge domain x/k |
| FlowRules.DomainRulesUniform | projectcontrollerr.py:158-163 | every rule of the nested loops carries the one priority and matches IPv4 |
| FlowRules.MiddleRules | projectcontrollerr.py:139-148 | both directions of `for ip2 in range(1, 3)`, 2*ed*k rules; MiddleRulesShape gives their contents |
| FlowRules.MiddleRulesShape | projectcontrollerr.py:139-148 | 2*ed*k rules, all priority 10 and IPv4; first half 10.1.(x/k+1).(x%k+2) to port 1, second half the same for 10.2.*.* to port 2, in loop order |
| FlowRules.ClientRules | projectcontrollerr.py:150-163 | the host loop then the nested uplink loops, k+ed*k rules; ClientRulesShape gives their contents |
| FlowRules.ClientRulesShape | projectcontrollerr.py:150-163 | k+ed*k rules, all priority 10 and IPv4; first k are 10.1.1.(h+2) to port h+1; the rest 10.2.(e+1).(h+2) to port k+1 in loop order |
| FlowRules.ServerRules | projectcontrollerr.py:165-178 | the host loop then the nested uplink loops, k+ed*k rules; ServerRulesShape gives their contents |
| FlowRules.ServerRulesShape | projectcontrollerr.py:165-178 | k+ed*k IPv4 rules; first k are priority 100, 10.2.1.(h+2) to port h+1; the rest priority 10, 10.1.(e+1).(h+2) to port k+1 in loop order |
| FlowRules.EcmpRules | projectcontrollerr.py:80-90 | k rules at priority 100; rule h sends 10.2.1.(h+2) to port h+1 |
| FlowRules.ClientDestinationsDistinct | projectcontrollerr.py:150-163 | no two client-edge rules match the same destination |
| FlowRules.MiddleDestinationsDistinct | projectcontrollerr.py:139-148 | no two middle-switch rules match the same destination |
| FlowRules.ServerDestinationsDistinct | projectcontrollerr.py:165-178 | no two server-edge rules match the same destination |
| FlowRules.EcmpIsServerLocalBlock | projectcontrollerr.py:80-90 | the ECMP rule list equals the server edge's first k rules |
| FlowRules.Lookup | projectcontrollerr.py:86-89 | stands for the switch's OpenFlow 1.3 table matching, not controller code: the applied entry matches the destination and has the highest priority among matches; None iff nothing matches |
| FlowRules.EcmpOverridesClientUplink | projectcontrollerr.py:80-90 | before ECMP the client edge sends 10.2.1.(h+2) to port k+1; after the ECMP rules are appended it sends it to port h+1 |
| FlowRules.ClientUplinkOnly | projectcontrollerr.py:158-163 | on the client edge, rule k+h is the only one for 10.2.1.(h+2), and it sends to the uplink port k+1 |
| ControllerModel.Find | projectcontrollerr.py:31 | the lookup succeeds iff the key is registered, and it returns an entry with that key |
| ControllerModel.Put | projectcontrollerr.py:30 | a new key is appended and an existing key keeps its place; keys stay distinct; only the stored key's lookup changes, now to dp |
| ControllerModel.Remove | projectcontrollerr.py:32 | an absent key leaves the registry as it was; a present key's entry is cut out and the others keep their order |
| ControllerModel.RemoveFind | projectcontrollerr.py:32 | after a removal the keys are distinct, the removed key is absent and every other lookup is unchanged |
| ControllerModel.RegistryUpdate | projectcontrollerr.py:26-32 | MAIN: the keys gain dp.id at the end unless already present; DEAD on an absent id: unchanged; DEAD on a present id: exactly that entry is cut out |
| ControllerModel.RegistryUpdateFind | projectcontrollerr.py:26-32 | MAIN maps dp.id to dp and DEAD unmaps it; keys stay distinct and no other lookup changes |
| ControllerModel.PollSound | projectcontrollerr.py:36-41 | every request of a monitor pass is `OFPPortStatsRequest(dp, 0, OFPP_ANY)` to a registered middle switch that comes before the first unclassifiable id |
| ControllerModel.PollFrom | projectcontrollerr.py:36-41 | the rest of a pass sends at most one message per remaining entry |
| ControllerModel.PollIsFilter | projectcontrollerr.py:36-41 | with n the first unclassifiable entry (or the end), a pass sends exactly `OFPPortStatsRequest(dp, 0, OFPP_ANY)` to each middle switch before n, one each, in registry order, and nothing else; it completes iff n is the end, else raises for the id at n |
| ControllerModel.PollOutcome | projectcontrollerr.py:37 | a pass completes iff every registered id classifies |
| ControllerModel.PollComplete | projectcontrollerr.py:36-41 | every middle switch registered before the first unclassifiable id is sent a request |
| ControllerModel.PollStopsAt | projectcontrollerr.py:37 | a pass that raises does so at the first unclassifiable id in registry order |
| ControllerModel.SkippedIsAboveTwenty | projectcontrollerr.py:56 | `Skipped` is the test at line 56; `OFPP_LOCAL` is already above 20, so it is exactly port > 20 |
| ControllerModel.Hot | projectcontrollerr.py:56-66 | a port fires iff its number is at most 20 and tx+rx bytes exceed 100 MiB |
| ControllerModel.FirstHotFrom | projectcontrollerr.py:54-70 | the scan breaks at the first non-skipped port over the threshold; it runs to the end iff there is none |
| ControllerModel.FindEdge1From | projectcontrollerr.py:93-97 | returns the first edge1 datapath in insertion order; fails at an unclassifiable id met first; finds nothing iff every entry is classified and not edge1 |
| ControllerModel.EcmpEffect | projectcontrollerr.py:72-91 | with edge1 registered, the k ECMP rules are sent to it; with no edge1, nothing is sent; otherwise the search error is returned |
| ControllerModel.FiresIff | projectcontrollerr.py:45-70 | a step sets the flag iff it is a reply from a middle switch, the flag is clear, and some port is hot |
| ControllerModel.FiringSendsEcmp | projectcontrollerr.py:66-69 | a firing step sets the flag and appends exactly the ECMP effect |
| ControllerModel.QuietReplyChangesNothing | projectcontrollerr.py:51-57 | a reply that does not fire leaves the whole state unchanged |
| ControllerModel.FeaturesStep | projectcontrollerr.py:101-115 | completes iff the id classifies; then only the outbox changes, gaining the role's rule set for dp; otherwise nothing changes and the id is reported |
| ControllerModel.RulesFor | projectcontrollerr.py:110-115 | a middle switch gets 2*ed*k rules, an edge k+ed*k |
| ControllerModel.StatsReplyStep | projectcontrollerr.py:45-70 | keeps k, ed and the registry; an unclassifiable sender raises; the flag ends set iff it was set or the sender is middle and a port is hot; without a change of flag nothing changes; with one the ECMP effect is appended |
| ControllerModel.PollStep | projectcontrollerr.py:36-41 | only the outbox changes, by appending; the pass completes iff every registered id classifies |
| ControllerModel.Step | projectcontrollerr.py:26-115 | every event keeps k and ed, only appends to the outbox and never clears the flag; only a reply can set it and only a state change can touch the registry |
| ControllerModel.StepInvariants | projectcontrollerr.py:26-70 | every step keeps k and ed and distinct keys, only appends to the outbox, and never clears the flag |
| ControllerModel.AtMostOnce | projectcontrollerr.py:22-70 | over any event sequence ECMP fires at most once, never once the flag is set; the flag ends set iff it started set or fired |
| ControllerApp.Controller.constructor | projectcontrollerr.py:15-22 | empty registry, flag clear, nothing sent |
| ControllerApp.Controller.StateChangeHandler | projectcontrollerr.py:26-32 | the registry becomes its MAIN/DEAD update; keys stay distinct; only dp.id's lookup changes |
| ControllerApp.Controller.AddFlow | projectcontrollerr.py:129-137 | appends one IPv4 flow mod with the given priority, destination and port |
| ControllerApp.Controller.InstallMiddleFlows | projectcontrollerr.py:139-148 | the nested loops send exactly MiddleRules to dp, in order |
| ControllerApp.Controller.InstallClientFlows | projectcontrollerr.py:150-163 | the loops send exactly ClientRules to dp, in order |
| ControllerApp.Controller.InstallServerFlows | projectcontrollerr.py:165-178 | the loops send exactly ServerRules to dp, in order |
| ControllerApp.Controller.SwitchFeaturesHandler | projectcontrollerr.py:101-115 | sends the rule set of the switch's role, or fails on an unclassifiable id and sends nothing |
| ControllerApp.Controller.GetEdge1Dp | projectcontrollerr.py:93-97 | the loop's result is FindEdge1From over the registry |
| ControllerApp.Controller.InstallEcmpFlows | projectcontrollerr.py:72-91 | the sends and the outcome are EcmpEffect's |
| ControllerApp.Controller.PortStatsReplyHandler | projectcontrollerr.py:45-70 | the `continue`/`break` loop has exactly StatsReplyStep's effect on the flag and the outbox |
| ControllerApp.Controller.MonitorIteration | projectcontrollerr.py:36-42 | one pass over the registry sends PollFrom's requests and ends with its outcome |
| ControllerApp.Controller.Handle | projectcontrollerr.py:26-115 | delivering an event to its handler has Step's effect and keeps the keys distinct |
| Topology.DpidFromBytes | topo.py:10-12 | the text is at least 16 characters; DpidTextShape and DpidTextValue give its exact form and value |
| Topology.TwoDigits | topo.py:12 | a byte is written as `"%02x"`: high nibble then low nibble, which parses back to the byte |
| Topology.Padding | topo.py:12 | `f"{0:02x}"*5` is ten '0' characters with value 0 |
| Topology.DpidTextShape | topo.py:10-12 | for bytes below 256: 16 lower-case hex characters, the first 10 '0', then the two digits of b1, b2 and b3 |
| Topology.DpidTextValue | topo.py:12 | the text denotes b1*2^16 + b2*2^8 + b3 |
| Topology.DpidOf | topo.py:12 | the id a switch gets for the text is b1*2^16 + b2*2^8 + b3 |
| Topology.DpidRoundTrip | topo.py:10-12 | the classifier's byte extraction recovers (b1, b2, b3) |
| Topology.Edge1Role | topo.py:21 | `dpid_from_bytes(1, 1, e)` classifies as edge1 |
| Topology.Edge2Role | topo.py:24 | `dpid_from_bytes(1, 2, e)` classifies as edge2 |
| Topology.MiddleRole | topo.py:30 | `dpid_from_bytes(2, m, 0)` classifies as middle (m, 0) |
| Topology.BuildSwitchIds | topo.py:17-31 | the build loops yield one edge1 id, one edge2 id and k middle ids in order; for k ≤ 256 each middle id has 16 characters and the intended role |

## Left out

- Ryu machinery: `app_manager`, the `@set_ev_cls` registration, `OFPMatch`, `OFPFlowMod`, `OFPInstructionActions` and `send_msg`. A send is a record in an outbox. `Controller.Handle` stands in for event delivery.
- `hub.spawn`, `hub.sleep(2)` and the unbounded `while True` of `_monitor`. This is timing and concurrency, so `MonitorIteration` is one pass. A real monitor thread dies at the first `TypeError`. The event runs in `Run` may still contain later polls; `AtMostOnce` holds for every sequence, so it holds for the real runs too.
- Concurrency between the monitor thread and the handlers, including a registry that changes while `_monitor` iterates over it. Events are handled one at a time.
- Logging, including the log text at projectcontrollerr.py:91, which names ports other than the ones the rules use.
- ControllerModel.FirstHotFrom: compares the exact integer tx_bytes + rx_bytes with 104857600. It does not model the floating-point megabyte conversion at projectcontrollerr.py:59-61, so float rounding at the boundary is not captured.
- Flow-mod fields the source leaves at their defaults (table, cookie, timeouts, buffer id, flags) and the instruction type. Addresses are octet quadruples, not strings, and the octets are unbounded: the source's `"10.%d.%d.%d"` text stops being a valid IPv4 address once k ≥ 255 (last octet k+1) or ed ≥ 256 (third octet ed), where Ryu would refuse the match; the model goes on producing rules.
- A datapath handle is its id plus an opaque connection number. Ryu object identity is not modelled.
- Topology.DpidTextShape: the shape is proved only for bytes below 256. For a larger middle index `"%02x"` writes three or more digits. The script never does this for k ≤ 256.
- The Mininet wiring in topo.py:33-69 (links, bandwidth, delay, queues, hosts) and `run`/`run_iperf` (topo.py:72-100). These are emulator and shell calls. Switch names (`edge_0_0`, `middle{m}`) are also left out.
- Topology.DpidOf: assumes the switch reads the `dpid` text as hexadecimal, which is Mininet's convention for its `dpid` argument; Mininet itself is not part of this model.
- Hex.HexValue: gives the empty string the value 0, where Python's `int("", 16)` raises. No caller here passes an empty string.
