// The resource endpoints (backend/app/api/routes/resources.py): listings
// that join the cluster list with the resource table, the address probe,
// power operations and deletion.
module ResourcesRoutes {
  import opened Prelude
  import opened Text
  import opened Hypervisor
  import opened ProxmoxDeps
  import opened PyUuid
  import opened VmRequestModel
  import R = ResourceCrud

  // ---- the address probe ----

  /** One entry of a container's `interfaces` answer. */
  datatype LxcIface = LxcIface(name: Option<string>, inet: Option<string>)
  /** One entry of a guest agent interface's `ip-addresses`. */
  datatype IpAddr = IpAddr(kind: Option<string>, address: Option<string>)
  /** One interface of `network-get-interfaces`; `ip-addresses` may be missing. */
  datatype QemuIface = QemuIface(name: Option<string>, addresses: Option<seq<IpAddr>>)
  /** The agent's answer; `result` is missing when the agent gave none. */
  datatype AgentReply = AgentReply(result: Option<seq<QemuIface>>)
  /** What the hypervisor answers to the two probes of one guest; `None`
      where the call raises. */
  datatype Probe = Probe(interfaces: Option<seq<LxcIface>>, agent: Option<AgentReply>)

  /** An interface that gives a container its address. */
  predicate LxcUsable(f: LxcIface)
  {
    (f.name == Some("eth0") || f.name == Some("net0")) && f.inet.Some? && f.inet.value != ""
  }

  /** The container address: the first usable interface's `inet` up to its `/`. */
  function LxcIpOf(reply: Option<seq<LxcIface>>): (r: Option<string>)
    ensures r.Some? ==>
      reply.Some? && '/' !in r.value &&
      exists k :: 0 <= k < |reply.value| && LxcUsable(reply.value[k]) && StartsWith(reply.value[k].inet.value, r.value)
  {
    if reply.None? then None
    else match FirstIndex(reply.value, LxcUsable)
      case None => None
      case Some(k) =>
        assert LxcUsable(reply.value[k]);
        Some(BeforeFirst(reply.value[k].inet.value, '/'))
  }

  predicate AgentNamed(f: QemuIface)
  {
    f.name == Some("eth0") || f.name == Some("ens18")
  }

  /** The addresses an interface contributes to the scan. */
  function OwnAddresses(f: QemuIface): seq<IpAddr>
  {
    if AgentNamed(f) && f.addresses.Some? then f.addresses.value else []
  }

  /** The addresses the nested scan visits, in order. */
  function Candidates(ifaces: seq<QemuIface>): seq<IpAddr>
    decreases |ifaces|
  {
    if ifaces == [] then [] else Candidates(ifaces[..|ifaces| - 1]) + OwnAddresses(ifaces[|ifaces| - 1])
  }

  /** The entry the scan stops at: IPv4 and, read with a default of `""`,
      not a loopback address. */
  predicate Usable(ip: IpAddr)
  {
    ip.kind == Some("ipv4") && !StartsWith(TextOr(ip.address, ""), "127.")
  }

  /** The VM address: the `ip-address` of the first usable entry, which is
      `None` when that entry has no address. */
  function QemuIpOf(reply: Option<AgentReply>): (r: Option<string>)
  {
    if reply.None? || reply.value.result.None? then None
    else match FirstIndex(Candidates(reply.value.result.value), Usable)
      case None => None
      case Some(k) => Candidates(reply.value.result.value)[k].address
  }

  /** `_get_vm_ip_address`: containers by their interfaces, everything else by the agent. */
  function IpOf(e: ClusterEntry, p: Probe): Option<string>
  {
    if e.kind == Some("lxc") then LxcIpOf(p.interfaces) else QemuIpOf(p.agent)
  }

  lemma {:induction false} CandidatesPrefix(ifaces: seq<QemuIface>, n: nat)
    requires n <= |ifaces|
    ensures Candidates(ifaces[..n]) <= Candidates(ifaces)
    decreases |ifaces| - n
  {
    if n < |ifaces| {
      CandidatesPrefix(ifaces, n + 1);
      assert ifaces[..n + 1][..n] == ifaces[..n];
    } else {
      assert ifaces[..n] == ifaces;
    }
  }

  lemma {:induction false} CandidatesOrigin(ifaces: seq<QemuIface>, x: IpAddr)
    requires x in Candidates(ifaces)
    ensures exists i :: 0 <= i < |ifaces| && AgentNamed(ifaces[i]) && x in OwnAddresses(ifaces[i])
    decreases |ifaces|
  {
    var n := |ifaces| - 1;
    if x in OwnAddresses(ifaces[n]) {
      assert AgentNamed(ifaces[n]);
    } else {
      CandidatesOrigin(ifaces[..n], x);
      var i :| 0 <= i < n && AgentNamed(ifaces[..n][i]) && x in OwnAddresses(ifaces[..n][i]);
      assert ifaces[..n][i] == ifaces[i];
    }
  }

  /** A VM address is never a loopback address, and is an IPv4 address of
      an interface named eth0 or ens18. */
  lemma QemuIpIsExternal(reply: Option<AgentReply>)
    ensures QemuIpOf(reply).Some? ==>
      !StartsWith(QemuIpOf(reply).value, "127.") &&
      exists i :: 0 <= i < |reply.value.result.value| && AgentNamed(reply.value.result.value[i]) &&
        IpAddr(Some("ipv4"), QemuIpOf(reply)) in OwnAddresses(reply.value.result.value[i])
  {
    if QemuIpOf(reply).Some? {
      var c := Candidates(reply.value.result.value);
      var k := FirstIndex(c, Usable).value;
      assert c[k] == IpAddr(Some("ipv4"), QemuIpOf(reply));
      CandidatesOrigin(reply.value.result.value, c[k]);
    }
  }

  /** An IPv4 entry without an address ends the scan with no address, even
      when a usable address follows it. */
  lemma QemuMissingAddressStops()
    ensures QemuIpOf(Some(AgentReply(Some([QemuIface(Some("eth0"),
      Some([IpAddr(Some("ipv4"), None), IpAddr(Some("ipv4"), Some("10.0.0.5"))]))])))) == None
    ensures QemuIpOf(Some(AgentReply(Some([QemuIface(Some("eth0"),
      Some([IpAddr(Some("ipv4"), Some("127.0.0.1")), IpAddr(Some("ipv4"), Some("10.0.0.5"))]))])))) == Some("10.0.0.5")
  {
    var f1 := QemuIface(Some("eth0"), Some([IpAddr(Some("ipv4"), None), IpAddr(Some("ipv4"), Some("10.0.0.5"))]));
    assert [f1][..0] == [];
    assert Usable(IpAddr(Some("ipv4"), None));
    var f2 := QemuIface(Some("eth0"), Some([IpAddr(Some("ipv4"), Some("127.0.0.1")), IpAddr(Some("ipv4"), Some("10.0.0.5"))]));
    assert [f2][..0] == [];
    assert "127.0.0.1"[..4] == "127.";
    assert !Usable(IpAddr(Some("ipv4"), Some("127.0.0.1")));
    assert "10.0.0.5"[..4][1] != "127."[1];
    assert Usable(IpAddr(Some("ipv4"), Some("10.0.0.5")));
    assert Candidates([f2]) == [IpAddr(Some("ipv4"), Some("127.0.0.1")), IpAddr(Some("ipv4"), Some("10.0.0.5"))];
    FirstIndexAt(Candidates([f2]), Usable, 1);
  }

  /** The container branch of `_get_vm_ip_address`. */
  method LxcIp(reply: Option<seq<LxcIface>>) returns (ip: Option<string>)
    ensures ip == LxcIpOf(reply)
  {
    if reply.None? {
      return None;
    }
    var ifaces := reply.value;
    var i := 0;
    while i < |ifaces|
      invariant 0 <= i <= |ifaces|
      invariant forall j :: 0 <= j < i ==> !LxcUsable(ifaces[j])
    {
      var f := ifaces[i];
      if f.name == Some("eth0") || f.name == Some("net0") {
        if f.inet.Some? && f.inet.value != "" {
          FirstIndexAt(ifaces, LxcUsable, i);
          return Some(BeforeFirst(f.inet.value, '/'));
        }
      }
      i := i + 1;
    }
    ip := None;
  }

  /** The agent branch of `_get_vm_ip_address`: interfaces in order, and
      within each its addresses in order. */
  method QemuIp(reply: Option<AgentReply>) returns (ip: Option<string>)
    ensures ip == QemuIpOf(reply)
  {
    if reply.None? || reply.value.result.None? {
      return None;
    }
    var ifaces := reply.value.result.value;
    var i := 0;
    while i < |ifaces|
      invariant 0 <= i <= |ifaces|
      invariant NoneUsable(Candidates(ifaces[..i]))
    {
      var f := ifaces[i];
      CandidatesStep(ifaces, i);
      if f.name == Some("eth0") || f.name == Some("ens18") {
        var addrs := if f.addresses.Some? then f.addresses.value else [];
        assert addrs == OwnAddresses(f);
        var j := 0;
        while j < |addrs|
          invariant 0 <= j <= |addrs|
          invariant NoneUsable(addrs[..j])
        {
          var a := addrs[j];
          if a.kind == Some("ipv4") && !StartsWith(TextOr(a.address, ""), "127.") {
            QemuFound(ifaces, i, j);
            return a.address;
          }
          assert addrs[..j + 1] == addrs[..j] + [a];
          j := j + 1;
        }
        assert addrs[..j] == addrs;
      }
      i := i + 1;
    }
    assert ifaces[..i] == ifaces;
    ip := None;
  }

  /** No entry of `s` stops the scan. */
  predicate NoneUsable(s: seq<IpAddr>)
  {
    forall k :: 0 <= k < |s| ==> !Usable(s[k])
  }

  /** One more interface scanned adds its own addresses. */
  lemma CandidatesStep(ifaces: seq<QemuIface>, i: nat)
    requires i < |ifaces|
    ensures Candidates(ifaces[..i + 1]) == Candidates(ifaces[..i]) + OwnAddresses(ifaces[i])
  {
    assert ifaces[..i + 1][..i] == ifaces[..i];
  }

  /** The first usable address of the `i`-th interface, after none in the
      interfaces before it, is the one the scan finds. */
  lemma QemuFound(ifaces: seq<QemuIface>, i: nat, j: nat)
    requires i < |ifaces| && j < |OwnAddresses(ifaces[i])|
    requires NoneUsable(Candidates(ifaces[..i])) && NoneUsable(OwnAddresses(ifaces[i])[..j])
    requires Usable(OwnAddresses(ifaces[i])[j])
    ensures QemuIpOf(Some(AgentReply(Some(ifaces)))) == OwnAddresses(ifaces[i])[j].address
  {
    var own := OwnAddresses(ifaces[i]);
    var pre := Candidates(ifaces[..i]);
    CandidatesStep(ifaces, i);
    CandidatesPrefix(ifaces, i + 1);
    var c := Candidates(ifaces);
    var n := |pre| + j;
    assert c[..|pre| + |own|] == pre + own;
    assert c[n] == own[j];
    forall k | 0 <= k < n
      ensures !Usable(c[k])
    {
      if k < |pre| {
        assert c[k] == pre[k];
      } else {
        assert c[k] == own[..j][k - |pre|];
      }
    }
    FirstIndexAt(c, Usable, n);
  }

  /** The probe for one guest. */
  method IpAddress(e: ClusterEntry, p: Probe) returns (ip: Option<string>)
    ensures ip == IpOf(e, p)
  {
    if e.kind == Some("lxc") {
      ip := LxcIp(p.interfaces);
    } else {
      ip := QemuIp(p.agent);
    }
  }

  // ---- listings ----

  /** `ResourcePublic`. */
  datatype ResourcePublic = ResourcePublic(
    vmid: int, name: string, status: string, node: Option<string>, kind: Option<string>,
    environmentType: Option<string>, osInfo: Option<string>, expiryDate: Option<Day>,
    ipAddress: Option<string>, metrics: Metrics)

  /** One listed entry, joined with its table row if it has one. */
  function Project(e: ClusterEntry, db: Option<R.Resource>, ip: Option<string>): ResourcePublic
  {
    ResourcePublic(e.vmid, TextOr(e.name, ""), TextOr(e.status, ""), e.node, e.kind,
      if db.Some? then Some(db.value.environmentType) else None,
      if db.Some? then db.value.osInfo else None,
      if db.Some? then db.value.expiryDate else None,
      ip, e.metrics)
  }

  /** The projections of `shown`, in order. */
  function Listing(shown: seq<ClusterEntry>, db: int -> Option<R.Resource>, probe: int -> Probe): (r: seq<ResourcePublic>)
    ensures |r| == |shown|
    ensures forall i :: 0 <= i < |shown| ==> r[i] == Project(shown[i], db(shown[i].vmid), IpOf(shown[i], probe(shown[i].vmid)))
    decreases |shown|
  {
    if shown == [] then []
    else
      var n := |shown| - 1;
      assert forall i :: 0 <= i < n ==> shown[..n][i] == shown[i];
      Listing(shown[..n], db, probe) + [Project(shown[n], db(shown[n].vmid), IpOf(shown[n], probe(shown[n].vmid)))]
  }

  /** The entries `list_resources` keeps: no templates and, when a node is
      named, only that node's. */
  function Listed(node: Option<string>): ClusterEntry -> bool
  {
    (e: ClusterEntry) => !((node.Some? && node.value != "" && e.node != node) || e.template == Some(1))
  }

  /** A row of the resource table for a vmid, as the listing looks it up. */
  function TableRow(rows: seq<R.Resource>): int -> Option<R.Resource>
  {
    (vmid: int) => R.Lookup(rows, vmid)
  }

  /** Shared loop of both listings: keep the entries `keep` accepts, project them. */
  method Collect(resources: seq<ClusterEntry>, keep: ClusterEntry -> bool, db: int -> Option<R.Resource>,
                 probe: int -> Probe) returns (result: seq<ResourcePublic>)
    ensures result == Listing(Filter(resources, keep), db, probe)
  {
    result := [];
    var i := 0;
    while i < |resources|
      invariant 0 <= i <= |resources|
      invariant result == Listing(Filter(resources[..i], keep), db, probe)
    {
      var e := resources[i];
      assert resources[..i + 1] == resources[..i] + [e];
      FilterAppend(resources[..i], [e], keep);
      assert [e][1..] == [];
      if keep(e) {
        var ip := IpAddress(e, probe(e.vmid));
        var shown := Filter(resources[..i + 1], keep);
        assert shown[..|shown| - 1] == Filter(resources[..i], keep);
        result := result + [Project(e, db(e.vmid), ip)];
      }
      i := i + 1;
    }
    assert resources[..i] == resources;
  }

  /** `GET /resources/`: every non-template guest (of the named node), with
      its table details when it has a row. */
  method ListResources(table: R.ResourceTable, listFault: Option<Fault>, resources: seq<ClusterEntry>,
                       node: Option<string>, probe: int -> Probe) returns (r: Outcome<seq<ResourcePublic>>)
    ensures listFault.Some? ==> r == Fail(500, FaultMessage(listFault.value))
    ensures listFault.None? ==> r == Ok(Listing(Filter(resources, Listed(node)), TableRow(table.rows), probe))
  {
    if listFault.Some? {
      return Fail(500, FaultMessage(listFault.value));
    }
    var result := Collect(resources, Listed(node), TableRow(table.rows), probe);
    r := Ok(result);
  }

  /** A listed guest is never a template, belongs to the named node, and
      every such guest is listed. */
  lemma ListedMeans(resources: seq<ClusterEntry>, node: string, rows: seq<R.Resource>, probe: int -> Probe)
    requires node != ""
    ensures var out := Listing(Filter(resources, Listed(Some(node))), TableRow(rows), probe);
      (forall i :: 0 <= i < |out| ==> out[i].node == Some(node)) &&
      (forall e :: e in resources && e.node == Some(node) && e.template != Some(1) ==> e in Filter(resources, Listed(Some(node))))
    ensures forall e :: e in Filter(resources, Listed(Some(node))) ==> e.template != Some(1)
  {
    forall e | e in resources && e.node == Some(node) && e.template != Some(1)
      ensures e in Filter(resources, Listed(Some(node)))
    {
      FilterKeepsAll(resources, Listed(Some(node)), e);
    }
  }

  /** `{r.vmid: r for r in rows}`: for a repeated vmid the later row wins. */
  function OwnedByVmid(rows: seq<R.Resource>): (m: map<int, R.Resource>)
    ensures forall v :: v in m ==> m[v].vmid == v && m[v] in rows
    ensures forall i :: 0 <= i < |rows| ==> rows[i].vmid in m
    decreases |rows|
  {
    if rows == [] then map[]
    else
      var n := |rows| - 1;
      assert forall i :: 0 <= i < n ==> rows[..n][i] == rows[i];
      OwnedByVmid(rows[..n])[rows[n].vmid := rows[n]]
  }

  /** The row kept for a vmid is the last row with it. */
  lemma {:induction false} OwnedLastWins(rows: seq<R.Resource>, i: nat)
    requires i < |rows|
    requires forall j :: i < j < |rows| ==> rows[j].vmid != rows[i].vmid
    ensures OwnedByVmid(rows)[rows[i].vmid] == rows[i]
    decreases |rows|
  {
    var n := |rows| - 1;
    var pre := rows[..n];
    var m := OwnedByVmid(pre);
    assert OwnedByVmid(rows) == m[rows[n].vmid := rows[n]];
    if i < n {
      OwnedLastWinsStep(rows, i);
      OwnedLastWins(pre, i);
      assert m[pre[i].vmid] == rows[i];
    }
  }

  lemma OwnedLastWinsStep(rows: seq<R.Resource>, i: nat)
    requires i < |rows| - 1
    requires forall j :: i < j < |rows| ==> rows[j].vmid != rows[i].vmid
    ensures var pre := rows[..|rows| - 1];
      pre[i] == rows[i] && rows[|rows| - 1].vmid != rows[i].vmid &&
      forall j :: i < j < |pre| ==> pre[j].vmid != pre[i].vmid
  {
  }

  function OwnedRow(owned: map<int, R.Resource>): int -> Option<R.Resource>
  {
    (vmid: int) => if vmid in owned then Some(owned[vmid]) else None
  }

  /** The entries `list_my_resources` keeps: non-templates the user owns. */
  function Mine(owned: set<int>): ClusterEntry -> bool
  {
    (e: ClusterEntry) => e.template != Some(1) && e.vmid in owned
  }

  /** `GET /resources/my`: nothing when the user owns no row (the cluster is
      not asked); otherwise the owned non-template guests in cluster order,
      each with its own row's details. */
  method ListMyResources(table: R.ResourceTable, current: Uuid, listFault: Option<Fault>,
                         resources: seq<ClusterEntry>, probe: int -> Probe) returns (r: Outcome<seq<ResourcePublic>>)
    ensures table.ByUser(current) == [] ==> r == Ok([])
    ensures table.ByUser(current) != [] && listFault.Some? ==> r == Fail(500, FaultMessage(listFault.value))
    ensures table.ByUser(current) != [] && listFault.None? ==>
      var owned := OwnedByVmid(table.ByUser(current));
      r == Ok(Listing(Filter(resources, Mine(owned.Keys)), OwnedRow(owned), probe))
  {
    var mine := table.ByUser(current);
    if mine == [] {
      return Ok([]);
    }
    var owned := OwnedByVmid(mine);
    if listFault.Some? {
      return Fail(500, FaultMessage(listFault.value));
    }
    var result := Collect(resources, Mine(owned.Keys), OwnedRow(owned), probe);
    r := Ok(result);
  }

  /** Every guest in the user's listing is backed by a row of that user with
      its vmid, and its details are that row's. */
  lemma MyListingIsOwned(table: R.ResourceTable, current: Uuid, resources: seq<ClusterEntry>, probe: int -> Probe)
    ensures var owned := OwnedByVmid(table.ByUser(current));
      var out := Listing(Filter(resources, Mine(owned.Keys)), OwnedRow(owned), probe);
      forall i :: 0 <= i < |out| ==>
        exists x :: x in table.rows && x.userId == current && x.vmid == out[i].vmid &&
                    out[i].osInfo == x.osInfo && out[i].environmentType == Some(x.environmentType)
  {
    var owned := OwnedByVmid(table.ByUser(current));
    var shown := Filter(resources, Mine(owned.Keys));
    var out := Listing(shown, OwnedRow(owned), probe);
    forall i | 0 <= i < |out|
      ensures exists x :: x in table.rows && x.userId == current && x.vmid == out[i].vmid &&
                          out[i].osInfo == x.osInfo && out[i].environmentType == Some(x.environmentType)
    {
      assert Mine(owned.Keys)(shown[i]);
      var x := owned[shown[i].vmid];
      assert x in table.ByUser(current);
    }
  }

  // ---- power operations and deletion ----

  /** The endpoint family: `qemu` exactly when the type is `qemu`. */
  function GuestOf(kind: string): Guest
  {
    if kind == "qemu" then Qemu else Lxc
  }

  function Done(action: PowerAction): string
  {
    match action
    case Start => "started"
    case Stop => "stopped"
    case Reboot => "rebooted"
    case Shutdown => "shutdown"
    case Reset => "reset"
  }

  function PowerMessage(vmid: int, action: PowerAction): string
  {
    "Resource " + IntToString(vmid) + " " + Done(action)
  }

  /** The reason a route gives up before calling the hypervisor: the
      dependency's error, or a `KeyError` reading `node` or `type`. */
  function Prepared(info: Outcome<ClusterEntry>): (r: Outcome<(string, string)>)
    ensures r.Ok? <==> info.Ok? && info.value.node.Some? && info.value.kind.Some?
    ensures r.Ok? ==> r.value == (info.value.node.value, info.value.kind.value)
    ensures info.Fail? ==> r == Fail(info.code, info.detail)
  {
    match info
    case Fail(c, d) => Fail(c, d)
    case Ok(e) =>
      if e.node.None? then Fail(500, "'node'")
      else if e.kind.None? then Fail(500, "'type'")
      else Ok((e.node.value, e.kind.value))
  }

  /** `POST /resources/{vmid}/start` and its four siblings. */
  method PowerResource(hv: Client, listFault: Option<Fault>, resources: seq<ClusterEntry>, vmid: int,
                       action: PowerAction) returns (r: Outcome<string>)
    modifies hv`log
    ensures var p := Prepared(ResourceInfo(listFault, resources, vmid));
      (p.Fail? ==> r == Fail(p.code, p.detail) && hv.log == old(hv.log)) &&
      (p.Ok? ==>
        var c := Power(p.value.0, GuestOf(p.value.1), vmid, action, None);
        hv.log == old(hv.log) + [c] &&
        r == if hv.fails(c).Some? then Fail(500, FaultMessage(hv.fails(c).value)) else Ok(PowerMessage(vmid, action)))
  {
    var info := GetResourceInfo(listFault, resources, vmid);
    var p := Prepared(info);
    if p.Fail? {
      return Fail(p.code, p.detail);
    }
    var (node, kind) := p.value;
    var fault := hv.Issue(Power(node, GuestOf(kind), vmid, action, None));
    if fault.Some? {
      return Fail(500, FaultMessage(fault.value));
    }
    r := Ok(PowerMessage(vmid, action));
  }

  /** The hypervisor calls of `delete_resource`. */
  function DeletePlan(node: string, kind: string, vmid: int, status: string, purge: bool, force: bool): (plan: seq<Call>)
    ensures |plan| == (if status == "running" then 4 else 2)
    ensures plan[|plan| - 2].Destroy? && plan[|plan| - 1] == WaitTask(node)
    ensures plan[|plan| - 2].purge == (if purge then 1 else 0)
    ensures plan[|plan| - 2].force.Some? <==> kind != "qemu"
    ensures status == "running" ==> plan[0].Power? && plan[0].action == Stop &&
                                    (plan[0].force == Some(1) <==> kind != "qemu" && force)
    ensures forall i :: 0 <= i < |plan| ==> !(plan[i].Power? && plan[i].action != Stop)
  {
    var g := GuestOf(kind);
    (if status == "running" then
       [Power(node, g, vmid, Stop, if g == Lxc && force then Some(1) else None), WaitTask(node)]
     else []) +
    [Destroy(node, g, vmid, if purge then 1 else 0, if g == Lxc then Some(if force then 1 else 0) else None),
     WaitTask(node)]
  }

  /** `DELETE /resources/{vmid}`: the table row goes only after every
      hypervisor call returned. */
  method DeleteResource(table: R.ResourceTable, hv: Client, listFault: Option<Fault>, resources: seq<ClusterEntry>,
                        vmid: int, purge: bool, force: bool) returns (r: Outcome<string>)
    modifies table, hv`log
    ensures var info := ResourceInfo(listFault, resources, vmid);
      var p := Prepared(info);
      (p.Fail? ==> r == Fail(p.code, p.detail) && hv.log == old(hv.log) && table.rows == old(table.rows)) &&
      (p.Ok? ==>
        var plan := DeletePlan(p.value.0, p.value.1, vmid, TextOr(info.value.status, ""), purge, force);
        hv.log == old(hv.log) + Attempted(plan, hv.fails) &&
        (FirstFault(plan, hv.fails).Some? ==>
           r == Fail(500, FaultMessage(FirstFault(plan, hv.fails).value)) && table.rows == old(table.rows)) &&
        (FirstFault(plan, hv.fails).None? ==>
           r == Ok("Resource " + IntToString(vmid) + " deleted successfully") &&
           table.rows == R.AfterDelete(old(table.rows), vmid)))
  {
    var info := GetResourceInfo(listFault, resources, vmid);
    var p := Prepared(info);
    if p.Fail? {
      return Fail(p.code, p.detail);
    }
    var (node, kind) := p.value;
    var plan := DeletePlan(node, kind, vmid, TextOr(info.value.status, ""), purge, force);
    var fault := hv.Run(plan);
    if fault.Some? {
      return Fail(500, FaultMessage(fault.value));
    }
    table.Delete(vmid);
    r := Ok("Resource " + IntToString(vmid) + " deleted successfully");
  }
}
