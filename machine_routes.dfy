// The machine endpoints (backend/app/api/routes/machine.py): the guest list
// with display defaults, one guest's summary, and the console and terminal
// connection details.
module MachineRoutes {
  import opened Prelude
  import opened Text
  import opened Hypervisor
  import opened ProxmoxDeps

  /** `VMSchema` as `list_vms` fills it. */
  datatype VmSummary = VmSummary(vmid: int, name: string, status: string, node: string, kind: string, metrics: Metrics)

  /** What a handler returns: a value, or the `({"error": ...}, code)` pair. */
  datatype Returned<T> = Value(value: T) | ErrorPair(error: string, code: int)

  /** `VNCInfoSchema` / `TerminalInfoSchema`. */
  datatype ConsoleInfo = ConsoleInfo(vmid: int, wsUrl: string, ticket: string, message: string)

  const VmConsoleMessage: string := "Connect to this WebSocket URL to access the VM console"
  const LxcTerminalMessage: string := "Connect to this WebSocket URL to access the LXC terminal"

  /** One entry with the defaults for missing keys: a missing name shows as
      `VM-<vmid>`, a missing status as `unknown`, a missing node as empty and
      a missing type as `qemu`; present values and the figures pass through. */
  function Summary(e: ClusterEntry): (r: VmSummary)
    ensures r.vmid == e.vmid && r.metrics == e.metrics
    ensures r.name == (if e.name.Some? then e.name.value else "VM-" + IntToString(e.vmid))
    ensures r.status == (if e.status.Some? then e.status.value else "unknown")
    ensures r.node == (if e.node.Some? then e.node.value else "")
    ensures r.kind == (if e.kind.Some? then e.kind.value else "qemu")
  {
    VmSummary(e.vmid, TextOr(e.name, "VM-" + IntToString(e.vmid)), TextOr(e.status, "unknown"),
              TextOr(e.node, ""), TextOr(e.kind, "qemu"), e.metrics)
  }

  /** The summaries of `shown`, in order. */
  function Summaries(shown: seq<ClusterEntry>): (r: seq<VmSummary>)
    ensures |r| == |shown| && forall i :: 0 <= i < |shown| ==> r[i] == Summary(shown[i])
  {
    seq(|shown|, i requires 0 <= i < |shown| => Summary(shown[i]))
  }

  lemma SummariesSnoc(shown: seq<ClusterEntry>, e: ClusterEntry)
    ensures Summaries(shown + [e]) == Summaries(shown) + [Summary(e)]
  {
    var s := shown + [e];
    assert forall i :: 0 <= i < |shown| ==> s[i] == shown[i];
  }

  /** One step of the loop of `list_vms`: the next entry adds its summary
      exactly when the filter keeps it. */
  lemma CollectStep(resources: seq<ClusterEntry>, i: nat, keep: ClusterEntry -> bool)
    requires i < |resources|
    ensures Summaries(Filter(resources[..i + 1], keep)) ==
      Summaries(Filter(resources[..i], keep)) + (if keep(resources[i]) then [Summary(resources[i])] else [])
  {
    var e := resources[i];
    assert resources[..i + 1] == resources[..i] + [e];
    FilterAppend(resources[..i], [e], keep);
    assert [e][1..] == [];
    if keep(e) {
      SummariesSnoc(Filter(resources[..i], keep), e);
    } else {
      assert Filter(resources[..i + 1], keep) == Filter(resources[..i], keep);
    }
  }

  /** The node filter of `list_vms`; templates are listed too. */
  function OnNode(node: Option<string>): ClusterEntry -> bool
  {
    (e: ClusterEntry) => !(node.Some? && node.value != "" && e.node != node)
  }

  /** The loop of `list_vms`. */
  method CollectSummaries(resources: seq<ClusterEntry>, keep: ClusterEntry -> bool) returns (vms: seq<VmSummary>)
    ensures vms == Summaries(Filter(resources, keep))
  {
    vms := [];
    var i := 0;
    while i < |resources|
      invariant 0 <= i <= |resources|
      invariant vms == Summaries(Filter(resources[..i], keep))
    {
      var e := resources[i];
      CollectStep(resources, i, keep);
      if keep(e) {
        vms := vms + [Summary(e)];
      }
      i := i + 1;
    }
    assert resources[..i] == resources;
  }

  /** `GET /machine/vms`. */
  method ListVms(listFault: Option<Fault>, resources: seq<ClusterEntry>, node: Option<string>) returns (r: Returned<seq<VmSummary>>)
    ensures listFault.Some? ==> r == ErrorPair(FaultMessage(listFault.value), 500)
    ensures listFault.None? ==> r == Value(Summaries(Filter(resources, OnNode(node))))
  {
    if listFault.Some? {
      return ErrorPair(FaultMessage(listFault.value), 500);
    }
    var vms := CollectSummaries(resources, OnNode(node));
    r := Value(vms);
  }

  /** Without a node every entry is listed, templates included. */
  lemma ListVmsKeepsAll(resources: seq<ClusterEntry>)
    ensures Filter(resources, OnNode(None)) == resources
    ensures Filter(resources, OnNode(Some(""))) == resources
  {
    FilterEverything(resources, OnNode(None));
    FilterEverything(resources, OnNode(Some("")));
  }

  lemma {:induction false} FilterEverything(s: seq<ClusterEntry>, p: ClusterEntry -> bool)
    requires forall x :: p(x)
    ensures Filter(s, p) == s
  {
    if s != [] {
      FilterEverything(s[1..], p);
      assert s == [s[0]] + s[1..];
    }
  }

  /** `GET /machine/{vmid}`: the first entry with the vmid, summarised. */
  method GetVmInfo(listFault: Option<Fault>, resources: seq<ClusterEntry>, vmid: int) returns (r: Returned<VmSummary>)
    ensures listFault.Some? ==> r == ErrorPair(FaultMessage(listFault.value), 500)
    ensures listFault.None? ==>
      var f := FirstByVmid(resources, vmid, "VM");
      r == if f.Ok? then Value(Summary(f.value)) else ErrorPair(NotFound("VM", vmid), 404)
  {
    if listFault.Some? {
      return ErrorPair(FaultMessage(listFault.value), 500);
    }
    var i := 0;
    while i < |resources|
      invariant 0 <= i <= |resources|
      invariant forall j :: 0 <= j < i ==> resources[j].vmid != vmid
    {
      if resources[i].vmid == vmid {
        FirstIndexAt(resources, SameVmid(vmid), i);
        return Value(Summary(resources[i]));
      }
      i := i + 1;
    }
    r := ErrorPair(NotFound("VM", vmid), 404);
  }

  function VncUrl(vmid: int): string
  {
    "/ws/vnc/" + IntToString(vmid) + "/"
  }

  function TerminalUrl(vmid: int): string
  {
    "/ws/terminal/" + IntToString(vmid) + "/"
  }

  /** The two socket paths never coincide. */
  lemma UrlsDiffer(m: int, n: int)
    ensures VncUrl(m) != TerminalUrl(n)
  {
    assert VncUrl(m)[4] == 'v' && TerminalUrl(n)[4] == 't';
  }

  /** Asking the hypervisor for a console ticket for the guest `info` found:
      a missing `node` raises before the call. */
  method Ticket(hv: Client, found: Outcome<ClusterEntry>, c: string -> Call, vmid: int, url: string, message: string)
      returns (r: Outcome<ConsoleInfo>)
    modifies hv`log
    ensures found.Fail? ==> r == Fail(found.code, found.detail) && hv.log == old(hv.log)
    ensures found.Ok? && found.value.node.None? ==> r == Fail(500, "'node'") && hv.log == old(hv.log)
    ensures found.Ok? && found.value.node.Some? ==>
      var call := c(found.value.node.value);
      hv.log == old(hv.log) + [call] &&
      r == if hv.fails(call).Some? then Fail(500, FaultMessage(hv.fails(call).value))
           else Ok(ConsoleInfo(vmid, url, hv.ticketOf(call), message))
  {
    if found.Fail? {
      return Fail(found.code, found.detail);
    }
    if found.value.node.None? {
      return Fail(500, "'node'");
    }
    var call := c(found.value.node.value);
    var fault := hv.Issue(call);
    if fault.Some? {
      return Fail(500, FaultMessage(fault.value));
    }
    r := Ok(ConsoleInfo(vmid, url, hv.ticketOf(call), message));
  }

  /** `GET /machine/{vmid}/console`: the first entry with the vmid, then a
      VNC proxy ticket on its node. */
  method GetVmConsole(hv: Client, listFault: Option<Fault>, resources: seq<ClusterEntry>, vmid: int) returns (r: Outcome<ConsoleInfo>)
    modifies hv`log
    ensures var found := ResourceInfo(listFault, resources, vmid);
      (found.Fail? ==>
         hv.log == old(hv.log) &&
         r == if listFault.Some? then Fail(500, FaultMessage(listFault.value)) else Fail(404, NotFound("VM", vmid))) &&
      (found.Ok? && found.value.node.None? ==> r == Fail(500, "'node'") && hv.log == old(hv.log)) &&
      (found.Ok? && found.value.node.Some? ==>
         var call := VncProxy(found.value.node.value, vmid);
         hv.log == old(hv.log) + [call] &&
         r == if hv.fails(call).Some? then Fail(500, FaultMessage(hv.fails(call).value))
              else Ok(ConsoleInfo(vmid, VncUrl(vmid), hv.ticketOf(call), VmConsoleMessage)))
    ensures r.Ok? ==> r.value.wsUrl == VncUrl(vmid) && r.value.vmid == vmid
  {
    var found: Outcome<ClusterEntry>;
    if listFault.Some? {
      found := Fail(500, FaultMessage(listFault.value));
    } else {
      found := FirstByVmid(resources, vmid, "VM");
    }
    r := Ticket(hv, found, (node: string) => VncProxy(node, vmid), vmid, VncUrl(vmid), VmConsoleMessage);
  }

  /** The scan of `get_lxc_terminal` runs inside the handler, so a `KeyError`
      on a typeless entry becomes 500 with the key as its message. */
  function TerminalTarget(listFault: Option<Fault>, resources: seq<ClusterEntry>, vmid: int): (r: Outcome<ClusterEntry>)
    ensures r.Ok? ==> r.value.vmid == vmid && r.value.kind == Some("lxc") && r.value in resources
    ensures listFault.None? ==> (r.Ok? <==> LxcInfo(listFault, resources, vmid).Ok?)
  {
    if listFault.Some? then Fail(500, FaultMessage(listFault.value))
    else match FirstIndex(resources, LxcStop(vmid))
      case Some(k) =>
        assert LxcStop(vmid)(resources[k]);
        if resources[k].kind.None? then Fail(500, "'type'") else Ok(resources[k])
      case None => Fail(404, NotFound("LXC container", vmid))
  }

  /** `GET /machine/{vmid}/terminal`: only a container with that vmid, then a
      terminal proxy ticket on its node. */
  method GetLxcTerminal(hv: Client, listFault: Option<Fault>, resources: seq<ClusterEntry>, vmid: int) returns (r: Outcome<ConsoleInfo>)
    modifies hv`log
    ensures var found := TerminalTarget(listFault, resources, vmid);
      (found.Fail? ==> hv.log == old(hv.log) && r == Fail(found.code, found.detail)) &&
      (found.Ok? && found.value.node.None? ==> r == Fail(500, "'node'") && hv.log == old(hv.log)) &&
      (found.Ok? && found.value.node.Some? ==>
         var call := TermProxy(found.value.node.value, vmid);
         hv.log == old(hv.log) + [call] &&
         r == if hv.fails(call).Some? then Fail(500, FaultMessage(hv.fails(call).value))
              else Ok(ConsoleInfo(vmid, TerminalUrl(vmid), hv.ticketOf(call), LxcTerminalMessage)))
    ensures r.Ok? ==> r.value.wsUrl == TerminalUrl(vmid) && r.value.vmid == vmid
  {
    var found := TerminalTarget(listFault, resources, vmid);
    r := Ticket(hv, found, (node: string) => TermProxy(node, vmid), vmid, TerminalUrl(vmid), LxcTerminalMessage);
  }
}
