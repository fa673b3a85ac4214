// The VM endpoints (backend/app/api/routes/vm.py): the console of a QEMU
// guest, direct creation from a cloud-init template, and the template list.
module VmRoutes {
  import opened Prelude
  import opened Text
  import opened Hypervisor
  import opened ProxmoxDeps
  import opened PyUuid
  import opened VmRequestModel
  import M = MachineRoutes
  import Q = VmRequestRoutes
  import R = ResourceCrud

  /** `GET /vm/{vmid}/console`: the guest must be a QEMU VM. */
  method GetVmConsole(hv: Client, listFault: Option<Fault>, resources: seq<ClusterEntry>, vmid: int)
      returns (r: Outcome<M.ConsoleInfo>)
    modifies hv`log
    ensures var info := VmInfo(listFault, resources, vmid);
      (info.Fail? ==> r == Fail(info.code, info.detail) && hv.log == old(hv.log)) &&
      (info.Ok? && info.value.kind.None? ==> r == Fail(500, "'type'") && hv.log == old(hv.log)) &&
      (info.Ok? && info.value.kind.Some? && info.value.kind.value != "qemu" ==>
         r == Fail(400, "Resource " + IntToString(vmid) + " is not a QEMU VM") && hv.log == old(hv.log)) &&
      (info.Ok? && info.value.kind == Some("qemu") && info.value.node.None? ==> r == Fail(500, "'node'") && hv.log == old(hv.log)) &&
      (info.Ok? && info.value.kind == Some("qemu") && info.value.node.Some? ==>
         var call := VncProxy(info.value.node.value, vmid);
         hv.log == old(hv.log) + [call] &&
         r == if hv.fails(call).Some? then Fail(500, FaultMessage(hv.fails(call).value))
              else Ok(M.ConsoleInfo(vmid, M.VncUrl(vmid), hv.ticketOf(call), M.VmConsoleMessage)))
    ensures r.Ok? ==> VmInfo(listFault, resources, vmid).Ok? && VmInfo(listFault, resources, vmid).value.kind == Some("qemu")
  {
    var info := GetVmInfo(listFault, resources, vmid);
    if info.Fail? {
      return Fail(info.code, info.detail);
    }
    if info.value.kind.None? {
      return Fail(500, "'type'");
    }
    if info.value.kind.value != "qemu" {
      return Fail(400, "Resource " + IntToString(vmid) + " is not a QEMU VM");
    }
    r := M.Ticket(hv, info, (node: string) => VncProxy(node, vmid), vmid, M.VncUrl(vmid), M.VmConsoleMessage);
  }

  /** `VMCreateSchema`. */
  datatype VmCreate = VmCreate(
    hostname: string, templateId: int, cores: int, memory: int, username: string, password: string,
    diskSize: Option<int>, start: bool, environmentType: string, osInfo: Option<string>, expiryDate: Option<Day>)

  datatype VmCreated = VmCreated(vmid: int, message: string)

  /** The calls `create_vm` issues after `nextid` AS WRITTEN: the resize
      passes the bare number, which the hypervisor reads as bytes. */
  function CreateVmCallsAsWritten(v: VmCreate, vmid: int, storage: string): (r: seq<Call>)
    ensures |r| == 3 + (if Q.NumberSet(v.diskSize) then 1 else 0) + (if v.start then 1 else 0)
    ensures Q.NumberSet(v.diskSize) ==> r[3] == ResizeQemu(ProxmoxNode, vmid, "scsi0", IntToString(v.diskSize.value))
  {
    [CloneQemu(ProxmoxNode, Some(v.templateId), CloneConfig(vmid, v.hostname, 1, storage, Pool)),
     WaitTask(ProxmoxNode),
     ConfigureQemu(ProxmoxNode, vmid, CloudInit(v.cores, v.memory, Some(v.username), v.password, "", 0))] +
    (if Q.NumberSet(v.diskSize) then [ResizeQemu(ProxmoxNode, vmid, "scsi0", IntToString(v.diskSize.value))] else []) +
    (if v.start then [Power(ProxmoxNode, Qemu, vmid, Start, None)] else [])
  }

  /** The same calls with the size given in gigabytes, as provisioning an
      approved request gives it. */
  function CreateVmCalls(v: VmCreate, vmid: int, storage: string): (r: seq<Call>)
    ensures !Q.NumberSet(v.diskSize) ==> r == CreateVmCallsAsWritten(v, vmid, storage)
    ensures Q.NumberSet(v.diskSize) ==>
      r == CreateVmCallsAsWritten(v, vmid, storage)[3 := ResizeQemu(ProxmoxNode, vmid, "scsi0", IntToString(v.diskSize.value) + "G")]
  {
    [CloneQemu(ProxmoxNode, Some(v.templateId), CloneConfig(vmid, v.hostname, 1, storage, Pool)),
     WaitTask(ProxmoxNode),
     ConfigureQemu(ProxmoxNode, vmid, CloudInit(v.cores, v.memory, Some(v.username), v.password, "", 0))] +
    (if Q.NumberSet(v.diskSize) then [ResizeQemu(ProxmoxNode, vmid, "scsi0", IntToString(v.diskSize.value) + "G")] else []) +
    (if v.start then [Power(ProxmoxNode, Qemu, vmid, Start, None)] else [])
  }

  /** The creation form of an approved VM request. */
  function FromRequest(q: VmRequest, password: string): VmCreate
    requires q.templateId.Some? && q.username.Some?
  {
    VmCreate(q.hostname, q.templateId.value, q.cores, q.memory, q.username.value, password, q.diskSize, true,
             q.environmentType, q.osInfo, q.expiryDate)
  }

  /** As written, creating a VM directly with a disk size asks for a
      different size than provisioning the same request does: "20" against
      "20G" for a 20 GB disk. */
  lemma ResizeAsWrittenHasNoUnit(q: VmRequest, vmid: int, password: string, storage: string)
    requires q.resourceType == "vm" && q.templateId.Some? && q.username.Some?
    requires q.diskSize == Some(20)
    ensures CreateVmCallsAsWritten(FromRequest(q, password), vmid, storage)[3].size == "20"
    ensures Q.ProvisionCalls(q, vmid, password, storage)[3].size == "20G"
    ensures CreateVmCallsAsWritten(FromRequest(q, password), vmid, storage) != Q.ProvisionCalls(q, vmid, password, storage)
  {
    assert IntToString(20) == "20" by {
      assert NatToString(20) == NatToString(2) + [DigitChar(0)];
    }
    var a := CreateVmCallsAsWritten(FromRequest(q, password), vmid, storage);
    var b := Q.ProvisionCalls(q, vmid, password, storage);
    assert a[3] != b[3];
  }

  /** With the size in gigabytes, direct creation issues exactly the calls
      that provisioning an approved VM request issues. */
  lemma CreateVmMatchesProvisioning(q: VmRequest, vmid: int, password: string, storage: string)
    requires q.resourceType == "vm" && q.templateId.Some? && q.username.Some?
    ensures CreateVmCalls(FromRequest(q, password), vmid, storage) == Q.ProvisionCalls(q, vmid, password, storage)
  {
  }

  /** As written: the clone of the template into the new vmid comes first,
      then the wait and the cloud-init settings; resizing happens exactly
      when a disk size is set and starting exactly when asked for. */
  lemma CreateVmSteps(v: VmCreate, vmid: int, storage: string)
    ensures var calls := CreateVmCallsAsWritten(v, vmid, storage);
      calls[0].CloneQemu? && calls[0].template == Some(v.templateId) && calls[0].clone.newid == vmid &&
      calls[1] == WaitTask(ProxmoxNode) && calls[2].ConfigureQemu? &&
      (Q.NumberSet(v.diskSize) <==> exists i :: 0 <= i < |calls| && calls[i].ResizeQemu?) &&
      (v.start <==> Power(ProxmoxNode, Qemu, vmid, Start, None) in calls)
  {
    var calls := CreateVmCallsAsWritten(v, vmid, storage);
    if !Q.NumberSet(v.diskSize) {
      assert forall i :: 0 <= i < |calls| ==> !calls[i].ResizeQemu?;
    }
    if !v.start {
      assert forall i :: 0 <= i < |calls| ==> !calls[i].Power?;
    } else {
      assert calls[|calls| - 1] == Power(ProxmoxNode, Qemu, vmid, Start, None);
    }
  }

  const TimeoutDetail: string := "VM creation is taking longer than expected. The task may still be running on Proxmox. Please check the Proxmox web interface or try again in a few minutes. Error: "

  /** The detail of a failing creation: a timeout gets the long explanation. */
  function CreateFailure(f: Fault): Outcome<VmCreated>
  {
    match f
    case TimedOut(m) => Fail(504, TimeoutDetail + m)
    case Raised(m) => Fail(500, m)
  }

  /** `POST /vm/create` as written, so a disk is resized by the bare
      number: the resource row is written only after every call returned,
      with the new vmid, the caller and the template. */
  method CreateVm(table: R.ResourceTable, hv: Client, current: Uuid, v: VmCreate, storage: string, now: Timestamp)
      returns (r: Outcome<VmCreated>)
    modifies table, hv`log
    ensures var plan := [NextId] + CreateVmCallsAsWritten(v, hv.nextId, storage);
      hv.log == old(hv.log) + Attempted(plan, hv.fails) &&
      (FirstFault(plan, hv.fails).Some? ==> r == CreateFailure(FirstFault(plan, hv.fails).value) && table.rows == old(table.rows)) &&
      (FirstFault(plan, hv.fails).None? ==>
         table.rows == old(table.rows) + [R.Resource(hv.nextId, current, v.environmentType, v.osInfo, v.expiryDate, Some(v.templateId), now)] &&
         r == Ok(VmCreated(hv.nextId, "VM " + v.hostname + " created successfully with VMID " + IntToString(hv.nextId))))
    ensures r.Fail? ==> r.code == 500 || r.code == 504
  {
    var plan := [NextId] + CreateVmCallsAsWritten(v, hv.nextId, storage);
    var fault := hv.Run(plan);
    if fault.Some? {
      return CreateFailure(fault.value);
    }
    var row := table.Create(hv.nextId, current, v.environmentType, v.osInfo, v.expiryDate, Some(v.templateId), now);
    r := Ok(VmCreated(hv.nextId, "VM " + v.hostname + " created successfully with VMID " + IntToString(hv.nextId)));
  }

  /** `VMTemplateSchema`. */
  datatype VmTemplate = VmTemplate(vmid: int, name: string, node: string)

  predicate IsTemplate(e: ClusterEntry)
  {
    e.template == Some(1)
  }

  /** The template list of the entries so far; reading `name` or `node` of
      a template without it raises. */
  function Templates(rs: seq<ClusterEntry>): (r: Outcome<seq<VmTemplate>>)
    ensures r.Fail? ==> r.code == 500 && (r.detail == "'name'" || r.detail == "'node'")
    ensures r.Ok? ==> |r.value| <= |rs|
    decreases |rs|
  {
    if rs == [] then Ok([])
    else
      var e := rs[|rs| - 1];
      match Templates(rs[..|rs| - 1])
      case Fail(c, d) => Fail(c, d)
      case Ok(acc) =>
        if !IsTemplate(e) then Ok(acc)
        else if e.name.None? then Fail(500, "'name'")
        else if e.node.None? then Fail(500, "'node'")
        else Ok(acc + [VmTemplate(e.vmid, e.name.value, e.node.value)])
  }

  lemma {:induction false} TemplatesFailSticks(rs: seq<ClusterEntry>, n: nat)
    requires n <= |rs| && Templates(rs[..n]).Fail?
    ensures Templates(rs) == Templates(rs[..n])
    decreases |rs| - n
  {
    if n == |rs| {
      assert rs[..n] == rs;
    } else {
      assert rs[..n + 1][..n] == rs[..n];
      TemplatesFailSticks(rs, n + 1);
    }
  }

  /** The templates listed are exactly the entries marked as templates, in
      order, each with its vmid, name and node, and the list fails only on a
      template missing a name or node. */
  lemma {:induction false} TemplatesAreMarked(rs: seq<ClusterEntry>)
    ensures Templates(rs).Ok? <==> forall i :: 0 <= i < |rs| && IsTemplate(rs[i]) ==> rs[i].name.Some? && rs[i].node.Some?
    ensures Templates(rs).Ok? ==>
      |Templates(rs).value| == |Filter(rs, IsTemplate)| &&
      forall i :: 0 <= i < |Templates(rs).value| ==>
        Templates(rs).value[i].vmid == Filter(rs, IsTemplate)[i].vmid &&
        Some(Templates(rs).value[i].name) == Filter(rs, IsTemplate)[i].name &&
        Some(Templates(rs).value[i].node) == Filter(rs, IsTemplate)[i].node
    decreases |rs|
  {
    if rs != [] {
      var n := |rs| - 1;
      var e := rs[n];
      TemplatesAreMarked(rs[..n]);
      assert rs == rs[..n] + [e];
      FilterAppend(rs[..n], [e], IsTemplate);
      assert [e][1..] == [];
      forall i | 0 <= i < n ensures rs[..n][i] == rs[i] { }
    }
  }

  /** `GET /vm/templates`. */
  method GetVmTemplates(listFault: Option<Fault>, resources: seq<ClusterEntry>) returns (r: Outcome<seq<VmTemplate>>)
    ensures listFault.Some? ==> r == Fail(500, FaultMessage(listFault.value))
    ensures listFault.None? ==> r == Templates(resources)
  {
    if listFault.Some? {
      return Fail(500, FaultMessage(listFault.value));
    }
    var templates: seq<VmTemplate> := [];
    var i := 0;
    while i < |resources|
      invariant 0 <= i <= |resources|
      invariant Templates(resources[..i]) == Ok(templates)
    {
      var e := resources[i];
      assert resources[..i + 1][..i] == resources[..i];
      if e.template == Some(1) {
        if e.name.None? {
          TemplatesFailSticks(resources, i + 1);
          return Fail(500, "'name'");
        }
        if e.node.None? {
          TemplatesFailSticks(resources, i + 1);
          return Fail(500, "'node'");
        }
        templates := templates + [VmTemplate(e.vmid, e.name.value, e.node.value)];
      }
      i := i + 1;
    }
    assert resources[..i] == resources;
    r := Ok(templates);
  }
}
