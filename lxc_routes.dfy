// The container endpoints (backend/app/api/routes/lxc.py): the terminal of a
// container, the OS template list of the ISO storage, and direct creation.
module LxcRoutes {
  import opened Prelude
  import opened Text
  import opened Hypervisor
  import opened ProxmoxDeps
  import opened PyUuid
  import opened VmRequestModel
  import M = MachineRoutes
  import Q = VmRequestRoutes
  import R = ResourceCrud

  /** `GET /lxc/{vmid}/terminal`: the container the dependency found, then a
      terminal proxy ticket on its node. */
  method GetLxcTerminal(hv: Client, listFault: Option<Fault>, resources: seq<ClusterEntry>, vmid: int)
      returns (r: Outcome<M.ConsoleInfo>)
    modifies hv`log
    ensures var info := LxcInfo(listFault, resources, vmid);
      (info.Fail? ==> r == Fail(info.code, info.detail) && hv.log == old(hv.log)) &&
      (info.Ok? && info.value.node.None? ==> r == Fail(500, "'node'") && hv.log == old(hv.log)) &&
      (info.Ok? && info.value.node.Some? ==>
         var call := TermProxy(info.value.node.value, vmid);
         hv.log == old(hv.log) + [call] &&
         r == if hv.fails(call).Some? then Fail(500, FaultMessage(hv.fails(call).value))
              else Ok(M.ConsoleInfo(vmid, M.TerminalUrl(vmid), hv.ticketOf(call), M.LxcTerminalMessage)))
  {
    var info := GetLxcInfo(listFault, resources, vmid);
    r := M.Ticket(hv, info, (node: string) => TermProxy(node, vmid), vmid, M.TerminalUrl(vmid), M.LxcTerminalMessage);
  }

  /** One item of the storage content listing; every key may be missing. */
  datatype StorageItem = StorageItem(volid: Option<string>, content: Option<string>, format: Option<string>, size: Option<int>)

  /** `TemplateSchema`. */
  datatype OsTemplate = OsTemplate(volid: string, format: string, size: int)

  predicate IsContainerTemplate(t: StorageItem)
  {
    t.content == Some("vztmpl")
  }

  /** The templates among the items so far; `t["volid"]` raises on a
      template without a volume id, and the format and size default. */
  function OsTemplates(items: seq<StorageItem>): (r: Outcome<seq<OsTemplate>>)
    ensures r.Fail? ==> r == Fail(500, "'volid'")
    ensures r.Ok? ==> |r.value| <= |items|
    decreases |items|
  {
    if items == [] then Ok([])
    else
      var t := items[|items| - 1];
      match OsTemplates(items[..|items| - 1])
      case Fail(c, d) => Fail(c, d)
      case Ok(acc) =>
        if !IsContainerTemplate(t) then Ok(acc)
        else if t.volid.None? then Fail(500, "'volid'")
        else Ok(acc + [OsTemplate(t.volid.value, TextOr(t.format, ""), if t.size.Some? then t.size.value else 0)])
  }

  lemma {:induction false} OsTemplatesFailSticks(items: seq<StorageItem>, n: nat)
    requires n <= |items| && OsTemplates(items[..n]).Fail?
    ensures OsTemplates(items) == OsTemplates(items[..n])
    decreases |items| - n
  {
    if n == |items| {
      assert items[..n] == items;
    } else {
      assert items[..n + 1][..n] == items[..n];
      OsTemplatesFailSticks(items, n + 1);
    }
  }

  /** Exactly the `vztmpl` items are listed, in order, with their volume
      ids, the format defaulting to empty and the size to 0; the list fails
      only on such an item without a volume id. */
  lemma {:induction false} OsTemplatesAreContainerTemplates(items: seq<StorageItem>)
    ensures OsTemplates(items).Ok? <==> forall i :: 0 <= i < |items| && IsContainerTemplate(items[i]) ==> items[i].volid.Some?
    ensures OsTemplates(items).Ok? ==>
      var shown := Filter(items, IsContainerTemplate);
      |OsTemplates(items).value| == |shown| &&
      forall i :: 0 <= i < |shown| ==>
        Some(OsTemplates(items).value[i].volid) == shown[i].volid &&
        OsTemplates(items).value[i].format == TextOr(shown[i].format, "") &&
        OsTemplates(items).value[i].size == (if shown[i].size.Some? then shown[i].size.value else 0)
    decreases |items|
  {
    if items != [] {
      var n := |items| - 1;
      var t := items[n];
      OsTemplatesAreContainerTemplates(items[..n]);
      assert items == items[..n] + [t];
      FilterAppend(items[..n], [t], IsContainerTemplate);
      assert [t][1..] == [];
      forall i | 0 <= i < n ensures items[..n][i] == items[i] { }
    }
  }

  /** `GET /lxc/templates`: the listing of the ISO storage on `pve`; any
      failure is 500 with its message. */
  method GetTemplates(listFault: Option<Fault>, items: seq<StorageItem>) returns (r: Outcome<seq<OsTemplate>>)
    ensures listFault.Some? ==> r == Fail(500, FaultMessage(listFault.value))
    ensures listFault.None? ==> r == OsTemplates(items)
  {
    if listFault.Some? {
      return Fail(500, FaultMessage(listFault.value));
    }
    var templates: seq<OsTemplate> := [];
    var i := 0;
    while i < |items|
      invariant 0 <= i <= |items|
      invariant OsTemplates(items[..i]) == Ok(templates)
    {
      var t := items[i];
      assert items[..i + 1][..i] == items[..i];
      if t.content == Some("vztmpl") {
        if t.volid.None? {
          OsTemplatesFailSticks(items, i + 1);
          return Fail(500, "'volid'");
        }
        templates := templates + [OsTemplate(t.volid.value, TextOr(t.format, ""), if t.size.Some? then t.size.value else 0)];
      }
      i := i + 1;
    }
    assert items[..i] == items;
    r := Ok(templates);
  }

  /** `LXCCreateSchema`. */
  datatype LxcCreate = LxcCreate(
    hostname: string, ostemplate: string, cores: int, memory: int, rootfsSize: int, password: string,
    environmentType: string, osInfo: Option<string>, expiryDate: Option<Day>)

  datatype LxcCreated = LxcCreated(vmid: int, message: string)

  /** The container `create_lxc` asks for; the root disk size has no default. */
  function CreateLxcConfig(c: LxcCreate, vmid: int, storage: string): LxcConfig
  {
    LxcConfig(vmid, c.hostname, Some(c.ostemplate), c.cores, c.memory, 512,
              storage + ":" + IntToString(c.rootfsSize), c.password, Net0, 1, 1, Pool)
  }

  /** The creation form of an approved container request. */
  function FromRequest(q: VmRequest, password: string): LxcCreate
    requires q.ostemplate.Some? && q.rootfsSize.Some?
  {
    LxcCreate(q.hostname, q.ostemplate.value, q.cores, q.memory, q.rootfsSize.value, password,
              q.environmentType, q.osInfo, q.expiryDate)
  }

  /** A container created directly gets the configuration that provisioning
      the same request gives it, except that a zero root disk size is passed
      on where provisioning substitutes 8. */
  lemma CreateLxcMatchesProvisioning(q: VmRequest, vmid: int, password: string, storage: string)
    requires q.ostemplate.Some? && q.rootfsSize.Some?
    ensures q.rootfsSize.value != 0 ==>
      CreateLxcConfig(FromRequest(q, password), vmid, storage) == Q.LxcConfigFor(q, vmid, password, storage)
    ensures q.rootfsSize.value == 0 ==>
      CreateLxcConfig(FromRequest(q, password), vmid, storage) == Q.LxcConfigFor(q, vmid, password, storage).(rootfs := storage + ":0")
  {
    if q.rootfsSize.value == 0 {
      assert IntToString(0) == "0";
    }
  }

  /** `POST /lxc/create`: every failure, a timeout included, is 500 with its
      message; the resource row is written only after the task finished. */
  method CreateLxc(table: R.ResourceTable, hv: Client, current: Uuid, c: LxcCreate, storage: string, now: Timestamp)
      returns (r: Outcome<LxcCreated>)
    modifies table, hv`log
    ensures var plan := [NextId, Hypervisor.CreateLxc(ProxmoxNode, CreateLxcConfig(c, hv.nextId, storage)), WaitTask(ProxmoxNode)];
      hv.log == old(hv.log) + Attempted(plan, hv.fails) &&
      (FirstFault(plan, hv.fails).Some? ==> r == Fail(500, FaultMessage(FirstFault(plan, hv.fails).value)) && table.rows == old(table.rows)) &&
      (FirstFault(plan, hv.fails).None? ==>
         table.rows == old(table.rows) + [R.Resource(hv.nextId, current, c.environmentType, c.osInfo, c.expiryDate, None, now)] &&
         r == Ok(LxcCreated(hv.nextId, "Container " + c.hostname + " created successfully with VMID " + IntToString(hv.nextId))))
  {
    var plan := [NextId, Hypervisor.CreateLxc(ProxmoxNode, CreateLxcConfig(c, hv.nextId, storage)), WaitTask(ProxmoxNode)];
    var fault := hv.Run(plan);
    if fault.Some? {
      return Fail(500, FaultMessage(fault.value));
    }
    var row := table.Create(hv.nextId, current, c.environmentType, c.osInfo, c.expiryDate, None, now);
    r := Ok(LxcCreated(hv.nextId, "Container " + c.hostname + " created successfully with VMID " + IntToString(hv.nextId)));
  }
}
