// The route dependencies that look a guest up in the cluster resource list
// (backend/app/api/deps/proxmox.py). Each scans the list in order and stops
// at the first entry that matches.
module ProxmoxDeps {
  import opened Prelude
  import opened Text
  import opened Hypervisor

  /** What FastAPI answers for an exception no handler catches. */
  const InternalError: string := "Internal Server Error"

  function SameVmid(vmid: int): ClusterEntry -> bool
  {
    (e: ClusterEntry) => e.vmid == vmid
  }

  /** The entries the container scan stops at: those with the vmid whose
      `type` is `lxc`, or is missing, in which case `resource["type"]` raises. */
  function LxcStop(vmid: int): ClusterEntry -> bool
  {
    (e: ClusterEntry) => e.vmid == vmid && (e.kind.None? || e.kind == Some("lxc"))
  }

  /** The first entry with the vmid, or 404 with `what` in the detail. */
  function FirstByVmid(resources: seq<ClusterEntry>, vmid: int, what: string): (r: Outcome<ClusterEntry>)
    ensures r.Ok? ==> exists k :: 0 <= k < |resources| && resources[k] == r.value && r.value.vmid == vmid &&
                                 forall j :: 0 <= j < k ==> resources[j].vmid != vmid
    ensures r.Fail? <==> forall j :: 0 <= j < |resources| ==> resources[j].vmid != vmid
    ensures r.Fail? ==> r == Fail(404, NotFound(what, vmid))
  {
    match FirstIndex(resources, SameVmid(vmid))
    case Some(k) => assert resources[k].vmid == vmid; Ok(resources[k])
    case None => Fail(404, NotFound(what, vmid))
  }

  /** What `get_vm_info` answers; a failing listing is not caught. */
  function VmInfo(listFault: Option<Fault>, resources: seq<ClusterEntry>, vmid: int): Outcome<ClusterEntry>
  {
    if listFault.Some? then Fail(500, InternalError) else FirstByVmid(resources, vmid, "VM")
  }

  /** What `get_resource_info` answers: a failing listing becomes 500 with its message. */
  function ResourceInfo(listFault: Option<Fault>, resources: seq<ClusterEntry>, vmid: int): Outcome<ClusterEntry>
  {
    if listFault.Some? then Fail(500, FaultMessage(listFault.value)) else FirstByVmid(resources, vmid, "Resource")
  }

  /** What `get_lxc_info` answers: the first entry with the vmid and type
      `lxc`; an entry with the vmid and no type at all raises first. */
  function LxcInfo(listFault: Option<Fault>, resources: seq<ClusterEntry>, vmid: int): (r: Outcome<ClusterEntry>)
    ensures listFault.None? && r.Ok? ==>
      r.value.vmid == vmid && r.value.kind == Some("lxc") &&
      exists k :: 0 <= k < |resources| && resources[k] == r.value &&
                  forall j :: 0 <= j < k ==> !(resources[j].vmid == vmid && (resources[j].kind.None? || resources[j].kind == Some("lxc")))
    ensures listFault.None? ==>
      (r == Fail(404, NotFound("LXC container", vmid)) <==>
       forall j :: 0 <= j < |resources| ==> !(resources[j].vmid == vmid && (resources[j].kind.None? || resources[j].kind == Some("lxc"))))
  {
    if listFault.Some? then Fail(500, InternalError)
    else match FirstIndex(resources, LxcStop(vmid))
      case Some(k) =>
        assert LxcStop(vmid)(resources[k]);
        if resources[k].kind.None? then Fail(500, InternalError) else Ok(resources[k])
      case None => Fail(404, NotFound("LXC container", vmid))
  }

  /** `get_vm_info`: scans the listing for the vmid and stops at the first match. */
  method GetVmInfo(listFault: Option<Fault>, resources: seq<ClusterEntry>, vmid: int) returns (r: Outcome<ClusterEntry>)
    ensures r == VmInfo(listFault, resources, vmid)
  {
    if listFault.Some? {
      return Fail(500, InternalError);
    }
    var info: Option<ClusterEntry> := None;
    var i := 0;
    while i < |resources|
      invariant 0 <= i <= |resources|
      invariant info.None? && forall j :: 0 <= j < i ==> resources[j].vmid != vmid
    {
      if resources[i].vmid == vmid {
        info := Some(resources[i]);
        FirstIndexAt(resources, SameVmid(vmid), i);
        break;
      }
      i := i + 1;
    }
    if info.None? {
      return Fail(404, NotFound("VM", vmid));
    }
    r := Ok(info.value);
  }

  /** `get_lxc_info`: the scan tests the vmid, then reads the type. */
  method GetLxcInfo(listFault: Option<Fault>, resources: seq<ClusterEntry>, vmid: int) returns (r: Outcome<ClusterEntry>)
    ensures r == LxcInfo(listFault, resources, vmid)
  {
    if listFault.Some? {
      return Fail(500, InternalError);
    }
    var i := 0;
    while i < |resources|
      invariant 0 <= i <= |resources|
      invariant forall j :: 0 <= j < i ==> !LxcStop(vmid)(resources[j])
    {
      var e := resources[i];
      if e.vmid == vmid {
        if e.kind.None? {
          FirstIndexAt(resources, LxcStop(vmid), i);
          return Fail(500, InternalError);
        }
        if e.kind.value == "lxc" {
          FirstIndexAt(resources, LxcStop(vmid), i);
          return Ok(e);
        }
      }
      i := i + 1;
    }
    r := Fail(404, NotFound("LXC container", vmid));
  }

  /** `get_resource_info`: the scan of `get_vm_info` inside a handler that
      passes HTTP errors on and turns any other into 500. */
  method GetResourceInfo(listFault: Option<Fault>, resources: seq<ClusterEntry>, vmid: int) returns (r: Outcome<ClusterEntry>)
    ensures r == ResourceInfo(listFault, resources, vmid)
  {
    if listFault.Some? {
      return Fail(500, FaultMessage(listFault.value));
    }
    var i := 0;
    while i < |resources|
      invariant 0 <= i <= |resources|
      invariant forall j :: 0 <= j < i ==> resources[j].vmid != vmid
    {
      if resources[i].vmid == vmid {
        FirstIndexAt(resources, SameVmid(vmid), i);
        return Ok(resources[i]);
      }
      i := i + 1;
    }
    r := Fail(404, NotFound("Resource", vmid));
  }

  /** The scan for a container skips an entry with the same vmid of another
      type, where the general lookup stops at it. */
  lemma LxcSkipsOtherTypes(e: ClusterEntry, rest: seq<ClusterEntry>)
    requires e.kind.Some? && e.kind != Some("lxc")
    ensures FirstIndex([e] + rest, SameVmid(e.vmid)) == Some(0)
    ensures FirstIndex([e] + rest, LxcStop(e.vmid)) ==
      match FirstIndex(rest, LxcStop(e.vmid)) case None => None case Some(k) => Some(k + 1)
  {
    var s := [e] + rest;
    FirstIndexAt(s, SameVmid(e.vmid), 0);
    assert s[1..] == rest;
    match FirstIndex(rest, LxcStop(e.vmid))
    case None =>
      assert forall j :: 0 <= j < |s| ==> !LxcStop(e.vmid)(s[j]) by {
        forall j | 0 <= j < |s| ensures !LxcStop(e.vmid)(s[j]) {
          if j > 0 { assert s[j] == rest[j - 1]; }
        }
      }
    case Some(k) =>
      assert s[k + 1] == rest[k];
      forall j | 0 <= j < k + 1 ensures !LxcStop(e.vmid)(s[j]) {
        if j > 0 { assert s[j] == rest[j - 1]; }
      }
      FirstIndexAt(s, LxcStop(e.vmid), k + 1);
  }

  /** A container found by the container scan is also what the general
      lookup finds when no other entry with that vmid comes before it. */
  lemma LxcFoundIsFound(resources: seq<ClusterEntry>, vmid: int, k: nat)
    requires FirstIndex(resources, SameVmid(vmid)) == Some(k) && resources[k].kind == Some("lxc")
    ensures FirstIndex(resources, LxcStop(vmid)) == Some(k)
  {
    FirstIndexAt(resources, LxcStop(vmid), k);
  }
}
