// What the backend sees of the Proxmox API: the cluster resource list, the
// calls it issues, and how a call can fail. A call either returns or raises;
// which calls raise is a parameter of the model.
module Hypervisor {
  import opened Prelude
  import opened Text

  /** CPU and memory figures, passed through unchanged. */
  datatype Metrics = Metrics(cpu: Option<real>, maxcpu: Option<int>, mem: Option<int>, maxmem: Option<int>, uptime: Option<int>)

  /** One entry of `cluster.resources.get(type="vm")`; keys other than
      `vmid` may be missing. */
  datatype ClusterEntry = ClusterEntry(
    vmid: int, name: Option<string>, status: Option<string>, node: Option<string>,
    kind: Option<string>, template: Option<int>, metrics: Metrics)

  /** An HTTP answer: a value, or an error status with its detail. */
  datatype Outcome<T> = Ok(value: T) | Fail(code: int, detail: string)

  /** How a raised exception looks to the route that catches it. */
  datatype Fault = Raised(message: string) | TimedOut(message: string)

  datatype Guest = Qemu | Lxc
  datatype PowerAction = Start | Stop | Reboot | Shutdown | Reset

  /** `POST /nodes/{node}/lxc`. */
  datatype LxcConfig = LxcConfig(
    vmid: int, hostname: string, ostemplate: Option<string>, cores: int, memory: int, swap: int,
    rootfs: string, password: string, net0: string, unprivileged: int, start: int, pool: string)

  /** `POST /nodes/{node}/qemu/{template}/clone`. */
  datatype CloneConfig = CloneConfig(newid: int, name: string, full: int, storage: string, pool: string)

  /** `PUT /nodes/{node}/qemu/{vmid}/config` with cloud-init settings. */
  datatype CloudInit = CloudInit(cores: int, memory: int, ciuser: Option<string>, cipassword: string, sshkeys: string, ciupgrade: int)

  datatype Call =
    | NextId
    | CreateLxc(node: string, lxc: LxcConfig)
    | WaitTask(node: string)
    | CloneQemu(node: string, template: Option<int>, clone: CloneConfig)
    | ConfigureQemu(node: string, vmid: int, cloudInit: CloudInit)
    | ResizeQemu(node: string, vmid: int, disk: string, size: string)
    | Power(node: string, guest: Guest, vmid: int, action: PowerAction, force: Option<int>)
    | Destroy(node: string, guest: Guest, vmid: int, purge: int, force: Option<int>)
    | VncProxy(node: string, vmid: int)
    | TermProxy(node: string, vmid: int)

  const ProxmoxNode: string := "pve"
  const Pool: string := "CampusCloud"
  const Net0: string := "name=eth0,bridge=vmbr0,ip=dhcp,firewall=0"

  /** The calls of `plan` that are issued: all of them, or those up to and
      including the first that raises. */
  function Attempted(plan: seq<Call>, fails: Call -> Option<Fault>): (r: seq<Call>)
    ensures |r| <= |plan| && r == plan[..|r|]
  {
    if plan == [] then []
    else if fails(plan[0]).Some? then [plan[0]]
    else [plan[0]] + Attempted(plan[1..], fails)
  }

  /** The fault of the first call of `plan` that raises. */
  function FirstFault(plan: seq<Call>, fails: Call -> Option<Fault>): Option<Fault>
  {
    if plan == [] then None
    else if fails(plan[0]).Some? then fails(plan[0])
    else FirstFault(plan[1..], fails)
  }

  /** A plan that does not fail is issued in full; one that fails stops at
      the call that raised, and every call before it returned. */
  lemma {:induction false} AttemptedShape(plan: seq<Call>, fails: Call -> Option<Fault>)
    ensures FirstFault(plan, fails).None? <==> Attempted(plan, fails) == plan && forall i :: 0 <= i < |plan| ==> fails(plan[i]).None?
    ensures FirstFault(plan, fails).Some? ==>
      Attempted(plan, fails) != [] &&
      fails(Attempted(plan, fails)[|Attempted(plan, fails)| - 1]) == FirstFault(plan, fails) &&
      forall i :: 0 <= i < |Attempted(plan, fails)| - 1 ==> fails(Attempted(plan, fails)[i]).None?
  {
    if plan != [] {
      AttemptedShape(plan[1..], fails);
      if fails(plan[0]).None? {
        var r := Attempted(plan[1..], fails);
        assert Attempted(plan, fails) == [plan[0]] + r;
        assert forall i :: 1 <= i < |plan| ==> plan[i] == plan[1..][i - 1];
      }
    }
  }

  lemma {:induction false} AttemptedAppend(p: seq<Call>, q: seq<Call>, fails: Call -> Option<Fault>)
    ensures FirstFault(p, fails).None? ==> Attempted(p + q, fails) == p + Attempted(q, fails) && FirstFault(p + q, fails) == FirstFault(q, fails)
    ensures FirstFault(p, fails).Some? ==> Attempted(p + q, fails) == Attempted(p, fails) && FirstFault(p + q, fails) == FirstFault(p, fails)
  {
    if p == [] {
      assert p + q == q;
    } else {
      assert (p + q)[1..] == p[1..] + q;
      AttemptedAppend(p[1..], q, fails);
    }
  }

  /** The API client: it records every call issued. `fails` tells which
      calls raise, `nextId` is what `cluster/nextid` answers, `ticketOf`
      the ticket a console proxy call returns. */
  class Client {
    const fails: Call -> Option<Fault>
    const nextId: int
    const ticketOf: Call -> string
    var log: seq<Call>

    constructor (fails: Call -> Option<Fault>, nextId: int, ticketOf: Call -> string)
      ensures this.fails == fails && this.nextId == nextId && this.ticketOf == ticketOf && log == []
    {
      this.fails, this.nextId, this.ticketOf := fails, nextId, ticketOf;
      log := [];
    }

    /** Issue one call. */
    method Issue(c: Call) returns (fault: Option<Fault>)
      modifies this`log
      ensures log == old(log) + [c] && fault == fails(c)
    {
      log := log + [c];
      fault := fails(c);
    }

    /** Issue the calls of `plan` in order, stopping at the first that raises. */
    method Run(plan: seq<Call>) returns (fault: Option<Fault>)
      modifies this`log
      ensures log == old(log) + Attempted(plan, fails)
      ensures fault == FirstFault(plan, fails)
    {
      var i := 0;
      fault := None;
      while i < |plan| && fault.None?
        invariant 0 <= i <= |plan|
        invariant fault.None? ==> log == old(log) + plan[..i] && Attempted(plan, fails) == plan[..i] + Attempted(plan[i..], fails)
        invariant fault.None? ==> FirstFault(plan, fails) == FirstFault(plan[i..], fails)
        invariant fault.Some? ==> log == old(log) + Attempted(plan, fails) && fault == FirstFault(plan, fails)
        decreases |plan| - i
      {
        assert plan[i..][1..] == plan[i + 1..];
        assert plan[..i + 1] == plan[..i] + [plan[i]];
        fault := Issue(plan[i]);
        i := i + 1;
      }
      assert plan[i..] == [] || fault.Some?;
    }
  }

  /** The HTTP status a route's `except TimeoutError` / `except Exception` pair gives. */
  function FaultStatus(f: Fault): int
  {
    if f.TimedOut? then 504 else 500
  }

  /** `str(e)` of a fault. */
  function FaultMessage(f: Fault): string
  {
    f.message
  }

  /** `dict.get(key, default)` for a text field. */
  function TextOr(v: Option<string>, d: string): string
  {
    if v.Some? then v.value else d
  }

  /** `"VM " + vmid + " not found"`-style details. */
  function NotFound(what: string, vmid: int): string
  {
    what + " " + IntToString(vmid) + " not found"
  }
}
