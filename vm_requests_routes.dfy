// The VM request endpoints (backend/app/api/routes/vm_requests.py): submit,
// list, fetch one, and review. Approving a request provisions the VM or
// container on the hypervisor; when that fails the request goes back to
// pending with a note appended to the reviewer's comment.
module VmRequestRoutes {
  import opened Prelude
  import opened Text
  import opened PyUuid
  import opened VmRequestModel
  import opened VmRequestCrud
  import R = ResourceCrud
  import H = Hypervisor

  datatype User = User(id: Uuid, email: string, fullName: Option<string>, isSuperuser: bool)

  /** `VMRequestPublic`: the row without its password and `unprivileged`
      flag, with the submitter's email and name. */
  datatype Public = Public(
    id: Uuid, userId: Uuid, userEmail: Option<string>, userFullName: Option<string>,
    reason: string, resourceType: string, hostname: string, cores: int, memory: int, storage: string,
    environmentType: string, osInfo: Option<string>, expiryDate: Option<Day>,
    ostemplate: Option<string>, rootfsSize: Option<int>, templateId: Option<int>, diskSize: Option<int>,
    username: Option<string>, status: Status, reviewerId: Option<Uuid>, reviewComment: Option<string>,
    reviewedAt: Option<Timestamp>, vmid: Option<int>, createdAt: Timestamp)

  /** `req.user`: the user row the request's `user_id` points to. */
  function OwnerOf(users: seq<User>, r: VmRequest): Option<User>
  {
    match FirstIndex(users, (u: User) => u.id == r.userId)
    case None => None
    case Some(k) => Some(users[k])
  }

  /** `_to_public(req, user)`: the row without its password and flag, with
      the user's email and name when the user is known. */
  function ToPublic(r: VmRequest, user: Option<User>): (p: Public)
    ensures p.userEmail == (if user.Some? then Some(user.value.email) else None)
    ensures p.userFullName == (if user.Some? then user.value.fullName else None)
    ensures FromPublic(p, r.password, r.unprivileged) == r
  {
    Public(r.id, r.userId, if user.Some? then Some(user.value.email) else None,
      if user.Some? then user.value.fullName else None,
      r.reason, r.resourceType, r.hostname, r.cores, r.memory, r.storage, r.environmentType, r.osInfo, r.expiryDate,
      r.ostemplate, r.rootfsSize, r.templateId, r.diskSize, r.username, r.status, r.reviewerId, r.reviewComment,
      r.reviewedAt, r.vmid, r.createdAt)
  }

  /** The row a public view came from, given the two fields it leaves out. */
  function FromPublic(p: Public, password: string, unprivileged: bool): VmRequest
  {
    VmRequest(p.id, p.userId, p.reason, p.resourceType, p.hostname, p.cores, p.memory, password, p.storage,
      p.environmentType, p.osInfo, p.expiryDate, p.ostemplate, p.rootfsSize, unprivileged, p.templateId,
      p.diskSize, p.username, p.status, p.reviewerId, p.reviewComment, p.reviewedAt, p.vmid, p.createdAt)
  }

  /** The public view shows nothing of the password and the flag: rows that
      differ only there look the same. */
  lemma PublicLosesOnlyPassword(r: VmRequest, user: Option<User>)
    ensures forall pw: string :: ToPublic(r.(password := pw), user) == ToPublic(r, user)
    ensures forall b: bool :: ToPublic(r.(unprivileged := b), user) == ToPublic(r, user)
  {
  }

  // ---- submitting a request ----

  /** Python truthiness of an optional text and an optional number. */
  predicate TextSet(v: Option<string>) { v.Some? && v.value != "" }
  predicate NumberSet(v: Option<int>) { v.Some? && v.value != 0 }

  /** The route's own checks; `None` when the request is accepted. */
  function CreateCheck(c: VmRequestCreate): (r: Option<string>)
    ensures r.Some? && c.resourceType != "lxc" && c.resourceType != "vm" ==> r.value == "resource_type must be 'lxc' or 'vm'"
    ensures r.Some? && c.resourceType == "lxc" ==> r.value == "LXC request requires ostemplate"
    ensures r.Some? && c.resourceType == "vm" ==> r.value == "VM request requires template_id and username"
  {
    if c.resourceType != "lxc" && c.resourceType != "vm" then Some("resource_type must be 'lxc' or 'vm'")
    else if c.resourceType == "lxc" && !TextSet(c.ostemplate) then Some("LXC request requires ostemplate")
    else if c.resourceType == "vm" && (!NumberSet(c.templateId) || !TextSet(c.username)) then
      Some("VM request requires template_id and username")
    else None
  }

  /** A submission is accepted exactly when it is a container with an OS
      template, or a VM with a non-zero template id and a user name; disk
      sizes are never required. */
  lemma CreateCheckIff(c: VmRequestCreate)
    ensures CreateCheck(c).None? <==>
      (c.resourceType == "lxc" && TextSet(c.ostemplate)) ||
      (c.resourceType == "vm" && NumberSet(c.templateId) && TextSet(c.username))
    ensures CreateCheck(c).None? ==> CreateCheck(c.(rootfsSize := None, diskSize := None)).None?
    ensures c.resourceType == "vm" && c.templateId == Some(0) ==> CreateCheck(c).Some?
  {
  }

  const ValidationFailed: string := "validation error"

  /** `POST /vm-requests/`: schema validation (422), the route's checks (400),
      then one stored row, returned with the submitter's email and name. */
  method Create(table: RequestTable, c: VmRequestCreate, current: User, id: Uuid, now: Timestamp,
                encrypt: string -> string) returns (r: H.Outcome<Public>)
    modifies table
    ensures !CreateValid(c) ==> r == H.Fail(422, ValidationFailed) && table.rows == old(table.rows)
    ensures CreateValid(c) && CreateCheck(c).Some? ==> r == H.Fail(400, CreateCheck(c).value) && table.rows == old(table.rows)
    ensures CreateValid(c) && CreateCheck(c).None? ==>
      table.rows == old(table.rows) + [Stored(c, current.id, id, now, encrypt)] &&
      r == H.Ok(ToPublic(Stored(c, current.id, id, now, encrypt), Some(current)))
    ensures r.Ok? ==> r.value.userEmail == Some(current.email) && r.value.userFullName == current.fullName &&
                      r.value.status == Pending && r.value.userId == current.id
  {
    if !CreateValid(c) {
      return H.Fail(422, ValidationFailed);
    }
    var problem := CreateCheck(c);
    if problem.Some? {
      return H.Fail(400, problem.value);
    }
    var row := table.Create(c, current.id, id, now, encrypt);
    r := H.Ok(ToPublic(row, Some(current)));
  }

  // ---- listing and fetching ----

  /** The query bounds `skip >= 0` and `1 <= limit <= 100`. */
  predicate WindowOk(skip: int, limit: int)
  {
    skip >= 0 && 1 <= limit <= 100
  }

  /** The public views of listed rows, each with its submitter. */
  function PublicRows(rows: seq<VmRequest>, users: seq<User>): (ps: seq<Public>)
    ensures |ps| == |rows|
    ensures forall i :: 0 <= i < |rows| ==> ps[i] == ToPublic(rows[i], OwnerOf(users, rows[i]))
  {
    seq(|rows|, i requires 0 <= i < |rows| => ToPublic(rows[i], OwnerOf(users, rows[i])))
  }

  /** `GET /vm-requests/my`: the caller's own requests, newest first, in
      the window, with the caller's total. */
  function ListMy(table: RequestTable, users: seq<User>, current: User, skip: int, limit: int): (r: H.Outcome<(seq<Public>, nat)>)
    reads table
    ensures r.Ok? <==> WindowOk(skip, limit)
    ensures !r.Ok? ==> r == H.Fail(422, ValidationFailed)
    ensures r.Ok? ==> r.value.1 == |Filter(table.rows, OwnedBy(current.id))| && |r.value.0| <= limit &&
                      forall i :: 0 <= i < |r.value.0| ==> r.value.0[i].userId == current.id
    ensures r.Ok? ==> r.value.0 == PublicRows(Window(Filter(table.rows, OwnedBy(current.id)), skip, limit), users)
  {
    if !WindowOk(skip, limit) then H.Fail(422, ValidationFailed)
    else
      var (rows, count) := table.ByUser(current.id, skip, limit);
      H.Ok((PublicRows(rows, users), count))
  }

  /** `GET /vm-requests/`: superusers only; every request, or those with
      the given status, newest first, in the window, with their total. */
  function ListAll(table: RequestTable, users: seq<User>, current: User, status: Option<Status>, skip: int, limit: int): (r: H.Outcome<(seq<Public>, nat)>)
    reads table
    ensures r.Ok? <==> WindowOk(skip, limit) && current.isSuperuser
    ensures WindowOk(skip, limit) && !current.isSuperuser ==> r == H.Fail(403, "Not enough privileges")
    ensures !WindowOk(skip, limit) ==> r == H.Fail(422, ValidationFailed)
    ensures r.Ok? ==> r.value.1 == |Filter(table.rows, WithStatus(status))| && |r.value.0| <= limit &&
                      forall i :: 0 <= i < |r.value.0| ==> status.Some? ==> r.value.0[i].status == status.value
    ensures r.Ok? ==> r.value.0 == PublicRows(Window(Filter(table.rows, WithStatus(status)), skip, limit), users)
    ensures r.Ok? && status.None? ==> r.value == (PublicRows(Window(table.rows, skip, limit), users), |table.rows|)
  {
    if !WindowOk(skip, limit) then H.Fail(422, ValidationFailed)
    else if !current.isSuperuser then H.Fail(403, "Not enough privileges")
    else
      var (rows, count) := table.All(status, skip, limit);
      H.Ok((PublicRows(rows, users), count))
  }

  /** `GET /vm-requests/{id}`: 400 for a malformed id, 404 when absent, 403
      when the caller neither owns it nor is a superuser. */
  function Get(table: RequestTable, users: seq<User>, current: User, requestId: string): (r: H.Outcome<Public>)
    reads table
    ensures Parse(requestId).None? <==> r == H.Fail(400, "Invalid request ID")
    ensures Parse(requestId).Some? && table.ById(Parse(requestId).value).None? <==> r == H.Fail(404, "Request not found")
    ensures r == H.Fail(403, "Not enough privileges") <==>
      Parse(requestId).Some? && table.ById(Parse(requestId).value).Some? &&
      !current.isSuperuser && table.ById(Parse(requestId).value).value.userId != current.id
    ensures r.Fail? ==> r.code == 400 || r.code == 403 || r.code == 404
  {
    match Parse(requestId)
    case None => H.Fail(400, "Invalid request ID")
    case Some(id) =>
      match table.ById(id)
      case None => H.Fail(404, "Request not found")
      case Some(row) =>
        if !current.isSuperuser && row.userId != current.id then H.Fail(403, "Not enough privileges")
        else H.Ok(ToPublic(row, OwnerOf(users, row)))
  }

  /** A request is shown exactly to its owner and to superusers, and what is
      shown is the stored row. */
  lemma GetAccess(table: RequestTable, users: seq<User>, current: User, requestId: string)
    ensures Get(table, users, current, requestId).Ok? <==>
      Parse(requestId).Some? && table.ById(Parse(requestId).value).Some? &&
      (current.isSuperuser || table.ById(Parse(requestId).value).value.userId == current.id)
    ensures Get(table, users, current, requestId).Ok? ==>
      var row := table.ById(Parse(requestId).value).value;
      Get(table, users, current, requestId).value == ToPublic(row, OwnerOf(users, row))
    ensures Parse(requestId).None? ==> Get(table, users, current, requestId).code == 400
  {
  }

  /** The canonical text of a stored id always finds it. */
  lemma GetCanonicalId(table: RequestTable, users: seq<User>, owner: User, id: Uuid)
    requires WellFormed(id) && table.ById(id).Some? && table.ById(id).value.userId == owner.id
    ensures Get(table, users, owner, Format(id)).Ok?
  {
    ParseFormat(id);
  }

  // ---- reviewing ----

  datatype Review = Review(status: Status, comment: Option<string>)

  const ProvisioningNote: string := "Automatic provisioning failed; please review and retry."
  const ReviewFailed: string := "Failed to process review; automatic provisioning may have failed."

  /** The checks before anything changes; the id of the request on success. */
  function ReviewPrecheck(table: RequestTable, current: User, requestId: string): (r: H.Outcome<Uuid>)
    reads table
    ensures r.Ok? ==> table.ById(r.value).Some? && table.ById(r.value).value.status == Pending
  {
    if !current.isSuperuser then H.Fail(403, "Not enough privileges")
    else match Parse(requestId)
      case None => H.Fail(400, "Invalid request ID")
      case Some(id) =>
        match table.ById(id)
        case None => H.Fail(404, "Request not found")
        case Some(row) =>
          if row.status != Pending then H.Fail(400, "This request has already been reviewed")
          else H.Ok(id)
  }

  /** Only a superuser reviews, only an existing request, and only once. */
  lemma ReviewPrecheckIff(table: RequestTable, current: User, requestId: string)
    ensures ReviewPrecheck(table, current, requestId).Ok? <==>
      current.isSuperuser && Parse(requestId).Some? && table.ById(Parse(requestId).value).Some? &&
      table.ById(Parse(requestId).value).value.status == Pending
    ensures !current.isSuperuser ==> ReviewPrecheck(table, current, requestId) == H.Fail(403, "Not enough privileges")
  {
  }

  /** The comment stored when provisioning fails: the reviewer's comment,
      if any, then " | ", then the note. */
  function RollbackComment(comment: Option<string>): string
  {
    (if TextSet(comment) then comment.value + " | " else "") + ProvisioningNote
  }

  /** The reviewer's comment as read back from a rollback comment. */
  function OriginalComment(stored: string): Option<string>
  {
    if |stored| >= |ProvisioningNote| + 3 && stored[|stored| - |ProvisioningNote| - 3..] == " | " + ProvisioningNote
    then Some(stored[..|stored| - |ProvisioningNote| - 3])
    else if stored == ProvisioningNote then Some("")
    else None
  }

  /** The rollback comment always ends with the note and keeps the reviewer's
      comment in front of it, where it can be read back. */
  lemma RollbackCommentKeepsOriginal(comment: Option<string>)
    ensures EndsWith(RollbackComment(comment), ProvisioningNote)
    ensures OriginalComment(RollbackComment(comment)) == Some(if TextSet(comment) then comment.value else "")
  {
    var s := RollbackComment(comment);
    if TextSet(comment) {
      assert s == comment.value + (" | " + ProvisioningNote);
      assert s[|s| - |ProvisioningNote| - 3..] == " | " + ProvisioningNote;
      assert s[..|s| - |ProvisioningNote| - 3] == comment.value;
    } else {
      assert s == ProvisioningNote;
      assert s[|s| - |ProvisioningNote|..] == ProvisioningNote;
    }
  }

  /** `f"{storage}:{rootfs_size or 8}"`. */
  function RootFs(storage: string, rootfsSize: Option<int>): string
  {
    storage + ":" + IntToString(if NumberSet(rootfsSize) then rootfsSize.value else 8)
  }

  /** The container a request asks for. */
  function LxcConfigFor(r: VmRequest, vmid: int, password: string, storage: string): H.LxcConfig
  {
    H.LxcConfig(vmid, r.hostname, r.ostemplate, r.cores, r.memory, 512, RootFs(storage, r.rootfsSize),
                password, H.Net0, 1, 1, H.Pool)
  }

  /** The hypervisor calls `_provision_resource` issues after `nextid`. */
  function ProvisionCalls(r: VmRequest, vmid: int, password: string, storage: string): (calls: seq<H.Call>)
    ensures |calls| >= 2 && calls[1] == H.WaitTask(H.ProxmoxNode)
    ensures calls[0].CreateLxc? <==> r.resourceType == "lxc"
    ensures calls[0].CloneQemu? <==> r.resourceType != "lxc"
  {
    if r.resourceType == "lxc" then
      [H.CreateLxc(H.ProxmoxNode, LxcConfigFor(r, vmid, password, storage)), H.WaitTask(H.ProxmoxNode)]
    else
      [H.CloneQemu(H.ProxmoxNode, r.templateId, H.CloneConfig(vmid, r.hostname, 1, storage, H.Pool)),
       H.WaitTask(H.ProxmoxNode),
       H.ConfigureQemu(H.ProxmoxNode, vmid, H.CloudInit(r.cores, r.memory, r.username, password, "", 0))] +
      (if NumberSet(r.diskSize) then [H.ResizeQemu(H.ProxmoxNode, vmid, "scsi0", IntToString(r.diskSize.value) + "G")] else []) +
      [H.Power(H.ProxmoxNode, H.Qemu, vmid, H.Start, None)]
  }

  /** The hypervisor calls in full, starting with `cluster/nextid`. */
  function ProvisionPlan(r: VmRequest, vmid: int, password: string, storage: string): seq<H.Call>
  {
    [H.NextId] + ProvisionCalls(r, vmid, password, storage)
  }

  /** The resource row recorded after provisioning: containers carry no
      template id, VMs the request's. */
  function ProvisionedRecord(r: VmRequest, vmid: int, now: Timestamp): R.Resource
  {
    R.Resource(vmid, r.userId, r.environmentType, r.osInfo, r.expiryDate,
               if r.resourceType == "lxc" then None else r.templateId, now)
  }

  /** The configuration choices of provisioning: a container gets the
      requested disk or 8 GB, swap 512 and the fixed network; a VM is cloned
      from its template, resized only when a disk size is set, then started;
      every call after `nextid` uses the new vmid. */
  lemma ProvisionChoices(r: VmRequest, vmid: int, password: string, storage: string)
    ensures r.resourceType == "lxc" ==>
      var cfg := ProvisionCalls(r, vmid, password, storage)[0].lxc;
      |ProvisionCalls(r, vmid, password, storage)| == 2 && cfg.vmid == vmid && cfg.password == password &&
      cfg.rootfs == storage + ":" + IntToString(if NumberSet(r.rootfsSize) then r.rootfsSize.value else 8) &&
      cfg.swap == 512 && cfg.unprivileged == 1 && cfg.start == 1 && cfg.pool == "CampusCloud"
    ensures r.resourceType != "lxc" ==>
      var calls := ProvisionCalls(r, vmid, password, storage);
      |calls| == (if NumberSet(r.diskSize) then 5 else 4) &&
      calls[0].CloneQemu? && calls[0].template == r.templateId && calls[0].clone.newid == vmid &&
      calls[2].ConfigureQemu? && calls[2].cloudInit.cipassword == password && calls[2].cloudInit.ciuser == r.username &&
      calls[|calls| - 1] == H.Power(H.ProxmoxNode, H.Qemu, vmid, H.Start, None) &&
      (NumberSet(r.diskSize) <==> exists i :: 0 <= i < |calls| && calls[i].ResizeQemu?)
    ensures ProvisionedRecord(r, vmid, 0).templateId == (if r.resourceType == "lxc" then None else r.templateId)
    ensures r.rootfsSize == Some(0) ==> RootFs(storage, r.rootfsSize) == storage + ":8"
  {
    if r.resourceType != "lxc" {
      var calls := ProvisionCalls(r, vmid, password, storage);
      if NumberSet(r.diskSize) { assert calls[3].ResizeQemu?; }
      else {
        assert forall i :: 0 <= i < |calls| ==> !calls[i].ResizeQemu? by {
          assert calls == [calls[0], calls[1], calls[2], calls[3]];
        }
      }
    }
  }

  /** `POST /vm-requests/{id}/review`. After the checks, an approval runs
      the provisioning plan and records a resource; then the status update
      runs. `updateFails` and `resetFails` say whether the status update and
      the rollback write raise. Any failure answers 500; a failed approval
      first puts the request back to pending. */
  method ReviewRequest(table: RequestTable, resources: R.ResourceTable, hv: H.Client, users: seq<User>,
                       current: User, requestId: string, review: Review, now: Timestamp,
                       decrypt: string -> string, storage: string, updateFails: bool, resetFails: bool)
      returns (r: H.Outcome<Public>)
    requires table != resources as object && hv != table as object && hv != resources as object
    modifies table, resources, hv
    ensures old(ReviewPrecheck(table, current, requestId)).Fail? ==>
      r == H.Fail(old(ReviewPrecheck(table, current, requestId)).code, old(ReviewPrecheck(table, current, requestId)).detail) &&
      r.code != 500 &&
      table.rows == old(table.rows) && resources.rows == old(resources.rows) && hv.log == old(hv.log)
    ensures old(ReviewPrecheck(table, current, requestId)).Ok? ==>
      var id := old(ReviewPrecheck(table, current, requestId)).value;
      var k := FirstIndex(old(table.rows), HasId(id)).value;
      var row := old(table.rows)[k];
      var plan := ProvisionPlan(row, hv.nextId, decrypt(row.password), storage);
      var approve := review.status == Approved;
      var provisioned := approve && H.FirstFault(plan, hv.fails).None?;
      var succeeded := (!approve || provisioned) && !updateFails;
      hv.log == old(hv.log) + (if approve then H.Attempted(plan, hv.fails) else []) &&
      resources.rows == old(resources.rows) + (if provisioned then [ProvisionedRecord(row, hv.nextId, now)] else []) &&
      (succeeded ==>
        var q := Reviewed(row, review.status, current.id, review.comment, if approve then Some(hv.nextId) else None, now);
        table.rows == old(table.rows)[k := q] && r == H.Ok(ToPublic(q, OwnerOf(users, q)))) &&
      (!succeeded ==> r == H.Fail(500, ReviewFailed)) &&
      (!succeeded && approve && !resetFails ==>
        table.rows == old(table.rows)[k := Reviewed(row, Pending, current.id, Some(RollbackComment(review.comment)), None, now)]) &&
      (!succeeded && (!approve || resetFails) ==> table.rows == old(table.rows))
  {
    var pre := ReviewPrecheck(table, current, requestId);
    if pre.Fail? {
      return H.Fail(pre.code, pre.detail);
    }
    var id := pre.value;
    var k := FirstIndex(table.rows, HasId(id)).value;
    var row := table.rows[k];
    var approve := review.status == Approved;
    var vmid: Option<int> := None;
    var failed := false;
    if approve {
      var plan := ProvisionPlan(row, hv.nextId, decrypt(row.password), storage);
      var fault := hv.Run(plan);
      if fault.Some? {
        failed := true;
      } else {
        var record := resources.Create(hv.nextId, row.userId, row.environmentType, row.osInfo, row.expiryDate,
                                       if row.resourceType == "lxc" then None else row.templateId, now);
        vmid := Some(hv.nextId);
      }
    }
    if !failed && !updateFails {
      var updated := table.UpdateStatus(id, review.status, current.id, review.comment, vmid, now);
      UpdateKeepsLookup(old(table.rows), id, k, updated);
      var refreshed := table.ById(updated.id).value;
      return H.Ok(ToPublic(refreshed, OwnerOf(users, refreshed)));
    }
    if approve && !resetFails {
      var reset := table.UpdateStatus(id, Pending, current.id, Some(RollbackComment(review.comment)), None, now);
    }
    r := H.Fail(500, ReviewFailed);
  }

  /** A failed approval leaves the request pending again, reviewable once
      more, with the vmid it had before. */
  lemma RollbackIsReviewable(row: VmRequest, reviewer: Uuid, comment: Option<string>, now: Timestamp)
    ensures var q := Reviewed(row, Pending, reviewer, Some(RollbackComment(comment)), None, now);
      q.status == Pending && q.vmid == row.vmid && q.id == row.id &&
      OriginalComment(q.reviewComment.value) == Some(if TextSet(comment) then comment.value else "")
  {
    RollbackCommentKeepsOriginal(comment);
  }
}
