// Storage of VM requests (backend/app/crud/vm_request.py). The table is a
// sequence of rows; queries are filters, a newest-first sort and an
// OFFSET/LIMIT window over it.
module VmRequestCrud {
  import opened Prelude
  import opened PyUuid
  import opened VmRequestModel

  /** `decrypt_value(encrypt_value(p)) == p` for every `p`. */
  ghost predicate Inverse(encrypt: string -> string, decrypt: string -> string)
  {
    forall p :: decrypt(encrypt(p)) == p
  }

  /** The row `create_vm_request` stores for a submission. */
  function Stored(c: VmRequestCreate, user: Uuid, id: Uuid, now: Timestamp, encrypt: string -> string): VmRequest
  {
    VmRequest(id, user, c.reason, c.resourceType, c.hostname, c.cores, c.memory, encrypt(c.password),
      c.storage, CustomEnvironment, c.osInfo, c.expiryDate, c.ostemplate, c.rootfsSize, true,
      c.templateId, c.diskSize, c.username, Pending, None, None, None, None, now)
  }

  /** The submission a stored row carries, with its password decrypted. */
  function Submission(r: VmRequest, decrypt: string -> string): VmRequestCreate
  {
    VmRequestCreate(r.reason, r.resourceType, r.hostname, r.cores, r.memory, decrypt(r.password), r.storage,
      r.osInfo, r.expiryDate, r.ostemplate, r.rootfsSize, r.templateId, r.diskSize, r.username)
  }

  /** A stored request carries the submission unchanged (the password only
      in encrypted form, recoverable by decryption), starts pending and
      unreviewed, and is marked as a custom specification. */
  lemma StoredCarriesSubmission(c: VmRequestCreate, user: Uuid, id: Uuid, now: Timestamp,
                                encrypt: string -> string, decrypt: string -> string)
    requires Inverse(encrypt, decrypt)
    ensures Submission(Stored(c, user, id, now, encrypt), decrypt) == c
    ensures var r := Stored(c, user, id, now, encrypt);
      r.password == encrypt(c.password) && r.status == Pending && r.environmentType == CustomEnvironment &&
      r.unprivileged && r.reviewerId.None? && r.reviewComment.None? && r.reviewedAt.None? && r.vmid.None? &&
      r.id == id && r.userId == user && r.createdAt == now
  {
    assert decrypt(encrypt(c.password)) == c.password;
  }

  /** The row after `update_vm_request_status`. */
  function Reviewed(r: VmRequest, status: Status, reviewer: Uuid, comment: Option<string>,
                    vmid: Option<int>, now: Timestamp): VmRequest
  {
    r.(status := status, reviewerId := Some(reviewer), reviewComment := comment, reviewedAt := Some(now),
       vmid := if vmid.Some? then vmid else r.vmid)
  }

  /** A review sets status, reviewer, comment and time, replaces the vmid only
      when one is given, and changes nothing else. */
  lemma ReviewedFields(r: VmRequest, status: Status, reviewer: Uuid, comment: Option<string>, vmid: Option<int>, now: Timestamp)
    ensures var q := Reviewed(r, status, reviewer, comment, vmid, now);
      q.status == status && q.reviewerId == Some(reviewer) && q.reviewComment == comment && q.reviewedAt == Some(now) &&
      (vmid.Some? ==> q.vmid == vmid) && (vmid.None? ==> q.vmid == r.vmid) &&
      q.(status := r.status, reviewerId := r.reviewerId, reviewComment := r.reviewComment,
         reviewedAt := r.reviewedAt, vmid := r.vmid) == r
  {
  }

  function HasId(id: Uuid): VmRequest -> bool
  {
    (r: VmRequest) => r.id == id
  }

  function OwnedBy(user: Uuid): VmRequest -> bool
  {
    (r: VmRequest) => r.userId == user
  }

  function WithStatus(status: Option<Status>): VmRequest -> bool
  {
    (r: VmRequest) => status.None? || r.status == status.value
  }

  /** `ORDER BY created_at DESC`. */
  function NewerFirst(): (VmRequest, VmRequest) -> bool
  {
    (a: VmRequest, b: VmRequest) => a.createdAt >= b.createdAt
  }

  lemma NewerFirstIsPreorder()
    ensures TotalPreorder(NewerFirst())
  {
  }

  /** `matching` newest first; rows created at the same time keep their
      table order. */
  function NewestFirst(matching: seq<VmRequest>): (r: seq<VmRequest>)
    ensures |r| == |matching| && multiset(r) == multiset(matching)
    ensures SortedBy(r, NewerFirst())
  {
    NewerFirstIsPreorder();
    SortBySorted(matching, NewerFirst());
    SortBy(matching, NewerFirst())
  }

  /** The newest-first window of `matching`: the rows from position `skip`
      of the newest-first order, at most `limit` of them. */
  function Window(matching: seq<VmRequest>, skip: nat, limit: nat): (r: seq<VmRequest>)
    ensures |r| <= limit
    ensures |r| == if skip >= |matching| then 0 else if |matching| - skip < limit then |matching| - skip else limit
    ensures forall i :: 0 <= i < |r| ==> r[i] == NewestFirst(matching)[skip + i]
    ensures forall i :: 0 <= i < |r| ==> r[i] in matching
    ensures SortedBy(r, NewerFirst())
  {
    var sorted := NewestFirst(matching);
    assert forall i :: 0 <= i < |sorted| ==> sorted[i] in multiset(matching);
    Page(sorted, skip, limit)
  }

  class RequestTable {
    var rows: seq<VmRequest>

    constructor ()
      ensures rows == []
    {
      rows := [];
    }

    /** `get_vm_request_by_id`: the row with that id, or none. */
    function ById(id: Uuid): (r: Option<VmRequest>)
      reads this
      ensures r.Some? ==> r.value in rows && r.value.id == id
      ensures r.None? ==> forall i :: 0 <= i < |rows| ==> rows[i].id != id
    {
      match FirstIndex(rows, HasId(id))
      case None => None
      case Some(k) => Some(rows[k])
    }

    /** `get_vm_requests_by_user`: the user's requests, newest first, in the
        window; `count` counts all of them whatever the window. */
    function ByUser(user: Uuid, skip: nat, limit: nat): (r: (seq<VmRequest>, nat))
      reads this
      ensures r.0 == Window(Filter(rows, OwnedBy(user)), skip, limit)
      ensures r.1 == |Filter(rows, OwnedBy(user))|
      ensures forall i :: 0 <= i < |r.0| ==> r.0[i] in rows && r.0[i].userId == user
      ensures |r.0| <= limit && |r.0| == if skip >= r.1 then 0 else if r.1 - skip < limit then r.1 - skip else limit
      ensures SortedBy(r.0, NewerFirst())
    {
      var mine := Filter(rows, OwnedBy(user));
      (Window(mine, skip, limit), |mine|)
    }

    /** `get_all_vm_requests`: as above over every request, restricted to one
        status when a status is given, for both the window and the count. */
    function All(status: Option<Status>, skip: nat, limit: nat): (r: (seq<VmRequest>, nat))
      reads this
      ensures r.0 == Window(Filter(rows, WithStatus(status)), skip, limit)
      ensures status.None? ==> r.0 == Window(rows, skip, limit)
      ensures r.1 == |Filter(rows, WithStatus(status))|
      ensures status.None? ==> r.1 == |rows|
      ensures forall i :: 0 <= i < |r.0| ==> r.0[i] in rows && (status.Some? ==> r.0[i].status == status.value)
      ensures |r.0| <= limit && |r.0| == if skip >= r.1 then 0 else if r.1 - skip < limit then r.1 - skip else limit
      ensures SortedBy(r.0, NewerFirst())
    {
      var matching := Filter(rows, WithStatus(status));
      assert status.None? ==> matching == rows by {
        if status.None? { FilterAll(rows, WithStatus(status)); }
      }
      (Window(matching, skip, limit), |matching|)
    }

    /** `create_vm_request`: appends the stored form of the submission. */
    method Create(c: VmRequestCreate, user: Uuid, id: Uuid, now: Timestamp, encrypt: string -> string) returns (r: VmRequest)
      modifies this
      ensures r == Stored(c, user, id, now, encrypt)
      ensures rows == old(rows) + [r]
    {
      r := Stored(c, user, id, now, encrypt);
      rows := rows + [r];
    }

    /** `update_vm_request_status` on the request with that id. */
    method UpdateStatus(id: Uuid, status: Status, reviewer: Uuid, comment: Option<string>,
                        vmid: Option<int>, now: Timestamp) returns (r: VmRequest)
      requires ById(id).Some?
      modifies this
      ensures FirstIndex(old(rows), HasId(id)).Some?
      ensures var k := FirstIndex(old(rows), HasId(id)).value;
        r == Reviewed(old(rows)[k], status, reviewer, comment, vmid, now) && rows == old(rows)[k := r]
    {
      var k := FirstIndex(rows, HasId(id)).value;
      var row := rows[k];
      row := row.(status := status, reviewerId := Some(reviewer), reviewComment := comment, reviewedAt := Some(now));
      if vmid.Some? {
        row := row.(vmid := vmid);
      }
      rows := rows[k := row];
      r := row;
    }
  }

  /** A filter that keeps everything keeps the whole list. */
  lemma {:induction false} FilterAll(s: seq<VmRequest>, p: VmRequest -> bool)
    requires forall x :: p(x)
    ensures Filter(s, p) == s
  {
    if s != [] {
      FilterAll(s[1..], p);
      assert s == [s[0]] + s[1..];
    }
  }

  /** An update by id keeps the id, so the request is found again with its new fields. */
  lemma UpdateKeepsLookup(rows: seq<VmRequest>, id: Uuid, k: nat, q: VmRequest)
    requires FirstIndex(rows, HasId(id)) == Some(k) && q.id == id
    ensures FirstIndex(rows[k := q], HasId(id)) == Some(k)
  {
    FirstIndexUpdate(rows, HasId(id), k, q);
  }

  lemma {:induction false} FirstIndexUpdate(s: seq<VmRequest>, p: VmRequest -> bool, k: nat, q: VmRequest)
    requires FirstIndex(s, p) == Some(k) && p(q)
    ensures FirstIndex(s[k := q], p) == Some(k)
  {
    if k > 0 {
      assert s[k := q][1..] == s[1..][k - 1 := q];
      FirstIndexUpdate(s[1..], p, k - 1, q);
    }
  }
}
