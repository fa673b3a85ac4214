// The resource table: which user owns which VM/container, and the extra
// details the hypervisor does not store (backend/app/crud/resource.py).
module ResourceCrud {
  import opened Prelude
  import opened PyUuid
  import opened VmRequestModel

  datatype Resource = Resource(vmid: int, userId: Uuid, environmentType: string, osInfo: Option<string>,
                               expiryDate: Option<Day>, templateId: Option<int>, createdAt: Timestamp)

  /** One key of the update dict with its value. */
  datatype FieldUpdate =
    | SetEnvironment(environmentType: string)
    | SetOsInfo(osInfo: Option<string>)
    | SetExpiry(expiryDate: Option<Day>)
    | SetTemplate(templateId: Option<int>)
    | SetOwner(userId: Uuid)

  /** `setattr(db_resource, key, value)`. */
  function Apply(r: Resource, u: FieldUpdate): Resource
  {
    match u
    case SetEnvironment(e) => r.(environmentType := e)
    case SetOsInfo(o) => r.(osInfo := o)
    case SetExpiry(d) => r.(expiryDate := d)
    case SetTemplate(t) => r.(templateId := t)
    case SetOwner(o) => r.(userId := o)
  }

  /** The updates applied in dict order. */
  function ApplyAll(r: Resource, us: seq<FieldUpdate>): Resource
    decreases |us|
  {
    if us == [] then r else ApplyAll(Apply(r, us[0]), us[1..])
  }

  lemma {:induction false} ApplyAllSnoc(r: Resource, us: seq<FieldUpdate>, u: FieldUpdate)
    ensures ApplyAll(r, us + [u]) == Apply(ApplyAll(r, us), u)
    decreases |us|
  {
    if us == [] {
      assert us + [u] == [u];
    } else {
      assert (us + [u])[1..] == us[1..] + [u];
      ApplyAllSnoc(Apply(r, us[0]), us[1..], u);
    }
  }

  /** An update never changes the vmid or the creation time, leaves every
      field it does not name as it was, and gives a named field its value. */
  lemma {:induction false} ApplyAllFields(r: Resource, us: seq<FieldUpdate>)
    ensures ApplyAll(r, us).vmid == r.vmid && ApplyAll(r, us).createdAt == r.createdAt
    ensures (forall i :: 0 <= i < |us| ==> !us[i].SetEnvironment?) ==> ApplyAll(r, us).environmentType == r.environmentType
    ensures (forall i :: 0 <= i < |us| ==> !us[i].SetOsInfo?) ==> ApplyAll(r, us).osInfo == r.osInfo
    ensures (forall i :: 0 <= i < |us| ==> !us[i].SetExpiry?) ==> ApplyAll(r, us).expiryDate == r.expiryDate
    ensures (forall i :: 0 <= i < |us| ==> !us[i].SetTemplate?) ==> ApplyAll(r, us).templateId == r.templateId
    ensures (forall i :: 0 <= i < |us| ==> !us[i].SetOwner?) ==> ApplyAll(r, us).userId == r.userId
    ensures us != [] && us[|us| - 1].SetOsInfo? ==> ApplyAll(r, us).osInfo == us[|us| - 1].osInfo
    ensures us != [] && us[|us| - 1].SetEnvironment? ==> ApplyAll(r, us).environmentType == us[|us| - 1].environmentType
    ensures us != [] && us[|us| - 1].SetExpiry? ==> ApplyAll(r, us).expiryDate == us[|us| - 1].expiryDate
    ensures us != [] && us[|us| - 1].SetTemplate? ==> ApplyAll(r, us).templateId == us[|us| - 1].templateId
    ensures us != [] && us[|us| - 1].SetOwner? ==> ApplyAll(r, us).userId == us[|us| - 1].userId
    decreases |us|
  {
    if us != [] {
      var init := us[..|us| - 1];
      assert us == init + [us[|us| - 1]];
      ApplyAllSnoc(r, init, us[|us| - 1]);
      ApplyAllFields(r, init);
    }
  }

  function HasVmid(vmid: int): Resource -> bool
  {
    (x: Resource) => x.vmid == vmid
  }

  /** The rows without the one at index `k`, the others in order. */
  function RemoveAt(rows: seq<Resource>, k: nat): (r: seq<Resource>)
    requires k < |rows|
    ensures |r| == |rows| - 1
    ensures multiset(r) + multiset{rows[k]} == multiset(rows)
    ensures forall j :: 0 <= j < |r| ==> r[j] == if j < k then rows[j] else rows[j + 1]
  {
    assert rows == rows[..k] + [rows[k]] + rows[k + 1..];
    rows[..k] + rows[k + 1..]
  }

  /** The first row with that vmid. */
  function Lookup(rows: seq<Resource>, vmid: int): (r: Option<Resource>)
    ensures r.Some? ==> r.value in rows && r.value.vmid == vmid
    ensures r.None? ==> forall i :: 0 <= i < |rows| ==> rows[i].vmid != vmid
  {
    match FirstIndex(rows, HasVmid(vmid))
    case None => None
    case Some(k) => Some(rows[k])
  }

  /** The rows once the first row with that vmid, if any, is removed. */
  function AfterDelete(rows: seq<Resource>, vmid: int): (r: seq<Resource>)
    ensures Lookup(rows, vmid).None? ==> r == rows
    ensures Lookup(rows, vmid).Some? ==> |r| == |rows| - 1 && multiset(r) + multiset{Lookup(rows, vmid).value} == multiset(rows)
  {
    match FirstIndex(rows, HasVmid(vmid))
    case None => rows
    case Some(k) => RemoveAt(rows, k)
  }

  class ResourceTable {
    var rows: seq<Resource>

    constructor ()
      ensures rows == []
    {
      rows := [];
    }

    /** `get_resource_by_vmid`: the first row with that vmid. */
    function ByVmid(vmid: int): (r: Option<Resource>)
      reads this
      ensures r.Some? ==> r.value in rows && r.value.vmid == vmid
      ensures r.None? ==> forall i :: 0 <= i < |rows| ==> rows[i].vmid != vmid
    {
      Lookup(rows, vmid)
    }

    /** `get_resources_by_user`: exactly the user's rows, in table order. */
    function ByUser(user: Uuid): (r: seq<Resource>)
      reads this
      ensures forall i :: 0 <= i < |r| ==> r[i] in rows && r[i].userId == user
      ensures forall x :: x in rows && x.userId == user ==> x in r
      ensures IsSubsequence(r, rows)
    {
      FilterKeepsAllOwned(rows, user);
      FilterIsSubsequence(rows, (x: Resource) => x.userId == user);
      Filter(rows, (x: Resource) => x.userId == user)
    }

    /** `create_resource`: one new row with exactly the given values. */
    method Create(vmid: int, user: Uuid, environmentType: string, osInfo: Option<string>,
                  expiryDate: Option<Day>, templateId: Option<int>, now: Timestamp) returns (r: Resource)
      modifies this
      ensures r == Resource(vmid, user, environmentType, osInfo, expiryDate, templateId, now)
      ensures rows == old(rows) + [r]
    {
      r := Resource(vmid, user, environmentType, osInfo, expiryDate, templateId, now);
      rows := rows + [r];
    }

    /** `update_resource` on the row at index `i`: every key of the dict is set in turn. */
    method Update(i: nat, us: seq<FieldUpdate>) returns (r: Resource)
      requires i < |rows|
      modifies this
      ensures r == ApplyAll(old(rows)[i], us)
      ensures rows == old(rows)[i := r]
    {
      var original := rows[i];
      r := original;
      var k := 0;
      while k < |us|
        invariant 0 <= k <= |us|
        invariant r == ApplyAll(original, us[..k])
        invariant rows == old(rows)
      {
        ApplyAllSnoc(original, us[..k], us[k]);
        assert us[..k + 1] == us[..k] + [us[k]];
        r := Apply(r, us[k]);
        k := k + 1;
      }
      assert us[..k] == us;
      rows := rows[i := r];
    }

    /** `delete_resource`: remove the row `ByVmid` finds; without one nothing changes. */
    method Delete(vmid: int)
      modifies this
      ensures old(ByVmid(vmid)).None? ==> rows == old(rows)
      ensures FirstIndex(old(rows), HasVmid(vmid)).Some? ==>
        var k := FirstIndex(old(rows), HasVmid(vmid)).value;
        old(ByVmid(vmid)) == Some(old(rows)[k]) && rows == RemoveAt(old(rows), k)
      ensures rows == AfterDelete(old(rows), vmid)
    {
      var found := FirstIndex(rows, HasVmid(vmid));
      if found.Some? {
        var k := found.value;
        rows := RemoveAt(rows, k);
      }
    }
  }

  lemma FilterKeepsAllOwned(rows: seq<Resource>, user: Uuid)
    ensures forall x :: x in rows && x.userId == user ==> x in Filter(rows, (y: Resource) => y.userId == user)
  {
    forall x | x in rows && x.userId == user
      ensures x in Filter(rows, (y: Resource) => y.userId == user)
    {
      FilterKeepsAll(rows, (y: Resource) => y.userId == user, x);
    }
  }
}
