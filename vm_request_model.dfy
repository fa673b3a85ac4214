// The VM request table and its create schema (backend/app/models/vm_request.py).
module VmRequestModel {
  import opened Prelude
  import opened PyUuid

  /** Review state of a request. */
  datatype Status = Pending | Approved | Rejected

  /** The enum's string value, as stored and as sent over the API. */
  function StatusValue(s: Status): string
  {
    match s
    case Pending => "pending"
    case Approved => "approved"
    case Rejected => "rejected"
  }

  /** `VMRequestStatus(text)`, with `None` where the enum raises ValueError. */
  function StatusOf(text: string): (r: Option<Status>)
  {
    if text == "pending" then Some(Pending)
    else if text == "approved" then Some(Approved)
    else if text == "rejected" then Some(Rejected)
    else None
  }

  /** The three values are exactly the accepted texts, and each reads back as itself. */
  lemma StatusValues(s: Status, text: string)
    ensures StatusOf(StatusValue(s)) == Some(s)
    ensures StatusOf(text).Some? <==> text in {"pending", "approved", "rejected"}
    ensures StatusOf(text).Some? ==> StatusValue(StatusOf(text).value) == text
  {
  }

  /** Timestamps and calendar days are opaque ordinals here. */
  type Timestamp = int
  type Day = int

  const DefaultCores: int := 2
  const DefaultMemory: int := 2048
  const DefaultStorage: string := "local-lvm"
  const CustomEnvironment: string := "自訂規格"

  /** A row of `vm_requests`. `password` holds the encrypted password. */
  datatype VmRequest = VmRequest(
    id: Uuid, userId: Uuid, reason: string, resourceType: string, hostname: string,
    cores: int, memory: int, password: string, storage: string, environmentType: string,
    osInfo: Option<string>, expiryDate: Option<Day>,
    ostemplate: Option<string>, rootfsSize: Option<int>, unprivileged: bool,
    templateId: Option<int>, diskSize: Option<int>, username: Option<string>,
    status: Status, reviewerId: Option<Uuid>, reviewComment: Option<string>,
    reviewedAt: Option<Timestamp>, vmid: Option<int>, createdAt: Timestamp)

  /** The body of a create request, after schema defaults are filled in. */
  datatype VmRequestCreate = VmRequestCreate(
    reason: string, resourceType: string, hostname: string, cores: int, memory: int,
    password: string, storage: string, osInfo: Option<string>, expiryDate: Option<Day>,
    ostemplate: Option<string>, rootfsSize: Option<int>,
    templateId: Option<int>, diskSize: Option<int>, username: Option<string>)

  /** A create body that names only the required fields. */
  function MinimalCreate(reason: string, resourceType: string, hostname: string, password: string): VmRequestCreate
  {
    VmRequestCreate(reason, resourceType, hostname, DefaultCores, DefaultMemory, password, DefaultStorage,
      None, None, None, None, None, None, None)
  }

  predicate IsLowerAlnum(c: char) { 'a' <= c <= 'z' || '0' <= c <= '9' }
  predicate IsLdh(c: char) { IsLowerAlnum(c) || c == '-' }

  /** `[a-z0-9-]*[a-z0-9]` matched against the whole of `t`. */
  predicate MatchGroup(t: string)
  {
    t != [] && ((|t| == 1 && IsLowerAlnum(t[0])) || (IsLdh(t[0]) && MatchGroup(t[1..])))
  }

  /** `^[a-z0-9]([a-z0-9-]*[a-z0-9])?$`, read operator by operator. */
  predicate MatchHostnamePattern(s: string)
  {
    s != [] && IsLowerAlnum(s[0]) && (s[1..] == [] || MatchGroup(s[1..]))
  }

  /** A DNS label in the sense of section 2.3.1 of RFC 1035, lower-case only
      and with a leading digit allowed as section 2.1 of RFC 1123 permits. */
  predicate IsLabel(s: string)
  {
    s != [] && (forall i :: 0 <= i < |s| ==> IsLdh(s[i])) && s[0] != '-' && s[|s| - 1] != '-'
  }

  lemma {:induction false} MatchGroupIff(t: string)
    ensures MatchGroup(t) <==> t != [] && (forall i :: 0 <= i < |t| ==> IsLdh(t[i])) && t[|t| - 1] != '-'
  {
    if |t| > 1 {
      MatchGroupIff(t[1..]);
      assert forall i :: 1 <= i < |t| ==> t[i] == t[1..][i - 1];
    }
  }

  /** The pattern accepts exactly the labels. */
  lemma HostnamePatternIsLabel(s: string)
    ensures MatchHostnamePattern(s) <==> IsLabel(s)
  {
    if s != [] {
      MatchGroupIff(s[1..]);
      assert forall i :: 1 <= i < |s| ==> s[i] == s[1..][i - 1];
    }
  }

  const MaxHostname: nat := 63

  predicate HostnameValid(h: string)
  {
    MatchHostnamePattern(h) && |h| <= MaxHostname
  }

  /** The constraints the create schema checks before the route runs. */
  predicate CreateValid(c: VmRequestCreate)
  {
    |c.reason| >= 10 && HostnameValid(c.hostname) && 8 <= |c.password| <= 128
  }

  /** A valid create body has a usable hostname label and a bounded password. */
  lemma CreateValidMeans(c: VmRequestCreate)
    ensures CreateValid(c) <==> |c.reason| >= 10 && IsLabel(c.hostname) && |c.hostname| <= 63 && 8 <= |c.password| <= 128
  {
    HostnamePatternIsLabel(c.hostname);
  }

  /** Concrete cases of the hostname rule. */
  lemma HostnameExamples()
    ensures HostnameValid("web-01") && HostnameValid("a") && HostnameValid("1host")
    ensures !HostnameValid("-web") && !HostnameValid("web-") && !HostnameValid("Web") && !HostnameValid("")
  {
    HostnamePatternIsLabel("web-01");
    HostnamePatternIsLabel("a");
    HostnamePatternIsLabel("1host");
    HostnamePatternIsLabel("-web");
    HostnamePatternIsLabel("web-");
    HostnamePatternIsLabel("Web");
  }
}
