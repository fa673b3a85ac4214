// The administrator's direct creation form (frontend/src/components/Resources/CreateResources.tsx):
// the form schema, the disk size inputs, and the request body each branch sends.
// String lengths are JavaScript lengths, in UTF-16 code units.
module CreateResources {
  import opened Prelude
  import opened Text
  import opened Utf8
  import FormRules
  import Q = VmRequestRoutes
  import V = VmRoutes
  import H = Hypervisor

  datatype Kind = LxcKind | VmKind

  /** The form values; the optional fields may be unset. */
  datatype Form = Form(
    kind: Kind, hostname: string, ostemplate: Option<string>, rootfsSize: Option<int>,
    templateId: Option<int>, diskSize: Option<int>, username: Option<string>,
    cores: int, memory: int, password: string, storage: string,
    osInfo: Option<string>, expiryDate: Option<string>)

  /** The form's `defaultValues`; `storage` gets the schema default. */
  const Defaults: Form := Form(LxcKind, "", Some(""), Some(8), None, Some(20), Some(""), 2, 2048, "", "local-lvm", Some(""), Some(""))

  /** The schema's findings, in field order; all of them are reported. */
  datatype Issue = NameRequired | NameInvalid | RootfsRange | DiskRange | CoresRange | MemoryRange
    | PasswordRequired | PasswordTooShort

  /** `/^[a-z0-9-]+$/`. */
  predicate NameChars(h: string)
  {
    h != [] && forall i :: 0 <= i < |h| ==> 'a' <= h[i] <= 'z' || '0' <= h[i] <= '9' || h[i] == '-'
  }

  /** The rule behind each message, as the schema states it. */
  predicate Violated(f: Form, x: Issue)
  {
    match x
    case NameRequired => f.hostname == []
    case NameInvalid => !NameChars(f.hostname)
    case RootfsRange => f.rootfsSize.Some? && !(8 <= f.rootfsSize.value <= 500)
    case DiskRange => f.diskSize.Some? && !(20 <= f.diskSize.value <= 500)
    case CoresRange => !(1 <= f.cores <= 8)
    case MemoryRange => !(512 <= f.memory <= 32768)
    case PasswordRequired => f.password == []
    case PasswordTooShort => Utf16Len(f.password) < 6
  }

  /** The host name's rules: required, then the pattern. */
  function NameIssues(h: string): seq<Issue>
  {
    When(Utf16Len(h) < 1, NameRequired) + When(!NameChars(h), NameInvalid)
  }

  /** The ranges of the two optional disk sizes, the cores and the memory. */
  function SizeIssues(f: Form): seq<Issue>
  {
    When(f.rootfsSize.Some? && !(8 <= f.rootfsSize.value <= 500), RootfsRange) +
    When(f.diskSize.Some? && !(20 <= f.diskSize.value <= 500), DiskRange) +
    When(!(1 <= f.cores <= 8), CoresRange) + When(!(512 <= f.memory <= 32768), MemoryRange)
  }

  /** The schema's findings, field by field. */
  function Issues(f: Form): seq<Issue>
  {
    NameIssues(f.hostname) + SizeIssues(f) + FormRules.MinIssues(f.password, 6, PasswordRequired, PasswordTooShort)
  }

  lemma NameIssueShown(f: Form, x: Issue)
    ensures x in NameIssues(f.hostname) <==> (x == NameRequired || x == NameInvalid) && Violated(f, x)
  {
    Utf16LenBounds(f.hostname);
  }

  lemma SizeIssueShown(f: Form, x: Issue)
    ensures x in SizeIssues(f) <==> (x == RootfsRange || x == DiskRange || x == CoresRange || x == MemoryRange) && Violated(f, x)
  {
  }

  /** Each message is shown exactly when its rule is broken. */
  lemma IssueShown(f: Form, x: Issue)
    ensures x in Issues(f) <==> Violated(f, x)
  {
    NameIssueShown(f, x);
    SizeIssueShown(f, x);
    FormRules.MinIssuesShown(f.password, 6, PasswordRequired, PasswordTooShort, x);
  }

  /** The form is accepted exactly when the host name is a non-empty run of
      lower-case letters, digits and hyphens (hyphens anywhere), 1 to 8 cores,
      512 to 32768 MB, the disk sizes in range when set, and a password of at
      least 6 code units. */
  lemma IssuesIff(f: Form)
    ensures Issues(f) == [] <==>
      NameChars(f.hostname) &&
      (f.rootfsSize.Some? ==> 8 <= f.rootfsSize.value <= 500) &&
      (f.diskSize.Some? ==> 20 <= f.diskSize.value <= 500) &&
      1 <= f.cores <= 8 && 512 <= f.memory <= 32768 && Utf16Len(f.password) >= 6
    ensures f.hostname == [] ==> NameRequired in Issues(f) && NameInvalid in Issues(f)
    ensures f.password == [] ==> PasswordRequired in Issues(f) && PasswordTooShort in Issues(f)
  {
    Utf16LenBounds(f.hostname);
    Utf16LenBounds(f.password);
  }

  /** The defaults are rejected only for the empty name and password. */
  lemma DefaultsIssues()
    ensures Issues(Defaults) == [NameRequired, NameInvalid, PasswordRequired, PasswordTooShort]
  {
  }

  /** `Number.parseInt(text, 10)`: an optional sign and the leading run of
      digits; `None` is NaN. */
  function ParseIntPrefix(text: string): (r: Option<int>)
    ensures var u := if text != [] && (text[0] == '-' || text[0] == '+') then text[1..] else text;
      (r.Some? <==> u != [] && IsDigit(u[0])) &&
      (r.Some? ==> (r.value < 0 ==> text[0] == '-') &&
                   (if r.value < 0 then -r.value else r.value) == ParseDigits(DigitsRun(u)))
  {
    if text != [] && (text[0] == '-' || text[0] == '+') then
      match DigitsPrefixValue(text[1..])
      case None => None
      case Some(n) =>
        var v: int := if text[0] == '-' then 0 - (n as int) else n;
        Some(v)
    else match DigitsPrefixValue(text)
      case None => None
      case Some(n) => Some(n)
  }

  function DigitsRun(s: string): (r: string)
    ensures AllDigits(r) && StartsWith(s, r)
    ensures |r| < |s| ==> !IsDigit(s[|r|])
  {
    if s == [] || !IsDigit(s[0]) then []
    else
      var rest := DigitsRun(s[1..]);
      assert s[1..][..|rest|] == rest;
      assert s[..1 + |rest|] == [s[0]] + rest;
      [s[0]] + rest
  }

  function DigitsPrefixValue(s: string): Option<nat>
  {
    var run := DigitsRun(s);
    if run == [] then None else Some(ParseDigits(run))
  }

  /** Both disk inputs: `parseInt(value) || 20`. */
  function DiskInput(text: string): (r: int)
    ensures r != 0
  {
    var p := ParseIntPrefix(text);
    if p.None? || p.value == 0 then 20 else p.value
  }

  /** An empty or zero entry becomes 20, also for the root disk whose
      minimum is 8; a number is taken as typed, so the schema sees it. */
  lemma DiskInputFallback(n: nat)
    ensures DiskInput("") == 20 && DiskInput("0") == 20
    ensures DiskInput(NatToString(n)) == (if n == 0 then 20 else n)
  {
    var s := NatToString(n);
    assert DigitsRun("0") == "0";
    assert DigitsRun(s) == s by { DigitsRunAll(s); }
    ParseNatToString(n);
    assert IsDigit(s[0]);
  }

  lemma {:induction false} DigitsRunAll(s: string)
    requires AllDigits(s)
    ensures DigitsRun(s) == s
  {
    if s != [] {
      assert AllDigits(s[1..]) by { forall i | 0 <= i < |s| - 1 ensures IsDigit(s[1..][i]) { assert s[1..][i] == s[i + 1]; } }
      DigitsRunAll(s[1..]);
      assert s == [s[0]] + s[1..];
    }
  }

  datatype LxcBody = LxcBody(
    hostname: string, ostemplate: string, cores: int, memory: int, rootfsSize: int, password: string,
    storage: string, environmentType: string, osInfo: Option<string>, expiryDate: Option<string>,
    start: bool, unprivileged: bool)

  datatype VmBody = VmBody(
    hostname: string, templateId: int, username: string, password: string, cores: int, memory: int,
    diskSize: int, environmentType: string, osInfo: Option<string>, expiryDate: Option<string>, start: bool)

  /** What `mutationFn` does: throw with the branch's message, or send a body. */
  datatype Submission = Threw(message: string) | SendLxc(lxc: LxcBody) | SendVm(vm: VmBody)

  const LxcRequirement: string := "validation:requirement.lxc"
  const VmRequirement: string := "validation:requirement.vm"

  /** `x || null` for an optional text field. */
  function OrNull(v: Option<string>): (r: Option<string>)
    ensures r.Some? <==> Q.TextSet(v)
    ensures r.Some? ==> r == v
  {
    if Q.TextSet(v) then v else None
  }

  /** A submission throws only for a missing required choice, with the
      message of the branch the form's type selects, and sends the body of
      that branch otherwise. */
  function Submit(f: Form, customSpec: string): (r: Submission)
    ensures r.Threw? ==> r.message == (if f.kind == LxcKind then LxcRequirement else VmRequirement)
    ensures r.SendLxc? ==> f.kind.LxcKind?
    ensures r.SendVm? ==> f.kind.VmKind?
  {
    if f.kind == LxcKind then
      if !Q.TextSet(f.ostemplate) || !Q.NumberSet(f.rootfsSize) then Threw(LxcRequirement)
      else SendLxc(LxcBody(f.hostname, f.ostemplate.value, f.cores, f.memory, f.rootfsSize.value, f.password,
                           f.storage, customSpec, OrNull(f.osInfo), OrNull(f.expiryDate), true, true))
    else if !Q.NumberSet(f.templateId) || !Q.NumberSet(f.diskSize) || !Q.TextSet(f.username) then Threw(VmRequirement)
    else SendVm(VmBody(f.hostname, f.templateId.value, f.username.value, f.password, f.cores, f.memory,
                       f.diskSize.value, customSpec, OrNull(f.osInfo), OrNull(f.expiryDate), true))
  }

  /** A container body is sent exactly when an OS template and a non-zero
      root disk are chosen, a VM body exactly when a template, a non-zero
      disk and a user name are; each carries the form's own values, starts
      the guest, and makes a container unprivileged. */
  lemma SubmitIff(f: Form, customSpec: string)
    ensures Submit(f, customSpec).SendLxc? <==> f.kind == LxcKind && Q.TextSet(f.ostemplate) && Q.NumberSet(f.rootfsSize)
    ensures Submit(f, customSpec).SendVm? <==>
      f.kind == VmKind && Q.NumberSet(f.templateId) && Q.NumberSet(f.diskSize) && Q.TextSet(f.username)
    ensures Submit(f, customSpec).SendLxc? ==>
      var b := Submit(f, customSpec).lxc;
      b.start && b.unprivileged && b.hostname == f.hostname && b.password == f.password &&
      Some(b.ostemplate) == f.ostemplate && Some(b.rootfsSize) == f.rootfsSize && b.environmentType == customSpec
    ensures Submit(f, customSpec).SendVm? ==>
      var b := Submit(f, customSpec).vm;
      b.start && b.hostname == f.hostname && b.password == f.password && Some(b.templateId) == f.templateId &&
      Some(b.diskSize) == f.diskSize && Some(b.username) == f.username
  {
  }

  /** Every accepted VM form sends a disk size of at least 20, so the
      backend, as written, always issues its resize with the bare number. */
  lemma AcceptedVmAlwaysResizes(f: Form, customSpec: string, v: V.VmCreate, vmid: int, storage: string)
    requires Issues(f) == [] && Submit(f, customSpec).SendVm?
    requires v.diskSize == Some(Submit(f, customSpec).vm.diskSize)
    ensures Submit(f, customSpec).vm.diskSize >= 20
    ensures V.CreateVmCallsAsWritten(v, vmid, storage)[3] ==
      H.ResizeQemu(H.ProxmoxNode, vmid, "scsi0", IntToString(Submit(f, customSpec).vm.diskSize))
  {
    IssuesIff(f);
  }

  // ---- the dialog ----

  /** The dialog: whether it is open, the type tab shown, the `resourceType`
      state (which decides which template list is fetched) and the form. The
      type tabs are uncontrolled with `lxc` as their default, and the dialog
      content is mounted afresh on each opening, so every opening shows the
      container tab. */
  datatype Dialog = Dialog(open: bool, tab: Kind, resourceType: Kind, form: Form)

  datatype DialogEvent = OpenDialog | CloseDialog | ChooseKind(k: Kind) | Created

  /** Events as the page can deliver them: the dialog opens only when
      closed, and tabs are chosen and forms submitted only while it is open. */
  predicate CanHappen(d: Dialog, e: DialogEvent)
  {
    (e == OpenDialog ==> !d.open) && (e.ChooseKind? || e == Created ==> d.open)
  }

  /** The tab shown, the template list fetched and the branch a submission
      takes all agree. */
  predicate Consistent(d: Dialog)
  {
    d.open ==> d.tab == d.form.kind && d.resourceType == d.form.kind
  }

  /** The component as written: closing only hides the dialog, and success
      resets the form but not `resourceType`. */
  function DialogAfterAsWritten(d: Dialog, e: DialogEvent): (r: Dialog)
    ensures e == CloseDialog ==> !r.open && r.form == d.form && r.resourceType == d.resourceType
    ensures e == Created ==> !r.open && r.form == Defaults && r.resourceType == d.resourceType
    ensures e == OpenDialog ==> r.open && r.tab == LxcKind && r.form == d.form && r.resourceType == d.resourceType
    ensures e.ChooseKind? ==> r.open == d.open && r.tab == e.k && r.resourceType == e.k && r.form == d.form.(kind := e.k)
  {
    match e
    case OpenDialog => d.(open := true, tab := LxcKind)
    case CloseDialog => d.(open := false)
    case ChooseKind(k) => d.(tab := k, resourceType := k, form := d.form.(kind := k))
    case Created => d.(open := false, form := Defaults)
  }

  /** Choosing the VM tab, closing and reopening shows the container tab
      while a submission still takes the VM branch; after a created VM the
      reopened dialog shows the container tab but fetches VM templates. */
  lemma DialogAsWrittenDrifts()
    ensures var d0 := Dialog(true, LxcKind, LxcKind, Defaults);
      var d1 := DialogAfterAsWritten(d0, ChooseKind(VmKind));
      var d2 := DialogAfterAsWritten(DialogAfterAsWritten(d1, CloseDialog), OpenDialog);
      var d3 := DialogAfterAsWritten(DialogAfterAsWritten(d1, Created), OpenDialog);
      CanHappen(d0, ChooseKind(VmKind)) && CanHappen(d1, CloseDialog) && CanHappen(d1, Created) &&
      Consistent(d0) && Consistent(d1) &&
      d2.open && d2.tab == LxcKind && d2.form.kind == VmKind && !Consistent(d2) &&
      Submit(d2.form.(ostemplate := Some("local:vztmpl/debian.tar.zst")), "").Threw? &&
      d3.open && d3.tab == LxcKind && d3.resourceType == VmKind && !Consistent(d3)
  {
  }

  /** Closing resets the form and the type, as the request dialog does. */
  function DialogAfter(d: Dialog, e: DialogEvent): (r: Dialog)
    ensures e == CloseDialog || e == Created ==> !r.open && r.form == Defaults && r.resourceType == LxcKind
  {
    match e
    case OpenDialog => d.(open := true, tab := LxcKind)
    case CloseDialog => d.(open := false, resourceType := LxcKind, form := Defaults)
    case ChooseKind(k) => d.(tab := k, resourceType := k, form := d.form.(kind := k))
    case Created => d.(open := false, resourceType := LxcKind, form := Defaults)
  }

  /** With the reset on closing, every reachable dialog state is consistent. */
  lemma DialogStaysConsistent(d: Dialog, e: DialogEvent)
    requires Consistent(d) && (!d.open ==> d.resourceType == d.form.kind && d.form.kind == LxcKind)
    requires CanHappen(d, e)
    ensures var r := DialogAfter(d, e);
      Consistent(r) && (!r.open ==> r.resourceType == r.form.kind && r.form.kind == LxcKind)
  {
  }
}
