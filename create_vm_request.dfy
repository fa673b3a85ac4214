// The resource request dialog (frontend/src/components/Applications/CreateVMRequest.tsx):
// the form schema, the request body each branch sends, how it meets the
// backend's own checks, and the resets of the dialog.
module CreateVmRequest {
  import opened Prelude
  import opened Utf8
  import opened VmRequestModel
  import Q = VmRequestRoutes
  import C = CreateResources
  import FormRules

  /** The form values; the optional fields may be unset. */
  datatype Form = Form(
    kind: C.Kind, reason: string, hostname: string, ostemplate: Option<string>, rootfsSize: Option<int>,
    templateId: Option<int>, diskSize: Option<int>, username: Option<string>,
    cores: int, memory: int, password: string, storage: string,
    osInfo: Option<string>, expiryDate: Option<string>)

  /** The form's `defaultValues`; `storage` gets the schema default. */
  const Defaults: Form := Form(C.LxcKind, "", "", Some(""), Some(8), None, Some(20), Some(""), 2, 2048, "", "local-lvm", Some(""), Some(""))

  datatype Issue = ReasonRequired | ReasonTooShort | NameRequired | NameInvalid | RootfsRange | DiskRange
    | CoresRange | MemoryRange | PasswordRequired | PasswordTooShort

  /** The rule behind each message, as the schema states it. */
  predicate Violated(f: Form, x: Issue)
  {
    match x
    case ReasonRequired => f.reason == []
    case ReasonTooShort => Utf16Len(f.reason) < 10
    case NameRequired => f.hostname == []
    case NameInvalid => !MatchHostnamePattern(f.hostname)
    case RootfsRange => f.rootfsSize.Some? && !(8 <= f.rootfsSize.value <= 500)
    case DiskRange => f.diskSize.Some? && !(20 <= f.diskSize.value <= 500)
    case CoresRange => !(1 <= f.cores <= 8)
    case MemoryRange => !(512 <= f.memory <= 32768)
    case PasswordRequired => f.password == []
    case PasswordTooShort => Utf16Len(f.password) < 8
  }

  function NameIssues(h: string): seq<Issue>
  {
    When(Utf16Len(h) < 1, NameRequired) + When(!MatchHostnamePattern(h), NameInvalid)
  }

  function SizeIssues(f: Form): seq<Issue>
  {
    When(f.rootfsSize.Some? && !(8 <= f.rootfsSize.value <= 500), RootfsRange) +
    When(f.diskSize.Some? && !(20 <= f.diskSize.value <= 500), DiskRange) +
    When(!(1 <= f.cores <= 8), CoresRange) + When(!(512 <= f.memory <= 32768), MemoryRange)
  }

  /** The schema's findings, all of them, in field order. */
  function Issues(f: Form): seq<Issue>
  {
    FormRules.MinIssues(f.reason, 10, ReasonRequired, ReasonTooShort) + NameIssues(f.hostname) + SizeIssues(f) +
    FormRules.MinIssues(f.password, 8, PasswordRequired, PasswordTooShort)
  }

  lemma NameIssueShown(f: Form, x: Issue)
    ensures x in NameIssues(f.hostname) <==> (x == NameRequired || x == NameInvalid) && Violated(f, x)
  {
    Utf16LenBounds(f.hostname);
  }

  lemma SizeIssueShown(f: Form, x: Issue)
    ensures x in SizeIssues(f) <==> (x == RootfsRange || x == DiskRange || x == CoresRange || x == MemoryRange) && Violated(f, x)
  {
  }

  /** Each message is shown exactly when its rule is broken. */
  lemma IssueShown(f: Form, x: Issue)
    ensures x in Issues(f) <==> Violated(f, x)
  {
    FormRules.MinIssuesShown(f.reason, 10, ReasonRequired, ReasonTooShort, x);
    NameIssueShown(f, x);
    SizeIssueShown(f, x);
    FormRules.MinIssuesShown(f.password, 8, PasswordRequired, PasswordTooShort, x);
  }

  /** The form is accepted exactly when the reason has at least 10 code
      units, the host name is a label (letters, digits and inner hyphens, of
      any length), the sizes are in range and the password has at least 8
      code units. */
  lemma IssuesIff(f: Form)
    ensures Issues(f) == [] <==>
      Utf16Len(f.reason) >= 10 && IsLabel(f.hostname) &&
      (f.rootfsSize.Some? ==> 8 <= f.rootfsSize.value <= 500) &&
      (f.diskSize.Some? ==> 20 <= f.diskSize.value <= 500) &&
      1 <= f.cores <= 8 && 512 <= f.memory <= 32768 && Utf16Len(f.password) >= 8
  {
    HostnamePatternIsLabel(f.hostname);
    Utf16LenBounds(f.hostname);
  }

  /** What `mutationFn` does: throw, or send the request body. */
  datatype Submission = Threw(message: string) | Send(body: VmRequestCreate)

  const LxcRequirement: string := "LXC容器需要選擇作業系統模板和磁碟大小"
  const VmRequirement: string := "VM需要選擇作業系統、使用者名稱和磁碟大小"

  /** The body of each branch; the date text is read by the backend, given
      here as `parseDay`. A VM body names no storage, so the backend's
      default applies. */
  function Submit(f: Form, parseDay: string -> Day): (r: Submission)
    ensures r.Threw? ==> r.message == (if f.kind.LxcKind? then LxcRequirement else VmRequirement)
    ensures r.Send? ==> r.body.resourceType == (if f.kind.LxcKind? then "lxc" else "vm")
  {
    var expiry := match C.OrNull(f.expiryDate) case None => None case Some(t) => Some(parseDay(t));
    if f.kind == C.LxcKind then
      if !Q.TextSet(f.ostemplate) || !Q.NumberSet(f.rootfsSize) then Threw(LxcRequirement)
      else Send(VmRequestCreate(f.reason, "lxc", f.hostname, f.cores, f.memory, f.password, f.storage,
                                C.OrNull(f.osInfo), expiry, f.ostemplate, f.rootfsSize, None, None, None))
    else if !Q.NumberSet(f.templateId) || !Q.NumberSet(f.diskSize) || !Q.TextSet(f.username) then Threw(VmRequirement)
    else Send(VmRequestCreate(f.reason, "vm", f.hostname, f.cores, f.memory, f.password, DefaultStorage,
                              C.OrNull(f.osInfo), expiry, None, None, f.templateId, f.diskSize, f.username))
  }

  /** A body is sent exactly when the chosen branch has its fields; its type
      is the branch taken, it carries only that branch's fields, and an
      empty description or date is sent as null. */
  lemma SubmitBranches(f: Form, parseDay: string -> Day)
    ensures Submit(f, parseDay).Send? <==>
      if f.kind == C.LxcKind then Q.TextSet(f.ostemplate) && Q.NumberSet(f.rootfsSize)
      else Q.NumberSet(f.templateId) && Q.NumberSet(f.diskSize) && Q.TextSet(f.username)
    ensures Submit(f, parseDay).Send? ==>
      var b := Submit(f, parseDay).body;
      b.reason == f.reason && b.hostname == f.hostname && b.password == f.password &&
      b.cores == f.cores && b.memory == f.memory &&
      (b.osInfo.Some? <==> Q.TextSet(f.osInfo)) && (b.expiryDate.Some? <==> Q.TextSet(f.expiryDate)) &&
      if f.kind == C.LxcKind then
        b.resourceType == "lxc" && b.ostemplate == f.ostemplate && b.rootfsSize == f.rootfsSize &&
        b.templateId.None? && b.diskSize.None? && b.username.None?
      else
        b.resourceType == "vm" && b.templateId == f.templateId && b.diskSize == f.diskSize &&
        b.username == f.username && b.ostemplate.None? && b.rootfsSize.None?
  {
  }

  /** Every body the dialog sends passes the route's own checks, so a 400
      from them cannot come from this dialog. */
  lemma SentPassesRouteChecks(f: Form, parseDay: string -> Day)
    requires Submit(f, parseDay).Send?
    ensures Q.CreateCheck(Submit(f, parseDay).body).None?
  {
    Q.CreateCheckIff(Submit(f, parseDay).body);
  }

  /** For plain ASCII text, a name of at most 63 characters and a password
      of at most 128, an accepted form sends a body the backend's schema
      accepts too. */
  lemma AsciiAcceptedIsValid(f: Form, parseDay: string -> Day)
    requires Issues(f) == [] && Submit(f, parseDay).Send?
    requires IsAscii(f.reason) && IsAscii(f.password)
    requires |f.hostname| <= MaxHostname && |f.password| <= 128
    ensures CreateValid(Submit(f, parseDay).body)
  {
    IssuesIff(f);
    Utf16LenAscii(f.reason);
    Utf16LenAscii(f.password);
    HostnamePatternIsLabel(f.hostname);
  }

  /** A form the dialog accepts and sends whose body the backend refuses:
      five emoji are ten code units but five characters. */
  lemma AstralReasonRefused(parseDay: string -> Day)
    ensures var f := Defaults.(reason := seq(5, _ => FormRules.Grin), hostname := "web", password := "password",
                               ostemplate := Some("local:vztmpl/debian.tar.zst"));
      Issues(f) == [] && Submit(f, parseDay).Send? && !CreateValid(Submit(f, parseDay).body)
  {
    var f := Defaults.(reason := seq(5, _ => FormRules.Grin), hostname := "web", password := "password",
                       ostemplate := Some("local:vztmpl/debian.tar.zst"));
    Utf16LenAstral(f.reason);
    assert Utf16Len(f.password) == 8 by { Utf16LenAscii(f.password); }
    assert IsLabel(f.hostname);
    AcceptedAndSent(f, parseDay);
  }

  /** An accepted container form with its template and disk chosen is sent
      with its own reason and name. */
  lemma AcceptedAndSent(f: Form, parseDay: string -> Day)
    requires f.kind == C.LxcKind && Q.TextSet(f.ostemplate) && Q.NumberSet(f.rootfsSize)
    requires Utf16Len(f.reason) >= 10 && IsLabel(f.hostname) && 8 <= f.rootfsSize.value <= 500
    requires (f.diskSize.Some? ==> 20 <= f.diskSize.value <= 500)
    requires 1 <= f.cores <= 8 && 512 <= f.memory <= 32768 && Utf16Len(f.password) >= 8
    ensures Issues(f) == [] && Submit(f, parseDay).Send?
    ensures Submit(f, parseDay).body.reason == f.reason && Submit(f, parseDay).body.hostname == f.hostname
  {
    IssuesIff(f);
  }

  /** The dialog sets no length cap on the name; a 64-character label is
      accepted here and refused by the backend. */
  lemma LongNameRefused(parseDay: string -> Day)
    ensures var f := Defaults.(reason := "need a server", hostname := seq(64, _ => 'a'), password := "password",
                               ostemplate := Some("local:vztmpl/debian.tar.zst"));
      Issues(f) == [] && Submit(f, parseDay).Send? && !CreateValid(Submit(f, parseDay).body)
  {
    var f := Defaults.(reason := "need a server", hostname := seq(64, _ => 'a'), password := "password",
                       ostemplate := Some("local:vztmpl/debian.tar.zst"));
    assert IsLabel(f.hostname);
    assert Utf16Len(f.password) == 8 by { Utf16LenAscii(f.password); }
    assert Utf16Len(f.reason) == 13 by { Utf16LenAscii(f.reason); }
    AcceptedAndSent(f, parseDay);
  }

  // ---- the dialog ----

  /** The dialog; as in the direct creation dialog its type tabs are
      uncontrolled and start at `lxc` on every opening. */
  datatype Dialog = Dialog(open: bool, tab: C.Kind, resourceType: C.Kind, form: Form)

  predicate CanHappen(d: Dialog, e: C.DialogEvent)
  {
    (e == C.OpenDialog ==> !d.open) && (e.ChooseKind? || e == C.Created ==> d.open)
  }

  predicate Consistent(d: Dialog)
  {
    d.open ==> d.tab == d.form.kind && d.resourceType == d.form.kind
  }

  /** `onOpenChange` and `onSuccess`: closing either way resets the form and
      sets the type back to `lxc`. */
  function DialogAfter(d: Dialog, e: C.DialogEvent): (r: Dialog)
    ensures e == C.CloseDialog || e == C.Created ==> !r.open && r.form == Defaults && r.resourceType == C.LxcKind
    ensures e.ChooseKind? ==> r.tab == e.k && r.resourceType == e.k && r.form == d.form.(kind := e.k)
  {
    match e
    case OpenDialog => d.(open := true, tab := C.LxcKind)
    case CloseDialog => d.(open := false, resourceType := C.LxcKind, form := Defaults)
    case ChooseKind(k) => d.(tab := k, resourceType := k, form := d.form.(kind := k))
    case Created => d.(open := false, resourceType := C.LxcKind, form := Defaults)
  }

  /** The tab shown, the template list fetched and the branch submitted
      agree in every state the dialog reaches. */
  lemma DialogStaysConsistent(d: Dialog, e: C.DialogEvent)
    requires Consistent(d) && (!d.open ==> d.resourceType == d.form.kind && d.form.kind == C.LxcKind)
    requires CanHappen(d, e)
    ensures var r := DialogAfter(d, e);
      Consistent(r) && (!r.open ==> r.resourceType == r.form.kind && r.form.kind == C.LxcKind)
  {
  }
}
