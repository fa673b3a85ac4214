// The dialog hosting the LXC terminal
// (frontend/src/components/Terminal/TerminalConsoleDialog.tsx): what it passes
// to the terminal hook, what it shows for each connection status, and its
// close handler.
module TerminalConsoleDialog {
  import opened Prelude
  import opened Text
  import XT = XTermDisplay

  /** `vmid || 0`: a missing vmid reaches the hook as 0. */
  function HookVmid(vmid: Option<int>): int
  {
    if vmid.Some? then vmid.value else 0
  }

  /** `vmid && open`: the terminal container is rendered only then. */
  predicate TerminalMounted(vmid: Option<int>, open: bool)
  {
    vmid.Some? && vmid.value != 0 && open
  }

  /** A terminal session starts exactly when the dialog is open for a real vmid. */
  lemma SessionStartsIff(vmid: Option<int>, open: bool)
    ensures XT.EffectRuns(HookVmid(vmid), TerminalMounted(vmid, open)) <==> (vmid.Some? && vmid.value != 0 && open)
  {
  }

  /** The header's status badge. */
  function StatusLabel(status: XT.Status): string
  {
    if status == XT.Connected then "已連線"
    else if status == XT.Connecting then "連線中..."
    else "未連線"
  }

  /** Clear, Reset and Fullscreen are enabled only while connected. */
  predicate ControlsEnabled(status: XT.Status)
  {
    status == XT.Connected
  }

  /** The loading overlay shows only while connecting. */
  predicate ShowsLoading(status: XT.Status)
  {
    status == XT.Connecting
  }

  /** The controls are enabled exactly when the badge reads connected, and
      never while the loading overlay shows. */
  lemma ControlsFollowStatus(status: XT.Status)
    ensures ControlsEnabled(status) <==> StatusLabel(status) == "已連線"
    ensures !(ControlsEnabled(status) && ShowsLoading(status))
    ensures ShowsLoading(status) <==> StatusLabel(status) == "連線中..."
  {
    if status != XT.Connected {
      assert StatusLabel(status)[0] != "已連線"[0] || |StatusLabel(status)| != |"已連線"|;
    }
    if status != XT.Connecting {
      assert |StatusLabel(status)| != |"連線中..."|;
    }
  }

  /** `vmName || \`LXC ${vmid}\``; a null vmid prints as "null". */
  function Title(vmName: Option<string>, vmid: Option<int>): string
  {
    if vmName.Some? && vmName.value != "" then vmName.value
    else "LXC " + (if vmid.Some? then IntToString(vmid.value) else "null")
  }

  const UndeclaredSetter: string := "setTerminalTicket"

  class ConsoleDialog {
    const session: XT.TerminalSession
    /** Every `onOpenChange` argument the dialog has passed to its owner. */
    var openChanges: seq<bool>

    constructor (s: XT.TerminalSession)
      ensures session == s && openChanges == []
    {
      session := s;
      openChanges := [];
    }

    /** `handleClose`: disconnect the session (whose onDisconnect asks the
        owner to close), ask the owner to close again, then call
        `setTerminalTicket`, which this component never declares, so the
        handler stops with a ReferenceError naming it. */
    method HandleClose() returns (referenceError: string)
      requires session.Valid()
      modifies this, session
      ensures session.Valid()
      ensures referenceError == UndeclaredSetter
      ensures openChanges == old(openChanges) + [false, false]
      ensures session.ViewOf() == old(session.ViewOf()).(
        closes := old(session.closes) + (if old(session.wsRef) then 1 else 0),
        socket := if old(session.wsRef) then XT.AfterCloseCall(old(session.socket)) else old(session.socket),
        disposals := old(session.disposals) + (if old(session.termRef) then 1 else 0),
        disconnectNotices := old(session.disconnectNotices) + 1)
    {
      session.HandleDisconnect();
      openChanges := openChanges + [false];
      openChanges := openChanges + [false];
      referenceError := UndeclaredSetter;
    }
  }
}
