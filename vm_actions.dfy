// Which actions a resource row offers (frontend/src/components/Resources/VMActions.tsx):
// every control's enabledness is an expression over the guest status and the
// pending flags of the six mutations.
module VmActions {
  import ItemColumns

  /** The `isPending` flags of the start, stop, reboot, shutdown, reset and
      delete mutations. */
  datatype Pending = Pending(start: bool, stop: bool, reboot: bool, shutdown: bool, reset: bool, delete: bool)

  /** Some mutation is in flight. */
  predicate Busy(p: Pending)
  {
    p.start || p.stop || p.reboot || p.shutdown || p.reset || p.delete
  }

  datatype Controls = Controls(
    console: bool, consoleCaption: string, menu: bool,
    start: bool, shutdown: bool, reboot: bool, stop: bool, reset: bool, delete: bool,
    stopWarning: bool)

  /** The `disabled` props, negated, and the texts chosen by the guest type
      and status. */
  function ControlsFor(status: string, kind: string, p: Pending): (r: Controls)
    ensures r.consoleCaption == (if kind == "lxc" then "Terminal" else "Console")
    ensures Busy(p) ==> !r.menu && !r.start && !r.shutdown && !r.reboot && !r.stop && !r.reset && !r.delete
    ensures !Busy(p) ==> r.menu && r.delete && (r.start <==> !r.shutdown)
  {
    var running := status == "running";
    var stopped := status == "stopped";
    var loading := Busy(p);
    Controls(
      running, if kind == "lxc" then "Terminal" else "Console", !loading,
      !(running || loading), !(!running || loading), !(!running || loading),
      !(stopped || loading), !(!running || loading), !loading,
      running)
  }

  /** The enabling table: the console needs a running guest, start a guest
      not running, the soft power actions and reset a running guest, and stop
      anything but a stopped guest; every menu action waits for idle mutations. */
  lemma ControlsTable(status: string, kind: string, p: Pending)
    ensures var c := ControlsFor(status, kind, p);
      (c.console <==> status == "running") &&
      (c.menu <==> !Busy(p)) && (c.delete <==> !Busy(p)) &&
      (c.start <==> status != "running" && !Busy(p)) &&
      (c.shutdown <==> status == "running" && !Busy(p)) &&
      (c.reboot <==> status == "running" && !Busy(p)) &&
      (c.reset <==> status == "running" && !Busy(p)) &&
      (c.stop <==> status != "stopped" && !Busy(p)) &&
      (c.stopWarning <==> status == "running")
  {
  }

  /** Start and stop exclude each other only for the two usual statuses; any
      other status offers both. */
  lemma StartStopOverlap(status: string, kind: string, p: Pending)
    requires !Busy(p)
    ensures var c := ControlsFor(status, kind, p);
      (c.start && c.stop <==> status != "running" && status != "stopped") &&
      (c.start || c.stop)
  {
  }

  /** While any one mutation is pending no power action and no delete is
      offered; the console button does not depend on the mutations. */
  lemma PendingLocksMenu(status: string, kind: string, p: Pending, q: Pending)
    requires Busy(p)
    ensures var c := ControlsFor(status, kind, p);
      !c.start && !c.shutdown && !c.reboot && !c.stop && !c.reset && !c.delete && !c.menu
    ensures ControlsFor(status, kind, p).console == ControlsFor(status, kind, q).console
  {
  }

  /** The row button of the guest table follows the same rule and caption. */
  lemma ConsoleAgreesWithTable(status: string, kind: string, p: Pending)
    ensures ControlsFor(status, kind, p).console == ItemColumns.RowConsole(status, kind).enabled
    ensures ControlsFor(status, kind, p).consoleCaption == ItemColumns.RowConsole(status, kind).caption
  {
  }

  /** What happens to the delete confirmation dialog: `ConfirmDelete` is a
      click on its action button, which starts the deletion, and the dialog
      library closes an alert dialog on that click. */
  datatype DialogEvent = AskDelete | Dismiss | ConfirmDelete | DeleteSucceeded | DeleteFailed

  function DialogAfter(open: bool, e: DialogEvent): bool
  {
    match e
    case AskDelete => true
    case Dismiss => false
    case ConfirmDelete => false
    case DeleteSucceeded => false
    case DeleteFailed => false
  }

  /** The dialog closes as soon as the deletion is confirmed, and again
      when it settles either way. */
  lemma DialogClosesOnSettle(open: bool)
    ensures !DialogAfter(open, ConfirmDelete)
    ensures !DialogAfter(open, DeleteSucceeded) && !DialogAfter(open, DeleteFailed)
    ensures DialogAfter(open, AskDelete)
  {
  }
}
