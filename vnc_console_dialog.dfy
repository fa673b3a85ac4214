// The dialog hosting a VM's VNC console
// (frontend/src/components/VNC/VNCConsoleDialog.tsx): it fetches a console
// ticket whenever it is opened for a vmid, mounts the VNC screen once a
// ticket is present, and passes the ticket on as the screen's password.
module VNCConsoleDialog {
  import opened Prelude
  import opened Text

  /** The body of the console response as `res.json()` sees it. */
  datatype Body = Parsed(ticket: Option<string>) | Unparsable(message: string)

  /** How a console fetch settles. */
  datatype FetchOutcome = Response(status: int, body: Body) | NetworkError(message: string)

  const FetchFailedPrefix: string := "取得 VNC 資訊失敗: "
  const NoTicket: string := "無法取得 VNC ticket"

  /** The error an outcome leaves behind, if any: a non-2xx status, an
      unreadable body and a failed request are reported with their message;
      a body without a ticket has its own text. Every settled fetch yields
      exactly one of a ticket and an error. */
  function FetchError(o: FetchOutcome): (r: Option<string>)
    ensures r.None? <==> FetchTicket(o).Some?
    ensures r.Some? ==> r.value != ""
    ensures o.Response? && !(200 <= o.status < 300) ==> r == Some(FetchFailedPrefix + "HTTP " + IntToString(o.status))
    ensures o.NetworkError? ==> r == Some(FetchFailedPrefix + o.message)
  {
    match o
    case NetworkError(m) => Some(FetchFailedPrefix + m)
    case Response(st, b) =>
      if !(200 <= st < 300) then Some(FetchFailedPrefix + "HTTP " + IntToString(st))
      else if b.Unparsable? then Some(FetchFailedPrefix + b.message)
      else if b.ticket.Some? && b.ticket.value != "" then None
      else Some(NoTicket)
  }

  /** The ticket an outcome delivers, if any: only a 2xx response whose body
      parses and holds a non-empty ticket delivers one. */
  function FetchTicket(o: FetchOutcome): (r: Option<string>)
    ensures r.Some? <==> o.Response? && 200 <= o.status < 300 && o.body.Parsed? && o.body.ticket.Some? && o.body.ticket.value != ""
    ensures r.Some? ==> r == o.body.ticket
  {
    if o.Response? && 200 <= o.status < 300 && o.body.Parsed? && o.body.ticket.Some? && o.body.ticket.value != ""
    then o.body.ticket else None
  }

  datatype Credentials = Credentials(username: string, password: string, target: string)

  class VncDialog {
    var open: bool
    var vmid: Option<int>
    var isLoading: bool
    var error: Option<string>
    var ticket: Option<string>
    var isConnected: bool
    /** Fetches issued and not yet settled; a late one still applies. */
    var pendingFetches: nat
    /** The vmid of every console fetch issued, a GET of
        `<apiBase>/api/v1/machine/<vmid>/console`. */
    var fetched: seq<int>
    /** Every non-empty ticket a fetch delivered. */
    ghost var delivered: seq<string>
    var openChanges: seq<bool>
    var screenDisconnects: nat
    var ctrlAltDels: nat
    var pastes: seq<string>

    /** A ticket held by the dialog is one a fetch delivered. */
    ghost predicate Valid()
      reads this
    {
      (ticket.Some? ==> ticket.value != "" && ticket.value in delivered) &&
      (error.Some? ==> error.value != "")
    }

    /** `vmid && open && wsUrl && vncTicket`: the screen is mounted, and its
        ref set, exactly then (the URL is empty without a vmid). */
    predicate ScreenMounted()
      reads this
    {
      vmid.Some? && vmid.value != 0 && open && ticket.Some? && ticket.value != ""
    }

    /** The error panel shows whenever an error is set. */
    predicate ShowsError()
      reads this
    {
      error.Some? && error.value != ""
    }

    /** The loading panel: no error, and either loading or holding a ticket
        while not yet connected. */
    predicate ShowsLoading()
      reads this
    {
      !ShowsError() && (isLoading || (!isConnected && ticket.Some? && ticket.value != ""))
    }

    /** Ctrl-Alt-Del, clipboard and fullscreen are enabled only while connected. */
    predicate ControlsEnabled()
      reads this
    {
      isConnected
    }

    /** The screen's credentials: an empty username and target, and the ticket as password. */
    function ScreenCredentials(): (c: Credentials)
      reads this
      requires Valid() && ScreenMounted()
      ensures c.password in delivered && c.password != ""
      ensures c.username == "" && c.target == ""
    {
      Credentials("", ticket.value, "")
    }

    /** The effect on `[open, vmid]`: with both set it starts a fetch and
        clears the ticket and error; otherwise it only clears them. */
    method Effect()
      requires Valid()
      modifies this
      ensures Valid()
      ensures open == old(open) && vmid == old(vmid) && isConnected == old(isConnected)
      ensures ticket.None? && error.None?
      ensures delivered == old(delivered) && openChanges == old(openChanges)
      ensures screenDisconnects == old(screenDisconnects) && ctrlAltDels == old(ctrlAltDels) && pastes == old(pastes)
      ensures old(open) && old(vmid).Some? && old(vmid).value != 0 ==>
        isLoading && pendingFetches == old(pendingFetches) + 1 && fetched == old(fetched) + [old(vmid).value]
      ensures !(old(open) && old(vmid).Some? && old(vmid).value != 0) ==>
        isLoading == old(isLoading) && pendingFetches == old(pendingFetches) && fetched == old(fetched)
    {
      if open && vmid.Some? && vmid.value != 0 {
        isLoading, error, ticket := true, None, None;
        fetched := fetched + [vmid.value];
        pendingFetches := pendingFetches + 1;
      } else {
        ticket, error := None, None;
      }
    }

    /** Mounting the dialog: initial state, then the effect's first run. */
    constructor (open0: bool, vmid0: Option<int>)
      ensures Valid()
      ensures open == open0 && vmid == vmid0
      ensures !isConnected && ticket.None? && error.None? && delivered == []
      ensures isLoading == (open0 && vmid0.Some? && vmid0.value != 0)
      ensures fetched == (if isLoading then [vmid0.value] else [])
      ensures openChanges == [] && screenDisconnects == 0 && ctrlAltDels == 0 && pastes == []
    {
      open, vmid := open0, vmid0;
      isLoading, error, ticket, isConnected := false, None, None, false;
      pendingFetches, fetched, delivered := 0, [], [];
      openChanges, screenDisconnects, ctrlAltDels, pastes := [], 0, 0, [];
      new;
      Effect();
    }

    /** The owner re-renders the dialog with new props; the effect runs when they changed. */
    method SetProps(open1: bool, vmid1: Option<int>)
      requires Valid() && (open1, vmid1) != (open, vmid)
      modifies this
      ensures Valid()
      ensures open == open1 && vmid == vmid1 && ticket.None? && error.None?
      ensures isLoading == (if open1 && vmid1.Some? && vmid1.value != 0 then true else old(isLoading))
      ensures fetched == old(fetched) + (if open1 && vmid1.Some? && vmid1.value != 0 then [vmid1.value] else [])
      ensures pendingFetches == old(pendingFetches) + (if open1 && vmid1.Some? && vmid1.value != 0 then 1 else 0)
      ensures delivered == old(delivered) && isConnected == old(isConnected) && openChanges == old(openChanges)
      ensures screenDisconnects == old(screenDisconnects) && ctrlAltDels == old(ctrlAltDels) && pastes == old(pastes)
    {
      open, vmid := open1, vmid1;
      Effect();
    }

    /** A console fetch settles: the ticket or the error is stored and loading ends. */
    method FetchSettled(o: FetchOutcome)
      requires Valid() && pendingFetches > 0
      modifies this
      ensures Valid()
      ensures pendingFetches == old(pendingFetches) - 1 && !isLoading
      ensures FetchTicket(o).Some? ==> ticket == FetchTicket(o) && error == old(error)
      ensures FetchTicket(o).None? ==> error == FetchError(o) && ticket == old(ticket)
      ensures delivered == old(delivered) + (if FetchTicket(o).Some? then [FetchTicket(o).value] else [])
      ensures open == old(open) && vmid == old(vmid) && isConnected == old(isConnected) && fetched == old(fetched)
      ensures openChanges == old(openChanges) && screenDisconnects == old(screenDisconnects)
      ensures ctrlAltDels == old(ctrlAltDels) && pastes == old(pastes)
    {
      var t := FetchTicket(o);
      if t.Some? {
        ticket := t;
        delivered := delivered + [t.value];
      } else {
        error := FetchError(o);
      }
      isLoading := false;
      pendingFetches := pendingFetches - 1;
    }

    /** The screen's `onConnect` and `onDisconnect`. */
    method ScreenConnected()
      requires Valid() && ScreenMounted()
      modifies this`isConnected
      ensures isConnected
    {
      isConnected := true;
    }

    method ScreenDisconnected()
      requires Valid()
      modifies this`isConnected
      ensures !isConnected
    {
      isConnected := false;
    }

    /** `handleClose`: disconnect a mounted screen, ask the owner to close,
        and drop the connection flag and the ticket. */
    method HandleClose()
      requires Valid()
      modifies this
      ensures Valid()
      ensures screenDisconnects == old(screenDisconnects) + (if old(ScreenMounted()) then 1 else 0)
      ensures openChanges == old(openChanges) + [false]
      ensures !isConnected && ticket.None? && !ScreenMounted()
      ensures open == old(open) && vmid == old(vmid) && error == old(error) && isLoading == old(isLoading)
      ensures delivered == old(delivered) && fetched == old(fetched) && pendingFetches == old(pendingFetches)
    {
      if ScreenMounted() {
        screenDisconnects := screenDisconnects + 1;
      }
      openChanges := openChanges + [false];
      isConnected, ticket := false, None;
    }

    method SendCtrlAltDel()
      requires Valid()
      modifies this`ctrlAltDels
      ensures ctrlAltDels == old(ctrlAltDels) + (if ScreenMounted() then 1 else 0)
    {
      if ScreenMounted() {
        ctrlAltDels := ctrlAltDels + 1;
      }
    }

    /** `handleClipboard`: paste the clipboard text into a mounted screen;
        `None` stands for a refused clipboard read. */
    method HandleClipboard(clipboardText: Option<string>)
      requires Valid()
      modifies this`pastes
      ensures pastes == old(pastes) + (if ScreenMounted() && clipboardText.Some? then [clipboardText.value] else [])
    {
      if ScreenMounted() && clipboardText.Some? {
        pastes := pastes + [clipboardText.value];
      }
    }
  }

  /** Opening the dialog for VM 101 fetches its console, the ticket reaches
      the screen as its password, and an error and the loading panel never
      show together. */
  method ScenarioOpen()
  {
    var d := new VncDialog(false, Some(101));
    assert d.fetched == [];
    d.SetProps(true, Some(101));
    assert d.fetched == [101] && d.ShowsLoading();
    d.FetchSettled(Response(200, Parsed(Some("PVEVNC:t"))));
    assert d.ScreenMounted() && d.ScreenCredentials().password == "PVEVNC:t";
    d.HandleClose();
    assert d.screenDisconnects == 1 && d.openChanges == [false];
  }
}
