// The browser side of a VNC console session
// (frontend/src/components/VNC/NoVNCDisplay.tsx): one run of the hook's
// effect. The effect awaits a dynamic import of the noVNC renderer before it
// opens the socket, so the import's completion is a step of its own that may
// come after the cleanup. The relay first sends a JSON `vnc_ticket` message;
// the hook then hands the socket to a new renderer whose password is that
// ticket.
module NoVNCDisplay {
  import opened Prelude
  import opened Text
  import XT = XTermDisplay

  /** The optional `controls` prop. */
  datatype Controls = Controls(
    viewOnly: Option<bool>, scaleViewport: Option<bool>, resizeSession: Option<bool>,
    showDotCursor: Option<bool>, clipViewport: Option<bool>, dragViewport: Option<bool>,
    qualityLevel: Option<int>, compressionLevel: Option<int>)

  /** The settings copied onto every renderer. */
  datatype RendererOptions = RendererOptions(
    viewOnly: bool, scaleViewport: bool, resizeSession: bool, showDotCursor: bool,
    clipViewport: bool, dragViewport: bool, qualityLevel: int, compressionLevel: int)

  /** `controls?.x ?? default` for every setting. Without controls the
      renderer is interactive, scales the viewport and resizes the session,
      shows no dot cursor, neither clips nor drags, and uses quality and
      compression 6; a given setting, an explicit `false` or `0` included,
      overrides its default. */
  function ResolveOptions(c: Option<Controls>): (r: RendererOptions)
    ensures c.None? ==> r == RendererOptions(false, true, true, false, false, false, 6, 6)
    ensures c.Some? ==>
      r.viewOnly == (if c.value.viewOnly.Some? then c.value.viewOnly.value else false) &&
      r.scaleViewport == (if c.value.scaleViewport.Some? then c.value.scaleViewport.value else true) &&
      r.resizeSession == (if c.value.resizeSession.Some? then c.value.resizeSession.value else true) &&
      r.showDotCursor == (if c.value.showDotCursor.Some? then c.value.showDotCursor.value else false) &&
      r.clipViewport == (if c.value.clipViewport.Some? then c.value.clipViewport.value else false) &&
      r.dragViewport == (if c.value.dragViewport.Some? then c.value.dragViewport.value else false) &&
      r.qualityLevel == (if c.value.qualityLevel.Some? then c.value.qualityLevel.value else 6) &&
      r.compressionLevel == (if c.value.compressionLevel.Some? then c.value.compressionLevel.value else 6)
  {
    if c.None? then RendererOptions(false, true, true, false, false, false, 6, 6)
    else RendererOptions(
      c.value.viewOnly.GetOr(false), c.value.scaleViewport.GetOr(true),
      c.value.resizeSession.GetOr(true), c.value.showDotCursor.GetOr(false),
      c.value.clipViewport.GetOr(false), c.value.dragViewport.GetOr(false),
      c.value.qualityLevel.GetOr(6), c.value.compressionLevel.GetOr(6))
  }

  /** A socket message as the handler sees it after `JSON.parse`: `NotJson`
      for text that does not parse to an object (the handler swallows the
      exception), otherwise the object's `type` and `ticket` strings. */
  datatype Payload = NotJson | Json(msgType: Option<string>, ticket: Option<string>)

  datatype Renderer = Renderer(password: Option<string>, options: RendererOptions)

  datatype Status = Connecting | Connected | Disconnected | Error

  const TicketType: string := "vnc_ticket"
  const ErrorSocket: string := "無法連接到後端 WebSocket"
  const ErrorSocketClosed: string := "WebSocket 連接已關閉"
  const ClosedCleanly: string := "連接已正常關閉"
  const DroppedPrefix: string := "連接已斷開: "
  const DroppedDefault: string := "WebSocket 連接意外中斷"
  const SecurityPrefix: string := "安全驗證失敗: "
  const UnknownReason: string := "未知原因"
  const CredentialsMessage: string := "VNC 認證失敗：請檢查後端是否正確獲取了 VNC ticket"
  const InitFailedPrefix: string := "初始化連接失敗: "

  /** `reason || fallback`, where an absent or empty reason is replaced. */
  function ReasonOr(reason: Option<string>, fallback: string): (r: string)
    ensures reason.Some? && reason.value != "" ==> r == reason.value
    ensures reason.None? || reason.value == "" ==> r == fallback
  {
    if reason.Some? && reason.value != "" then reason.value else fallback
  }

  /** The error text of the renderer's `disconnect` event. */
  function DisconnectMessage(clean: bool, reason: Option<string>): string
  {
    if clean then ClosedCleanly else DroppedPrefix + ReasonOr(reason, DroppedDefault)
  }

  /** Only a clean disconnect reports the normal-closure text; an unclean one
      always carries the dropped-connection prefix and a non-empty reason. */
  lemma DisconnectMessageCases(clean: bool, reason: Option<string>)
    ensures DisconnectMessage(clean, reason) == ClosedCleanly <==> clean
    ensures !clean ==> StartsWith(DisconnectMessage(clean, reason), DroppedPrefix)
    ensures !clean ==> |DisconnectMessage(clean, reason)| > |DroppedPrefix|
  {
    if !clean {
      var m := DisconnectMessage(clean, reason);
      assert m[..|DroppedPrefix|] == DroppedPrefix;
      assert m[3] == DroppedPrefix[3] != ClosedCleanly[3];
    }
  }

  /** The error text of a `securityfailure` event. */
  function SecurityMessage(reason: Option<string>): string
  {
    SecurityPrefix + ReasonOr(reason, UnknownReason)
  }

  /** Every observable part of a session. */
  datatype View = View(
    status: Status, error: string, effectRan: bool, importPending: bool, started: bool,
    subscribed: bool, ticketReceived: bool, socket: XT.ReadyState, wsRef: bool,
    renderers: seq<Renderer>, rfbRef: Option<nat>,
    rendererDisconnects: seq<nat>, ctrlAltDels: seq<nat>, pastes: seq<(nat, string)>,
    closes: nat, disconnectNotices: nat)

  class VncSession {
    const options: RendererOptions
    var status: Status
    var error: string
    var effectRan: bool
    /** The effect is still awaiting the renderer module. */
    var importPending: bool
    /** The socket exists. */
    var started: bool
    var subscribed: bool
    var ticketReceived: bool
    var socket: XT.ReadyState
    var wsRef: bool
    /** Every renderer created, in order; `rfbRef` holds an index into it. */
    var renderers: seq<Renderer>
    var rfbRef: Option<nat>
    /** Renderers (by index) on which `disconnect`, `sendCtrlAltDel` and
        `clipboardPasteFrom` were called. */
    var rendererDisconnects: seq<nat>
    var ctrlAltDels: seq<nat>
    var pastes: seq<(nat, string)>
    var closes: nat
    var disconnectNotices: nat

    ghost function ViewOf(): View
      reads this
    {
      View(status, error, effectRan, importPending, started, subscribed, ticketReceived, socket, wsRef,
        renderers, rfbRef, rendererDisconnects, ctrlAltDels, pastes, closes, disconnectNotices)
    }

    /** Renderers exist only after a ticket arrived, the ref points at one of
        them, and the socket exists only once the import has completed. */
    ghost predicate Valid()
      reads this
    {
      (rfbRef.Some? ==> rfbRef.value < |renderers|) &&
      (renderers != [] ==> ticketReceived && started) &&
      (started ==> effectRan && !importPending) &&
      (importPending ==> effectRan) &&
      (wsRef ==> started) &&
      (!started ==> socket == XT.CLOSED)
    }

    /** Mounting the hook and running its effect up to the awaited import. */
    constructor (vmid: int, canvasMounted: bool, controls: Option<Controls>)
      ensures Valid()
      ensures options == ResolveOptions(controls)
      ensures effectRan == (vmid != 0 && canvasMounted) && importPending == effectRan && subscribed == effectRan
      ensures status == Connecting && error == ""
      ensures !started && !ticketReceived && socket == XT.CLOSED && !wsRef
      ensures renderers == [] && rfbRef.None? && rendererDisconnects == [] && ctrlAltDels == [] && pastes == []
      ensures closes == 0 && disconnectNotices == 0
    {
      options := ResolveOptions(controls);
      var runs := vmid != 0 && canvasMounted;
      status, error := Connecting, "";
      effectRan, importPending, subscribed := runs, runs, runs;
      started, ticketReceived, socket, wsRef := false, false, XT.CLOSED, false;
      renderers, rfbRef, rendererDisconnects, ctrlAltDels, pastes := [], None, [], [], [];
      closes, disconnectNotices := 0, 0;
    }

    /** The import settles. On success the socket is created and stored in
        the ref whether or not the run is still subscribed; a failure shows
        an error only while subscribed. */
    method ImportResolved(failure: Option<string>)
      requires Valid() && importPending
      modifies this
      ensures Valid()
      ensures failure.None? ==> ViewOf() == old(ViewOf()).(importPending := false, started := true,
        socket := XT.CONNECTING, wsRef := true)
      ensures failure.Some? ==> ViewOf() == old(ViewOf()).(importPending := false,
        status := if old(subscribed) then Error else old(status),
        error := if old(subscribed) then InitFailedPrefix + failure.value else old(error))
    {
      importPending := false;
      if failure.None? {
        started, socket, wsRef := true, XT.CONNECTING, true;
      } else if subscribed {
        status, error := Error, InitFailedPrefix + failure.value;
      }
    }

    /** `ws.onopen` only logs. */
    method OnSocketOpen()
      requires Valid() && started && socket == XT.CONNECTING
      modifies this
      ensures Valid()
      ensures ViewOf() == old(ViewOf()).(socket := XT.OPEN)
    {
      socket := XT.OPEN;
    }

    /** `ws.onmessage`. A ticket message marks the ticket as received and,
        while the canvas is mounted, creates a renderer on this socket with
        the ticket as its password; the ref then points at the new renderer.
        The handler does not consult the subscription. */
    method OnMessage(p: Payload, canvasMounted: bool)
      requires Valid() && started && socket == XT.OPEN
      modifies this
      ensures Valid()
      ensures !(p.Json? && p.msgType == Some(TicketType)) ==> ViewOf() == old(ViewOf())
      ensures p.Json? && p.msgType == Some(TicketType) && !canvasMounted ==>
        ViewOf() == old(ViewOf()).(ticketReceived := true)
      ensures p.Json? && p.msgType == Some(TicketType) && canvasMounted ==>
        ViewOf() == old(ViewOf()).(ticketReceived := true,
          renderers := old(renderers) + [Renderer(p.ticket, options)],
          rfbRef := Some(|old(renderers)|))
    {
      if p.Json? && p.msgType == Some(TicketType) {
        ticketReceived := true;
        if canvasMounted {
          renderers := renderers + [Renderer(p.ticket, options)];
          rfbRef := Some(|renderers| - 1);
        }
      }
    }

    /** The renderer's `connect` event. */
    method OnRendererConnect()
      requires Valid() && renderers != []
      modifies this
      ensures Valid()
      ensures ViewOf() == old(ViewOf()).(
        status := if old(subscribed) then Connected else old(status),
        error := if old(subscribed) then "" else old(error))
    {
      if subscribed {
        status, error := Connected, "";
      }
    }

    /** The renderer's `disconnect` event. */
    method OnRendererDisconnect(clean: bool, reason: Option<string>)
      requires Valid() && renderers != []
      modifies this
      ensures Valid()
      ensures ViewOf() == old(ViewOf()).(
        status := if old(subscribed) then Disconnected else old(status),
        error := if old(subscribed) then DisconnectMessage(clean, reason) else old(error))
    {
      if subscribed {
        status, error := Disconnected, DisconnectMessage(clean, reason);
      }
    }

    /** The renderer's `securityfailure` event. */
    method OnSecurityFailure(reason: Option<string>)
      requires Valid() && renderers != []
      modifies this
      ensures Valid()
      ensures ViewOf() == old(ViewOf()).(
        status := if old(subscribed) then Error else old(status),
        error := if old(subscribed) then SecurityMessage(reason) else old(error))
    {
      if subscribed {
        status, error := Error, SecurityMessage(reason);
      }
    }

    /** The renderer's `credentialsrequired` event: the ticket did not authenticate. */
    method OnCredentialsRequired()
      requires Valid() && renderers != []
      modifies this
      ensures Valid()
      ensures ViewOf() == old(ViewOf()).(
        status := if old(subscribed) then Error else old(status),
        error := if old(subscribed) then CredentialsMessage else old(error))
    {
      if subscribed {
        status, error := Error, CredentialsMessage;
      }
    }

    /** `ws.onerror`: before a ticket, show the error, subscribed or not. */
    method OnSocketError()
      requires Valid() && started
      modifies this
      ensures Valid()
      ensures ViewOf() == old(ViewOf()).(socket := XT.CLOSED,
        status := if !old(ticketReceived) then Error else old(status),
        error := if !old(ticketReceived) then ErrorSocket else old(error))
    {
      socket := XT.CLOSED;
      if !ticketReceived {
        status, error := Error, ErrorSocket;
      }
    }

    /** `ws.onclose`: before a ticket, a subscribed run shows the error. */
    method OnSocketClose()
      requires Valid() && started
      modifies this
      ensures Valid()
      ensures ViewOf() == old(ViewOf()).(socket := XT.CLOSED,
        status := if !old(ticketReceived) && old(subscribed) then Error else old(status),
        error := if !old(ticketReceived) && old(subscribed) then ErrorSocketClosed else old(error))
    {
      socket := XT.CLOSED;
      if !ticketReceived && subscribed {
        status, error := Error, ErrorSocketClosed;
      }
    }

    /** The effect's cleanup: unsubscribe, disconnect the renderer in the ref
        and close the socket in the ref, clearing both. */
    method Cleanup()
      requires Valid() && effectRan && subscribed
      modifies this
      ensures Valid()
      ensures ViewOf() == old(ViewOf()).(subscribed := false, rfbRef := None, wsRef := false,
        rendererDisconnects := old(rendererDisconnects) + (if old(rfbRef).Some? then [old(rfbRef).value] else []),
        closes := old(closes) + (if old(wsRef) then 1 else 0),
        socket := if old(wsRef) then XT.AfterCloseCall(old(socket)) else old(socket))
    {
      subscribed := false;
      DisposeRenderer();
      CloseSocket();
    }

    /** Disconnects the renderer in the ref, if any, and clears the ref. */
    method DisposeRenderer()
      requires Valid()
      modifies this
      ensures Valid()
      ensures ViewOf() == old(ViewOf()).(rfbRef := None,
        rendererDisconnects := old(rendererDisconnects) + (if old(rfbRef).Some? then [old(rfbRef).value] else []))
    {
      rendererDisconnects := rendererDisconnects + (if rfbRef.Some? then [rfbRef.value] else []);
      rfbRef := None;
    }

    /** Closes the socket in the ref, if any, and clears the ref. */
    method CloseSocket()
      requires Valid()
      modifies this
      ensures Valid()
      ensures ViewOf() == old(ViewOf()).(wsRef := false, closes := old(closes) + (if old(wsRef) then 1 else 0),
        socket := if old(wsRef) then XT.AfterCloseCall(old(socket)) else old(socket))
    {
      closes := closes + (if wsRef then 1 else 0);
      socket := if wsRef then XT.AfterCloseCall(socket) else socket;
      wsRef := false;
    }

    /** `handleDisconnect`: disconnect the renderer in the ref, if any, and
        notify the owner; the socket ref is left alone. */
    method HandleDisconnect()
      requires Valid()
      modifies this
      ensures Valid()
      ensures ViewOf() == old(ViewOf()).(disconnectNotices := old(disconnectNotices) + 1,
        rendererDisconnects := old(rendererDisconnects) + (if old(rfbRef).Some? then [old(rfbRef).value] else []))
    {
      rendererDisconnects := rendererDisconnects + (if rfbRef.Some? then [rfbRef.value] else []);
      disconnectNotices := disconnectNotices + 1;
    }

    /** `sendCtrlAltDel`: a no-op without a renderer. */
    method SendCtrlAltDel()
      requires Valid()
      modifies this
      ensures Valid()
      ensures ViewOf() == old(ViewOf()).(
        ctrlAltDels := old(ctrlAltDels) + (if old(rfbRef).Some? then [old(rfbRef).value] else []))
    {
      if rfbRef.Some? {
        ctrlAltDels := ctrlAltDels + [rfbRef.value];
      }
    }

    /** `handleClipboard`: with a renderer, read the clipboard (`clipboardText`
        is `None` when reading is refused) and paste what was read. The read
        and the paste are one step here; the source looks at the ref again
        after the read, so a cleanup in between would stop the paste. */
    method HandleClipboard(clipboardText: Option<string>)
      requires Valid()
      modifies this
      ensures Valid()
      ensures ViewOf() == old(ViewOf()).(pastes := old(pastes) +
        (if old(rfbRef).Some? && clipboardText.Some? then [(old(rfbRef).value, clipboardText.value)] else []))
    {
      if rfbRef.Some? && clipboardText.Some? {
        pastes := pastes + [(rfbRef.value, clipboardText.value)];
      }
    }
  }

  /** The happy path: the socket opens, the ticket arrives, the renderer
      connects; the renderer's password is the ticket and the cleanup
      disconnects exactly that renderer and closes the socket once. */
  method ScenarioConnect()
  {
    var v := new VncSession(100, true, None);
    v.ImportResolved(None);
    v.OnSocketOpen();
    v.OnMessage(Json(Some(TicketType), Some("PVEVNC:abc")), true);
    assert v.renderers == [Renderer(Some("PVEVNC:abc"), RendererOptions(false, true, true, false, false, false, 6, 6))];
    v.OnRendererConnect();
    assert v.status == Connected && v.error == "";
    v.Cleanup();
    assert v.rendererDisconnects == [0] && v.closes == 1 && !v.wsRef;
  }

  /** A cleanup that runs while the import is still pending closes nothing;
      the import then opens a socket the run no longer tracks, and that
      socket's error event still overwrites the status. */
  method ScenarioCleanupBeforeImport()
  {
    var v := new VncSession(100, true, None);
    v.Cleanup();
    assert v.closes == 0;
    v.ImportResolved(None);
    assert v.wsRef && v.socket == XT.CONNECTING && !v.subscribed;
    v.OnSocketError();
    assert v.status == Error && v.error == ErrorSocket;
  }
}
