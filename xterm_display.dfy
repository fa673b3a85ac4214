// The browser side of an LXC terminal session
// (frontend/src/components/Terminal/XTermDisplay.tsx): one run of the hook's
// effect, from the guard through the WebSocket callbacks to the cleanup.
//
// The object holds the hook's React state (status, error), its refs
// (termRef, wsRef) and the closure variables of the effect run (isSubscribed,
// isTerminalReady, the ping interval). Calls into the terminal widget and the
// socket are recorded: `written` is every `term.write` argument, `sent` every
// `ws.send` argument, and the counters record `dispose`, `close`, `clear`,
// `reset` and `onDisconnect` calls.
module XTermDisplay {
  import opened Prelude
  import opened Text
  import opened Utf8
  import opened TermProxy

  datatype Status = Connecting | Connected | Disconnected | Error

  /** WebSocket.readyState. */
  datatype ReadyState = CONNECTING | OPEN | CLOSING | CLOSED

  /** One `term.write` argument: a string or a byte array. */
  datatype Output = Text(s: string) | Bytes(b: seq<byte>)

  const ErrorSocket: string := "無法連接到後端 WebSocket"
  const ClosedNormally: string := "連接已正常關閉"
  const ClosedPrefix: string := "連接已關閉: "
  const UnknownReason: string := "未知原因"
  const InitFailedPrefix: string := "初始化終端失敗: "
  const NormalClosure: int := 1000

  /** The effect does anything at all only with a non-zero vmid and a mounted container. */
  predicate EffectRuns(vmid: int, mounted: bool)
  {
    vmid != 0 && mounted
  }

  /** The error text of the close handler. Code 1000 is the normal closure
      of section 7.4.1 of RFC 6455; an empty reason counts as absent. Only
      code 1000 yields the normal-closure text; any other code names the
      reason, or the unknown-reason placeholder when the reason is empty. */
  function CloseMessage(code: int, reason: string): (r: string)
    ensures r == ClosedNormally <==> code == NormalClosure
    ensures code != NormalClosure ==> StartsWith(r, ClosedPrefix)
    ensures code != NormalClosure && reason != "" ==> r[|ClosedPrefix|..] == reason
    ensures code != NormalClosure && reason == "" ==> r[|ClosedPrefix|..] == UnknownReason
  {
    if code == NormalClosure then ClosedNormally
    else
      var m := ClosedPrefix + (if reason != "" then reason else UnknownReason);
      assert m[..|ClosedPrefix|] == ClosedPrefix;
      assert m[3] == ClosedPrefix[3] != ClosedNormally[3];
      m
  }

  /** A text message completes the handshake while not yet ready and starting with "OK". */
  predicate IsTextHandshake(ready: bool, data: string)
  {
    !ready && StartsWith(data, "OK")
  }

  /** A binary message completes it when its first two bytes are 'O' (79) and 'K' (75). */
  predicate IsBinaryHandshake(ready: bool, data: seq<byte>)
  {
    !ready && |data| >= 2 && data[0] == 79 && data[1] == 75
  }

  /** The binary test agrees with the text test on the UTF-8 encoding of any
      text, and the bytes after "OK" are the encoding of the text after it. */
  lemma HandshakeAgrees(ready: bool, s: string)
    ensures IsBinaryHandshake(ready, Encode(s)) <==> IsTextHandshake(ready, s)
    ensures StartsWith(s, "OK") ==> 2 <= |Encode(s)| && Encode(s)[2..] == Encode(s[2..])
  {
    if |s| >= 1 {
      var e0 := EncodeChar(s[0]);
      assert Encode(s) == e0 + Encode(s[1..]);
      if |s| >= 2 {
        var e1 := EncodeChar(s[1]);
        assert Encode(s[1..]) == e1 + Encode(s[2..]);
        assert Encode(s) == e0 + e1 + Encode(s[2..]);
        if s[0] == 'O' && s[1] == 'K' {
          assert s[..2] == "OK";
        }
        if Encode(s)[0] == 79 && Encode(s)[1] == 75 {
          assert |e0| == 1;
          assert s[0] == 'O';
          assert |e1| == 1;
          assert s[1] == 'K';
          assert s[..2] == "OK";
        }
      } else {
        EncodeLength(s[1..]);
        assert !StartsWith(s, "OK");
      }
    }
  }

  /** The state after `ws.close()`: a connecting or open socket starts closing. */
  function AfterCloseCall(s: ReadyState): (r: ReadyState)
    ensures r != OPEN && r != CONNECTING
  {
    if s == CONNECTING || s == OPEN then CLOSING else s
  }

  /** Every element is a frame of the termproxy protocol. */
  ghost predicate WellFormedFrames(frames: seq<string>)
  {
    forall i :: 0 <= i < |frames| ==> Parse(frames[i]).Some?
  }

  lemma FramesAppend(frames: seq<string>, f: Frame)
    requires WellFormedFrames(frames)
    ensures WellFormedFrames(frames + [Render(f)])
  {
    ParseRender(f);
  }

  /** Every observable part of a session, for stating whole new states. */
  datatype View = View(
    status: Status, error: string,
    effectRan: bool, started: bool, subscribed: bool, ready: bool,
    socket: ReadyState, pinging: bool, pendingFit: bool,
    termRef: bool, wsRef: bool,
    written: seq<Output>, sent: seq<string>,
    disposals: nat, closes: nat, clears: nat, resets: nat, disconnectNotices: nat)

  class TerminalSession {
    var status: Status
    var error: string
    /** The effect passed its guard (so a cleanup function exists). */
    var effectRan: bool
    /** Terminal and socket were created. */
    var started: bool
    var subscribed: bool
    var ready: bool
    var socket: ReadyState
    /** The 30-second ping interval is installed. */
    var pinging: bool
    /** The double requestAnimationFrame callback after the handshake is pending. */
    var pendingFit: bool
    var termRef: bool
    var wsRef: bool
    var written: seq<Output>
    var sent: seq<string>
    var disposals: nat
    var closes: nat
    var clears: nat
    var resets: nat
    var disconnectNotices: nat

    ghost function ViewOf(): View
      reads this
    {
      View(status, error, effectRan, started, subscribed, ready, socket, pinging, pendingFit,
        termRef, wsRef, written, sent, disposals, closes, clears, resets, disconnectNotices)
    }

    /** No frame leaves before the "OK" handshake, every frame sent is
        well-formed, and the refs and timers exist only for a started run. */
    ghost predicate Valid()
      reads this
    {
      (sent != [] ==> ready) &&
      WellFormedFrames(sent) &&
      (ready ==> started) &&
      (pendingFit ==> ready) &&
      (started ==> effectRan) &&
      (termRef || wsRef || pinging ==> started) &&
      (!started ==> written == [] && socket == CLOSED)
    }

    /** Mounting the hook and running its effect once. `initFailure` is the
        message of an exception raised while building the terminal, before
        any ref is assigned. */
    constructor (vmid: int, mounted: bool, initFailure: Option<string>)
      ensures Valid()
      ensures effectRan == EffectRuns(vmid, mounted)
      ensures started == (EffectRuns(vmid, mounted) && initFailure.None?)
      ensures subscribed == effectRan && termRef == started && wsRef == started
      ensures status == (if EffectRuns(vmid, mounted) && initFailure.Some? then Error else Connecting)
      ensures error == (if EffectRuns(vmid, mounted) && initFailure.Some? then InitFailedPrefix + initFailure.value else "")
      ensures socket == (if started then CONNECTING else CLOSED)
      ensures !ready && !pinging && !pendingFit && written == [] && sent == []
      ensures disposals == 0 && closes == 0 && clears == 0 && resets == 0 && disconnectNotices == 0
    {
      var runs := EffectRuns(vmid, mounted);
      status, error := Connecting, "";
      effectRan, subscribed := runs, runs;
      var live := runs && initFailure.None?;
      started := live;
      ready, pinging, pendingFit := false, false, false;
      termRef, wsRef := live, live;
      socket := if live then CONNECTING else CLOSED;
      written, sent := [], [];
      disposals, closes, clears, resets, disconnectNotices := 0, 0, 0, 0, 0;
      if runs && initFailure.Some? {
        status, error := Error, InitFailedPrefix + initFailure.value;
      }
    }

    /** `ws.onopen`: the socket is open; a subscribed run installs the ping interval. */
    method OnOpen()
      requires Valid() && started && socket == CONNECTING
      modifies this
      ensures Valid()
      ensures ViewOf() == old(ViewOf()).(socket := OPEN, pinging := old(pinging) || old(subscribed))
    {
      socket := OPEN;
      if subscribed {
        pinging := true;
      }
    }

    /** A tick of the ping interval: "2" goes out only on an open socket after the handshake. */
    method OnPingTick()
      requires Valid() && pinging
      modifies this
      ensures Valid()
      ensures ViewOf() == old(ViewOf()).(sent := old(sent) + (if old(socket) == OPEN && old(ready) then [PingFrame] else []))
    {
      if socket == OPEN && ready {
        FramesAppend(sent, Ping);
        sent := sent + [PingFrame];
      }
    }

    /** `ws.onmessage` with string data; browsers deliver messages only on an open socket. */
    method OnTextMessage(data: string)
      requires Valid() && started && socket == OPEN
      modifies this
      ensures Valid()
      ensures !old(subscribed) ==> ViewOf() == old(ViewOf())
      ensures old(subscribed) && IsTextHandshake(old(ready), data) ==>
        ViewOf() == old(ViewOf()).(ready := true, status := Connected, error := "", pendingFit := true,
          written := old(written) + (if |data| > 2 then [Text(data[2..])] else []))
      ensures old(subscribed) && !IsTextHandshake(old(ready), data) ==>
        ViewOf() == old(ViewOf()).(written := old(written) + [Text(data)])
    {
      if !subscribed {
        return;
      }
      if IsTextHandshake(ready, data) {
        CompleteHandshake(if |data| > 2 then [Text(data[2..])] else []);
      } else {
        Write(Text(data));
      }
    }

    /** `ws.onmessage` with ArrayBuffer data. */
    method OnBinaryMessage(data: seq<byte>)
      requires Valid() && started && socket == OPEN
      modifies this
      ensures Valid()
      ensures !old(subscribed) ==> ViewOf() == old(ViewOf())
      ensures old(subscribed) && IsBinaryHandshake(old(ready), data) ==>
        ViewOf() == old(ViewOf()).(ready := true, status := Connected, error := "", pendingFit := true,
          written := old(written) + (if |data| > 2 then [Bytes(data[2..])] else []))
      ensures old(subscribed) && !IsBinaryHandshake(old(ready), data) ==>
        ViewOf() == old(ViewOf()).(written := old(written) + [Bytes(data)])
    {
      if !subscribed {
        return;
      }
      if IsBinaryHandshake(ready, data) {
        CompleteHandshake(if |data| > 2 then [Bytes(data[2..])] else []);
      } else {
        Write(Bytes(data));
      }
    }

    /** The "OK" handshake: the run is ready and connected, what followed the
        handshake is written, and the fit is scheduled. */
    method CompleteHandshake(rest: seq<Output>)
      requires Valid() && started
      modifies this
      ensures Valid()
      ensures ViewOf() == old(ViewOf()).(ready := true, status := Connected, error := "", pendingFit := true,
        written := old(written) + rest)
    {
      MarkConnected();
      written := written + rest;
    }

    /** The run becomes ready and connected, with the fit scheduled. */
    method MarkConnected()
      requires Valid() && started
      modifies this
      ensures Valid()
      ensures ViewOf() == old(ViewOf()).(ready := true, status := Connected, error := "", pendingFit := true)
    {
      ready, status, error, pendingFit := true, Connected, "", true;
    }

    /** `term.write`. */
    method Write(o: Output)
      requires Valid() && started
      modifies this
      ensures Valid()
      ensures ViewOf() == old(ViewOf()).(written := old(written) + [o])
    {
      written := written + [o];
    }

    /** The second animation frame after the handshake: fit the terminal and,
        on an open socket, report its size, 80x24 standing in for a zero size.
        A fit that raises is swallowed and nothing is sent. This callback
        checks neither the subscription nor readiness. */
    method AfterHandshakeFrame(cols: nat, rows: nat, fitRaises: bool)
      requires Valid() && pendingFit
      modifies this
      ensures Valid()
      ensures ViewOf() == old(ViewOf()).(pendingFit := false,
        sent := old(sent) + (if old(socket) == OPEN && !fitRaises
                             then [ResizeFrame(OrDefault(cols, 80), OrDefault(rows, 24))] else []))
    {
      pendingFit := false;
      if socket == OPEN && !fitRaises {
        var frame := ResizeFrame(OrDefault(cols, 80), OrDefault(rows, 24));
        FramesAppend(sent, Resize(OrDefault(cols, 80), OrDefault(rows, 24)));
        sent := sent + [frame];
      }
    }

    /** `term.onData`: keystrokes become an input frame on an open, ready socket. */
    method OnTerminalData(data: string)
      requires Valid() && started
      modifies this
      ensures Valid()
      ensures ViewOf() == old(ViewOf()).(sent := old(sent) + (if old(socket) == OPEN && old(ready) then [InputFrame(data)] else []))
    {
      if socket == OPEN && ready {
        FramesAppend(sent, Input(data));
        sent := sent + [InputFrame(data)];
      }
    }

    /** `term.onResize`: the new size becomes a resize frame on an open, ready socket. */
    method OnTerminalResize(cols: nat, rows: nat)
      requires Valid() && started
      modifies this
      ensures Valid()
      ensures ViewOf() == old(ViewOf()).(sent := old(sent) + (if old(socket) == OPEN && old(ready) then [ResizeFrame(cols, rows)] else []))
    {
      if socket == OPEN && ready {
        FramesAppend(sent, Resize(cols, rows));
        sent := sent + [ResizeFrame(cols, rows)];
      }
    }

    /** `ws.onerror`: the socket has failed; a subscribed run shows the error. */
    method OnSocketError()
      requires Valid() && started
      modifies this
      ensures Valid()
      ensures ViewOf() == old(ViewOf()).(socket := CLOSED,
        status := if old(subscribed) then Error else old(status),
        error := if old(subscribed) then ErrorSocket else old(error))
    {
      socket := CLOSED;
      if subscribed {
        status, error := Error, ErrorSocket;
      }
    }

    /** `ws.onclose`: a subscribed run shows "disconnected" and the close message. */
    method OnSocketClose(code: int, reason: string)
      requires Valid() && started
      modifies this
      ensures Valid()
      ensures ViewOf() == old(ViewOf()).(socket := CLOSED,
        status := if old(subscribed) then Disconnected else old(status),
        error := if old(subscribed) then CloseMessage(code, reason) else old(error))
    {
      socket := CLOSED;
      if subscribed {
        status, error := Disconnected, CloseMessage(code, reason);
      }
    }

    /** The effect's cleanup: unsubscribe, stop the ping, dispose the terminal
        and close the socket, clearing both refs. */
    method Cleanup()
      requires Valid() && effectRan && subscribed
      modifies this
      ensures Valid()
      ensures ViewOf() == old(ViewOf()).(subscribed := false, pinging := false,
        termRef := false, disposals := old(disposals) + (if old(termRef) then 1 else 0),
        wsRef := false, closes := old(closes) + (if old(wsRef) then 1 else 0),
        socket := if old(wsRef) then AfterCloseCall(old(socket)) else old(socket))
    {
      subscribed, pinging := false, false;
      DisposeTerminal();
      CloseSocket();
    }

    /** `termRef.current?.dispose()`, then the ref is cleared. */
    method DisposeTerminal()
      requires Valid()
      modifies this
      ensures Valid()
      ensures ViewOf() == old(ViewOf()).(termRef := false, disposals := old(disposals) + (if old(termRef) then 1 else 0))
    {
      if termRef {
        disposals := disposals + 1;
      }
      termRef := false;
    }

    /** `wsRef.current?.close()`, then the ref is cleared. */
    method CloseSocket()
      requires Valid()
      modifies this
      ensures Valid()
      ensures ViewOf() == old(ViewOf()).(wsRef := false, closes := old(closes) + (if old(wsRef) then 1 else 0),
        socket := if old(wsRef) then AfterCloseCall(old(socket)) else old(socket))
    {
      if wsRef {
        closes := closes + 1;
        socket := AfterCloseCall(socket);
      }
      wsRef := false;
    }

    /** `handleDisconnect`: close the socket and dispose the terminal through
        the refs, which stay set, then notify the owner. The subscription and
        the ping interval are left as they are. */
    method HandleDisconnect()
      requires Valid()
      modifies this
      ensures Valid()
      ensures ViewOf() == old(ViewOf()).(
        closes := old(closes) + (if old(wsRef) then 1 else 0),
        socket := if old(wsRef) then AfterCloseCall(old(socket)) else old(socket),
        disposals := old(disposals) + (if old(termRef) then 1 else 0),
        disconnectNotices := old(disconnectNotices) + 1)
    {
      if wsRef {
        closes := closes + 1;
        socket := AfterCloseCall(socket);
      }
      if termRef {
        disposals := disposals + 1;
      }
      disconnectNotices := disconnectNotices + 1;
    }

    method HandleClear()
      requires Valid()
      modifies this
      ensures Valid()
      ensures ViewOf() == old(ViewOf()).(clears := old(clears) + (if old(termRef) then 1 else 0))
    {
      if termRef {
        clears := clears + 1;
      }
    }

    method HandleReset()
      requires Valid()
      modifies this
      ensures Valid()
      ensures ViewOf() == old(ViewOf()).(resets := old(resets) + (if old(termRef) then 1 else 0))
    {
      if termRef {
        resets := resets + 1;
      }
    }
  }

  /** The connecting overlay shows while connecting and no error is set. */
  predicate ShowsConnecting(status: Status, error: string)
  {
    status == Connecting && error == ""
  }

  /** A close during connection leaves the overlay hidden: the close text is never empty. */
  lemma CloseHidesOverlay(code: int, reason: string)
    ensures !ShowsConnecting(Disconnected, CloseMessage(code, reason))
    ensures CloseMessage(code, reason) != ""
  {
  }

  /** A complete session: open, handshake with trailing output, typing, a
      resize, the ping, and the cleanup; the frames on the wire are exactly
      the four that the protocol prescribes. */
  method ScenarioSession()
  {
    var t := new TerminalSession(105, true, None);
    t.OnOpen();
    t.OnTextMessage("OK$ ");
    assert t.written == [Text("$ ")];
    t.AfterHandshakeFrame(0, 0, false);
    assert NatToString(80) == "80" && NatToString(24) == "24" by {
      assert NatToString(8) == "8" && NatToString(2) == "2";
    }
    assert ResizeFrame(80, 24) == "1:80:24:";
    assert t.sent == [ResizeFrame(80, 24)];
    t.OnTerminalData("ls");
    assert Utf8Len("ls") == 2 && InputFrame("ls") == "0:2:ls";
    assert t.sent == ["1:80:24:", "0:2:ls"];
    t.Cleanup();
    t.OnTerminalData("ignored");
    assert t.written == [Text("$ ")] && t.closes == 1 && t.disposals == 1;
    assert |t.sent| == 2;
  }
}
