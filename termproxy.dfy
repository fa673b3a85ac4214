// The text frames the browser terminal sends to the Proxmox termproxy relay
// (frontend/src/components/Terminal/XTermDisplay.tsx):
//   input   "0:<utf8 byte count>:<data>"
//   resize  "1:<cols>:<rows>:"
//   ping    "2"
// `Parse` is an independent reference reading of the same format; the lemmas
// show that it accepts exactly the rendered frames and recovers them.
module TermProxy {
  import opened Prelude
  import opened Text
  import opened Utf8

  datatype Frame = Input(data: string) | Resize(cols: nat, rows: nat) | Ping

  function InputFrame(data: string): string
  {
    "0:" + (NatToString(Utf8Len(data)) + ":" + data)
  }

  function ResizeFrame(cols: nat, rows: nat): string
  {
    "1:" + (NatToString(cols) + ":" + (NatToString(rows) + ":"))
  }

  const PingFrame: string := "2"

  function Render(f: Frame): string
  {
    match f
    case Input(d) => InputFrame(d)
    case Resize(c, r) => ResizeFrame(c, r)
    case Ping => PingFrame
  }

  /** `${n || fallback}` for a terminal dimension: 0 is replaced by the fallback. */
  function OrDefault(n: nat, fallback: nat): (r: nat)
    ensures n != 0 ==> r == n
    ensures n == 0 ==> r == fallback
  {
    if n == 0 then fallback else n
  }

  /** A decimal number without leading zeros. */
  function ParseNumber(d: string): (r: Option<nat>)
    ensures r.Some? ==> NatToString(r.value) == d
  {
    if d != [] && AllDigits(d) && NatToString(ParseDigits(d)) == d then Some(ParseDigits(d)) else None
  }

  lemma ParseNumberRender(n: nat)
    ensures ParseNumber(NatToString(n)) == Some(n)
  {
    ParseNatToString(n);
  }

  /** Splits `s` at its first ':' into a number and the remainder. */
  function NumberThenColon(s: string): (r: Option<(nat, string)>)
    ensures r.Some? ==> s == NatToString(r.value.0) + ":" + r.value.1
  {
    match IndexOf(s, ':')
    case None => None
    case Some(k) =>
      match ParseNumber(s[..k])
      case None => None
      case Some(n) =>
        assert s == s[..k] + ":" + s[k + 1..];
        Some((n, s[k + 1..]))
  }

  lemma NumberThenColonRender(n: nat, rest: string)
    ensures NumberThenColon(NatToString(n) + ":" + rest) == Some((n, rest))
  {
    var s := NatToString(n) + ":" + rest;
    var d := NatToString(n);
    assert s[|d|] == ':';
    assert forall i :: 0 <= i < |d| ==> s[i] == d[i] && IsDigit(s[i]);
    assert IndexOf(s, ':') == Some(|d|);
    assert s[..|d|] == d;
    assert s[|d| + 1..] == rest;
    ParseNumberRender(n);
  }

  /** Reference decoder of one outbound frame; `None` for anything malformed,
      including an input frame whose byte count disagrees with its payload. */
  function Parse(s: string): (r: Option<Frame>)
  {
    if s == PingFrame then Some(Ping)
    else if StartsWith(s, "0:") then ParseInput(s[2..])
    else if StartsWith(s, "1:") then ParseResize(s[2..])
    else None
  }

  /** The part of an input frame after "0:". */
  function ParseInput(body: string): (r: Option<Frame>)
    ensures r.Some? ==> r.value.Input? && body == NatToString(Utf8Len(r.value.data)) + ":" + r.value.data
  {
    match NumberThenColon(body)
    case None => None
    case Some((n, data)) => if Utf8Len(data) == n then Some(Input(data)) else None
  }

  /** The part of a resize frame after "1:". */
  function ParseResize(body: string): (r: Option<Frame>)
    ensures r.Some? ==> r.value.Resize? && body == NatToString(r.value.cols) + ":" + (NatToString(r.value.rows) + ":")
  {
    match NumberThenColon(body)
    case None => None
    case Some((c, rest)) =>
      match NumberThenColon(rest)
      case None => None
      case Some((r, tail)) => if tail == [] then assert rest == NatToString(r) + ":"; Some(Resize(c, r)) else None
  }

  /** A frame that starts "0:" is read as an input frame. */
  lemma ParseInputPrefix(body: string)
    ensures Parse("0:" + body) == ParseInput(body)
  {
    var s := "0:" + body;
    assert s[..2] == "0:" && s[2..] == body;
  }

  /** A frame that starts "1:" is read as a resize frame. */
  lemma ParseResizePrefix(body: string)
    ensures Parse("1:" + body) == ParseResize(body)
  {
    var s := "1:" + body;
    assert s[0] == '1' && s[..2] == "1:" && s[2..] == body;
  }

  /** Every rendered frame parses back to itself. */
  lemma ParseRender(f: Frame)
    ensures Parse(Render(f)) == Some(f)
  {
    match f
    case Input(d) =>
      ParseInputPrefix(NatToString(Utf8Len(d)) + ":" + d);
      NumberThenColonRender(Utf8Len(d), d);
    case Resize(c, r) =>
      var tail := NatToString(r) + ":";
      ParseResizePrefix(NatToString(c) + ":" + tail);
      NumberThenColonRender(c, tail);
      assert tail == NatToString(r) + ":" + "";
      NumberThenColonRender(r, "");
    case Ping =>
  }

  /** Whatever parses is the rendering of what it parses to, so the format
      has one spelling per frame. */
  lemma RenderParse(s: string)
    requires Parse(s).Some?
    ensures Render(Parse(s).value) == s
  {
    if s != PingFrame {
      assert s == s[..2] + s[2..];
      if StartsWith(s, "0:") {
        RenderParseInput(s);
      } else {
        RenderParseResize(s);
      }
    }
  }

  lemma RenderParseInput(s: string)
    requires s != PingFrame && StartsWith(s, "0:") && Parse(s).Some?
    ensures Render(Parse(s).value) == s
  {
    var body := s[2..];
    assert s == "0:" + body;
    ParseInputPrefix(body);
    var d := ParseInput(body).value.data;
    assert Render(Parse(s).value) == InputFrame(d);
  }

  lemma RenderParseResize(s: string)
    requires s != PingFrame && !StartsWith(s, "0:") && StartsWith(s, "1:") && Parse(s).Some?
    ensures Render(Parse(s).value) == s
  {
    var body := s[2..];
    assert s == "1:" + body;
    ParseResizePrefix(body);
    ResizeBodyRender(body);
  }

  /** A resize body that parses is the body of its frame's rendering. */
  lemma ResizeBodyRender(body: string)
    requires ParseResize(body).Some?
    ensures Render(ParseResize(body).value) == "1:" + body
  {
    var f := ParseResize(body).value;
    assert Render(f) == ResizeFrame(f.cols, f.rows);
  }

  /** Different frames never share a spelling. */
  lemma RenderInjective(f: Frame, g: Frame)
    requires Render(f) == Render(g)
    ensures f == g
  {
    ParseRender(f);
    ParseRender(g);
  }

  /** The count in an input frame is the payload's UTF-8 length, which is at
      least its character count and exactly that for ASCII. */
  lemma InputFrameCount(data: string)
    ensures Parse(InputFrame(data)) == Some(Input(data))
    ensures |data| <= Utf8Len(data) <= 4 * |data|
    ensures IsAscii(data) ==> Utf8Len(data) == |data|
  {
    ParseRender(Input(data));
    Utf8LenBounds(data);
    if IsAscii(data) { Utf8LenAscii(data); }
  }
}
