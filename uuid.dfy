// Python's `uuid.UUID(text)`: the routes use it to turn a path segment into a
// request id and answer 400 when it raises ValueError. The constructor drops
// every "urn:" and "uuid:", strips braces from both ends, drops hyphens, needs
// exactly 32 characters to be left and reads them with `int(text, 16)`, which
// also takes white space around the number, a sign, a "0x" prefix and single
// underscores between digits.
module PyUuid {
  import opened Prelude

  /** A UUID as its 32 hexadecimal digits, most significant first. */
  datatype Uuid = Uuid(nibbles: seq<int>)

  predicate WellFormed(u: Uuid)
  {
    |u.nibbles| == 32 && forall i :: 0 <= i < 32 ==> 0 <= u.nibbles[i] < 16
  }

  predicate IsHex(c: char)
  {
    '0' <= c <= '9' || 'a' <= c <= 'f' || 'A' <= c <= 'F'
  }

  function HexValue(c: char): (d: int)
    requires IsHex(c)
    ensures 0 <= d < 16
  {
    if '0' <= c <= '9' then c as int - '0' as int
    else if 'a' <= c <= 'f' then c as int - 'a' as int + 10
    else c as int - 'A' as int + 10
  }

  /** The lower-case digit `str(uuid)` prints. */
  function HexChar(d: int): (c: char)
    requires 0 <= d < 16
    ensures IsHex(c) && HexValue(c) == d && c != '-' && c != 'u' && c != '{' && c != '}'
  {
    if d < 10 then ('0' as int + d) as char else ('a' as int + d - 10) as char
  }

  /** `s.replace(pat, "")`: occurrences are removed left to right without overlapping. */
  function RemoveAll(s: string, pat: string): (r: string)
    requires pat != []
    ensures |r| <= |s|
    decreases |s|
  {
    if |pat| <= |s| && s[..|pat|] == pat then RemoveAll(s[|pat|..], pat)
    else if s == [] then []
    else [s[0]] + RemoveAll(s[1..], pat)
  }

  /** A text in which the pattern's first character never occurs is left as it is. */
  lemma {:induction false} RemoveAllAbsent(s: string, pat: string)
    requires pat != []
    requires forall i :: 0 <= i < |s| ==> s[i] != pat[0]
    ensures RemoveAll(s, pat) == s
  {
    if s != [] {
      if |pat| <= |s| { assert s[..|pat|][0] == s[0]; }
      RemoveAllAbsent(s[1..], pat);
      assert s == [s[0]] + s[1..];
    }
  }

  predicate IsBrace(c: char) { c == '{' || c == '}' }

  function TrimLeft(s: string): string
  {
    if s != [] && IsBrace(s[0]) then TrimLeft(s[1..]) else s
  }

  function TrimRight(s: string): string
  {
    if s != [] && IsBrace(s[|s| - 1]) then TrimRight(s[..|s| - 1]) else s
  }

  /** `s.strip('{}')`. */
  function StripBraces(s: string): string
  {
    TrimRight(TrimLeft(s))
  }

  /** `s.replace('-', '')`. */
  function DropHyphens(s: string): (r: string)
    ensures forall i :: 0 <= i < |r| ==> r[i] != '-'
  {
    if s == [] then []
    else if s[0] == '-' then DropHyphens(s[1..])
    else [s[0]] + DropHyphens(s[1..])
  }

  lemma {:induction false} DropHyphensAppend(s: string, t: string)
    ensures DropHyphens(s + t) == DropHyphens(s) + DropHyphens(t)
  {
    if s == [] {
      assert s + t == t;
    } else {
      assert (s + t)[1..] == s[1..] + t;
      DropHyphensAppend(s[1..], t);
    }
  }

  /** The text the constructor checks for 32 digits. */
  function Normalize(s: string): string
  {
    DropHyphens(StripBraces(RemoveAll(RemoveAll(s, "urn:"), "uuid:")))
  }

  predicate AllHex(h: string)
  {
    forall i :: 0 <= i < |h| ==> IsHex(h[i])
  }

  function Digits(h: string): (ns: seq<int>)
    requires AllHex(h)
    ensures |ns| == |h| && forall i :: 0 <= i < |h| ==> ns[i] == HexValue(h[i])
  {
    seq(|h|, i requires 0 <= i < |h| => HexValue(h[i]))
  }

  /** The characters `int()` skips around a number: the ASCII blanks, and the
      other Unicode white space, which it first turns into a blank. The
      separators U+001C to U+001F are not among them. */
  predicate IsSpace(c: char)
  {
    c == ' ' || '\t' <= c <= '\r' || c == '\U{0085}' || c == '\U{00A0}' || c == '\U{1680}' ||
    '\U{2000}' <= c <= '\U{200A}' || c == '\U{2028}' || c == '\U{2029}' || c == '\U{202F}' ||
    c == '\U{205F}' || c == '\U{3000}'
  }

  function TrimSpaceLeft(s: string): (r: string)
    ensures |r| <= |s|
  {
    if s != [] && IsSpace(s[0]) then TrimSpaceLeft(s[1..]) else s
  }

  function TrimSpaceRight(s: string): (r: string)
    ensures |r| <= |s|
  {
    if s != [] && IsSpace(s[|s| - 1]) then TrimSpaceRight(s[..|s| - 1]) else s
  }

  /** What follows an optional "0x" or "0X", which may itself be followed by one underscore. */
  function AfterPrefix(s: string): (r: string)
    ensures |r| <= |s|
  {
    if |s| >= 2 && s[0] == '0' && (s[1] == 'x' || s[1] == 'X') then
      if |s| >= 3 && s[2] == '_' then s[3..] else s[2..]
    else s
  }

  /** Hexadecimal digits, at least one, with single underscores between them. */
  predicate DigitGroups(b: string)
  {
    b != [] && b[0] != '_' && b[|b| - 1] != '_' &&
    (forall i :: 0 <= i < |b| ==> IsHex(b[i]) || b[i] == '_') &&
    (forall i :: 0 <= i < |b| - 1 ==> !(b[i] == '_' && b[i + 1] == '_'))
  }

  function DropUnderscores(b: string): (r: string)
    ensures |r| <= |b|
    ensures (forall i :: 0 <= i < |b| ==> IsHex(b[i]) || b[i] == '_') ==> AllHex(r)
  {
    if b == [] then []
    else if b[0] == '_' then DropUnderscores(b[1..])
    else [b[0]] + DropUnderscores(b[1..])
  }

  lemma {:induction false} DropUnderscoresHex(h: string)
    requires AllHex(h)
    ensures DropUnderscores(h) == h
  {
    if h != [] {
      DropUnderscoresHex(h[1..]);
      assert h == [h[0]] + h[1..];
    }
  }

  predicate AllZero(ds: seq<int>)
  {
    forall i :: 0 <= i < |ds| ==> ds[i] == 0
  }

  /** What `int()` trims from `t` before it looks at the sign. */
  function Trimmed(t: string): string
  {
    TrimSpaceRight(TrimSpaceLeft(t))
  }

  /** The text `int()` reads digits from: white space, the sign and the
      prefix removed. */
  function HexBody(t: string): string
  {
    var a := Trimmed(t);
    AfterPrefix(if a != [] && (a[0] == '+' || a[0] == '-') then a[1..] else a)
  }

  predicate Negative(t: string)
  {
    Trimmed(t) != [] && Trimmed(t)[0] == '-'
  }

  /** `int(t, 16)` as the digits of its value, or `None` where it raises
      ValueError; a negative value is refused as it is by the range check
      that follows it in the constructor. */
  function HexInt(t: string): (r: Option<seq<int>>)
    ensures r.Some? ==> |r.value| <= |t| && forall i :: 0 <= i < |r.value| ==> 0 <= r.value[i] < 16
  {
    var body := HexBody(t);
    if !DigitGroups(body) then None
    else
      var ds := Digits(DropUnderscores(body));
      if Negative(t) && !AllZero(ds) then None else Some(ds)
  }

  /** A text with nothing to trim, no sign and no prefix is read as it stands. */
  lemma BareBody(t: string)
    requires Trimmed(t) == t && AfterPrefix(t) == t
    requires t != [] ==> t[0] != '+' && t[0] != '-'
    ensures HexBody(t) == t && !Negative(t)
  {
  }

  lemma HexNotSpace(c: char)
    requires IsHex(c)
    ensures !IsSpace(c) && c != '+' && c != '-' && c != '_' && c != 'x' && c != 'X'
  {
  }

  /** A plain run of hexadecimal digits has no white space, sign or prefix
      for `int()` to skip, and is a single digit group. */
  lemma PlainRun(h: string)
    requires h != [] && AllHex(h)
    ensures HexBody(h) == h && !Negative(h) && DigitGroups(h)
  {
    HexNotSpace(h[0]);
    HexNotSpace(h[|h| - 1]);
    if |h| >= 2 { HexNotSpace(h[1]); }
    assert Trimmed(h) == h;
    BareBody(h);
  }

  /** A plain run of hexadecimal digits reads as those digits. */
  lemma HexIntPlain(h: string)
    requires h != [] && AllHex(h)
    ensures HexInt(h) == Some(Digits(h))
  {
    PlainRun(h);
    DropUnderscoresHex(h);
  }

  /** 32 plain digits are read as themselves. */
  lemma PlainId(h: string)
    ensures |h| == 32 && AllHex(h) ==> HexInt(h) == Some(Digits(h)) && Pad32(Digits(h)) == Digits(h)
  {
    if |h| == 32 && AllHex(h) {
      HexIntPlain(h);
    }
  }

  /** The value of `ds` written out as 32 digits. */
  function Pad32(ds: seq<int>): (r: seq<int>)
    requires |ds| <= 32
    ensures |r| == 32 && r[32 - |ds|..] == ds
    ensures forall i :: 0 <= i < 32 - |ds| ==> r[i] == 0
  {
    seq(32 - |ds|, _ => 0) + ds
  }

  /** `uuid.UUID(s)`, with `None` where it raises ValueError. */
  function Parse(s: string): (r: Option<Uuid>)
    ensures r.Some? ==> WellFormed(r.value)
    ensures r.Some? <==> |Normalize(s)| == 32 && HexInt(Normalize(s)).Some?
    ensures |Normalize(s)| == 32 && AllHex(Normalize(s)) ==> r == Some(Uuid(Digits(Normalize(s))))
  {
    var h := Normalize(s);
    PlainId(h);
    if |h| != 32 then None
    else match HexInt(h)
      case None => None
      case Some(ds) => Some(Uuid(Pad32(ds)))
  }

  function Hex(ns: seq<int>): (h: string)
    requires forall i :: 0 <= i < |ns| ==> 0 <= ns[i] < 16
    ensures |h| == |ns| && forall i :: 0 <= i < |h| ==> h[i] == HexChar(ns[i])
  {
    seq(|ns|, i requires 0 <= i < |ns| => HexChar(ns[i]))
  }

  /** `str(u)`: lower-case digits grouped 8-4-4-4-12. */
  function Format(u: Uuid): (s: string)
    requires WellFormed(u)
    ensures |s| == 36
  {
    var n := u.nibbles;
    Hex(n[..8]) + "-" + Hex(n[8..12]) + "-" + Hex(n[12..16]) + "-" + Hex(n[16..20]) + "-" + Hex(n[20..])
  }

  lemma DropHyphensHex(ns: seq<int>)
    requires forall i :: 0 <= i < |ns| ==> 0 <= ns[i] < 16
    ensures DropHyphens(Hex(ns)) == Hex(ns)
    decreases |ns|
  {
    if ns != [] {
      assert Hex(ns)[1..] == Hex(ns[1..]);
      DropHyphensHex(ns[1..]);
    }
  }

  /** One more hyphen-separated group of digits. */
  lemma DropGroup(acc: string, g: seq<int>)
    requires forall i :: 0 <= i < |g| ==> 0 <= g[i] < 16
    ensures DropHyphens(acc + "-" + Hex(g)) == DropHyphens(acc) + Hex(g)
  {
    var h := Hex(g);
    DropHyphensHex(g);
    DropHyphensAppend(acc, "-");
    assert DropHyphens("-") == [] by { assert "-"[1..] == []; }
    assert DropHyphens(acc + "-") == DropHyphens(acc);
    DropHyphensAppend(acc + "-", h);
  }

  lemma {:induction false} HexAppend(x: seq<int>, y: seq<int>)
    requires forall i :: 0 <= i < |x| ==> 0 <= x[i] < 16
    requires forall i :: 0 <= i < |y| ==> 0 <= y[i] < 16
    ensures Hex(x + y) == Hex(x) + Hex(y)
  {
  }

  /** Removing the hyphens of the canonical form leaves the 32 digits. */
  lemma FormatDigits(u: Uuid)
    requires WellFormed(u)
    ensures DropHyphens(Format(u)) == Hex(u.nibbles)
  {
    var n := u.nibbles;
    var a := Hex(n[..8]);
    var s2 := a + "-" + Hex(n[8..12]);
    var s3 := s2 + "-" + Hex(n[12..16]);
    var s4 := s3 + "-" + Hex(n[16..20]);
    assert Format(u) == s4 + "-" + Hex(n[20..]);
    DropHyphensHex(n[..8]);
    DropGroup(a, n[8..12]);
    DropGroup(s2, n[12..16]);
    DropGroup(s3, n[16..20]);
    DropGroup(s4, n[20..]);
    HexAppend(n[..8], n[8..12]);
    assert n[..8] + n[8..12] == n[..12];
    HexAppend(n[..12], n[12..16]);
    assert n[..12] + n[12..16] == n[..16];
    HexAppend(n[..16], n[16..20]);
    assert n[..16] + n[16..20] == n[..20];
    HexAppend(n[..20], n[20..]);
    assert n[..20] + n[20..] == n;
  }

  /** The canonical form contains none of the characters the constructor removes. */
  lemma FormatIsPlain(u: Uuid)
    requires WellFormed(u)
    ensures forall i :: 0 <= i < |Format(u)| ==> Format(u)[i] != 'u'
    ensures !IsBrace(Format(u)[0]) && !IsBrace(Format(u)[35])
  {
    var n := u.nibbles;
    var f := Format(u);
    assert f[0] == Hex(n[..8])[0];
    assert f[35] == Hex(n[20..])[11];
    forall i | 0 <= i < |f| ensures f[i] != 'u' {
      if i < 8 { assert f[i] == Hex(n[..8])[i]; }
      else if i == 8 || i == 13 || i == 18 || i == 23 { }
      else if i < 13 { assert f[i] == Hex(n[8..12])[i - 9]; }
      else if i < 18 { assert f[i] == Hex(n[12..16])[i - 14]; }
      else if i < 23 { assert f[i] == Hex(n[16..20])[i - 19]; }
      else { assert f[i] == Hex(n[20..])[i - 24]; }
    }
  }

  /** The canonical form normalizes to its 32 digits. */
  lemma FormatNormal(u: Uuid)
    requires WellFormed(u)
    ensures Normalize(Format(u)) == Hex(u.nibbles)
    ensures AllHex(Hex(u.nibbles)) && Digits(Hex(u.nibbles)) == u.nibbles
  {
    var f := Format(u);
    FormatIsPlain(u);
    RemoveAllAbsent(f, "urn:");
    RemoveAllAbsent(f, "uuid:");
    assert TrimLeft(f) == f;
    assert TrimRight(f) == f;
    FormatDigits(u);
  }

  /** `uuid.UUID(str(u)) == u`. */
  lemma ParseFormat(u: Uuid)
    requires WellFormed(u)
    ensures Parse(Format(u)) == Some(u)
  {
    FormatNormal(u);
  }

  /** The braced form is accepted too. */
  lemma ParseBraced(u: Uuid)
    requires WellFormed(u)
    ensures Parse("{" + Format(u) + "}") == Parse(Format(u))
  {
    var f := Format(u);
    var b := "{" + f + "}";
    FormatIsPlain(u);
    assert forall i :: 0 <= i < |b| ==> b[i] != 'u' by {
      forall i | 0 <= i < |b| ensures b[i] != 'u' {
        if 0 < i < |b| - 1 { assert b[i] == f[i - 1]; }
      }
    }
    RemoveAllAbsent(b, "urn:");
    RemoveAllAbsent(b, "uuid:");
    assert b[1..] == f + "}";
    assert TrimLeft(b) == f + "}";
    assert (f + "}")[..|f|] == f;
    assert TrimRight(f + "}") == TrimRight(f);
    RemoveAllAbsent(f, "urn:");
    RemoveAllAbsent(f, "uuid:");
  }

  /** Upper-case hexadecimal letters. */
  function UpperHex(f: string): (r: string)
    ensures |r| == |f|
  {
    seq(|f|, i requires 0 <= i < |f| => if 'a' <= f[i] <= 'f' then (f[i] as int - 32) as char else f[i])
  }

  /** The upper-case spelling normalizes to digits of the same value. */
  lemma UpperDigits(u: Uuid)
    requires WellFormed(u)
    ensures |Normalize(UpperHex(Format(u)))| == 32 && AllHex(Normalize(UpperHex(Format(u))))
    ensures Digits(Normalize(UpperHex(Format(u)))) == u.nibbles
  {
    var f := Format(u);
    var s := UpperHex(f);
    FormatIsPlain(u);
    forall i | 0 <= i < |s|
      ensures s[i] != 'u' && (s[i] == '-' <==> f[i] == '-')
      ensures f[i] != '-' ==> IsHex(s[i]) && IsHex(f[i]) && HexValue(s[i]) == HexValue(f[i])
    {
      if f[i] != '-' {
        assert IsHex(f[i]) by { FormatHexAt(u, i); }
      }
    }
    RemoveAllAbsent(s, "urn:");
    RemoveAllAbsent(s, "uuid:");
    assert TrimLeft(s) == s;
    assert TrimRight(s) == s;
    assert Normalize(s) == DropHyphens(s);
    FormatNormal(u);
    RemoveAllAbsent(f, "urn:");
    RemoveAllAbsent(f, "uuid:");
    assert TrimLeft(f) == f && TrimRight(f) == f;
    assert Normalize(f) == DropHyphens(f);
    DropHyphensSameShape(s, f);
  }

  /** The upper-case spelling names the same id, so it looks up the same request. */
  lemma ParseUpperCase(u: Uuid)
    requires WellFormed(u)
    ensures Parse(UpperHex(Format(u))) == Some(u)
  {
    UpperDigits(u);
  }

  /** Every character of the canonical form is a digit or a hyphen. */
  lemma FormatHexAt(u: Uuid, i: int)
    requires WellFormed(u) && 0 <= i < 36
    ensures Format(u)[i] == '-' || (IsHex(Format(u)[i]) && !('A' <= Format(u)[i] <= 'F'))
  {
    var n := u.nibbles;
    var f := Format(u);
    if i < 8 { assert f[i] == Hex(n[..8])[i]; }
    else if i == 8 || i == 13 || i == 18 || i == 23 { }
    else if i < 13 { assert f[i] == Hex(n[8..12])[i - 9]; }
    else if i < 18 { assert f[i] == Hex(n[12..16])[i - 14]; }
    else if i < 23 { assert f[i] == Hex(n[16..20])[i - 19]; }
    else { assert f[i] == Hex(n[20..])[i - 24]; }
  }

  /** Two texts with hyphens in the same places and digits of the same value
      lose their hyphens to digit strings of the same value. */
  lemma {:induction false} DropHyphensSameShape(s: string, f: string)
    requires |s| == |f|
    requires forall i :: 0 <= i < |s| ==> (s[i] == '-' <==> f[i] == '-')
    requires forall i :: 0 <= i < |s| ==> f[i] != '-' ==> IsHex(s[i]) && IsHex(f[i]) && HexValue(s[i]) == HexValue(f[i])
    ensures |DropHyphens(s)| == |DropHyphens(f)|
    ensures AllHex(DropHyphens(f)) ==> AllHex(DropHyphens(s)) && Digits(DropHyphens(s)) == Digits(DropHyphens(f))
  {
    if s != [] {
      DropHyphensSameShape(s[1..], f[1..]);
      if s[0] != '-' {
        var ds, df := DropHyphens(s), DropHyphens(f);
        assert ds == [s[0]] + DropHyphens(s[1..]);
        assert df == [f[0]] + DropHyphens(f[1..]);
        if AllHex(df) {
          assert AllHex(DropHyphens(f[1..])) by {
            forall i | 0 <= i < |DropHyphens(f[1..])| ensures IsHex(DropHyphens(f[1..])[i]) {
              assert DropHyphens(f[1..])[i] == df[i + 1];
            }
          }
          forall i | 0 <= i < |ds| ensures IsHex(ds[i]) && HexValue(ds[i]) == HexValue(df[i]) {
            if i > 0 {
              assert ds[i] == DropHyphens(s[1..])[i - 1];
              assert df[i] == DropHyphens(f[1..])[i - 1];
              assert HexValue(DropHyphens(s[1..])[i - 1]) == Digits(DropHyphens(s[1..]))[i - 1];
            }
          }
        }
      }
    }
  }

  lemma {:induction false} DropHyphensNone(s: string)
    requires forall i :: 0 <= i < |s| ==> s[i] != '-'
    ensures DropHyphens(s) == s
  {
    if s != [] {
      DropHyphensNone(s[1..]);
      assert s == [s[0]] + s[1..];
    }
  }

  lemma {:induction false} DropUnderscoresAppend(s: string, t: string)
    ensures DropUnderscores(s + t) == DropUnderscores(s) + DropUnderscores(t)
  {
    if s == [] {
      assert s + t == t;
    } else {
      assert (s + t)[1..] == s[1..] + t;
      DropUnderscoresAppend(s[1..], t);
    }
  }

  /** A text without the characters the constructor removes, and with no
      brace or space at either end, is read by `int()` as it stands. */
  lemma PlainText(t: string)
    requires |t| == 32
    requires forall i :: 0 <= i < |t| ==> t[i] != 'u' && t[i] != '-'
    requires !IsBrace(t[0]) && !IsBrace(t[31]) && !IsSpace(t[31])
    ensures Normalize(t) == t
  {
    RemoveAllAbsent(t, "urn:");
    RemoveAllAbsent(t, "uuid:");
    assert TrimLeft(t) == t;
    assert TrimRight(t) == t;
    DropHyphensNone(t);
  }

  /** A "0x" prefix counts towards the 32 characters and `int()` skips it:
      thirty digits after it name the id with two leading zero digits. */
  lemma ParsePrefixed(d: string)
    requires |d| == 30 && AllHex(d)
    ensures Parse("0x" + d) == Some(Uuid([0, 0] + Digits(d)))
  {
    var t := "0x" + d;
    PlainText(t);
    PrefixedHexInt(d);
    ParseOf(t, Digits(d));
    assert Pad32(Digits(d)) == [0, 0] + Digits(d);
  }

  /** `int()` skips a "0x" prefix. */
  lemma PrefixedHexInt(d: string)
    requires d != [] && AllHex(d)
    ensures HexInt("0x" + d) == Some(Digits(d))
  {
    var t := "0x" + d;
    HexNotSpace(d[0]);
    HexNotSpace(d[|d| - 1]);
    assert t[|t| - 1] == d[|d| - 1];
    assert Trimmed(t) == t;
    assert AfterPrefix(t) == d by { assert t[2..] == d; }
    assert HexBody(t) == d && !Negative(t);
    PlainRun(d);
    DropUnderscoresHex(d);
  }

  /** A text the constructor leaves as it is parses to the value `int()` reads. */
  lemma ParseOf(t: string, ds: seq<int>)
    requires |t| == 32 && Normalize(t) == t && HexInt(t) == Some(ds)
    ensures Parse(t) == Some(Uuid(Pad32(ds)))
  {
  }

  /** `int()` skips leading white space. */
  lemma SpacedHexInt(d: string)
    requires d != [] && AllHex(d)
    ensures HexInt(" " + d) == HexInt(d)
  {
    var t := " " + d;
    assert TrimSpaceLeft(t) == TrimSpaceLeft(d) by { assert t[1..] == d; }
    assert Trimmed(t) == Trimmed(d);
  }

  /** Leading white space counts towards the 32 characters: thirty-one
      digits after a space name the id with one leading zero digit. */
  lemma ParseSpaced(d: string)
    requires |d| == 31 && AllHex(d)
    ensures Parse(" " + d) == Some(Uuid([0] + Digits(d)))
  {
    var t := " " + d;
    PlainText(t);
    SpacedHexInt(d);
    HexIntPlain(d);
    ParseOf(t, Digits(d));
    assert Pad32(Digits(d)) == [0] + Digits(d);
  }

  lemma GroupsOfTwo(x: string, y: string)
    requires x != [] && y != [] && AllHex(x) && AllHex(y)
    ensures DigitGroups(x + "_" + y)
  {
    var t := x + "_" + y;
    forall i | 0 <= i < |t| ensures IsHex(t[i]) || t[i] == '_' {
      if i < |x| { assert t[i] == x[i]; }
      else if i > |x| { assert t[i] == y[i - |x| - 1]; }
    }
    forall i | 0 <= i < |t| - 1 ensures !(t[i] == '_' && t[i + 1] == '_') {
      if i < |x| { assert t[i] == x[i]; }
      else { assert t[i + 1] == y[i - |x|]; }
    }
    assert t[0] == x[0];
    assert t[|t| - 1] == y[|y| - 1];
  }

  lemma GroupedHexInt(x: string, y: string)
    requires x != [] && y != [] && AllHex(x) && AllHex(y)
    ensures AllHex(x + y) && HexInt(x + "_" + y) == Some(Digits(x + y))
  {
    var t := x + "_" + y;
    assert t[0] == x[0];
    assert t[|t| - 1] == y[|y| - 1];
    HexNotSpace(x[0]);
    HexNotSpace(y[|y| - 1]);
    if |t| >= 2 { HexNotSpace(x[0]); }
    assert Trimmed(t) == t;
    assert AfterPrefix(t) == t by { if |x| >= 2 { assert t[1] == x[1]; HexNotSpace(x[1]); } }
    BareBody(t);
    GroupsOfTwo(x, y);
    DropSeparator(x, y);
  }

  lemma DropSeparator(x: string, y: string)
    requires AllHex(x) && AllHex(y)
    ensures DropUnderscores(x + "_" + y) == x + y && AllHex(x + y)
  {
    var u: string := "_";
    assert DropUnderscores(u) == [] by { assert u[1..] == []; }
    DropUnderscoresAppend(x, u);
    DropUnderscoresHex(x);
    assert DropUnderscores(x + u) == x;
    DropUnderscoresAppend(x + u, y);
    DropUnderscoresHex(y);
  }

  /** One underscore between two digits is dropped by `int()`. */
  lemma ParseGrouped(x: string, y: string)
    requires x != [] && y != [] && |x| + |y| == 31 && AllHex(x) && AllHex(y)
    ensures Parse(x + "_" + y) == Some(Uuid([0] + Digits(x + y)))
  {
    var t := x + "_" + y;
    assert forall i :: 0 <= i < |t| ==> t[i] != 'u' && t[i] != '-' by {
      forall i | 0 <= i < |t| ensures t[i] != 'u' && t[i] != '-' {
        if i < |x| { assert t[i] == x[i]; }
        else if i > |x| { assert t[i] == y[i - |x| - 1]; }
      }
    }
    assert t[0] == x[0];
    assert t[31] == y[|y| - 1];
    PlainText(t);
    GroupedHexInt(x, y);
    ParseOf(t, Digits(x + y));
    assert Pad32(Digits(x + y)) == [0] + Digits(x + y);
  }

  /** Two underscores in a row make `int()`, and so the constructor, fail. */
  lemma ParseDoubleUnderscore(x: string, y: string)
    requires x != [] && y != [] && |x| + |y| == 30 && AllHex(x) && AllHex(y)
    ensures Parse(x + "__" + y) == None
  {
    var t := x + "__" + y;
    PlainText(t);
    assert t[0] == x[0] && t[|t| - 1] == y[|y| - 1];
    HexNotSpace(x[0]);
    HexNotSpace(y[|y| - 1]);
    assert Trimmed(t) == t;
    assert AfterPrefix(t) == t by { if |x| >= 2 { assert t[1] == x[1]; HexNotSpace(x[1]); } }
    BareBody(t);
    assert t[|x|] == '_' && t[|x| + 1] == '_';
  }
}
