// The guest table columns (frontend/src/components/Items/columns.tsx): the
// uptime text and the console button of a row.
module ItemColumns {
  import opened Prelude
  import opened Text

  /** JavaScript `a % b` for a positive divisor: the remainder has the sign
      of the dividend. */
  function JsRem(a: int, b: int): (r: int)
    requires b > 0
    ensures -b < r < b
    ensures a >= 0 ==> r == a % b
  {
    if a >= 0 then a % b else -((-a) % b)
  }

  /** The days, hours and minutes `formatUptime` computes with
      `Math.floor`, which is Dafny's division for a positive divisor. */
  function UptimeParts(seconds: int): (int, int, int)
  {
    (seconds / 86400, JsRem(seconds, 86400) / 3600, JsRem(seconds, 3600) / 60)
  }

  /** `formatUptime`: `N/A` without a value, otherwise the two largest
      units starting from the first non-zero one among days and hours. */
  function FormatUptime(seconds: Option<int>): (r: string)
    ensures seconds.Some? ==> |r| >= 2 && (r[|r| - 1] == 'h' <==> UptimeParts(seconds.value).0 > 0)
    ensures seconds.Some? && UptimeParts(seconds.value).0 <= 0 ==> r[|r| - 1] == 'm'
    ensures seconds.None? <==> r == "N/A"
  {
    if seconds.None? then "N/A"
    else
      var (d, h, m) := UptimeParts(seconds.value);
      if d > 0 then IntToString(d) + "d " + IntToString(h) + "h"
      else if h > 0 then IntToString(h) + "h " + IntToString(m) + "m"
      else IntToString(m) + "m"
  }

  /** For a non-negative uptime the hours are below 24 and the minutes
      below 60, and together with the days they account for the uptime to
      the minute. */
  lemma UptimePartsBounds(seconds: nat)
    ensures var (d, h, m) := UptimeParts(seconds);
      0 <= h < 24 && 0 <= m < 60 && d >= 0 &&
      d * 86400 + h * 3600 + m * 60 <= seconds < d * 86400 + h * 3600 + m * 60 + 60
  {
    var r := seconds % 86400;
    var h := r / 3600;
    var r2 := r % 3600;
    assert seconds == 86400 * (seconds / 86400) + r;
    assert r == 3600 * h + r2 && 0 <= h < 24;
    ModOfSum(seconds / 86400 * 24 + h, r2);
    var m := r2 / 60;
    assert r2 == 60 * m + r2 % 60;
  }

  /** The remainder by an hour ignores whole hours. */
  lemma ModOfSum(k: nat, r: nat)
    requires r < 3600
    ensures (3600 * k + r) % 3600 == r
  {
  }

  lemma DigitsOnly(s: string)
    requires AllDigits(s)
    ensures 'd' !in s && ' ' !in s
  {
  }

  lemma DaysForm(seconds: nat)
    requires seconds >= 86400
    ensures 'd' in FormatUptime(Some(seconds)) && ' ' in FormatUptime(Some(seconds))
  {
    var sd, sh := IntToString(seconds / 86400), IntToString(JsRem(seconds, 86400) / 3600);
    var t := FormatUptime(Some(seconds));
    assert t == sd + "d " + sh + "h";
    assert t[|sd|] == 'd' && t[|sd| + 1] == ' ';
  }

  lemma HoursForm(seconds: nat)
    requires 3600 <= seconds < 86400
    ensures 'd' !in FormatUptime(Some(seconds)) && ' ' in FormatUptime(Some(seconds))
  {
    assert seconds / 86400 == 0 && JsRem(seconds, 86400) == seconds;
    var sh, sm := NatToString(seconds / 3600), NatToString(JsRem(seconds, 3600) / 60);
    var t := FormatUptime(Some(seconds));
    assert t == sh + ("h " + sm + "m");
    assert t[|sh| + 1] == ' ';
    DigitsOnly(sh);
    DigitsOnly(sm);
    assert 'd' !in "h " + sm + "m";
  }

  lemma MinutesForm(seconds: nat)
    requires seconds < 3600
    ensures FormatUptime(Some(seconds)) == NatToString(seconds / 60) + "m"
    ensures 'd' !in FormatUptime(Some(seconds)) && ' ' !in FormatUptime(Some(seconds))
  {
    assert seconds / 86400 == 0 && JsRem(seconds, 86400) / 3600 == 0;
    assert JsRem(seconds, 3600) == seconds;
    var sm := NatToString(seconds / 60);
    DigitsOnly(sm);
    assert FormatUptime(Some(seconds)) == sm + "m";
  }

  /** Which form the text takes: a day count from one day of uptime on, an
      hour count from one hour on, minutes only below that. */
  lemma FormatUptimeForms(seconds: nat)
    ensures var t := FormatUptime(Some(seconds));
      ('d' in t <==> seconds >= 86400) &&
      (' ' in t <==> seconds >= 3600) &&
      (seconds < 3600 ==> t == NatToString(seconds / 60) + "m")
  {
    if seconds >= 86400 {
      DaysForm(seconds);
    } else if seconds >= 3600 {
      HoursForm(seconds);
    } else {
      MinutesForm(seconds);
    }
  }

  /** A negative uptime never shows days or hours. */
  lemma NegativeUptimeInMinutes(seconds: int)
    requires seconds < 0
    ensures FormatUptime(Some(seconds)) == IntToString(JsRem(seconds, 3600) / 60) + "m"
  {
    assert JsRem(seconds, 86400) <= 0;
  }

  /** The console button of a row. */
  datatype ConsoleButton = ConsoleButton(enabled: bool, caption: string)

  function RowConsole(status: string, kind: string): (b: ConsoleButton)
    ensures b.enabled <==> status == "running"
    ensures b.caption == (if kind == "lxc" then "Terminal" else "Console")
  {
    ConsoleButton(status == "running", if kind == "lxc" then "Terminal" else "Console")
  }
}
