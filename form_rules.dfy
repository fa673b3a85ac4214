// The length rules the browser forms share, and how they compare with the
// backend's password rule (backend/app/models/user.py). A form counts UTF-16
// code units, as a JavaScript string length does; the backend counts
// characters.
module FormRules {
  import opened Prelude
  import opened Utf8
  import UserModel

  /** `.min(1, required).min(min, short)` on a string: both findings for
      an empty value, the second alone for a short one. */
  function MinIssues<I>(s: string, min: nat, required: I, short: I): (r: seq<I>)
    requires min >= 1
    ensures r == [] <==> Utf16Len(s) >= min
    ensures |r| == 2 <==> s == []
  {
    Utf16LenBounds(s);
    When(Utf16Len(s) < 1, required) + When(Utf16Len(s) < min, short)
  }

  /** The first finding is shown exactly for an empty value, the second
      exactly for one shorter than `min`. */
  lemma MinIssuesShown<I>(s: string, min: nat, required: I, short: I, x: I)
    requires min >= 1
    ensures x in MinIssues(s, min, required, short) <==>
      (x == required && s == []) || (x == short && Utf16Len(s) < min)
  {
    Utf16LenBounds(s);
  }

  /** The routes only guests may see send a signed-in visitor home. */
  function GuestOnly(loggedIn: bool): (r: Option<string>)
    ensures r.Some? <==> loggedIn
    ensures r.Some? ==> r.value == "/"
  {
    if loggedIn then Some("/") else None
  }

  /** Every password the backend accepts passes a form's rule of at least
      8 code units. */
  lemma BackendPasswordPassesForm(p: string)
    requires UserModel.PasswordOk(p)
    ensures Utf16Len(p) >= 8
  {
    Utf16LenBounds(p);
  }

  /** An ASCII password of 8 to 128 code units that a form accepts is one
      the backend accepts. */
  lemma AsciiFormPasswordPassesBackend(p: string)
    requires Utf16Len(p) >= 8 && IsAscii(p) && |p| <= 128
    ensures UserModel.PasswordOk(p)
  {
    Utf16LenAscii(p);
  }

  const Grin: char := '\U{1F600}'

  /** Four emoji pass a form's rule but are four characters for the
      backend, which refuses them. */
  lemma AstralPasswordRefused()
    ensures var p := [Grin, Grin, Grin, Grin];
      Utf16Len(p) == 8 && !UserModel.PasswordOk(p)
  {
    Utf16LenAstral([Grin, Grin, Grin, Grin]);
  }
}
