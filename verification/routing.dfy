/** Route paths and the query helper of frontend/src/router/paths.ts. */
module Paths {
  import opened Options
  import opened Seqs
  import opened Text

  const Login: string := "/auth/login"
  const Register: string := "/auth/register"
  const PasswordReset: string := "/auth/password-reset"
  const EmailVerification: string := "/auth/email-verification"
  const Home: string := "/"
  const DreamsList: string := "/dreams"
  const DreamsCreate: string := "/dreams/create"
  const Qualities: string := "/qualities"

  /** `AUTH_ROUTES.PASSWORD_RESET_CONFIRM(uid, token)`. */
  function PasswordResetConfirm(uid: string, token: string): string {
    "/auth/password-reset/confirm/" + uid + "/" + token
  }

  /** `AUTH_ROUTES.EMAIL_VERIFICATION_CONFIRM(key)`. */
  function EmailVerificationConfirm(key: string): string {
    "/auth/email-verification/confirm/" + key
  }

  /** `APP_ROUTES.DREAMS_EDIT(id)`, for an id already in text form. */
  function DreamsEdit(id: string): string {
    "/dreams/" + id + "/edit"
  }

  /** A `/`-free head is told apart by the first `/`: the split is unique. */
  lemma {:induction false} SlashSplitUnique(a: string, x: string, b: string, y: string)
    requires '/' !in a && '/' !in b && a + "/" + x == b + "/" + y
    ensures a == b && x == y
  {
    var s := a + "/" + x;
    FirstSlash(a, x);
    FirstSlash(b, y);
    assert |a| == |b|;
    assert a == s[..|a|];
    assert b == (b + "/" + y)[..|b|];
    assert x == s[|a| + 1..];
    assert y == (b + "/" + y)[|b| + 1..];
  }

  /** In `a + "/" + x` with a `/`-free `a`, the first `/` is the one after `a`. */
  lemma FirstSlash(a: string, x: string)
    requires '/' !in a
    ensures (a + "/" + x)[|a|] == '/'
    ensures forall j :: 0 <= j < |a| ==> (a + "/" + x)[j] != '/'
  {
  }

  /** Regrouping a four-part concatenation around its head. */
  lemma AppendAssoc3(p: string, a: string, b: string, c: string)
    ensures p + a + b + c == p + (a + b + c)
  {
  }

  /** Dropping a common prefix. */
  lemma {:induction false} StripPrefix(p: string, x: string, y: string)
    requires p + x == p + y
    ensures x == y
  {
    assert x == (p + x)[|p|..];
    assert y == (p + y)[|p|..];
  }

  /** Dropping a common suffix. */
  lemma {:induction false} StripSuffix(x: string, y: string, q: string)
    requires x + q == y + q
    ensures x == y
  {
    assert x == (x + q)[..|x|];
    assert y == (y + q)[..|y|];
  }

  /**
   * Different arguments give different paths, provided a password-reset
   * `uid` holds no "/" (otherwise "a/b" with "c" and "a" with "b/c" meet).
   */
  lemma {:induction false} BuildersInjective(u1: string, t1: string, u2: string, t2: string, k1: string, k2: string, i1: string, i2: string)
    requires '/' !in u1 && '/' !in u2
    ensures PasswordResetConfirm(u1, t1) == PasswordResetConfirm(u2, t2) ==> u1 == u2 && t1 == t2
    ensures EmailVerificationConfirm(k1) == EmailVerificationConfirm(k2) ==> k1 == k2
    ensures DreamsEdit(i1) == DreamsEdit(i2) ==> i1 == i2
  {
    var p := "/auth/password-reset/confirm/";
    if PasswordResetConfirm(u1, t1) == PasswordResetConfirm(u2, t2) {
      AppendAssoc3(p, u1, "/", t1);
      AppendAssoc3(p, u2, "/", t2);
      StripPrefix(p, u1 + "/" + t1, u2 + "/" + t2);
      SlashSplitUnique(u1, t1, u2, t2);
    }
    if EmailVerificationConfirm(k1) == EmailVerificationConfirm(k2) {
      StripPrefix("/auth/email-verification/confirm/", k1, k2);
    }
    if DreamsEdit(i1) == DreamsEdit(i2) {
      AppendAssoc("/dreams/", i1, "/edit");
      AppendAssoc("/dreams/", i2, "/edit");
      StripPrefix("/dreams/", i1 + "/edit", i2 + "/edit");
      StripSuffix(i1, i2, "/edit");
    }
  }

  /**
   * `withQuery`: the path as given and the query without the keys whose
   * value is `undefined` (here `None`).
   */
  function WithQuery(path: string, query: map<string, Option<string>>): (r: (string, map<string, string>))
    ensures r.0 == path
    ensures forall k :: k in r.1 <==> k in query && query[k].Some?
    ensures forall k :: k in r.1 ==> query[k] == Some(r.1[k])
  {
    (path, map k | k in query && query[k].Some? :: query[k].value)
  }

  /** Every value is defined. */
  function Defined(query: map<string, string>): map<string, Option<string>> {
    map k | k in query :: Some(query[k])
  }

  /** Filtering an already filtered query changes nothing. */
  lemma {:induction false} WithQueryIdempotent(path: string, query: map<string, Option<string>>)
    ensures var r := WithQuery(path, query);
      WithQuery(r.0, Defined(r.1)) == r
  {
    var r := WithQuery(path, query);
    var r2 := WithQuery(r.0, Defined(r.1));
    assert r2.1.Keys == r.1.Keys;
    assert forall k :: k in r2.1 ==> r2.1[k] == r.1[k];
    assert r2.1 == r.1;
  }
}

/** The redirect decision of the navigation guard in frontend/src/router/index.ts. */
module RouteGuard {
  import opened Options
  import opened Text
  import Paths

  predicate IsAuthRoute(path: string) {
    StartsWith(path, "/auth")
  }

  /** The sign-in pages a logged-in user has no business on. */
  predicate IsPublicAuthRoute(path: string) {
    StartsWith(path, Paths.Login) || StartsWith(path, Paths.Register) ||
    StartsWith(path, Paths.PasswordReset) || StartsWith(path, Paths.EmailVerification)
  }

  /** A public auth route is an auth route. */
  lemma {:induction false} PublicIsAuth(path: string)
    ensures IsPublicAuthRoute(path) ==> IsAuthRoute(path)
  {
    if IsPublicAuthRoute(path) {
      var n := if StartsWith(path, Paths.Login) then |Paths.Login|
        else if StartsWith(path, Paths.Register) then |Paths.Register|
        else if StartsWith(path, Paths.PasswordReset) then |Paths.PasswordReset|
        else |Paths.EmailVerification|;
      assert path[..n][..5] == path[..5];
    }
  }

  /** `beforeEach`: the redirect target, or `None` to let the navigation through. */
  function Guard(path: string, authenticated: bool): (r: Option<string>)
    ensures !authenticated && !IsAuthRoute(path) ==> r == Some(Paths.Login)
    ensures !authenticated && IsAuthRoute(path) ==> r == None
    ensures authenticated && IsPublicAuthRoute(path) ==> r == Some(Paths.Home)
    ensures authenticated && !IsPublicAuthRoute(path) ==> r == None
  {
    PublicIsAuth(path);
    if !IsAuthRoute(path) && !authenticated then Some(Paths.Login)
    else if IsAuthRoute(path) && authenticated && IsPublicAuthRoute(path) then Some(Paths.Home)
    else None
  }

  /** A redirect never leads to another redirect: the target is let through. */
  lemma {:induction false} NoRedirectLoop(path: string, authenticated: bool)
    ensures Guard(path, authenticated).Some? ==> Guard(Guard(path, authenticated).value, authenticated) == None
  {
    assert Paths.Login[..5] == "/auth";
    assert !StartsWith(Paths.Home, "/auth");
    assert !IsPublicAuthRoute(Paths.Home);
  }

  /**
   * The confirmation links mailed to users are open without logging in, and
   * send a logged-in user home.
   */
  lemma {:induction false} ConfirmationLinks(uid: string, token: string, key: string)
    ensures Guard(Paths.PasswordResetConfirm(uid, token), false) == None
    ensures Guard(Paths.PasswordResetConfirm(uid, token), true) == Some(Paths.Home)
    ensures Guard(Paths.EmailVerificationConfirm(key), false) == None
    ensures Guard(Paths.EmailVerificationConfirm(key), true) == Some(Paths.Home)
  {
    var p := Paths.PasswordResetConfirm(uid, token);
    assert p[..|Paths.PasswordReset|] == Paths.PasswordReset;
    var e := Paths.EmailVerificationConfirm(key);
    assert e[..|Paths.EmailVerification|] == Paths.EmailVerification;
  }
}

/** `getCsrfTokenFromCookie` of frontend/src/stores/csrf.ts. */
module Csrf {
  import opened Options
  import opened Text

  const Prefix: string := "csrftoken="

  /** The trimmed piece starts with `csrftoken=`. */
  predicate CarriesToken(piece: string) {
    StartsWith(Trim(piece), Prefix)
  }

  /** The first index from `from` on whose element satisfies `p`. */
  function FirstWhere(pieces: seq<string>, p: string -> bool, from: nat): (r: Option<nat>)
    requires from <= |pieces|
    ensures r.Some? ==> (from <= r.value < |pieces| && p(pieces[r.value]) &&
      forall k :: from <= k < r.value ==> !p(pieces[k]))
    ensures r.None? ==> forall k :: from <= k < |pieces| ==> !p(pieces[k])
    decreases |pieces| - from
  {
    if from == |pieces| then None
    else if p(pieces[from]) then Some(from)
    else FirstWhere(pieces, p, from + 1)
  }

  /** The first piece that, once trimmed, starts with `csrftoken=`. */
  function FirstMatch(pieces: seq<string>): (r: Option<nat>)
    ensures r.Some? ==> (r.value < |pieces| && CarriesToken(pieces[r.value]) &&
      forall k :: 0 <= k < r.value ==> !CarriesToken(pieces[k]))
    ensures r.None? ==> forall k :: 0 <= k < |pieces| ==> !CarriesToken(pieces[k])
  {
    FirstWhere(pieces, CarriesToken, 0)
  }

  /**
   * The token of `document.cookie`: `None` for an empty cookie string or
   * when no piece carries the token, else the decoded rest of the first
   * piece that does. `decode` stands for `decodeURIComponent`.
   */
  function CsrfToken(cookie: string, decode: string -> string): (r: Option<string>)
    ensures cookie == [] ==> r == None
    ensures cookie != [] && FirstMatch(Split(cookie, ';')).None? ==> r == None
    ensures cookie != [] && FirstMatch(Split(cookie, ';')).Some? ==>
      var t := Trim(Split(cookie, ';')[FirstMatch(Split(cookie, ';')).value]);
      r == Some(decode(t[|Prefix|..]))
  {
    if cookie == [] then None
    else
      var pieces := Split(cookie, ';');
      match FirstMatch(pieces)
      case None => None
      case Some(i) => Some(decode(Trim(pieces[i])[|Prefix|..]))
  }

  /** The match is on the trimmed piece's start: a longer name ending in `csrftoken=` does not match. */
  lemma {:induction false} PrefixExact(name: string, value: string)
    requires name != [] && !IsSpace(name[0]) && '=' !in name
    ensures !CarriesToken(name + Prefix + value)
  {
    var s := name + Prefix + value;
    TrimNoLeadingSpace(s);
    PrefixNotAtStart(name, value);
    var t := Trim(s);
    assert |Prefix| <= |t| ==> t[..|Prefix|] == s[..|Prefix|];
  }

  /** A non-empty name without `=` in front of `csrftoken=` keeps the string from starting with it. */
  lemma {:induction false} PrefixNotAtStart(name: string, value: string)
    requires name != [] && '=' !in name
    ensures var s := name + Prefix + value;
      |Prefix| <= |s| && s[..|Prefix|] != Prefix
  {
    var s := name + Prefix + value;
    var n := |name|;
    if n >= |Prefix| {
      assert s[..|Prefix|][|Prefix| - 1] == name[|Prefix| - 1] != '=';
      assert Prefix[|Prefix| - 1] == '=';
    } else {
      assert s[..|Prefix|][n] == 'c';
      assert forall j :: 1 <= j < |Prefix| ==> Prefix[j] != 'c';
    }
  }

  /** Trimming a string that starts with a non-space keeps its start. */
  lemma {:induction false} TrimNoLeadingSpace(s: string)
    requires s != [] && !IsSpace(s[0])
    ensures |Trim(s)| <= |s| && Trim(s) == s[..|Trim(s)|]
  {
    assert TrimStart(s) == s;
  }

  /**
   * A cookie string assembled from `;`-free pieces gives the decoded value
   * of the first piece that is `csrftoken=` followed by the value.
   */
  lemma {:induction false} TokenOfJoinedCookie(pieces: seq<string>, i: nat, v: string, decode: string -> string)
    requires i < |pieces|
    requires forall k :: 0 <= k < |pieces| ==> ';' !in pieces[k]
    requires Trim(pieces[i]) == Prefix + v
    requires forall k :: 0 <= k < i ==> !CarriesToken(pieces[k])
    ensures CsrfToken(Join(pieces, ";"), decode) == Some(decode(v))
  {
    var cookie := Join(pieces, ";");
    JoinEmpty(pieces, ";");
    assert pieces[i] != [];
    SplitJoin(pieces, ';');
    assert Split(cookie, ';') == pieces;
    assert CarriesToken(pieces[i]);
    var m := FirstMatch(pieces).value;
    assert m == i;
    assert (Prefix + v)[|Prefix|..] == v;
  }
}
