/**
 * The two middleware guards, `ensureAuth` (server.js:94-109) and
 * `ensureAdmin` (server.js:111-120), as decisions over the request.
 */
module Guards {
  import opened Common
  import opened Js
  import opened Principal
  import opened Http

  /**
   * The parts of a request the guards look at: the session's user (present
   * exactly when `req.isAuthenticated()`), `req.xhr`, and the Accept and
   * Content-Type headers, each of which may be missing.
   */
  datatype Request = Request(user: Option<User>, xhr: bool, accept: Option<string>, contentType: Option<string>)

  /** The client asks for JSON: an XHR, an Accept header mentioning "json", or a JSON body. */
  ghost predicate WantsJson(req: Request)
  {
    || req.xhr
    || (req.accept.Some? && Contains(req.accept.value, "json"))
    || req.contentType == Some("application/json")
  }

  /**
   * `ensureAuth` as written: when the request is neither authenticated nor an XHR,
   * `req.headers.accept.indexOf` is evaluated even if there is no Accept header,
   * and the resulting TypeError reaches Express's error handler.
   */
  function EnsureAuthAsWritten(req: Request): (g: Gate)
    ensures g == Next <==> req.user.Some?
    ensures g == Halt(Uncaught) <==> req.user.None? && !req.xhr && req.accept.None?
  {
    if req.user.Some? then Next
    else if req.xhr then Halt(LoginRequired)
    else if req.accept.None? then Halt(Uncaught)
    else if IndexOf(req.accept.value, "json") > -1 || req.contentType == Some("application/json") then
      Halt(LoginRequired)
    else Halt(Redirect(LoginPath))
  }

  /** A browser-style request with no Accept header crashes the as-written guard. */
  lemma MissingAcceptCrashes()
    ensures EnsureAuthAsWritten(Request(None, false, None, None)) == Halt(Uncaught)
  {
  }

  /**
   * `ensureAuth`, with a missing Accept header read as one that does not ask for
   * JSON: authenticated requests proceed, JSON clients get 401, everyone else is
   * redirected to the login page.
   */
  function EnsureAuth(req: Request): (g: Gate)
    ensures g == Next <==> req.user.Some?
    ensures g == Halt(LoginRequired) <==> req.user.None? && WantsJson(req)
    ensures g == Halt(Redirect(LoginPath)) <==> req.user.None? && !WantsJson(req)
  {
    if req.user.Some? then Next
    else if || req.xhr
            || (req.accept.Some? && IndexOf(req.accept.value, "json") > -1)
            || req.contentType == Some("application/json") then
      Halt(LoginRequired)
    else Halt(Redirect(LoginPath))
  }

  /** The corrected guard differs from the code only on the inputs where the code crashes. */
  lemma EnsureAuthCorrection(req: Request)
    ensures EnsureAuthAsWritten(req) != Halt(Uncaught) ==> EnsureAuthAsWritten(req) == EnsureAuth(req)
    ensures EnsureAuthAsWritten(req) == Halt(Uncaught) <==>
              req.user.None? && !req.xhr && req.accept.None?
    ensures EnsureAuthAsWritten(req) == Halt(Uncaught) ==>
              EnsureAuth(req) == if req.contentType == Some("application/json") then Halt(LoginRequired)
                                 else Halt(Redirect(LoginPath))
  {
  }

  // ---------------------------------------------------------------------
  // ensureAdmin

  /** `process.env.ADMIN_EMAILS || ''` */
  function ConfigOrEmpty(adminEmails: Option<string>): string
  {
    match adminEmails
    case Some(s) => s
    case None => ""
  }

  /**
   * The configured entries, split on commas, each trimmed and lower-cased: at
   * least one entry, and none holding a comma or an upper-case letter.
   */
  function AdminList(adminEmails: Option<string>): (list: seq<string>)
    ensures |list| >= 1
    ensures forall i :: 0 <= i < |list| ==> ',' !in list[i]
    ensures forall i, k :: 0 <= i < |list| && 0 <= k < |list[i]| ==> !IsUpperAscii(list[i][k])
  {
    var entries := Split(ConfigOrEmpty(adminEmails), ',');
    var list := seq(|entries|, i requires 0 <= i < |entries| => ToLower(Trim(entries[i])));
    forall i | 0 <= i < |list| ensures ',' !in list[i] {
      NoCommaAfterLower(entries[i]);
    }
    list
  }

  /** An entry of a comma split keeps no comma through `trim` and `toLowerCase`. */
  lemma NoCommaAfterLower(entry: string)
    requires ',' !in entry
    ensures ',' !in ToLower(Trim(entry))
  {
    var t := Trim(entry);
    if ',' in t {
      TrimChars(entry, ',');
    }
  }

  /** `(req.user.email || '').toLowerCase()` */
  function NormalizedEmail(user: User): string
  {
    match user.email
    case Some(e) => ToLower(e)
    case None => ""
  }

  /** The user's lower-cased e-mail equals some trimmed, lower-cased entry of the configuration. */
  ghost predicate IsListedAdmin(user: User, adminEmails: Option<string>)
  {
    var entries := Split(ConfigOrEmpty(adminEmails), ',');
    exists i :: 0 <= i < |entries| && NormalizedEmail(user) == ToLower(Trim(entries[i]))
  }

  /**
   * `ensureAdmin`: unauthenticated requests are redirected before the list is
   * read; a listed user proceeds; any other user gets 403.
   */
  function EnsureAdmin(req: Request, adminEmails: Option<string>): (g: Gate)
    ensures req.user.None? ==> g == Halt(Redirect(LoginPath))
    ensures req.user.Some? ==> (g == Next <==> IsListedAdmin(req.user.value, adminEmails))
    ensures req.user.Some? && !IsListedAdmin(req.user.value, adminEmails) ==> g == Halt(AdminOnly)
  {
    if req.user.None? then Halt(Redirect(LoginPath))
    else
      var list := AdminList(adminEmails);
      var email := NormalizedEmail(req.user.value);
      if email in list then Next
      else
        assert !IsListedAdmin(req.user.value, adminEmails) by {
          var entries := Split(ConfigOrEmpty(adminEmails), ',');
          forall i | 0 <= i < |entries| ensures email != ToLower(Trim(entries[i])) {
            assert list[i] == ToLower(Trim(entries[i]));
          }
        }
        Halt(AdminOnly)
  }

  /** With ADMIN_EMAILS unset or empty the list is `['']`. */
  lemma {:induction false} AdminListUnset(adminEmails: Option<string>)
    requires adminEmails.None? || adminEmails == Some("")
    ensures AdminList(adminEmails) == [""]
  {
    assert ConfigOrEmpty(adminEmails) == "";
    assert Split("", ',') == [""];
    TrimOfTrimmed("");
  }

  /** ... so with ADMIN_EMAILS unset only a signed-in user without an e-mail passes. */
  lemma {:induction false} EnsureAdminUnset(req: Request)
    ensures EnsureAdmin(req, None) == Next <==>
              req.user.Some? && (req.user.value.email.None? || req.user.value.email == Some(""))
  {
    AdminListUnset(None);
    if req.user.Some? && req.user.value.email.Some? {
      ToLowerEmpty(req.user.value.email.value);
    }
  }

  /** The check ignores case in the user's e-mail. */
  lemma EnsureAdminIgnoresCase(req: Request, other: string, adminEmails: Option<string>)
    requires req.user.Some? && req.user.value.email.Some?
    requires ToLower(other) == ToLower(req.user.value.email.value)
    ensures EnsureAdmin(req.(user := Some(req.user.value.(email := Some(other)))), adminEmails)
            == EnsureAdmin(req, adminEmails)
  {
  }
}
