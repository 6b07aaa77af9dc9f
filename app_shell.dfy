/**
 * The App component (frontend/src/App.jsx): the authentication bootstrap.
 * Its state is the pair of flags `authChecked` and `isAuth` together with the
 * two tokens in localStorage. Four things move it: the initial check when the
 * app mounts, the ATLAS_AUTH_COMPLETE message handler, logout, and, reading
 * it only, the ProtectedRoute decision.
 *
 * Each transition is a function on a `Session` value; the `App` class performs
 * the same transition step by step on its fields and on the storage object.
 */
module AppShell {
  import opened Wrappers
  import opened JsValues
  import opened TokenUtils
  import opened AuthIframe

  /** The App state together with what localStorage holds. */
  datatype Session = Session(authChecked: bool, isAuth: bool, tokens: StoredTokens)

  const NoTokens := StoredTokens(None, None)

  /** The state the App keeps consistent: it is authenticated only with both tokens stored. */
  predicate SessionOk(s: Session) {
    s.isAuth ==> Present(s.tokens.access) && Present(s.tokens.refresh)
  }

  predicate BothPresent(t: StoredTokens) {
    Present(t.access) && Present(t.refresh)
  }

  // ---- The initial check ----

  /**
   * The effect that runs on mount, at time `now` (milliseconds). `parse` is the
   * decoding after atob, as in checkTokenValidity; a decoding that throws and a
   * missing `exp` both end with the tokens removed.
   */
  function InitialCheck(s: Session, parse: PayloadParser, now: int): (t: Session)
    ensures t.authChecked && SessionOk(t)
    ensures !BothPresent(s.tokens) ==> !t.isAuth && t.tokens == s.tokens
    ensures BothPresent(s.tokens) ==> t.isAuth == CheckTokenValidity(s.tokens.access, parse, now)
    ensures t.isAuth ==> t.tokens == s.tokens
    ensures BothPresent(s.tokens) && !t.isAuth ==> t.tokens == NoTokens
  {
    if !BothPresent(s.tokens) then Session(true, false, s.tokens)
    else match DecodePayload(s.tokens.access.value, parse)
      case None => Session(true, false, NoTokens)
      case Some(claims) =>
        var isAuthenticated := claims.exp.Some? && now < claims.exp.value * 1000;
        Session(true, isAuthenticated, if isAuthenticated then s.tokens else NoTokens)
  }

  /** A payload that fails to decode clears both tokens. */
  lemma UndecodableTokenIsCleared(s: Session, parse: PayloadParser, now: int)
    requires BothPresent(s.tokens) && DecodePayload(s.tokens.access.value, parse) == None
    ensures InitialCheck(s, parse, now) == Session(true, false, NoTokens)
  {
  }

  /** The check is stable: running it again at the same time changes nothing more. */
  lemma InitialCheckIsIdempotent(s: Session, parse: PayloadParser, now: int)
    ensures InitialCheck(InitialCheck(s, parse, now), parse, now) == InitialCheck(s, parse, now)
  {
  }

  // ---- ATLAS_AUTH_COMPLETE ----

  /** The body of the POST /register call the handler makes to link the user. */
  datatype LinkRequest = LinkRequest(externalUserId: JsValue, email: JsValue, username: JsValue)

  /** What handleAuthComplete decides from the message alone. */
  datatype CompletePlan =
    | NotComplete       // a message of another type: ignored
    | CompleteFault     // the data is undefined or null: reading `type` throws, nothing changes
    | MissingTokens     // an error notification, nothing changes
    | SaveTokens(access: JsValue, refresh: JsValue, link: Option<LinkRequest>)

  function PlanAuthComplete(data: JsValue): (p: CompletePlan)
    ensures p.SaveTokens? <==>
      !ReadThrows(data) && TypeIs(data, AuthCompleteType) && HasBothTokens(Get(data, "tokens"))
    ensures p.SaveTokens? ==>
      && p.access == Get(Get(data, "tokens"), "access_token")
      && p.refresh == Get(Get(data, "tokens"), "refresh_token")
    // The link call is planned exactly when the user carries an id and an email.
    ensures p.SaveTokens? ==> (p.link.Some? <==> UsableUser(Get(data, "user")))
    ensures p.SaveTokens? && p.link.Some? ==>
      var user := Get(data, "user");
      p.link.value == LinkRequest(Get(user, "id"), Get(user, "email"), Get(user, "username"))
  {
    if ReadThrows(data) then CompleteFault
    else if Get(data, "type") != JsString(AuthCompleteType) then NotComplete
    else
      var tokens := Get(data, "tokens");
      var user := Get(data, "user");
      if !(Truthy(Get(tokens, "access_token")) && Truthy(Get(tokens, "refresh_token"))) then MissingTokens
      else
        var link :=
          if Truthy(user) && Truthy(Get(user, "id")) && Truthy(Get(user, "email"))
          then Some(LinkRequest(Get(user, "id"), Get(user, "email"), Get(user, "username")))
          else None;
        SaveTokens(Get(tokens, "access_token"), Get(tokens, "refresh_token"), link)
  }

  /**
   * handleAuthComplete for `data`. `linkSucceeds` says whether the link call
   * resolves; it matters only when the plan makes one.
   */
  function AfterAuthComplete(s: Session, data: JsValue, linkSucceeds: bool): (t: Session)
    ensures t.authChecked == s.authChecked
    ensures SessionOk(s) ==> SessionOk(t)
    ensures !PlanAuthComplete(data).SaveTokens? ==> t == s
    ensures var p := PlanAuthComplete(data);
      p.SaveTokens? && (p.link.None? || linkSucceeds) ==>
        t.isAuth && t.tokens == StoredTokens(Some(ToText(p.access)), Some(ToText(p.refresh)))
        && BothPresent(t.tokens)
    // Rollback: a failed link call leaves no tokens behind.
    ensures var p := PlanAuthComplete(data);
      p.SaveTokens? && p.link.Some? && !linkSucceeds ==> !t.isAuth && t.tokens == NoTokens
  {
    match PlanAuthComplete(data)
    case SaveTokens(access, refresh, link) =>
      if link.Some? && !linkSucceeds then Session(s.authChecked, false, NoTokens)
      else Session(s.authChecked, true, StoredTokens(Some(ToText(access)), Some(ToText(refresh))))
    case _ => s
  }

  /** The same message handled twice leaves the state of handling it once. */
  lemma AuthCompleteIsIdempotent(s: Session, data: JsValue, linkSucceeds: bool)
    ensures AfterAuthComplete(AfterAuthComplete(s, data, linkSucceeds), data, linkSucceeds)
         == AfterAuthComplete(s, data, linkSucceeds)
  {
  }

  /**
   * What the iframe forwards, the App accepts: both tokens are saved, the link
   * call is made exactly for a usable user, carrying its id, email and the
   * defaulted username, and a login without a user ends authenticated.
   */
  lemma ForwardedMessageIsAccepted(origin: string, data: JsValue, s: Session, linkSucceeds: bool)
    requires ClassifyMessage(origin, data).Forward?
    ensures var p := PlanAuthComplete(ClassifyMessage(origin, data).message);
      var user := Get(data, "user");
      && p.SaveTokens?
      && p.access == Get(Get(data, "tokens"), "access_token")
      && p.refresh == Get(Get(data, "tokens"), "refresh_token")
      && (p.link.Some? <==> UsableUser(user))
      && (p.link.Some? ==> p.link.value == LinkRequest(
            Get(user, "id"), Get(user, "email"),
            if Truthy(Get(user, "username")) then Get(user, "username") else JsString("")))
    ensures !UsableUser(Get(data, "user")) ==>
      AfterAuthComplete(s, ClassifyMessage(origin, data).message, linkSucceeds).isAuth
  {
    var m := ClassifyMessage(origin, data).message;
    var user := Get(data, "user");
    assert Get(m, "type") == JsString(AuthCompleteType);
    assert Get(m, "tokens") == Get(data, "tokens");
    if UsableUser(user) {
      assert Get(m, "user") == ForwardedUser(user);
    } else {
      assert Get(m, "user") == Null;
    }
  }

  /**
   * The handler does not look at the sender: any window that posts a complete
   * message with two non-empty tokens and no user logs the App in with them.
   */
  lemma UncheckedSenderLogsIn(s: Session, tokens: JsValue, linkSucceeds: bool)
    requires HasBothTokens(tokens)
    ensures var t := AfterAuthComplete(s, CompleteMessage(tokens, Null), linkSucceeds);
      t.isAuth && t.tokens == StoredTokens(
        Some(ToText(Get(tokens, "access_token"))), Some(ToText(Get(tokens, "refresh_token"))))
  {
    var m := CompleteMessage(tokens, Null);
    assert Get(m, "type") == JsString(AuthCompleteType);
    assert Get(m, "tokens") == tokens;
    assert Get(m, "user") == Null;
  }

  // ---- Logout ----

  function AfterLogout(s: Session): (t: Session)
    ensures SessionOk(t) && !t.isAuth && t.tokens == NoTokens && t.authChecked == s.authChecked
  {
    Session(s.authChecked, false, NoTokens)
  }

  lemma LogoutIsIdempotent(s: Session)
    ensures AfterLogout(AfterLogout(s)) == AfterLogout(s)
  {
  }

  // ---- ProtectedRoute ----

  datatype RouteView = Spinner | RedirectToLogin | RenderChildren

  /** ProtectedRoute's choice of view. */
  function ProtectedRoute(s: Session): (v: RouteView)
    ensures v == Spinner <==> !s.authChecked
    ensures v == RenderChildren <==> s.authChecked && s.isAuth
  {
    if !s.authChecked then Spinner
    else if !s.isAuth then RedirectToLogin
    else RenderChildren
  }

  /** In a consistent state, protected pages render only with both tokens stored. */
  lemma ChildrenOnlyWithStoredTokens(s: Session)
    requires SessionOk(s) && ProtectedRoute(s) == RenderChildren
    ensures BothPresent(s.tokens)
  {
  }

  /** Until the initial check has run, protected pages show the spinner. */
  lemma SpinnerUntilChecked(isAuth: bool, tokens: StoredTokens)
    ensures ProtectedRoute(Session(false, isAuth, tokens)) == Spinner
  {
  }

  /**
   * After the initial check a protected page renders exactly when both tokens
   * are stored and the access token passes checkTokenValidity; otherwise it
   * redirects to the login page.
   */
  lemma RouteAfterInitialCheck(s: Session, parse: PayloadParser, now: int)
    ensures ProtectedRoute(InitialCheck(s, parse, now)) ==
      if BothPresent(s.tokens) && CheckTokenValidity(s.tokens.access, parse, now)
      then RenderChildren else RedirectToLogin
  {
  }

  /** After logout a checked App sends protected pages to the login page. */
  lemma LogoutRedirects(s: Session)
    requires s.authChecked
    ensures ProtectedRoute(AfterLogout(s)) == RedirectToLogin
  {
  }

  // ---- The component ----

  class App {
    var authChecked: bool
    var isAuth: bool
    const storage: LocalStorage

    function State(): Session
      reads this, storage
    {
      Session(authChecked, isAuth, storage.Tokens())
    }

    constructor (storage: LocalStorage)
      ensures this.storage == storage && !authChecked && !isAuth
    {
      this.storage := storage;
      authChecked := false;
      isAuth := false;
    }

    /** The mount effect. */
    method InitialAuthCheck(parse: PayloadParser, now: int)
      modifies this, storage
      ensures State() == InitialCheck(old(State()), parse, now)
    {
      var accessToken := storage.accessToken;
      var refreshToken := storage.refreshToken;
      if !Present(accessToken) || !Present(refreshToken) {
        authChecked := true;
        isAuth := false;
        return;
      }
      var decoded := DecodePayload(accessToken.value, parse);
      if decoded.None? {
        storage.RemoveItem(AccessTokenKey);
        storage.RemoveItem(RefreshTokenKey);
        isAuth := false;
      } else {
        var isAuthenticated := decoded.value.exp.Some? && now < decoded.value.exp.value * 1000;
        isAuth := isAuthenticated;
        if !isAuthenticated {
          storage.RemoveItem(AccessTokenKey);
          storage.RemoveItem(RefreshTokenKey);
        }
      }
      authChecked := true;
    }

    /**
     * handleAuthComplete, for a message from any origin. Returns the link
     * call it made, if any; `linkSucceeds` is that call's outcome.
     */
    method HandleAuthComplete(data: JsValue, linkSucceeds: bool) returns (linkCall: Option<LinkRequest>)
      modifies this, storage
      ensures State() == AfterAuthComplete(old(State()), data, linkSucceeds)
      ensures linkCall == if PlanAuthComplete(data).SaveTokens? then PlanAuthComplete(data).link else None
    {
      linkCall := None;
      if ReadThrows(data) || Get(data, "type") != JsString(AuthCompleteType) {
        return;
      }
      var tokens := Get(data, "tokens");
      var user := Get(data, "user");
      if Truthy(Get(tokens, "access_token")) && Truthy(Get(tokens, "refresh_token")) {
        storage.SetItem(AccessTokenKey, Get(tokens, "access_token"));
        storage.SetItem(RefreshTokenKey, Get(tokens, "refresh_token"));
      } else {
        return;
      }
      var failed := false;
      if Truthy(user) && Truthy(Get(user, "id")) && Truthy(Get(user, "email")) {
        linkCall := Some(LinkRequest(Get(user, "id"), Get(user, "email"), Get(user, "username")));
        failed := !linkSucceeds;
      }
      if !failed {
        isAuth := true;
      } else {
        storage.RemoveItem(AccessTokenKey);
        storage.RemoveItem(RefreshTokenKey);
        isAuth := false;
      }
    }

    method HandleLogout()
      modifies this, storage
      ensures State() == AfterLogout(old(State()))
    {
      storage.RemoveItem(AccessTokenKey);
      storage.RemoveItem(RefreshTokenKey);
      isAuth := false;
    }
  }
}
