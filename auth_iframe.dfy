/**
 * The AuthIframe component (frontend/src/components/AuthIframe.jsx): it hosts
 * the identity provider's page in an iframe and turns the provider's messages
 * into an ATLAS_AUTH_COMPLETE message for the App, keeping two pieces of
 * component state, the iframe height and a processing flag.
 */
module AuthIframe {
  import opened Wrappers
  import opened JsValues

  /** The only origin whose messages are acted on. */
  const AtlasOrigin := "https://atlas.appweb.space"

  const HeightType := "ATLAS_IFRAME_HEIGHT"
  const AuthSuccessType := "ATLAS_AUTH_SUCCESS"
  const RegisterSuccessType := "ATLAS_REGISTER_SUCCESS"
  const AuthErrorType := "ATLAS_AUTH_ERROR"
  const AuthCompleteType := "ATLAS_AUTH_COMPLETE"

  const InitialHeight := 400
  const UnknownErrorText := "Unknown error from Atlas"

  /** What handleMessage does with one message event. */
  datatype IframeAction =
    | DropForeign              // the origin is not the provider's: a console warning only
    | Fault                    // the data is undefined or null, so reading its `type` throws
    | Resize(height: JsValue)  // ATLAS_IFRAME_HEIGHT
    | RejectMissingTokens      // a success message without both tokens: alert
    | RejectMissingUser        // a registration without user id and email: alert
    | Forward(message: JsValue)  // post ATLAS_AUTH_COMPLETE to the parent window
    | ReportError(alert: string) // ATLAS_AUTH_ERROR: alert
    | IgnoreUnknown            // any other type: a console warning only

  predicate TypeIs(data: JsValue, t: string) {
    Get(data, "type") == JsString(t)
  }

  predicate IsSuccessType(data: JsValue) {
    TypeIs(data, AuthSuccessType) || TypeIs(data, RegisterSuccessType)
  }

  /** `tokens?.access_token && tokens?.refresh_token` */
  predicate HasBothTokens(tokens: JsValue) {
    Truthy(Get(tokens, "access_token")) && Truthy(Get(tokens, "refresh_token"))
  }

  /** `user?.id && user?.email` */
  predicate UsableUser(user: JsValue) {
    Truthy(Get(user, "id")) && Truthy(Get(user, "email"))
  }

  /** The user sent on: id, email and a username defaulting to the empty string. */
  function ForwardedUser(user: JsValue): (u: JsValue)
    ensures u.JsObject? && u.props.Keys == {"id", "email", "username"}
    ensures Get(u, "id") == Get(user, "id") && Get(u, "email") == Get(user, "email")
    ensures Get(u, "username") == if Truthy(Get(user, "username")) then Get(user, "username") else JsString("")
  {
    JsObject(map[
      "id" := Get(user, "id"),
      "email" := Get(user, "email"),
      "username" := Or(Get(user, "username"), JsString(""))])
  }

  function CompleteMessage(tokens: JsValue, user: JsValue): JsValue {
    JsObject(map["type" := JsString(AuthCompleteType), "tokens" := tokens, "user" := user])
  }

  function ErrorAlert(data: JsValue): string {
    "Authentication failed: " + ToText(Or(Get(Get(data, "error"), "message"), JsString(UnknownErrorText)))
  }

  /** handleMessage's decision for a message from `origin` carrying `data`. */
  function ClassifyMessage(origin: string, data: JsValue): (a: IframeAction)
    // Origin pinning comes first: any other origin is dropped, whatever the data.
    ensures a == DropForeign <==> origin != AtlasOrigin
    // Only the provider's height message resizes, to the height it carries.
    ensures a.Resize? <==> origin == AtlasOrigin && TypeIs(data, HeightType)
    ensures a.Resize? ==> a.height == Get(data, "height")
    // A success message without both tokens is rejected.
    ensures a == RejectMissingTokens <==>
      origin == AtlasOrigin && IsSuccessType(data) && !HasBothTokens(Get(data, "tokens"))
    // A registration needs the user's id and email.
    ensures a == RejectMissingUser <==>
      origin == AtlasOrigin && TypeIs(data, RegisterSuccessType)
      && HasBothTokens(Get(data, "tokens")) && !UsableUser(Get(data, "user"))
    // Something is posted only for a success message from the provider with both tokens.
    ensures a.Forward? ==>
      origin == AtlasOrigin && IsSuccessType(data) && HasBothTokens(Get(data, "tokens"))
    // ... and every such message with a usable user, or a login without one, is forwarded.
    ensures (&& origin == AtlasOrigin && IsSuccessType(data) && HasBothTokens(Get(data, "tokens"))
             && (UsableUser(Get(data, "user")) || TypeIs(data, AuthSuccessType))) ==> a.Forward?
    ensures a.Forward? ==> a.message == CompleteMessage(
      Get(data, "tokens"),
      if UsableUser(Get(data, "user")) then ForwardedUser(Get(data, "user")) else Null)
    // A null user is forwarded only for a login.
    ensures a.Forward? && !UsableUser(Get(data, "user")) ==> TypeIs(data, AuthSuccessType)
  {
    if origin != AtlasOrigin then DropForeign
    else if ReadThrows(data) then Fault
    else if TypeIs(data, HeightType) then Resize(Get(data, "height"))
    else if IsSuccessType(data) then
      var tokens := Get(data, "tokens");
      var user := Get(data, "user");
      if !HasBothTokens(tokens) then RejectMissingTokens
      else if UsableUser(user) then Forward(CompleteMessage(tokens, ForwardedUser(user)))
      else if TypeIs(data, RegisterSuccessType) then RejectMissingUser
      else Forward(CompleteMessage(tokens, Null))
    else if TypeIs(data, AuthErrorType) then ReportError(ErrorAlert(data))
    else IgnoreUnknown
  }

  /** AUTH_SUCCESS with both tokens and no usable user forwards a null user. */
  lemma LoginWithoutUserForwardsNull(data: JsValue)
    requires TypeIs(data, AuthSuccessType) && HasBothTokens(Get(data, "tokens")) && !UsableUser(Get(data, "user"))
    ensures ClassifyMessage(AtlasOrigin, data) == Forward(CompleteMessage(Get(data, "tokens"), Null))
  {
  }

  /** Error reports and unknown types from the provider post nothing and change no height. */
  lemma ErrorsAndUnknownTypesPostNothing(data: JsValue)
    requires !ReadThrows(data) && !TypeIs(data, HeightType) && !IsSuccessType(data)
    ensures TypeIs(data, AuthErrorType) ==> ClassifyMessage(AtlasOrigin, data) == ReportError(ErrorAlert(data))
    ensures !TypeIs(data, AuthErrorType) ==> ClassifyMessage(AtlasOrigin, data) == IgnoreUnknown
  {
  }

  /** The AuthIframe component's state. */
  class AuthIframeState {
    var iframeHeight: JsValue
    var isProcessing: bool

    constructor ()
      ensures iframeHeight == JsNumber(InitialHeight) && !isProcessing
    {
      iframeHeight := JsNumber(InitialHeight);
      isProcessing := false;
    }

    /** handleMessage: the state it leaves and the message it posts to the parent, if any. */
    method HandleMessage(origin: string, data: JsValue) returns (posted: Option<JsValue>)
      modifies this
      ensures var a := ClassifyMessage(origin, data);
        && posted == (if a.Forward? then Some(a.message) else None)
        && iframeHeight == (if a.Resize? then a.height else old(iframeHeight))
        && isProcessing == (if a.RejectMissingTokens? || a.RejectMissingUser? || a.Forward? || a.ReportError?
                            then false else old(isProcessing))
    {
      posted := None;
      var action := ClassifyMessage(origin, data);
      match action
      case Resize(h) =>
        iframeHeight := h;
      case RejectMissingTokens =>
        isProcessing := true;
        isProcessing := false;
      case RejectMissingUser =>
        isProcessing := true;
        isProcessing := false;
      case Forward(message) =>
        isProcessing := true;
        posted := Some(message);
        isProcessing := false;
      case ReportError(_) =>
        isProcessing := false;
      case _ =>
    }
  }
}
