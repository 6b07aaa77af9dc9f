/**
 * The frontend's token helpers (frontend/src/utils/auth.js) and the two
 * localStorage keys they work on.
 *
 * A token is a JWS compact serialization (section 7.1 of RFC 7515): three
 * dot-separated segments, the middle one the base64url-encoded payload. The
 * helpers read it with `atob`, which decodes standard base64 (section 4 of
 * RFC 4648) after the "forgiving-base64 decode" rules of the WHATWG HTML
 * standard; those rules are modelled. What follows them (turning the bits into
 * a string, JSON.parse, reading `exp` as a number) is an input function.
 */
module TokenUtils {
  import opened Wrappers
  import opened JsValues

  // ---- localStorage ----

  datatype TokenKey = AccessTokenKey | RefreshTokenKey

  /** The two items, as `localStorage.getItem` returns them (None for null). */
  datatype StoredTokens = StoredTokens(access: Option<string>, refresh: Option<string>)

  /** An item the code treats as present: `if (item)` accepts it. */
  predicate Present(item: Option<string>) {
    item.Some? && item.value != ""
  }

  class LocalStorage {
    var accessToken: Option<string>
    var refreshToken: Option<string>

    constructor (access: Option<string>, refresh: Option<string>)
      ensures accessToken == access && refreshToken == refresh
    {
      accessToken := access;
      refreshToken := refresh;
    }

    function Tokens(): StoredTokens
      reads this
    {
      StoredTokens(accessToken, refreshToken)
    }

    /** localStorage.setItem(key, value): the value is stored as String(value). */
    method SetItem(key: TokenKey, value: JsValue)
      modifies this
      ensures key == AccessTokenKey ==> accessToken == Some(ToText(value)) && refreshToken == old(refreshToken)
      ensures key == RefreshTokenKey ==> refreshToken == Some(ToText(value)) && accessToken == old(accessToken)
    {
      if key == AccessTokenKey {
        accessToken := Some(ToText(value));
      } else {
        refreshToken := Some(ToText(value));
      }
    }

    method RemoveItem(key: TokenKey)
      modifies this
      ensures key == AccessTokenKey ==> accessToken == None && refreshToken == old(refreshToken)
      ensures key == RefreshTokenKey ==> refreshToken == None && accessToken == old(accessToken)
    {
      if key == AccessTokenKey {
        accessToken := None;
      } else {
        refreshToken := None;
      }
    }
  }

  // ---- token.split(".") ----

  /** String.prototype.split(".") */
  function Split(s: string): (parts: seq<string>)
    ensures |parts| >= 1
    ensures forall i :: 0 <= i < |parts| ==> '.' !in parts[i]
    ensures '.' !in s ==> parts == [s]
    decreases |s|
  {
    if s == [] then [""]
    else
      var rest := Split(s[1..]);
      if s[0] == '.' then [""] + rest
      else
        assert s == [s[0]] + s[1..];
        [[s[0]] + rest[0]] + rest[1..]
  }

  /** Array.prototype.join(".") */
  function Join(parts: seq<string>): string
    requires |parts| >= 1
  {
    if |parts| == 1 then parts[0] else parts[0] + "." + Join(parts[1..])
  }

  /** Splitting loses nothing: joining the segments again gives the token back. */
  lemma {:induction false} JoinSplit(s: string)
    ensures Join(Split(s)) == s
    decreases |s|
  {
    if s != [] {
      var rest := Split(s[1..]);
      JoinSplit(s[1..]);
      if s[0] == '.' {
        assert Split(s)[1..] == rest;
      } else if |rest| == 1 {
        assert Split(s) == [[s[0]] + rest[0]];
      } else {
        assert Split(s)[1..] == rest[1..];
        assert Join(rest) == rest[0] + "." + Join(rest[1..]);
      }
    }
  }

  // ---- atob ----

  /** TAB, LF, FF, CR and SPACE. */
  predicate IsAsciiWhitespace(c: char) {
    c == ' ' || c == '\t' || c == '\n' || c == '\r' || c as int == 12
  }

  /** The alphabet of section 4 of RFC 4648, without the pad character. */
  predicate IsBase64Char(c: char) {
    'A' <= c <= 'Z' || 'a' <= c <= 'z' || '0' <= c <= '9' || c == '+' || c == '/'
  }

  predicate AllBase64(t: string) {
    forall i :: 0 <= i < |t| ==> IsBase64Char(t[i])
  }

  function RemoveWhitespace(s: string): (t: string)
    ensures forall i :: 0 <= i < |t| ==> !IsAsciiWhitespace(t[i])
    ensures forall i :: 0 <= i < |s| && !IsAsciiWhitespace(s[i]) ==> s[i] in t
    ensures (forall i :: 0 <= i < |s| ==> !IsAsciiWhitespace(s[i])) ==> t == s
  {
    if s == [] then []
    else if IsAsciiWhitespace(s[0]) then RemoveWhitespace(s[1..])
    else [s[0]] + RemoveWhitespace(s[1..])
  }

  /** When the length is a multiple of four, one or two trailing '=' are dropped. */
  function StripPadding(s: string): (t: string)
    ensures |t| <= |s| && t == s[..|t|]
    ensures forall i :: |t| <= i < |s| ==> s[i] == '='
    ensures |s| % 4 != 0 ==> t == s
  {
    if |s| % 4 != 0 then s
    else if |s| >= 2 && s[|s| - 2..] == "==" then s[..|s| - 2]
    else if |s| >= 1 && s[|s| - 1] == '=' then s[..|s| - 1]
    else s
  }

  /**
   * atob(text): None when it throws; otherwise the base64 text whose bits it
   * returns.
   */
  function Atob(text: string): (r: Option<string>)
    ensures r.Some? ==> AllBase64(r.value)
    ensures var t := StripPadding(RemoveWhitespace(text));
      && (r.Some? <==> |t| % 4 != 1 && AllBase64(t))
      && (r.Some? ==> r.value == t)
  {
    var t := StripPadding(RemoveWhitespace(text));
    if |t| % 4 == 1 then None
    else if AllBase64(t) then Some(t)
    else None
  }

  /** A character outside the base64 alphabet, '=' and white space makes atob throw. */
  lemma AtobRejectsForeignChar(text: string, c: char)
    requires c in text && !IsBase64Char(c) && c != '=' && !IsAsciiWhitespace(c)
    ensures Atob(text) == None
  {
    var w := RemoveWhitespace(text);
    var t := StripPadding(w);
    assert c in w;
    var k :| 0 <= k < |w| && w[k] == c;
    assert k < |t|;
    assert t[k] == c;
  }

  /** Base64 characters and '=' are not white space. */
  lemma PaddedHasNoWhitespace(t: string, pad: string)
    requires AllBase64(t) && forall i :: 0 <= i < |pad| ==> pad[i] == '='
    ensures RemoveWhitespace(t + pad) == t + pad
  {
    var s := t + pad;
    forall i | 0 <= i < |s|
      ensures !IsAsciiWhitespace(s[i])
    {
      if i < |t| { assert s[i] == t[i]; } else { assert s[i] == pad[i - |t|]; }
    }
  }

  lemma StripNoPadding(t: string)
    requires AllBase64(t)
    ensures StripPadding(t) == t
  {
    if |t| > 0 {
      assert IsBase64Char(t[|t| - 1]);
    }
  }

  lemma StripOnePad(t: string)
    requires AllBase64(t) && |t| % 4 == 3
    ensures StripPadding(t + "=") == t
  {
    var s := t + "=";
    assert s[|s| - 2] == t[|t| - 1];
    assert s[..|s| - 1] == t;
  }

  lemma StripTwoPads(t: string)
    requires |t| % 4 == 2
    ensures StripPadding(t + "==") == t
  {
    var s := t + "==";
    assert s[|s| - 2..] == "==";
    assert s[..|s| - 2] == t;
  }

  /**
   * Base64 text, with the one or two '=' that complete its last quantum or
   * without them, is accepted and decodes from its unpadded characters.
   */
  lemma AtobAcceptsBase64(t: string, pad: string)
    requires AllBase64(t)
    requires || (pad == "" && |t| % 4 != 1)
             || ((pad == "=" || pad == "==") && (|t| + |pad|) % 4 == 0)
    ensures Atob(t + pad) == Some(t)
  {
    PaddedHasNoWhitespace(t, pad);
    if pad == "" {
      assert t + pad == t;
      StripNoPadding(t);
    } else if pad == "=" {
      StripOnePad(t);
    } else {
      StripTwoPads(t);
    }
  }

  // ---- checkTokenValidity ----

  /** What the payload says about `exp`: its numeric value, None when reading it gives NaN. */
  datatype Claims = Claims(exp: Option<int>)

  /**
   * The decoding after atob's checks: from the base64 text to the claims.
   * None when JSON.parse throws or reading `.exp` throws.
   */
  type PayloadParser = string -> Option<Claims>

  /** The argument `token.split(".")[1]`: undefined when the token has no '.'. */
  function PayloadSegment(token: string): JsValue {
    var parts := Split(token);
    if |parts| >= 2 then JsString(parts[1]) else Undefined
  }

  /**
   * JSON.parse(atob(token.split(".")[1])): None when any step throws. Claims
   * are read only from a token with a second segment that atob accepts.
   */
  function DecodePayload(token: string, parse: PayloadParser): (r: Option<Claims>)
    ensures r.Some? ==> |Split(token)| >= 2 && Atob(Split(token)[1]).Some?
  {
    AtobOfUndefinedThrows();
    match Atob(ToText(PayloadSegment(token)))
    case None => None
    case Some(bits) => parse(bits)
  }

  /** checkTokenValidity(token) at time `now` (milliseconds). */
  function CheckTokenValidity(token: Option<string>, parse: PayloadParser, now: int): (b: bool)
    ensures b ==> Present(token) && |Split(token.value)| >= 2 && DecodePayload(token.value, parse).Some?
  {
    if !Present(token) then false
    else match DecodePayload(token.value, parse)
      case None => false
      case Some(claims) => claims.exp.Some? && claims.exp.value * 1000 > now
  }

  /** True exactly for a non-empty token whose payload decodes with an `exp` later than now. */
  lemma ValidExactlyWhenUnexpired(token: string, parse: PayloadParser, now: int)
    ensures CheckTokenValidity(Some(token), parse, now) <==>
      exists exp :: token != "" && DecodePayload(token, parse) == Some(Claims(Some(exp))) && exp * 1000 > now
  {
    if CheckTokenValidity(Some(token), parse, now) {
      var exp := DecodePayload(token, parse).value.exp.value;
      assert DecodePayload(token, parse) == Some(Claims(Some(exp)));
    }
  }

  /** A token without '.' has no second segment: the argument is undefined. */
  lemma NoDotNoSegment(token: string)
    requires '.' !in token
    ensures PayloadSegment(token) == Undefined
  {
  }

  /** Text without white space whose length leaves a remainder of one makes atob throw. */
  lemma AtobRejectsRemainderOne(text: string)
    requires forall i :: 0 <= i < |text| ==> !IsAsciiWhitespace(text[i])
    requires |text| % 4 == 1
    ensures Atob(text) == None
  {
  }

  /** atob("undefined") throws: nine characters leave a remainder of one. */
  lemma AtobOfUndefinedThrows()
    ensures Atob(ToText(Undefined)) == None
  {
    var text := ToText(Undefined);
    assert |text| == 9;
    AtobRejectsRemainderOne(text);
  }

  /** A token without a second segment is invalid: atob("undefined") throws. */
  lemma NoPayloadSegmentIsInvalid(token: string, parse: PayloadParser, now: int)
    requires '.' !in token
    ensures DecodePayload(token, parse) == None
    ensures !CheckTokenValidity(Some(token), parse, now)
  {
    NoDotNoSegment(token);
    AtobOfUndefinedThrows();
  }

  /** A base64url payload using '-' or '_' is invalid, whatever the parser would make of it. */
  lemma UrlSafePayloadIsInvalid(token: string, parse: PayloadParser, now: int)
    requires |Split(token)| >= 2
    requires '-' in Split(token)[1] || '_' in Split(token)[1]
    ensures DecodePayload(token, parse) == None
    ensures !CheckTokenValidity(Some(token), parse, now)
  {
    var segment := Split(token)[1];
    if '-' in segment {
      AtobRejectsForeignChar(segment, '-');
    } else {
      AtobRejectsForeignChar(segment, '_');
    }
  }

  /** Validity only runs out: a token valid now was valid at every earlier time. */
  lemma ValidityOnlyExpires(token: Option<string>, parse: PayloadParser, earlier: int, now: int)
    requires earlier <= now
    ensures CheckTokenValidity(token, parse, now) ==> CheckTokenValidity(token, parse, earlier)
  {
  }

  // ---- refreshAccessToken ----

  /** The POST /api/refresh call: rejected (network error or non-2xx status) or answered with a body. */
  datatype RefreshResponse = RefreshRejected | RefreshAnswered(data: JsValue)

  /** refreshAccessToken; returns whether it stored new tokens. */
  method RefreshAccessToken(storage: LocalStorage, response: RefreshResponse) returns (ok: bool)
    modifies storage
    ensures !Present(old(storage.refreshToken)) ==> !ok && storage.Tokens() == old(storage.Tokens())
    ensures Present(old(storage.refreshToken)) && response.RefreshAnswered? && !ReadThrows(response.data) ==>
      && ok
      && storage.accessToken == Some(ToText(Get(response.data, "access_token")))
      && storage.refreshToken == Some(ToText(Get(response.data, "refresh_token")))
    ensures Present(old(storage.refreshToken)) && (response.RefreshRejected? || ReadThrows(response.data)) ==>
      !ok && storage.accessToken == None && storage.refreshToken == None
    ensures ok ==> storage.accessToken.Some? && storage.refreshToken.Some?
  {
    var refreshToken := storage.refreshToken;
    if !Present(refreshToken) {
      return false;
    }
    if response.RefreshRejected? || ReadThrows(response.data) {
      storage.RemoveItem(AccessTokenKey);
      storage.RemoveItem(RefreshTokenKey);
      return false;
    }
    storage.SetItem(AccessTokenKey, Get(response.data, "access_token"));
    storage.SetItem(RefreshTokenKey, Get(response.data, "refresh_token"));
    return true;
  }
}
