/**
 * The frontend's API helpers (frontend/src/api/index.js) that compute
 * something: the UUID text check and the requests of the four task calls.
 * Sending the requests is not modelled; a request is the value handed to the
 * HTTP client.
 */
module Api {
  import opened Wrappers
  import opened Text
  import opened JsValues

  // ---- isValidUUID ----

  /** `[0-9a-f]` under the `i` flag: the case-insensitive hex digits. */
  predicate IsHexDigit(c: char) {
    '0' <= c <= '9' || 'a' <= c <= 'f' || 'A' <= c <= 'F'
  }

  /** The group lengths of the pattern, separated by '-'. */
  const UuidGroups: seq<nat> := [8, 4, 4, 4, 12]

  /**
   * `s` is matched from its start by hex groups of the given lengths joined by
   * '-', and nothing follows the last group (the `$` anchor).
   */
  predicate MatchGroups(s: string, groups: seq<nat>)
    requires |groups| >= 1
    decreases |groups|
  {
    var g := groups[0];
    && |s| >= g
    && (forall i :: 0 <= i < g ==> IsHexDigit(s[i]))
    && if |groups| == 1 then |s| == g
       else |s| > g && s[g] == '-' && MatchGroups(s[g + 1..], groups[1..])
  }

  /** `regex.test(uuid)`: the argument is converted with String() first. */
  predicate IsValidUUID(uuid: JsValue)
    ensures IsValidUUID(uuid) ==> |ToText(uuid)| == 36
  {
    MatchGroupsIffSegments(ToText(uuid));
    MatchGroups(ToText(uuid), UuidGroups)
  }

  /** The positions of the four hyphens in the textual form of section 3 of RFC 4122. */
  predicate IsDashPosition(i: int) {
    i == 8 || i == 13 || i == 18 || i == 23
  }

  /** The textual form position by position: 36 characters, hyphens at 8, 13, 18 and 23, hex digits elsewhere. */
  predicate UuidShape(s: string) {
    && |s| == 36
    && forall i :: 0 <= i < 36 ==> if IsDashPosition(i) then s[i] == '-' else IsHexDigit(s[i])
  }

  predicate HexBetween(s: string, lo: int, hi: int)
    requires 0 <= lo <= hi <= |s|
  {
    forall i :: lo <= i < hi ==> IsHexDigit(s[i])
  }

  /** One group matched at offset `k`. */
  lemma GroupAt(s: string, k: nat, g: nat)
    requires k + g <= |s|
    ensures (forall i :: 0 <= i < g ==> IsHexDigit(s[k..][i])) <==> HexBetween(s, k, k + g)
  {
    if forall i :: 0 <= i < g ==> IsHexDigit(s[k..][i]) {
      forall j | k <= j < k + g
        ensures IsHexDigit(s[j])
      {
        assert s[k..][j - k] == s[j];
      }
    }
  }

  /** The pattern spelled out segment by segment. */
  predicate Segments(s: string) {
    && |s| == 36
    && HexBetween(s, 0, 8) && s[8] == '-'
    && HexBetween(s, 9, 13) && s[13] == '-'
    && HexBetween(s, 14, 18) && s[18] == '-'
    && HexBetween(s, 19, 23) && s[23] == '-'
    && HexBetween(s, 24, 36)
  }

  lemma MatchGroupsIffSegments(s: string)
    ensures MatchGroups(s, UuidGroups) <==> Segments(s)
  {
    assert UuidGroups[1..] == [4, 4, 4, 12];
    assert UuidGroups[1..][1..] == [4, 4, 12];
    assert UuidGroups[1..][1..][1..] == [4, 12];
    assert UuidGroups[1..][1..][1..][1..] == [12];
    if |s| >= 36 {
      assert s[9..][5..] == s[14..];
      assert s[14..][5..] == s[19..];
      assert s[19..][5..] == s[24..];
      GroupAt(s, 0, 8);
      GroupAt(s, 9, 4);
      GroupAt(s, 14, 4);
      GroupAt(s, 19, 4);
      GroupAt(s, 24, |s| - 24);
      assert s[0..] == s;
    }
  }

  lemma SegmentsIffShape(s: string)
    ensures Segments(s) <==> UuidShape(s)
  {
    if Segments(s) {
      forall i | 0 <= i < 36
        ensures if IsDashPosition(i) then s[i] == '-' else IsHexDigit(s[i])
      {
        if i < 8 {} else if i < 13 {} else if i < 18 {} else if i < 23 {}
      }
    }
  }

  /** isValidUUID accepts exactly the 36-character hyphenated hex form. */
  lemma ValidUuidIffShape(s: string)
    ensures IsValidUUID(JsString(s)) <==> UuidShape(s)
  {
    MatchGroupsIffSegments(s);
    SegmentsIffShape(s);
  }

  /** ASCII lower-casing of one character. */
  function Lower(c: char): (d: char)
    ensures IsHexDigit(d) <==> IsHexDigit(c)
    ensures d == '-' <==> c == '-'
  {
    if 'A' <= c <= 'Z' then (c as int + 32) as char else c
  }

  function LowerText(s: string): (t: string)
    ensures |t| == |s| && forall i :: 0 <= i < |s| ==> t[i] == Lower(s[i])
  {
    if s == [] then [] else [Lower(s[0])] + LowerText(s[1..])
  }

  /** Case does not matter: a string is accepted exactly when its lower-cased form is. */
  lemma ValidUuidIgnoresCase(s: string)
    ensures IsValidUUID(JsString(s)) <==> IsValidUUID(JsString(LowerText(s)))
  {
    ValidUuidIffShape(s);
    ValidUuidIffShape(LowerText(s));
  }

  /**
   * No version or variant check: any hex digit may replace the character at
   * any non-hyphen position of an accepted string.
   */
  lemma AnyHexDigitAnywhere(s: string, k: nat, c: char)
    requires IsValidUUID(JsString(s)) && k < 36 && !IsDashPosition(k) && IsHexDigit(c)
    ensures IsValidUUID(JsString(s[k := c]))
  {
    ValidUuidIffShape(s);
    ValidUuidIffShape(s[k := c]);
  }

  /** The pattern is anchored at both ends: one more character before or after is rejected. */
  lemma ValidUuidIsAnchored(s: string, c: char)
    requires IsValidUUID(JsString(s))
    ensures !IsValidUUID(JsString([c] + s)) && !IsValidUUID(JsString(s + [c]))
  {
    ValidUuidIffShape(s);
    ValidUuidIffShape([c] + s);
    ValidUuidIffShape(s + [c]);
  }

  // ---- The task calls ----

  /** The local backend's base URL. */
  const LocalApiBase := "/api"

  datatype HttpMethod = GET | POST | PUT | DELETE

  /** A request as the HTTP client receives it: method, URL, body and Authorization header. */
  datatype Request = Request(verb: HttpMethod, url: string, body: Option<JsValue>, authorization: string)

  const TasksPath := "/tasks"

  /** `/tasks/${id}` */
  function TaskPath(id: JsValue): (p: string)
    ensures |p| >= |TasksPath| + 1 && p[..|TasksPath| + 1] == TasksPath + "/"
  {
    TasksPath + "/" + ToText(id)
  }

  /** `Bearer ${localAccessToken}` */
  function BearerHeader(token: JsValue): (h: string)
    ensures |h| >= 7 && h[..7] == "Bearer " && h[7..] == ToText(token)
  {
    "Bearer " + ToText(token)
  }

  /** GET /api/tasks with the bearer token and no body. */
  function GetTasks(token: JsValue): (r: Request)
    ensures r.verb == GET && r.url == "/api/tasks" && r.body.None? && r.authorization == BearerHeader(token)
  {
    Request(GET, LocalApiBase + TasksPath, None, BearerHeader(token))
  }

  /** POST /api/tasks with the bearer token, sending the task. */
  function CreateTask(task: JsValue, token: JsValue): (r: Request)
    ensures r.verb == POST && r.url == "/api/tasks" && r.body == Some(task) && r.authorization == BearerHeader(token)
  {
    Request(POST, LocalApiBase + TasksPath, Some(task), BearerHeader(token))
  }

  /** PUT /api/tasks/{id} with the bearer token, sending the task. */
  function UpdateTask(id: JsValue, task: JsValue, token: JsValue): (r: Request)
    ensures r.verb == PUT && r.url == "/api/tasks/" + ToText(id) && r.body == Some(task)
    ensures r.authorization == BearerHeader(token)
  {
    Request(PUT, LocalApiBase + TaskPath(id), Some(task), BearerHeader(token))
  }

  /** DELETE /api/tasks/{id} with the bearer token and no body. */
  function DeleteTask(id: JsValue, token: JsValue): (r: Request)
    ensures r.verb == DELETE && r.url == "/api/tasks/" + ToText(id) && r.body.None?
    ensures r.authorization == BearerHeader(token)
  {
    Request(DELETE, LocalApiBase + TaskPath(id), None, BearerHeader(token))
  }

  /** A numeric id reads back from the last path segment as a signed decimal run. */
  lemma TaskPathNamesTheId(id: int)
    ensures ParseSignedRun(TaskPath(JsNumber(id))[|TasksPath| + 1..]) == Some(id)
  {
    assert TaskPath(JsNumber(id))[|TasksPath| + 1..] == IntToString(id);
    SignedRunOfIntToString(id);
  }

  /** Distinct numeric ids give distinct paths. */
  lemma TaskPathInjective(a: int, b: int)
    requires TaskPath(JsNumber(a)) == TaskPath(JsNumber(b))
    ensures a == b
  {
    var p := TaskPath(JsNumber(a));
    assert p[|TasksPath| + 1..] == IntToString(a);
    assert TaskPath(JsNumber(b))[|TasksPath| + 1..] == IntToString(b);
    IntToStringInjective(a, b);
  }

  /**
   * Every task call carries the token after "Bearer ", and the update and
   * delete calls address the task by its path.
   */
  lemma TaskCallsCarryToken(id: JsValue, task: JsValue, token: string)
    ensures forall r :: r in [GetTasks(JsString(token)), CreateTask(task, JsString(token)),
                              UpdateTask(id, task, JsString(token)), DeleteTask(id, JsString(token))] ==>
      r.authorization[..7] == "Bearer " && r.authorization[7..] == token
    ensures UpdateTask(id, task, JsString(token)).url == DeleteTask(id, JsString(token)).url == LocalApiBase + TaskPath(id)
    ensures UpdateTask(id, task, JsString(token)).body == Some(task)
  {
    var h := BearerHeader(JsString(token));
    assert h[..7] == "Bearer " && h[7..] == token;
  }
}
