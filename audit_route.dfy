/**
 * app/api/admin/audit/route.ts: the session id is read from a cookie named
 * `adminSession` with the pattern `(?:^|;\s*)adminSession=([^;]+)` on the raw
 * Cookie header, and the 100 newest rows of the `audit` table are listed.
 */
module AdminAuditRoute {
  import opened Common
  import opened Records
  import opened AdminSession
  import opened Ordering

  const CookieName := "adminSession"

  /** The literal part of the pattern. */
  const CookieKey := CookieName + "="

  const PageSize := 100

  predicate KeyAt(h: string, q: nat) {
    q + |CookieKey| <= |h| && h[q..q + |CookieKey|] == CookieKey
  }

  /** `\s*` after the `;`: the longest run of white space from `i`. */
  function SkipSpaces(h: string, i: nat): (j: nat)
    requires i <= |h|
    ensures i <= j <= |h|
    ensures forall k :: i <= k < j ==> IsJsSpace(h[k])
    ensures j < |h| ==> !IsJsSpace(h[j])
    decreases |h| - i
  {
    if i < |h| && IsJsSpace(h[i]) then SkipSpaces(h, i + 1) else i
  }

  /**
   * Where the literal `adminSession=` begins when an attempt starts at `s`:
   * either `^` (only at 0) or a `;` followed by white space. The two
   * alternatives exclude each other, as the literal does not start with `;`.
   */
  function AnchorAt(h: string, s: nat): (q: Option<nat>)
    requires s <= |h|
    ensures q.Some? ==> s <= q.value && KeyAt(h, q.value)
    ensures q.Some? && s > 0 ==> h[s] == ';'
  {
    if s == 0 && KeyAt(h, 0) then Some(0)
    else if s < |h| && h[s] == ';' && KeyAt(h, SkipSpaces(h, s + 1)) then Some(SkipSpaces(h, s + 1))
    else None
  }

  /** `[^;]+`: the end of the run of non-`;` characters from `v`. */
  function ValueEnd(h: string, v: nat): (e: nat)
    requires v <= |h|
    ensures v <= e <= |h|
    ensures forall k :: v <= k < e ==> h[k] != ';'
    ensures e < |h| ==> h[e] == ';'
    decreases |h| - v
  {
    if v < |h| && h[v] != ';' then ValueEnd(h, v + 1) else v
  }

  /** The captured group when an attempt at `s` succeeds: never empty, never holds `;`. */
  function MatchAt(h: string, s: nat): (r: Option<string>)
    requires s <= |h|
    ensures r.Some? ==> r.value != [] && forall k :: 0 <= k < |r.value| ==> r.value[k] != ';'
  {
    match AnchorAt(h, s)
    case None => None
    case Some(q) =>
      var v := q + |CookieKey|;
      var e := ValueEnd(h, v);
      if e == v then None else Some(h[v..e])
  }

  /** `String.prototype.match` without the `g` flag: the leftmost successful attempt. */
  function FirstMatch(h: string, from: nat): (r: Option<nat>)
    requires from <= |h|
    ensures r.Some? ==> from <= r.value <= |h| && MatchAt(h, r.value).Some?
    ensures r.Some? ==> forall s :: from <= s < r.value ==> MatchAt(h, s).None?
    ensures r.None? ==> forall s :: from <= s <= |h| ==> MatchAt(h, s).None?
    decreases |h| - from
  {
    if MatchAt(h, from).Some? then Some(from)
    else if from == |h| then None
    else FirstMatch(h, from + 1)
  }

  /** `getAdminSessionId(req)`: the decoded group of the leftmost match, or null. */
  function GetAdminSessionId(prim: Primitives, cookieHeader: Option<string>): (r: Option<string>)
    ensures var h := OrEmpty(cookieHeader);
            r.None? <==> forall s :: 0 <= s <= |h| ==> MatchAt(h, s).None?
    ensures var h := OrEmpty(cookieHeader);
            forall s :: 0 <= s <= |h| && MatchAt(h, s).Some? && (forall t :: 0 <= t < s ==> MatchAt(h, t).None?) ==>
              r == Some(prim.decodeUriComponent(MatchAt(h, s).value))
  {
    var h := OrEmpty(cookieHeader);
    match FirstMatch(h, 0)
    case None => None
    case Some(s) => Some(prim.decodeUriComponent(MatchAt(h, s).value))
  }

  /**
   * The cookie the login route sets, `admin_session`, is never read here
   * when it is the only cookie: the audit route answers 401 to a logged-in
   * admin.
   */
  lemma LoginCookieNotRead(prim: Primitives, value: string)
    requires forall k :: 0 <= k < |value| ==> value[k] != ';'
    ensures GetAdminSessionId(prim, Some("admin_session=" + value)) == None
  {
    var h := "admin_session=" + value;
    assert h[0..|CookieKey|][5] == '_' != CookieKey[5];
    forall s | 0 <= s <= |h| ensures MatchAt(h, s).None? {
      if s < |h| {
        assert h[s] != ';' by {
          if s >= 14 { assert h[s] == value[s - 14]; }
        }
      }
      NoMatchWithoutAnchor(h, s);
    }
  }

  /** No attempt succeeds where neither `^` nor a `;` can start it. */
  lemma NoMatchWithoutAnchor(h: string, s: nat)
    requires s <= |h| && !KeyAt(h, 0)
    requires s < |h| ==> h[s] != ';'
    ensures MatchAt(h, s).None?
  {
  }

  /** A header holding `adminSession=<v>` first, with `v` free of `;`, yields the decoded `v`. */
  lemma SessionCookieRead(prim: Primitives, value: string)
    requires value != [] && forall k :: 0 <= k < |value| ==> value[k] != ';'
    ensures GetAdminSessionId(prim, Some(CookieKey + value)) == Some(prim.decodeUriComponent(value))
  {
    var h := CookieKey + value;
    assert h[..|CookieKey|] == CookieKey;
    assert forall k :: |CookieKey| <= k < |h| ==> h[k] == value[k - |CookieKey|];
    assert ValueEnd(h, |CookieKey|) == |h|;
    assert h[|CookieKey|..|h|] == value;
  }

  /** What reading the `audit` table gave: the rows in id order, or the error's message. */
  datatype AuditRead = Rows(rows: seq<AuditRow>) | ReadFailed(message: string)

  datatype AuditPage = AuditPage(rows: seq<AuditRow>, warning: Option<string>)

  predicate IdsIncreasing(rows: seq<AuditRow>) {
    forall i, j :: 0 <= i < j < |rows| ==> rows[i].id < rows[j].id
  }

  /** `ORDER BY id DESC LIMIT 100` */
  function NewestFirst(rows: seq<AuditRow>): (page: seq<AuditRow>)
    requires IdsIncreasing(rows)
    ensures |page| == Min(PageSize, |rows|)
    ensures forall i, j :: 0 <= i < j < |page| ==> page[i].id > page[j].id
    ensures forall x :: x in page ==> x in rows
    ensures forall x, y :: x in rows && x !in page && y in page ==> x.id < y.id
  {
    var n := Min(PageSize, |rows|);
    var page := Reverse(rows)[..n];
    assert forall k :: 0 <= k < n ==> page[k] == rows[|rows| - 1 - k];
    assert forall k :: |rows| - n <= k < |rows| ==> rows[k] == page[|rows| - 1 - k];
    forall x, y | x in rows && x !in page && y in page ensures x.id < y.id {
      var a :| 0 <= a < |rows| && rows[a] == x;
      var b :| 0 <= b < n && page[b] == y;
    }
    page
  }

  /** GET /api/admin/audit */
  function AdminAudit(prim: Primitives, sessions: set<string>, cookieHeader: Option<string>,
                      read: AuditRead): (r: Response<AuditPage>)
    requires read.Rows? ==> IdsIncreasing(read.rows)
    ensures r == Unauthorized("Unauthorized") <==> !HasSession(sessions, GetAdminSessionId(prim, cookieHeader))
    ensures r.Ok? <==> HasSession(sessions, GetAdminSessionId(prim, cookieHeader))
    ensures r.Ok? && read.ReadFailed? ==> r.body == AuditPage([], Some(read.message))
    ensures r.Ok? && read.Rows? ==> r.body == AuditPage(NewestFirst(read.rows), None)
  {
    if !HasSession(sessions, GetAdminSessionId(prim, cookieHeader)) then Unauthorized("Unauthorized")
    else
      match read
      case ReadFailed(message) => Ok(AuditPage([], Some(message)))
      case Rows(rows) => Ok(AuditPage(NewestFirst(rows), None))
  }
}
