/**
 * Evidence files: how app/api/upload-evidence/route.ts names the blob it
 * writes, and the two read-only lookups app/api/admin/evidence/route.ts and
 * app/api/admin/evidence/id/route.ts. The file system is the map `blobs`
 * from path to bytes; `path.join` is the collaborator in `Primitives`.
 */
module Evidence {
  import opened Common
  import opened Records
  import opened AdminSession

  // ---------------------------------------------------------------------
  // File names written by the upload route

  /** The characters the upload keeps: `[a-zA-Z0-9._-]`. */
  predicate SafeChar(c: char) {
    'a' <= c <= 'z' || 'A' <= c <= 'Z' || '0' <= c <= '9' || c == '.' || c == '_' || c == '-'
  }

  /** JavaScript strings are UTF-16: a code point above U+FFFF is two code units. */
  function Units(c: char): nat {
    if c as int > 0xFFFF then 2 else 1
  }

  function Utf16Length(s: string): nat {
    if s == [] then 0 else Units(s[0]) + Utf16Length(s[1..])
  }

  lemma Utf16LengthAppend(a: string, b: string)
    ensures Utf16Length(a + b) == Utf16Length(a) + Utf16Length(b)
  {
    if a == [] {
      assert a + b == b;
    } else {
      assert (a + b)[1..] == a[1..] + b;
      Utf16LengthAppend(a[1..], b);
    }
  }

  /**
   * What replacing one code point with `_` under a non-unicode regular
   * expression gives: each unsafe code unit becomes one `_`.
   */
  function ReplaceUnit(c: char): string {
    if SafeChar(c) then [c] else if c as int > 0xFFFF then "__" else "_"
  }

  /** `s.replace(/[^a-zA-Z0-9._-]/g, "_")` */
  function ReplaceUnsafe(s: string): (r: string)
    ensures Utf16Length(r) == Utf16Length(s)
    ensures forall k :: 0 <= k < |r| ==> SafeChar(r[k])
  {
    if s == [] then []
    else
      Utf16LengthAppend(ReplaceUnit(s[0]), ReplaceUnsafe(s[1..]));
      ReplaceUnit(s[0]) + ReplaceUnsafe(s[1..])
  }

  /** A name whose characters are all safe is left alone. */
  lemma {:induction false} ReplaceUnsafeKeepsSafe(s: string)
    requires forall k :: 0 <= k < |s| ==> SafeChar(s[k])
    ensures ReplaceUnsafe(s) == s
  {
    if s != [] {
      ReplaceUnsafeKeepsSafe(s[1..]);
      assert [s[0]] + s[1..] == s;
    }
  }

  /** Sanitising is idempotent. */
  lemma ReplaceUnsafeIdempotent(s: string)
    ensures ReplaceUnsafe(ReplaceUnsafe(s)) == ReplaceUnsafe(s)
  {
    ReplaceUnsafeKeepsSafe(ReplaceUnsafe(s));
  }

  /**
   * For names without characters outside the Basic Multilingual Plane the
   * replacement is position by position: the length is kept, safe
   * characters stay and every other becomes `_`.
   */
  lemma {:induction false} ReplaceUnsafeBmp(s: string)
    requires forall k :: 0 <= k < |s| ==> s[k] as int <= 0xFFFF
    ensures |ReplaceUnsafe(s)| == |s|
    ensures forall k :: 0 <= k < |s| ==> ReplaceUnsafe(s)[k] == if SafeChar(s[k]) then s[k] else '_'
  {
    if s != [] {
      ReplaceUnsafeBmp(s[1..]);
      var r := ReplaceUnsafe(s);
      assert r == ReplaceUnit(s[0]) + ReplaceUnsafe(s[1..]);
      forall k | 0 < k < |s| ensures r[k] == if SafeChar(s[k]) then s[k] else '_' {
        assert r[k] == ReplaceUnsafe(s[1..])[k - 1];
        assert s[k] == s[1..][k - 1];
      }
    }
  }

  /** `(file.name || "upload")` sanitised. */
  function SafeName(name: string): (r: string)
    ensures r != [] && forall k :: 0 <= k < |r| ==> SafeChar(r[k])
    ensures name == [] ==> r == "upload"
    ensures name != [] ==> Utf16Length(r) == Utf16Length(name)
  {
    if name == [] then "upload" else ReplaceUnsafe(name)
  }

  /** `text.slice(0, n)` */
  function Take(s: string, n: nat): (r: string)
    ensures |r| == if |s| < n then |s| else n
    ensures r == s[..|r|]
  {
    if |s| < n then s else s[..n]
  }

  /** `${id}-${sha1hex.slice(0, 10)}-${safeName}`: the blob's name and the stored `evidencePath`. */
  function EvidenceFileName(id: string, digestHex: string, safeName: string): string {
    id + "-" + Take(digestHex, 10) + "-" + safeName
  }

  // ---------------------------------------------------------------------
  // path.extname (POSIX) and the content type the id route derives from it

  /** Index of the last occurrence of `c`. */
  function LastIndex(s: string, c: char): (r: Option<nat>)
    ensures r.Some? ==> r.value < |s| && s[r.value] == c && forall k :: r.value < k < |s| ==> s[k] != c
    ensures r.None? ==> forall k :: 0 <= k < |s| ==> s[k] != c
  {
    if s == [] then None
    else if s[|s| - 1] == c then Some(|s| - 1)
    else LastIndex(s[..|s| - 1], c)
  }

  lemma LastIndexIs(s: string, c: char, i: nat)
    requires i < |s| && s[i] == c && forall k :: i < k < |s| ==> s[k] != c
    ensures LastIndex(s, c) == Some(i)
  {
  }

  /** The path without its trailing run of `/`. */
  function StripTrailingSlashes(p: string): (r: string)
    ensures |r| <= |p| && r == p[..|r|]
    ensures r != [] ==> r[|r| - 1] != '/'
    ensures forall k :: |r| <= k < |p| ==> p[k] == '/'
  {
    if p != [] && p[|p| - 1] == '/' then StripTrailingSlashes(p[..|p| - 1]) else p
  }

  /** The last path segment, trailing slashes ignored. */
  function LastSegment(p: string): (r: string)
    ensures forall k :: 0 <= k < |r| ==> r[k] != '/'
  {
    var q := StripTrailingSlashes(p);
    match LastIndex(q, '/')
    case None => q
    case Some(i) => q[i + 1..]
  }

  /**
   * The last segment is what follows the last `/` once trailing slashes
   * are stripped: a suffix of the stripped path preceded by `/`, if by anything.
   */
  lemma LastSegmentIsSuffix(p: string)
    ensures var q := StripTrailingSlashes(p);
            var r := LastSegment(p);
            |r| <= |q| && r == q[|q| - |r|..] && (|r| < |q| ==> q[|q| - |r| - 1] == '/')
  {
    var q := StripTrailingSlashes(p);
    match LastIndex(q, '/') {
      case None =>
        assert LastSegment(p) == q;
        assert q[0..] == q;
      case Some(i) =>
        assert LastSegment(p) == q[i + 1..];
        assert |q| - |q[i + 1..]| == i + 1;
    }
  }

  /**
   * `path.extname(p)`: from the last `.` of the last segment to its end;
   * empty when there is no dot, when the dot starts the segment, and for
   * the segment `..`.
   */
  function Extname(p: string): (r: string)
    ensures r == [] || (r[0] == '.' && forall k :: 1 <= k < |r| ==> r[k] != '.' && r[k] != '/')
  {
    var seg := LastSegment(p);
    match LastIndex(seg, '.')
    case None => []
    case Some(d) => if d == 0 || seg == ".." then [] else seg[d..]
  }

  /**
   * Which dot `path.extname` starts at: the extension is empty exactly when
   * the last segment is `..` or has no dot after its first character, and
   * otherwise it is the end of that segment, from a dot that does not start it.
   */
  lemma ExtnameOfSegment(p: string)
    ensures var seg := LastSegment(p);
            Extname(p) == [] <==> seg == ".." || forall k :: 0 < k < |seg| ==> seg[k] != '.'
    ensures var seg := LastSegment(p);
            Extname(p) != [] ==> |Extname(p)| < |seg| && Extname(p) == seg[|seg| - |Extname(p)|..]
  {
  }

  /** The content type of app/api/admin/evidence/id/route.ts, from the lower-cased extension. */
  function ContentType(evidencePath: string): string {
    var ext := AsciiLower(Extname(evidencePath));
    if ext == ".png" then "image/png"
    else if ext == ".webp" then "image/webp"
    else if ext == ".pdf" then "application/pdf"
    else "image/jpeg"
  }

  /** Anything that is not `.png`, `.webp` or `.pdf` in any letter case, or no extension at all, is served as JPEG. */
  lemma ContentTypeDefault(evidencePath: string)
    requires AsciiLower(Extname(evidencePath)) !in {".png", ".webp", ".pdf"}
    ensures ContentType(evidencePath) == "image/jpeg"
  {
  }

  lemma ContentTypeKnown(evidencePath: string)
    ensures AsciiLower(Extname(evidencePath)) == ".png" ==> ContentType(evidencePath) == "image/png"
    ensures AsciiLower(Extname(evidencePath)) == ".webp" ==> ContentType(evidencePath) == "image/webp"
    ensures AsciiLower(Extname(evidencePath)) == ".pdf" ==> ContentType(evidencePath) == "application/pdf"
  {
  }

  /** Appending a slash-free name extends the last segment by that name. */
  lemma LastSegmentAppend(prefix: string, name: string) returns (x: string)
    requires name != [] && forall k :: 0 <= k < |name| ==> name[k] != '/'
    ensures LastSegment(prefix + name) == x + name
  {
    var p := prefix + name;
    assert p[|p| - 1] == name[|name| - 1];
    assert StripTrailingSlashes(p) == p;
    match LastIndex(prefix, '/') {
      case None =>
        forall k | 0 <= k < |p| ensures p[k] != '/' {
          if k >= |prefix| { assert p[k] == name[k - |prefix|]; }
        }
        x := prefix;
      case Some(i) =>
        forall k | i < k < |p| ensures p[k] != '/' {
          if k >= |prefix| { assert p[k] == name[k - |prefix|]; }
        }
        LastIndexIs(p, '/', i);
        x := prefix[i + 1..];
        assert p[i + 1..] == x + name;
    }
  }

  /** A last occurrence at `d` in `name` is the last occurrence at `|x| + d` in `x + name`. */
  lemma LastIndexAppend(x: string, name: string, c: char, d: nat)
    requires d < |name| && name[d] == c && forall k :: d < k < |name| ==> name[k] != c
    ensures LastIndex(x + name, c) == Some(|x| + d)
  {
    var s := x + name;
    assert s[|x| + d] == c;
    assert forall k :: |x| + d < k < |s| ==> s[k] == name[k - |x|];
    LastIndexIs(s, c, |x| + d);
  }

  /** The extension of a slash-free name that has one starts at its last dot, which is not its first character. */
  lemma SlashFreeExtname(name: string) returns (d: nat)
    requires forall k :: 0 <= k < |name| ==> name[k] != '/'
    requires Extname(name) != []
    ensures d < |name| && 0 < d && name[d] == '.' && forall k :: d < k < |name| ==> name[k] != '.'
    ensures name != ".." && Extname(name) == name[d..]
  {
    assert StripTrailingSlashes(name) == name;
    assert LastIndex(name, '/') == None;
    assert LastSegment(name) == name;
    d := LastIndex(name, '.').value;
  }

  /** An unfolding step of `Extname`'s last branch, kept apart so the proofs that use it stay small. */
  lemma ExtnameIs(p: string, seg: string, d: nat)
    requires LastSegment(p) == seg && LastIndex(seg, '.') == Some(d) && d != 0 && seg != ".."
    ensures Extname(p) == seg[d..]
  {
  }

  /** The last dot of `name` is the last dot of `x + name`, and what follows it is kept. */
  lemma SegmentDot(x: string, name: string, d: nat)
    requires 0 < d < |name| && name[d] == '.' && forall k :: d < k < |name| ==> name[k] != '.'
    requires name != ".."
    ensures LastIndex(x + name, '.') == Some(|x| + d) && |x| + d != 0
    ensures x + name != ".." && (x + name)[|x| + d..] == name[d..]
  {
    var seg := x + name;
    LastIndexAppend(x, name, '.', d);
    assert seg != ".." by {
      if |seg| == 2 { assert |x| == 0 && seg == name; }
    }
  }

  /** A segment ending in `name` has the extension that starts at the last dot `d` of `name`. */
  lemma ExtnameFromSegment(p: string, x: string, name: string, d: nat)
    requires LastSegment(p) == x + name
    requires 0 < d < |name| && name[d] == '.' && forall k :: d < k < |name| ==> name[k] != '.'
    requires name != ".."
    ensures Extname(p) == name[d..]
  {
    SegmentDot(x, name, d);
    ExtnameIs(p, x + name, |x| + d);
  }

  /** Putting a prefix before a slash-free name that has an extension keeps that extension. */
  lemma PrefixKeepsExtname(prefix: string, name: string)
    requires forall k :: 0 <= k < |name| ==> name[k] != '/'
    requires Extname(name) != []
    ensures Extname(prefix + name) == Extname(name)
  {
    var d := SlashFreeExtname(name);
    var x := LastSegmentAppend(prefix, name);
    ExtnameFromSegment(prefix + name, x, name, d);
  }

  /**
   * Without an extension of its own the name's content type can change: a
   * dotfile such as `.png` has none, but after the `id-hash-` prefix the
   * stored name ends in the extension `.png`.
   */
  lemma DotfileGainsExtension()
    ensures Extname(".png") == [] && ContentType(".png") == "image/jpeg"
    ensures Extname("x-" + ".png") == ".png" && ContentType("x-" + ".png") == "image/png"
  {
    var s := "x-" + ".png";
    assert StripTrailingSlashes(".png") == ".png";
    assert LastSegment(".png") == ".png" by { assert LastIndex(".png", '/') == None by { NoSlash(".png"); } }
    LastIndexIs(".png", '.', 0);
    assert StripTrailingSlashes(s) == s;
    assert LastSegment(s) == s by { NoSlash(s); }
    LastIndexIs(s, '.', 2);
    ExtnameIs(s, s, 2);
    assert s[2..] == ".png";
  }

  /** A text without `/` has no last `/`. */
  lemma NoSlash(s: string)
    requires forall k :: 0 <= k < |s| ==> s[k] != '/'
    ensures LastIndex(s, '/') == None
  {
    if s != [] {
      NoSlash(s[..|s| - 1]);
    }
  }

  /**
   * The stored name of an upload has the extension of the sanitised file
   * name whenever that name has one: the id and digest prefix cannot
   * change the content type the id route serves.
   */
  lemma StoredNameKeepsExtension(prefix: string, safeName: string)
    requires forall k :: 0 <= k < |safeName| ==> safeName[k] != '/'
    requires Extname(safeName) != []
    ensures Extname(prefix + safeName) == Extname(safeName)
    ensures ContentType(prefix + safeName) == ContentType(safeName)
  {
    PrefixKeepsExtname(prefix, safeName);
  }

  // ---------------------------------------------------------------------
  // The two evidence lookups

  /** POSIX `path.isAbsolute`. */
  predicate IsAbsolute(p: string) {
    p != [] && p[0] == '/'
  }

  /** The JSON body of app/api/admin/evidence/route.ts; the bytes stand for their base64 text. */
  datatype EvidenceBody = EvidenceBody(mime: string, content: seq<byte>)

  const OctetStream := "application/octet-stream"

  /** Where the admin evidence route looks for a stored name: absolute names as they are, others under `cwd`. */
  function AdminEvidencePath(prim: Primitives, cwd: string, stored: string): string {
    if IsAbsolute(stored) then stored else prim.pathJoin(cwd, stored)
  }

  /** POST /api/admin/evidence */
  function AdminEvidence(prim: Primitives, sessions: set<string>, sessionCookie: Option<string>,
                         proofs: map<string, Proof>, blobs: map<string, seq<byte>>, cwd: string,
                         idField: Option<string>): (r: Response<EvidenceBody>)
    ensures r == Unauthorized("Unauthorized") <==> !HasSession(sessions, sessionCookie)
    ensures r == BadRequest("Missing id") <==> HasSession(sessions, sessionCookie) && Field(idField) == []
    ensures r == NotFound("No evidence found") <==>
              HasSession(sessions, sessionCookie) && Field(idField) != []
              && !(Field(idField) in proofs && Truthy(proofs[Field(idField)].evidencePath))
    ensures r == NotFound("Evidence file missing") <==>
              HasSession(sessions, sessionCookie) && Field(idField) != []
              && Field(idField) in proofs && Truthy(proofs[Field(idField)].evidencePath)
              && AdminEvidencePath(prim, cwd, proofs[Field(idField)].evidencePath.value) !in blobs
    ensures r.Ok? <==>
              HasSession(sessions, sessionCookie) && Field(idField) != []
              && Field(idField) in proofs && Truthy(proofs[Field(idField)].evidencePath)
              && AdminEvidencePath(prim, cwd, proofs[Field(idField)].evidencePath.value) in blobs
    ensures r.Ok? ==>
              var p := proofs[Field(idField)];
              && r.body.content == blobs[AdminEvidencePath(prim, cwd, p.evidencePath.value)]
              && r.body.mime == (if Truthy(p.evidenceMime) then p.evidenceMime.value else OctetStream)
  {
    if !HasSession(sessions, sessionCookie) then Unauthorized("Unauthorized")
    else
      var id := Field(idField);
      if id == [] then BadRequest("Missing id")
      else if id !in proofs || !Truthy(proofs[id].evidencePath) then NotFound("No evidence found")
      else
        var path := AdminEvidencePath(prim, cwd, proofs[id].evidencePath.value);
        if path !in blobs then NotFound("Evidence file missing")
        else
          var mime := proofs[id].evidenceMime;
          Ok(EvidenceBody(if Truthy(mime) then mime.value else OctetStream, blobs[path]))
  }

  /** The response of app/api/admin/evidence/id/route.ts. */
  datatype EvidenceFile = EvidenceFile(contentType: string, cacheControl: string, content: seq<byte>)

  /**
   * The lookup that app/api/admin/evidence/id/route.ts performs after its
   * session gate, with `params.id` given as `id` as if the route's folder
   * were the dynamic segment `[id]`: the id is used as given, not trimmed,
   * and the stored name is joined to UPLOAD_DIR.
   */
  function EvidenceLookup(prim: Primitives, proofs: map<string, Proof>, blobs: map<string, seq<byte>>,
                          uploadDir: Option<string>, id: string): (r: Response<EvidenceFile>)
    ensures r == NotFound("No evidence") <==> !(id in proofs && Truthy(proofs[id].evidencePath))
    ensures r == Misconfigured("UPLOAD_DIR not set") <==>
              id in proofs && Truthy(proofs[id].evidencePath) && !Truthy(uploadDir)
    ensures r == NotFound("Evidence file missing") <==>
              id in proofs && Truthy(proofs[id].evidencePath) && Truthy(uploadDir)
              && prim.pathJoin(uploadDir.value, proofs[id].evidencePath.value) !in blobs
    ensures r.Ok? <==>
              id in proofs && Truthy(proofs[id].evidencePath) && Truthy(uploadDir)
              && prim.pathJoin(uploadDir.value, proofs[id].evidencePath.value) in blobs
    ensures r.Ok? ==>
              var stored := proofs[id].evidencePath.value;
              r.body == EvidenceFile(ContentType(stored), "no-store", blobs[prim.pathJoin(uploadDir.value, stored)])
  {
    if id !in proofs || !Truthy(proofs[id].evidencePath) then NotFound("No evidence")
    else if !Truthy(uploadDir) then Misconfigured("UPLOAD_DIR not set")
    else
      var stored := proofs[id].evidencePath.value;
      var path := prim.pathJoin(uploadDir.value, stored);
      if path !in blobs then NotFound("Evidence file missing")
      else Ok(EvidenceFile(ContentType(stored), "no-store", blobs[path]))
  }

  /** What a call of a name the imported module does not export throws. */
  const RequireAdminMissing := "TypeError: requireAdmin is not a function"

  /**
   * GET /api/admin/evidence/id as written: its first statement calls
   * `requireAdmin`, which app/lib/adminSession.ts does not export, so every
   * request throws before the lookup and is answered 500.
   */
  function EvidenceById(prim: Primitives, proofs: map<string, Proof>, blobs: map<string, seq<byte>>,
                        uploadDir: Option<string>, id: string): (r: Response<EvidenceFile>)
    ensures r.Failed? && r.details == RequireAdminMissing
  {
    Failed("Internal Server Error", RequireAdminMissing)
  }

  /** As written, the id route never serves a file, even one the lookup after its gate would serve. */
  lemma EvidenceByIdNeverServes(prim: Primitives, proofs: map<string, Proof>, blobs: map<string, seq<byte>>,
                                uploadDir: string, id: string)
    requires id in proofs && Truthy(proofs[id].evidencePath) && uploadDir != []
    requires prim.pathJoin(uploadDir, proofs[id].evidencePath.value) in blobs
    ensures EvidenceLookup(prim, proofs, blobs, Some(uploadDir), id).Ok?
    ensures !EvidenceById(prim, proofs, blobs, Some(uploadDir), id).Ok?
  {
  }

  /**
   * The id route with the session gate its comment asks for, answered as
   * the admin evidence route answers a missing session, and with the id
   * supplied as a dynamic `[id]` segment would supply it.
   */
  function GatedEvidenceById(prim: Primitives, sessions: set<string>, sessionCookie: Option<string>,
                             proofs: map<string, Proof>, blobs: map<string, seq<byte>>,
                             uploadDir: Option<string>, id: string): (r: Response<EvidenceFile>)
    ensures r == Unauthorized("Unauthorized") <==> !HasSession(sessions, sessionCookie)
    ensures HasSession(sessions, sessionCookie) ==> r == EvidenceLookup(prim, proofs, blobs, uploadDir, id)
  {
    if !HasSession(sessions, sessionCookie) then Unauthorized("Unauthorized")
    else EvidenceLookup(prim, proofs, blobs, uploadDir, id)
  }

  /**
   * With the gate, the id route serves a file exactly to a logged-in admin
   * asking for a proof whose stored name is under UPLOAD_DIR.
   */
  lemma GatedEvidenceServesOnlyAdmins(prim: Primitives, sessions: set<string>, sessionCookie: Option<string>,
                                      proofs: map<string, Proof>, blobs: map<string, seq<byte>>,
                                      uploadDir: Option<string>, id: string)
    ensures var r := GatedEvidenceById(prim, sessions, sessionCookie, proofs, blobs, uploadDir, id);
            r.Ok? <==> HasSession(sessions, sessionCookie) && id in proofs && Truthy(proofs[id].evidencePath)
                       && Truthy(uploadDir) && prim.pathJoin(uploadDir.value, proofs[id].evidencePath.value) in blobs
  {
  }

  /**
   * No handler ever writes `evidenceMime`, so for every well-formed proof
   * the admin evidence route answers `application/octet-stream`.
   */
  lemma AdminEvidenceMimeFallback(prim: Primitives, sessions: set<string>, sessionCookie: Option<string>,
                                  proofs: map<string, Proof>, blobs: map<string, seq<byte>>, cwd: string,
                                  idField: Option<string>)
    requires forall id :: id in proofs ==> WellFormed(proofs[id])
    ensures var r := AdminEvidence(prim, sessions, sessionCookie, proofs, blobs, cwd, idField);
            r.Ok? ==> r.body.mime == OctetStream
  {
  }
}
