# receiptless — a Dafny model of the proof store and its route handlers

receiptless issues *proofs of purchase*. There are two ways to issue one:

- A customer issues a proof with a merchant name and a purchase reference. The proof starts in status `issued`.
- A merchant issues a proof through an API key. The proof starts in status `verified`.

A customer later uploads evidence, which moves the proof to `pending`. An admin then verifies or rejects the pending proof. Anyone can check a proof by its public id.

Admins log in with a username and password, which puts an id into the process-wide session map. Admins also manage merchants and their API keys. The server stores only a key's SHA-256 digest.

The project models the server side as one store:

- the `proofs` table, keyed by `publicId`;
- the `audit_logs` table that `logAudit` appends to;
- the separate `audit` table that the admin audit page reads;
- merchants and `merchant_api_keys`, in row order;
- the evidence files, as a map from path to bytes;
- the admin session set.

The route handlers that write are methods of `Receiptless.Store`. Each returns a `Records.Response` (`Ok`, `BadRequest`, `Unauthorized`, `NotFound`, `Misconfigured`, `Failed`) in place of the HTTP answer. Each method's `ensures` gives every error case as an if-and-only-if on its guard, and on success gives the whole new state. The read-only routes are functions of the stored rows, so they cannot change the store.

What the model follows from the code, rather than from the intended design:

- A verify or reject of a proof that is not pending is a `BadRequest` naming the current status.
- Reject writes no audit event.
- Upload writes no audit event and ignores the current status. It moves a decided proof back to `pending` and keeps its old decision fields. For an unknown id it still writes the file and succeeds.
- `logAudit` writes `audit_logs`, but the audit route reads `audit`, which no handler writes.
- The audit route reads a cookie named `adminSession`, but login sets `admin_session`. `AdminAuditRoute.LoginCookieNotRead` proves that the login cookie alone is never accepted there.
- Admin get-proof reports `issuerType: "user"` and `issuerId: null` whatever is stored.
- Neither the public verify route nor the id evidence route trims the id. Every other route does.
- The admin evidence route resolves a relative stored name against the working directory. The upload wrote it under `UPLOAD_DIR`, where the corrected id route looks (`Receiptless.EvidenceRoutesDisagree`).
- The id evidence route calls `requireAdmin`, which app/lib/adminSession.ts does not export, so as written it never serves a file (see "## Findings").
- Revoke-key decides "already revoked" from the first row with the id, then updates every row with that id.

The opaque collaborators are fields of `Records.Primitives`, and the model treats them as arbitrary fixed functions:

- SHA-256 and SHA-1 (as hex text);
- `path.join`;
- `decodeURIComponent`.

Fresh ids (`nanoid`), random bytes and clock readings are parameters of the handlers. Uniqueness of `publicId` is a `requires` on the inserting methods. Environment variables are the `Receiptless.Env` value.

Modules, in dependency order:

- `Common`: options, JavaScript truthiness, `trim()`, ASCII lower-casing, SQLite text order;
- `Hex`: hex text of random bytes, with its decoder;
- `Json`: `JSON.stringify` of flat string objects, with a reader;
- `Records`: the rows and the response type;
- `Ordering`: `ORDER BY … DESC`;
- `AdminSession`: the session map;
- `MerchantAuth`: API keys;
- `Evidence`: file names, `path.extname`, the two evidence lookups;
- `Lifecycle`: row construction and updates, the status moves, audit metadata;
- `ProofViews`;
- `MerchantViews`;
- `AdminAuditRoute`;
- `Receiptless`: the store and the writing handlers.

## Model

| member | source | states |
|---|---|---|
| Common.NullIfEmpty | app/api/create-proof/route.ts:32 | `s \|\| null`: the result is NULL exactly when the text is empty, and otherwise is the text |
| Common.Trim | app/api/create-proof/route.ts:13-15 | `s.trim()`, as `TrimEnd` after `TrimStart` over JavaScript's white-space set; its properties are in TrimStartIsSuffix, TrimEndIsPrefix, TrimIsInfix, TrimEmptyIffAllSpace, TrimOfTrimmed and TrimIdempotent |
| Common.TrimStartIsSuffix | app/api/create-proof/route.ts:13-15 | dropping leading white space gives a suffix that starts with no white space, and only white space is cut |
| Common.TrimEndIsPrefix | app/api/create-proof/route.ts:13-15 | dropping trailing white space gives a prefix that ends with no white space, and only white space is cut |
| Common.TrimIsInfix | app/api/create-proof/route.ts:13-15 | `trim()` returns an infix `s[i..j]` with only white space on either side, and the result neither starts nor ends with white space |
| Common.TrimEmptyIffAllSpace | app/api/create-proof/route.ts:13-22 | a trimmed field is empty, so the request is refused, exactly when the input is all white space |
| Common.TrimOfTrimmed | app/api/admin/login/route.ts:7-8 | text without surrounding white space is its own trim |
| Common.TrimIdempotent | app/api/admin/login/route.ts:7-8 | trimming twice equals trimming once |
| Common.AsciiLower | app/api/admin/evidence/id/route.ts:36 | `toLowerCase` keeps the length and lowers each letter A–Z in place |
| Common.LexLeTotal | app/api/admin/merchants/list/route.ts:15 | the text order used by `ORDER BY createdAt` is total |
| Common.LexLeTransitive | app/api/admin/merchants/list/route.ts:15 | that order is transitive |
| Common.LexLeAntisymmetric | app/api/admin/merchants/list/route.ts:15 | that order is antisymmetric |
| Hex.Digit | app/lib/adminSession.ts:11 | a nibble becomes a lower-case hex digit that decodes back to it |
| Hex.DigitValue | app/lib/adminSession.ts:11 | a hex digit decodes to a value below 16 |
| Hex.HexEncode | app/lib/adminSession.ts:11 | `toString("hex")` gives two lower-case hex digits per byte |
| Hex.HexDecode | app/lib/merchantAuth.ts:11 | decoding hex text gives half as many bytes as there are digits |
| Hex.HexRoundTrip | app/lib/merchantAuth.ts:10-11 | decoding the hex text of some bytes gives those bytes back |
| Hex.HexEncodeInjective | app/lib/adminSession.ts:11 | different random bytes never give the same session id |
| Json.EscapeCharRead | app/lib/audit.ts:9 | the reader decodes each character's JSON escape back to that character |
| Json.EscapeRoundTrip | app/lib/audit.ts:9 | the reader gives back any escaped string and the text after its closing quote |
| Json.ReadStringShortens | app/lib/audit.ts:9 | reading a string consumes input; the member reader uses this to prove that what it leaves is shorter than what it read from |
| Json.ReadMemberOf | app/lib/audit.ts:9 | reading a member is reading its key string, `:`, and its value string |
| Json.MemberText | app/lib/audit.ts:9 | the text of one member splits around its two quoted strings |
| Json.MembersText | app/lib/audit.ts:9 | the members' text is the first member followed by `}` or by `,` and the rest |
| Json.ReadMembersOf | app/lib/audit.ts:9 | after the first member, `}` ends the object and `,` continues with the rest |
| Json.MemberRoundTrip | app/lib/audit.ts:9 | one `"key":"value"` pair reads back as itself |
| Json.MembersRoundTrip | app/lib/audit.ts:9 | the members of a `meta` object read back in order |
| Json.Serialize | app/lib/audit.ts:9 | `JSON.stringify` of a flat object of strings; see SerializeRoundTrip and SerializeInjective |
| Json.SerializeRoundTrip | app/lib/audit.ts:9 | `JSON.stringify(meta)` parses back to `meta` |
| Json.SerializeInjective | app/lib/audit.ts:9 | different metadata objects are never stored as the same text |
| Records.StatusName | app/lib/db.ts:61 | every status has non-empty text in the `status` column |
| Records.Field | app/api/create-proof/route.ts:13-15 | `String(body.x ?? "").trim()`: a missing field reads as `""`, then trimmed; see Common.TrimEmptyIffAllSpace and Receiptless.PaddedPasswordNeverMatches |
| Records.WellFormed | app/lib/db.ts:50-70 | what every stored `proofs` row satisfies given how the handlers write it; kept by Lifecycle.UpdatesMove, Receiptless.PutKeepsValid and every handler's `Valid()` ensures, and used by ProofViews.ViewsOfWellFormedProof and Evidence.AdminEvidenceMimeFallback |
| Ordering.InsertDesc | app/api/admin/merchants/list/route.ts:15 | inserting into a newest-first list keeps it newest first and adds exactly that element |
| Ordering.SortDesc | app/api/admin/merchants/list/route.ts:15 | `ORDER BY createdAt DESC` is a permutation of the rows that is sorted newest first |
| Ordering.Reverse | app/api/admin/audit/route.ts:30 | reversal puts element `k` at position `n-1-k` |
| AdminSession.SessionStore.constructor | app/lib/adminSession.ts:8 | the session map starts empty |
| AdminSession.SessionStore.CreateSession | app/lib/adminSession.ts:10-14 | the id is the hex text of 24 random bytes (48 characters), it is added, and `hasSession` accepts it afterwards |
| AdminSession.SessionStore.DeleteSession | app/lib/adminSession.ts:21-23 | the id is removed and no longer accepted, every other session is unaffected, and an unknown id changes nothing |
| AdminSession.HasSession | app/lib/adminSession.ts:16-19 | `hasSession`; see NoSessionWithoutId, SessionStore.CreateSession and SessionStore.DeleteSession |
| AdminSession.NoSessionWithoutId | app/lib/adminSession.ts:16-19 | a missing or empty id is never a session, whatever is stored |
| MerchantAuth.GenerateApiKey | app/lib/merchantAuth.ts:8-12 | a key is `rl_` followed by 48 lower-case hex digits that decode to the random bytes |
| MerchantAuth.GenerateApiKeyInjective | app/lib/merchantAuth.ts:8-12 | different random bytes give different keys |
| MerchantAuth.HashApiKey | app/lib/merchantAuth.ts:14-16 | `hashApiKey`, the SHA-256 hex of the key; see GetMerchantByApiKey and Receiptless.NewKeyResolves |
| MerchantAuth.FindMerchant | app/lib/merchantAuth.ts:21-26 | finds the first stored merchant with the id, or reports that none has it |
| MerchantAuth.FirstJoined | app/lib/merchantAuth.ts:21-26 | `.get` on the inner join returns the first key row with the digest whose merchant exists |
| MerchantAuth.GetMerchantByApiKey | app/lib/merchantAuth.ts:18-32 | a result comes from the first joined row, which is unrevoked, and carries its merchant's id and stored name |
| MerchantAuth.UnknownKeyRefused | app/lib/merchantAuth.ts:19-28 | a key whose digest is not stored is refused |
| MerchantAuth.RevokedKeyRefused | app/lib/merchantAuth.ts:29 | a revoked key is refused although its row is still stored |
| MerchantAuth.OrphanKeyRefused | app/lib/merchantAuth.ts:21-26 | a key whose merchant does not exist never resolves |
| MerchantAuth.ActiveKeyResolves | app/lib/merchantAuth.ts:18-32 | an unrevoked key whose merchant exists, with no earlier joined row sharing its digest, resolves to its owner |
| Evidence.Utf16LengthAppend | app/api/upload-evidence/route.ts:31 | UTF-16 length adds up over concatenation |
| Evidence.ReplaceUnsafe | app/api/upload-evidence/route.ts:31 | the replacement keeps the UTF-16 length and leaves only characters of `[A-Za-z0-9._-]` |
| Evidence.ReplaceUnsafeKeepsSafe | app/api/upload-evidence/route.ts:31 | a name of safe characters is unchanged |
| Evidence.ReplaceUnsafeIdempotent | app/api/upload-evidence/route.ts:31 | sanitising twice equals sanitising once |
| Evidence.ReplaceUnsafeBmp | app/api/upload-evidence/route.ts:31 | without astral characters the replacement is position by position: safe characters stay, others become `_` |
| Evidence.SafeName | app/api/upload-evidence/route.ts:31 | a missing name becomes `upload`, and otherwise the sanitised name keeps the length and is all safe |
| Evidence.Take | app/api/upload-evidence/route.ts:32 | `slice(0, n)` is the prefix of length `min(n, len)` |
| Evidence.LastIndex | app/api/admin/evidence/id/route.ts:36 | the position of the last occurrence of a character |
| Evidence.StripTrailingSlashes | app/api/admin/evidence/id/route.ts:36 | yields a prefix that does not end in `/`, and only `/` characters are cut |
| Evidence.LastSegment | app/api/admin/evidence/id/route.ts:36 | the last path segment holds no `/` |
| Evidence.LastSegmentIsSuffix | app/api/admin/evidence/id/route.ts:36 | the last segment is the end of the stripped path, preceded by a `/` when anything precedes it |
| Evidence.Extname | app/api/admin/evidence/id/route.ts:36 | `path.extname` is empty or a dot followed by no dot or slash |
| Evidence.ExtnameOfSegment | app/api/admin/evidence/id/route.ts:36 | the extension is empty exactly when the last segment is `..` or has no dot after its first character; otherwise it is the end of that segment, not the whole of it |
| Evidence.ContentType | app/api/admin/evidence/id/route.ts:36-41 | the content type from the lower-cased extension; see ContentTypeKnown, ContentTypeDefault and StoredNameKeepsExtension |
| Evidence.ContentTypeKnown | app/api/admin/evidence/id/route.ts:37-40 | `.png`, `.webp` and `.pdf`, in any letter case, map to their types |
| Evidence.ContentTypeDefault | app/api/admin/evidence/id/route.ts:41 | every other extension, and none, maps to `image/jpeg` |
| Evidence.LastSegmentAppend | app/api/upload-evidence/route.ts:34 | appending a slash-free name extends the last segment by it |
| Evidence.LastIndexAppend | app/api/upload-evidence/route.ts:34 | the last dot of the appended name is the last dot of the whole |
| Evidence.SlashFreeExtname | app/api/admin/evidence/id/route.ts:36 | the extension of a slash-free name starts at its last dot, which is not its first character |
| Evidence.PrefixKeepsExtname | app/api/upload-evidence/route.ts:34 | a prefix before a slash-free name with an extension keeps that extension |
| Evidence.StoredNameKeepsExtension | app/api/admin/evidence/id/route.ts:36-41 | the `id-hash-` prefix of a stored name never changes the extension or served content type of a sanitised name that has an extension |
| Evidence.DotfileGainsExtension | app/api/upload-evidence/route.ts:31-34 | a dotfile name such as `.png` has no extension and is served as `image/jpeg`, but with the `id-hash-` prefix in front it gains `.png` and is served as `image/png` |
| Evidence.IsAbsolute | app/api/admin/evidence/route.ts:30 | POSIX `path.isAbsolute`, a leading `/`; see AdminEvidence and Receiptless.EvidenceRoutesDisagree |
| Evidence.AdminEvidencePath | app/api/admin/evidence/route.ts:30-32 | an absolute stored name as it is, otherwise joined to the working directory; see AdminEvidence and Receiptless.EvidenceRoutesDisagree |
| Evidence.AdminEvidence | app/api/admin/evidence/route.ts:9-44 | 401, 400, "No evidence found" and "Evidence file missing" exactly on their guards; success exactly when the blob at the absolute path, or at cwd joined with the name, exists, and then that blob, with the MIME type falling back to `application/octet-stream` |
| Evidence.EvidenceLookup | app/api/admin/evidence/id/route.ts:16-48 | "No evidence", the 500 without UPLOAD_DIR and "Evidence file missing" exactly on their guards; success exactly when the blob under UPLOAD_DIR exists, and then that blob with the extension's content type and `no-store`; the id is taken as an `[id]` segment would give it |
| Evidence.EvidenceById | app/api/admin/evidence/id/route.ts:5-14 | as written, the call of the unexported `requireAdmin` throws, so every request is a 500 |
| Evidence.EvidenceByIdNeverServes | app/api/admin/evidence/id/route.ts:13-33 | even for a stored file the lookup would serve, the route as written never answers with it |
| Evidence.GatedEvidenceById | app/api/admin/evidence/id/route.ts:13-14 | with the admin gate the comment asks for: 401 exactly without a session, and otherwise the lookup |
| Evidence.GatedEvidenceServesOnlyAdmins | app/api/admin/evidence/id/route.ts:13-33 | the gated route serves a file exactly to a logged-in admin whose proof's file is under UPLOAD_DIR |
| Evidence.LastIndexIs | app/api/admin/evidence/id/route.ts:36 | a last occurrence is the one `LastIndex` finds |
| Evidence.AdminEvidenceMimeFallback | app/api/admin/evidence/route.ts:42 | no handler sets `evidenceMime`, so the admin route always answers `application/octet-stream` |
| Lifecycle.ProofHash | app/api/create-proof/route.ts:24-27 | `hash(merchant + hash(reference) + createdAt)`; see ProofHashUsesDigestOnly |
| Lifecycle.ProofHashUsesDigestOnly | app/api/create-proof/route.ts:24-27 | the proof hash depends on the reference only through its digest |
| Lifecycle.UserProof | app/api/create-proof/route.ts:24-32 | the customer row is well formed and `issued`, `item \|\| null`, with `hash(merchant + hash(reference) + createdAt)` and no decision, evidence or issuer fields |
| Lifecycle.MerchantProof | app/api/merchant/issue-proof/route.ts:30-55 | the merchant row is `verified` with `verifiedAt = createdAt`, is named after the key's merchant, has issuer `merchant` with both ids that merchant's id, and has no rejection |
| Lifecycle.WithEvidence | app/api/upload-evidence/route.ts:39-45 | the upload update sets `pending` and the new path, keeps the first upload time (COALESCE) and the old decision fields, and touches nothing else |
| Lifecycle.Approved | app/api/admin/verify/route.ts:32-39 | the verify update sets `verified` and `verifiedAt = now`, and clears the rejection |
| Lifecycle.Declined | app/api/admin/reject/route.ts:43-50 | the reject update sets `rejected`, `rejectedAt = now` and the reason, and clears `verifiedAt` |
| Lifecycle.UploadKeepsFirstTime | app/api/upload-evidence/route.ts:43 | a second upload replaces the path but keeps the first upload time |
| Lifecycle.UpdatesMove | app/api/admin/verify/route.ts:23-39 | updates only move a status to pending, or from pending to a decision; issued or decided proofs cannot be decided directly |
| Lifecycle.DecisionNeedsPending | app/api/admin/reject/route.ts:34-39 | a proof that starts `issued` and ends with a decision passed through `pending` on the way |
| Lifecycle.MetaText | app/lib/audit.ts:9 | `meta ? JSON.stringify(meta) : null`; see MetaTextParses and MetaTextInjective |
| Lifecycle.MetaTextParses | app/lib/audit.ts:9 | absent meta is stored as NULL, and present meta as text that parses back to it |
| Lifecycle.MetaTextInjective | app/lib/audit.ts:9 | different metadata (absent included) is never stored as the same column value |
| ProofViews.GetProof | app/api/get-proof/route.ts:6-32 | 400 exactly for an empty trimmed id, 404 exactly for an unknown one; success exactly when every guard passes, and then the stored fields with null item as `""` and null issuer as `user`, and no evidence fields |
| ProofViews.AdminGetProof | app/api/admin/get-proof/route.ts:7-52 | 401, 400 and 404 exactly on their guards; success exactly when every guard passes, and then the stored fields, `hasEvidence` iff the path is non-empty, issuer always `user` with null id |
| ProofViews.VerifyProof | app/api/verify/route.ts:6-30 | 400 exactly for a missing or empty id (untrimmed), unknown exactly for an absent one, otherwise `valid` iff stored status is `verified`, echoing status and decision fields |
| ProofViews.TrimmedIdFixed | app/api/get-proof/route.ts:6-8 | an id that is its own trim is unchanged by either half of the trim |
| ProofViews.VerifyAgreesWithGetProof | app/api/verify/route.ts:6-25 | for an unpadded id, verify says valid exactly when get-proof finds the proof `verified` |
| ProofViews.VerifyDoesNotTrim | app/api/verify/route.ts:6-10 | a padded id that get-proof resolves is unknown to verify |
| ProofViews.AdminIssuerHardCoded | app/api/admin/get-proof/route.ts:50-51 | a merchant-issued proof is `merchant` publicly and `user` with null id to admins |
| ProofViews.ViewsOfWellFormedProof | app/api/admin/get-proof/route.ts:42-47 | for stored proofs, pending ones always show evidence, MIME is always null, a valid one has `verifiedAt` and no rejection, a rejected one has its time and reason |
| MerchantViews.View | app/api/admin/merchants/list-keys/route.ts:26-34 | an entry has the key's id, label, times and `active` iff not revoked, and no digest |
| MerchantViews.Owned | app/api/admin/merchants/list-keys/route.ts:19-24 | `WHERE merchantId = ?` keeps exactly the merchant's keys, each as often as it is stored |
| MerchantViews.Views | app/api/admin/merchants/list-keys/route.ts:26-34 | the map applies `View` position by position |
| MerchantViews.ListKeys | app/api/admin/merchants/list-keys/route.ts:7-34 | 401 and 400 exactly on their guards; success exactly when every guard passes, and then exactly the views of the merchant's keys, newest first |
| MerchantViews.ListKeysContents | app/api/admin/merchants/list-keys/route.ts:19-34 | an entry is listed exactly when some key of that merchant has that view, and it is active iff not revoked |
| MerchantViews.UnknownMerchantHasNoKeys | app/api/admin/merchants/list-keys/route.ts:19-24 | a merchant with no keys, known or not, gets an empty list rather than 404 |
| MerchantViews.ListMerchants | app/api/admin/merchants/list/route.ts:7-18 | 401 exactly without a session; success exactly when every guard passes, and then every merchant row, newest first |
| AdminAuditRoute.SkipSpaces | app/api/admin/audit/route.ts:13 | `\s*` consumes the longest run of white space |
| AdminAuditRoute.AnchorAt | app/api/admin/audit/route.ts:13 | an attempt anchors at the start or at a `;` and is followed by `adminSession=` |
| AdminAuditRoute.ValueEnd | app/api/admin/audit/route.ts:13 | `[^;]+` runs up to the next `;` or the end |
| AdminAuditRoute.MatchAt | app/api/admin/audit/route.ts:13 | a captured value is non-empty and holds no `;` |
| AdminAuditRoute.FirstMatch | app/api/admin/audit/route.ts:12-14 | `match` takes the leftmost successful attempt, and none exists when it fails |
| AdminAuditRoute.GetAdminSessionId | app/api/admin/audit/route.ts:10-16 | null exactly when no position of the header (or `""`) matches the pattern; otherwise the decoded capture of the leftmost matching position |
| AdminAuditRoute.NoMatchWithoutAnchor | app/api/admin/audit/route.ts:13 | no attempt succeeds where neither `^` nor `;` can start it |
| AdminAuditRoute.LoginCookieNotRead | app/api/admin/audit/route.ts:8-16 | the `admin_session=…` cookie that login sets is never found by this route when it is the only cookie in the header |
| AdminAuditRoute.SessionCookieRead | app/api/admin/audit/route.ts:10-16 | a header `adminSession=v` yields the decoded `v` |
| AdminAuditRoute.NewestFirst | app/api/admin/audit/route.ts:26-33 | `ORDER BY id DESC LIMIT 100` returns `min(100, n)` rows with strictly decreasing ids, drawn from the table, and every omitted row is older than every returned one |
| AdminAuditRoute.AdminAudit | app/api/admin/audit/route.ts:18-43 | 401 exactly without a session from the cookie; a failed read gives no rows and a warning with success status; success exactly when every guard passes, and then the newest-first page |
| Receiptless.ExpectedUser | app/api/admin/login/route.ts:10 | `ADMIN_USERNAME \|\| "admin"`; see Store.Login and DefaultCredentials |
| Receiptless.ExpectedPassword | app/api/admin/login/route.ts:11 | `ADMIN_PASSWORD \|\| ""`, not trimmed; see Store.Login, PaddedPasswordNeverMatches and DefaultCredentials |
| Receiptless.UploadId | app/api/upload-evidence/route.ts:19 | `String(form.get("id") ?? form.get("proofId") ?? "").trim()`; see EmptyIdHidesProofId and Store.UploadEvidence |
| Receiptless.StoredFileName | app/api/upload-evidence/route.ts:31-34 | the stored name is `id-` + first 10 hex digits of the SHA-1 + `-` + the safe name, never empty |
| Receiptless.FirstKeyWithId | app/api/admin/merchants/revoke-key/route.ts:19-21 | `.get` returns the first key row with the id, or reports that none has it |
| Receiptless.RevokeAll | app/api/admin/merchants/revoke-key/route.ts:33-35 | the UPDATE sets `revokedAt` on every row with that id and leaves all others |
| Receiptless.PutKeepsValid | app/lib/db.ts:49-70 | storing a well-formed row under its own public id keeps the table valid |
| Receiptless.Store.Valid | app/lib/db.ts:50-83 | the store invariant: each proof sits under its unique `publicId` and is well formed, merchant names are non-empty, and `audit` ids increase; kept by every handler and used by Store.AuditPage |
| Receiptless.Store.constructor | app/lib/db.ts:49-83 | the store opens empty and valid |
| Receiptless.Store.AuditPage | app/api/admin/audit/route.ts:18-43 | the audit route over this store's `audit` table: success exactly with a session, and then only rows of that table, never `audit_logs` events |
| Receiptless.Store.LogAudit | app/lib/audit.ts:3-15 | appends exactly one `audit_logs` event with the given id, event, time and metadata, and changes nothing else |
| Receiptless.Store.CreateProof | app/api/create-proof/route.ts:11-36 | 400 exactly when merchant or reference is empty after trimming, with nothing stored; otherwise inserts the `issued` row, appends one `proof_created` event with `{issuer:"user"}`, and returns the public id |
| Receiptless.Store.IssueProof | app/api/merchant/issue-proof/route.ts:12-64 | 401 exactly when the key does not resolve, then 400 exactly for an empty reference, with nothing stored; success exactly when the key resolves and the reference is non-empty, and then inserts the `verified` row of the key's merchant and appends `proof_created` then `auto_verified` |
| Receiptless.Store.UploadEvidence | app/api/upload-evidence/route.ts:15-53 | "Missing id", "Missing file" and the missing-UPLOAD_DIR 500 exactly on their guards with nothing written; success exactly when every guard passes, and then writes the blob under UPLOAD_DIR and updates the proof with that id, if any. No audit event; statuses only move |
| Receiptless.Store.AdminVerify | app/api/admin/verify/route.ts:7-43 | 401, 400 and 404 exactly on their guards, 400 naming the status when not pending, nothing changed on failure; success exactly when every guard passes, and then the `Approved` row and one `admin_verified` event |
| Receiptless.Store.AdminReject | app/api/admin/reject/route.ts:6-58 | 401, missing id, missing reason and 404 exactly on their guards, 400 naming the status when not pending; success exactly when every guard passes, and then the `Declined` row with the trimmed reason. No audit event on any path |
| Receiptless.Store.Login | app/api/admin/login/route.ts:5-35 | misconfigured exactly in production without a password; 401 exactly for trimmed credentials that differ from the expected ones, with no session; success exactly when every guard passes, and then exactly one new session, the hex of 24 random bytes |
| Receiptless.Store.CreateMerchant | app/api/admin/merchants/create/route.ts:7-23 | 401 and 400 exactly on their guards with nothing stored; success exactly when every guard passes, and then appends one merchant with the trimmed name, duplicates allowed |
| Receiptless.Store.NewKey | app/api/admin/merchants/new-key/route.ts:8-37 | 401, 400 and 404 exactly on their guards with no key stored; success exactly when every guard passes, and then stores the key's digest, unrevoked, with `label \|\| null`, and returns the raw key once |
| Receiptless.Store.RevokeKey | app/api/admin/merchants/revoke-key/route.ts:6-37 | 401, 400 and 404 exactly on their guards; `alreadyRevoked` exactly when the first row is revoked, with nothing changed; `revoked` with the current time exactly when the first row is unrevoked, and then `revokedAt = now` on that key id's rows only |
| Receiptless.NewKeyResolves | app/api/admin/merchants/new-key/route.ts:25-34 | a freshly issued key resolves straight away to its merchant |
| Receiptless.RevokedKeyNoLongerResolves | app/api/admin/merchants/revoke-key/route.ts:31-35 | after revocation the key is refused by the merchant lookup |
| Receiptless.SecondRevokeIsAlreadyRevoked | app/api/admin/merchants/revoke-key/route.ts:27-35 | after one revocation the first row with that id is the same row and is revoked, so a second call answers `alreadyRevoked` |
| Receiptless.PaddedPasswordNeverMatches | app/api/admin/login/route.ts:8-21 | a configured password with surrounding white space can never be entered |
| Receiptless.DefaultCredentials | app/api/admin/login/route.ts:10-11 | with nothing configured outside production, `admin` with an empty password logs in |
| Receiptless.EmptyIdHidesProofId | app/api/upload-evidence/route.ts:19 | a present but empty `id` hides `proofId`, giving "Missing id" |
| Receiptless.EvidenceRoutesDisagree | app/api/admin/evidence/route.ts:30-36 | for a relative name, when cwd and UPLOAD_DIR resolve differently, the admin route reports the file missing while the corrected id route (with its gate, and the id given as an `[id]` segment) serves it to the same admin |
| Receiptless.CreatedProofNotYetValid | app/api/create-proof/route.ts:29-32 | a new customer proof shows as `issued` by `user` with no decision, and is not valid |
| Receiptless.MerchantIssuedProofValid | app/api/merchant/issue-proof/route.ts:33-34 | a merchant-issued proof is valid at once, with `verifiedAt` its creation time |

## Left out

- UI pages and client components are left out. They render and `fetch`, with no server-side effect.
- The SQLite plumbing of app/lib/db.ts is left out: the lazy connection, pragmas and migrations that swallow errors. Its schema shapes `Records.Proof`. The `merchants`, `merchant_api_keys` and `audit_logs` tables are not created there, and the model takes them to exist.
- The row id of `proofs` is not modelled. Rows are keyed by the unique `publicId`.
- The status column's `DEFAULT 'issued'` and `?? "issued"` fallback are not modelled, because no handler leaves the status unset.
- The logout route is left out. Its only store effect is `AdminSession.SessionStore.DeleteSession`.
- app/api/admin/evidence/id/route.ts:14 calls a function app/lib/adminSession.ts does not export. The type check of a build rejects the import. The model follows a build that skips it: the call throws a `TypeError` and the route answers 500. `Evidence.EvidenceLookup` covers lines 16-48, and `Evidence.GatedEvidenceById` is the route with a session gate in place of the call. What `requireAdmin` was meant to return when no admin is logged in is not known; the gate answers 401 as app/api/admin/evidence/route.ts does.
- SHA-256, SHA-1, `path.join` and `decodeURIComponent` are uninterpreted functions, so collision resistance is not modelled.
- A `decodeURIComponent` that throws on a malformed escape is not modelled.
- Uniqueness of `keyHash` is not enforced by the code or the model. A lookup takes the first joined row.
- `nanoid`, `randomBytes` and the clock are parameters. Their freshness is a `requires` where an insert needs it. No time ordering of events is claimed.
- Concurrency is not modelled. The read-then-write of verify and reject is a single step.
- HTTP mechanics are left out: status codes are constructors, and JSON and multipart parsing are given as `Option` fields and `FormValue`.
- The JSON routes read their body with `req.json().catch(() => ({}))`: a body that fails to parse counts as `{}`, so every field reads as absent.
- A JSON body that parses to `null` makes the field read throw, an uncaught 500. The model has no input for it: it starts from the fields.
- A body that is not multipart makes `req.formData()` in upload-evidence throw, answered 500 with `Upload failed` and the parser's message. `Receiptless.Store.UploadEvidence` starts from the parsed form and does not model it.
- app/api/admin/evidence/id/route.ts sits in a folder named `id`, not `[id]`, so the router passes no `params.id` and serves only the literal path. `Evidence.EvidenceLookup`, `Evidence.GatedEvidenceById` and `Receiptless.EvidenceRoutesDisagree` take the id as a parameter, as if the folder were a dynamic `[id]` segment. As written the route throws at line 14 before the id is read.
- Non-string JSON values passed through `String()` are not modelled.
- A `File` value in a text field is not modelled.
- The 303 redirect target is the path `/p/<id>`, without the request's origin.
- `fs.mkdirSync` and file write errors are left out. The only thrown error modelled in upload-evidence is the missing `UPLOAD_DIR`.
- base64 encoding of the evidence body is left out. `Evidence.EvidenceBody` holds the bytes.
- The 8-hour `maxAge` of the login cookie is not modelled. Server-side sessions never expire, and the cookie name is stated in prose and in `AdminAuditRoute.LoginCookieNotRead`.
- Common.AsciiLower: lower-cases A–Z only. `toLowerCase` also maps non-ASCII letters, which no mapped extension contains.
- Ordering.SortDesc: rows with equal `createdAt` are in no promised order, as in SQLite. The model fixes one order and states only permutation and sortedness.
- Records.AuditEvent: holds the structured metadata object. The stored column text is `Lifecycle.MetaText` of it, proved to parse back by `Lifecycle.MetaTextParses`.
- The rows of the `audit` table are inputs, since no handler writes them. A read of that table is given as `AdminAuditRoute.AuditRead`, including its failure message.

## Findings

| source | as written | input that shows it | evidently intended | confidence | as-written member | corrected member |
|---|---|---|---|---|---|---|
| app/api/admin/evidence/id/route.ts:5,14 | imports and calls `requireAdmin`, which app/lib/adminSession.ts:10-23 does not export | any request, even a logged-in admin asking for a proof whose file is stored under UPLOAD_DIR | only a logged-in admin is served the file (comment at line 13) | high, not executed | Evidence.EvidenceByIdNeverServes | Evidence.GatedEvidenceServesOnlyAdmins |
