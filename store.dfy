/**
 * The route handlers that change state, as methods of one `Store` holding
 * the SQLite tables, the evidence files and the admin session map. Each
 * handler returns a `Response` in place of its HTTP answer; fresh ids,
 * random bytes and clock readings are parameters.
 */
module Receiptless {
  import opened Common
  import opened Records
  import opened Json
  import opened Lifecycle
  import opened Hex
  import opened MerchantAuth
  import opened Evidence
  import opened AdminSession
  import AdminAuditRoute
  import ProofViews

  /** A value of a multipart form field: absent, text, or an uploaded file. */
  datatype FormValue = NoValue | TextValue(text: string) | FileValue(name: string, content: seq<byte>)

  /** The environment variables the handlers read. */
  datatype Env = Env(adminUsername: Option<string>, adminPassword: Option<string>,
                     nodeEnv: Option<string>, uploadDir: Option<string>)

  /** `process.env.ADMIN_USERNAME || "admin"` */
  function ExpectedUser(env: Env): string {
    if Truthy(env.adminUsername) then env.adminUsername.value else "admin"
  }

  /** `process.env.ADMIN_PASSWORD || ""` */
  function ExpectedPassword(env: Env): string {
    OrEmpty(env.adminPassword)
  }

  predicate PasswordMissingInProduction(env: Env) {
    env.nodeEnv == Some("production") && ExpectedPassword(env) == []
  }

  /** The message of a refused status change. */
  function CannotMove(verb: string, s: Status): string {
    "Cannot " + verb + " from status '" + StatusName(s) + "'"
  }

  /** `String(form.get("id") ?? form.get("proofId") ?? "").trim()`: a present but empty `id` hides `proofId`. */
  function UploadId(idField: Option<string>, proofIdField: Option<string>): string {
    Trim(if idField.Some? then idField.value else proofIdField.GetOr(""))
  }

  /** The name the evidence file is stored under, also stored as `evidencePath`. */
  function StoredFileName(prim: Primitives, id: string, fileName: string, content: seq<byte>): (r: string)
    ensures r != []
    ensures r == id + "-" + Take(prim.sha1Hex(content), 10) + "-" + SafeName(fileName)
  {
    EvidenceFileName(id, prim.sha1Hex(content), SafeName(fileName))
  }

  /** `SELECT ... WHERE id = ?` with `.get`: the first row with that id. */
  function FirstKeyWithId(keys: seq<ApiKey>, id: string): (r: Option<nat>)
    ensures r.Some? ==> r.value < |keys| && keys[r.value].id == id
    ensures r.Some? ==> forall j :: 0 <= j < r.value ==> keys[j].id != id
    ensures r.None? ==> forall k :: k in keys ==> k.id != id
  {
    if keys == [] then None
    else if keys[0].id == id then Some(0)
    else match FirstKeyWithId(keys[1..], id)
      case None => None
      case Some(i) => Some(i + 1)
  }

  /** `UPDATE merchant_api_keys SET revokedAt = ? WHERE id = ?`: every row with that id. */
  function RevokeAll(keys: seq<ApiKey>, id: string, now: Timestamp): (r: seq<ApiKey>)
    ensures |r| == |keys|
    ensures forall i :: 0 <= i < |keys| && keys[i].id == id ==> r[i] == keys[i].(revokedAt := Some(now))
    ensures forall i :: 0 <= i < |keys| && keys[i].id != id ==> r[i] == keys[i]
  {
    if keys == [] then []
    else [if keys[0].id == id then keys[0].(revokedAt := Some(now)) else keys[0]] + RevokeAll(keys[1..], id, now)
  }

  datatype IssuedReply = IssuedReply(publicId: string, status: Status, verifiedAt: Timestamp)
  datatype VerifiedReply = VerifiedReply(id: string, status: Status, verifiedAt: Timestamp)
  datatype RejectedReply = RejectedReply(id: string, status: Status, rejectedAt: Timestamp, rejectionReason: string)
  datatype NewKeyReply = NewKeyReply(apiKey: string, keyId: string, createdAt: Timestamp)
  datatype RevokeReply = AlreadyRevoked | Revoked(revokedAt: Timestamp)

  /** Every stored proof sits under its own public id and is well formed. */
  ghost predicate ProofsValid(proofs: map<string, Proof>) {
    forall id :: id in proofs ==> proofs[id].publicId == id && WellFormed(proofs[id])
  }

  lemma PutKeepsValid(proofs: map<string, Proof>, id: string, p: Proof)
    requires ProofsValid(proofs) && p.publicId == id && WellFormed(p)
    ensures ProofsValid(proofs[id := p])
  {
  }

  class Store {
    /** `proofs`, keyed by its unique `publicId` column. */
    var proofs: map<string, Proof>
    /** `audit_logs`, the table `logAudit` writes, in insertion order. */
    var auditLogs: seq<AuditEvent>
    /** `audit`, the table the admin audit route reads; no handler writes it. */
    var auditTable: seq<AuditRow>
    var merchants: seq<Merchant>
    /** `merchant_api_keys`, in row order. */
    var apiKeys: seq<ApiKey>
    /** The files under the upload directory (and anywhere else), by path. */
    var blobs: map<string, seq<byte>>
    /** The module-level session map of app/lib/adminSession.ts. */
    const sessions: SessionStore
    const prim: Primitives

    ghost predicate Valid()
      reads this
    {
      && ProofsValid(proofs)
      && (forall m :: m in merchants ==> m.name != [])
      && AdminAuditRoute.IdsIncreasing(auditTable)
    }

    constructor (prim: Primitives)
      ensures Valid() && fresh(sessions) && sessions.ids == {}
      ensures this.prim == prim && proofs == map[] && auditLogs == [] && auditTable == []
      ensures merchants == [] && apiKeys == [] && blobs == map[]
    {
      this.prim := prim;
      proofs := map[];
      auditLogs := [];
      auditTable := [];
      merchants := [];
      apiKeys := [];
      blobs := map[];
      sessions := new SessionStore();
    }

    /**
     * GET /api/admin/audit against this store's `audit` table when reading
     * it succeeds: the events `logAudit` wrote to `audit_logs` never appear.
     */
    function AuditPage(cookieHeader: Option<string>): (r: Response<AdminAuditRoute.AuditPage>)
      reads this, sessions
      requires Valid()
      ensures r.Ok? <==> HasSession(sessions.ids, AdminAuditRoute.GetAdminSessionId(prim, cookieHeader))
      ensures r.Ok? ==> r.body.warning.None? && forall x :: x in r.body.rows ==> x in auditTable
      ensures r.Ok? && auditTable == [] ==> r.body.rows == []
    {
      AdminAuditRoute.AdminAudit(prim, sessions.ids, cookieHeader, AdminAuditRoute.Rows(auditTable))
    }

    /** `logAudit(proofId, event, meta)`: appends to `audit_logs`, never to `audit`. */
    method LogAudit(proofId: string, event: string, meta: Option<Meta>, at: Timestamp)
      modifies this`auditLogs
      ensures auditLogs == old(auditLogs) + [AuditEvent(proofId, event, at, meta)]
    {
      auditLogs := auditLogs + [AuditEvent(proofId, event, at, meta)];
    }

    /** POST /api/create-proof */
    method CreateProof(merchantField: Option<string>, referenceField: Option<string>, itemField: Option<string>,
                       publicId: string, createdAt: Timestamp, loggedAt: Timestamp) returns (r: Response<string>)
      requires Valid() && publicId !in proofs
      modifies this`proofs, this`auditLogs
      ensures Valid()
      ensures r.Ok? || r.BadRequest?
      ensures r.BadRequest? <==> Field(merchantField) == [] || Field(referenceField) == []
      ensures r.BadRequest? ==>
                r.error == "merchant and reference are required" && proofs == old(proofs) && auditLogs == old(auditLogs)
      ensures r.Ok? ==>
                && r.body == publicId
                && proofs == old(proofs)[publicId := UserProof(prim, Field(merchantField), Field(referenceField),
                                                               Field(itemField), publicId, createdAt)]
                && auditLogs == old(auditLogs) + [AuditEvent(publicId, "proof_created", loggedAt, Some(UserIssued))]
    {
      var merchant := Field(merchantField);
      var reference := Field(referenceField);
      var item := Field(itemField);
      if merchant == [] || reference == [] {
        return BadRequest("merchant and reference are required");
      }
      PutKeepsValid(proofs, publicId, UserProof(prim, merchant, reference, item, publicId, createdAt));
      proofs := proofs[publicId := UserProof(prim, merchant, reference, item, publicId, createdAt)];
      LogAudit(publicId, "proof_created", Some(UserIssued), loggedAt);
      r := Ok(publicId);
    }

    /** POST /api/merchant/issue-proof, authenticated by the `x-api-key` header. */
    method IssueProof(apiKeyHeader: Option<string>, referenceField: Option<string>, itemField: Option<string>,
                      publicId: string, createdAt: Timestamp, loggedAt1: Timestamp, loggedAt2: Timestamp)
      returns (r: Response<IssuedReply>)
      requires Valid() && publicId !in proofs
      modifies this`proofs, this`auditLogs
      ensures Valid()
      ensures r.Ok? || r.Unauthorized? || r.BadRequest?
      ensures var who := GetMerchantByApiKey(prim, apiKeys, merchants, OrEmpty(apiKeyHeader));
              && (r == Unauthorized("Invalid API key") <==> who.None?)
              && (r == BadRequest("reference is required") <==> who.Some? && Field(referenceField) == [])
              && (r.Ok? <==> who.Some? && Field(referenceField) != [])
              && (!r.Ok? ==> proofs == old(proofs) && auditLogs == old(auditLogs))
              && (r.Ok? ==>
                    && who.Some? && r.body == IssuedReply(publicId, Verified, createdAt)
                    && who.value.merchantName != []
                    && proofs == old(proofs)[publicId := MerchantProof(prim, who.value.merchantId, who.value.merchantName,
                                                                       Field(referenceField), Field(itemField), publicId, createdAt)]
                    && auditLogs == old(auditLogs)
                         + [AuditEvent(publicId, "proof_created", loggedAt1, Some(MerchantIssued(who.value.merchantId))),
                            AuditEvent(publicId, "auto_verified", loggedAt2, Some(AutoVerified))])
    {
      var who := GetMerchantByApiKey(prim, apiKeys, merchants, OrEmpty(apiKeyHeader));
      if who.None? {
        return Unauthorized("Invalid API key");
      }
      var reference := Field(referenceField);
      var item := Field(itemField);
      if reference == [] {
        return BadRequest("reference is required");
      }
      var m := who.value;
      assert FindMerchant(merchants, m.merchantId).value in merchants;
      var p := MerchantProof(prim, m.merchantId, m.merchantName, reference, item, publicId, createdAt);
      PutKeepsValid(proofs, publicId, p);
      proofs := proofs[publicId := MerchantProof(prim, m.merchantId, m.merchantName, reference, item, publicId, createdAt)];
      LogAudit(publicId, "proof_created", Some(MerchantIssued(m.merchantId)), loggedAt1);
      LogAudit(publicId, "auto_verified", Some(AutoVerified), loggedAt2);
      r := Ok(IssuedReply(publicId, Verified, createdAt));
    }

    /**
     * POST /api/upload-evidence. The file is written before the row is
     * updated, whatever the proof's status and even when no proof has that
     * id; a missing UPLOAD_DIR is the thrown error the handler turns into 500.
     */
    method UploadEvidence(idField: Option<string>, proofIdField: Option<string>, file: FormValue,
                          uploadDir: Option<string>, now: Timestamp) returns (r: Response<string>)
      requires Valid()
      modifies this`proofs, this`blobs
      ensures Valid()
      ensures r.Ok? || r.BadRequest? || r.Failed?
      ensures var id := UploadId(idField, proofIdField);
              && (r == BadRequest("Missing id") <==> id == [])
              && (r == BadRequest("Missing file") <==> id != [] && !file.FileValue?)
              && (r == Failed("Upload failed", "UPLOAD_DIR is not set") <==> id != [] && file.FileValue? && !Truthy(uploadDir))
              && (r.Ok? <==> id != [] && file.FileValue? && Truthy(uploadDir))
              && (!r.Ok? ==> proofs == old(proofs) && blobs == old(blobs))
              && (r.Ok? ==>
                    var name := StoredFileName(prim, id, file.name, file.content);
                    && file.FileValue? && Truthy(uploadDir) && r.body == "/p/" + id
                    && blobs == old(blobs)[prim.pathJoin(uploadDir.value, name) := file.content]
                    && proofs == if id in old(proofs) then old(proofs)[id := WithEvidence(old(proofs)[id], name, now)]
                                 else old(proofs))
      ensures proofs.Keys == old(proofs).Keys
      ensures forall k :: k in proofs ==> proofs[k].status == old(proofs)[k].status || Moves(old(proofs)[k].status, proofs[k].status)
    {
      var id := UploadId(idField, proofIdField);
      if id == [] {
        return BadRequest("Missing id");
      }
      if !file.FileValue? {
        return BadRequest("Missing file");
      }
      if !Truthy(uploadDir) {
        return Failed("Upload failed", "UPLOAD_DIR is not set");
      }
      var name := StoredFileName(prim, id, file.name, file.content);
      blobs := blobs[prim.pathJoin(uploadDir.value, name) := file.content];
      if id in proofs {
        UpdatesMove(proofs[id], name, "", now);
        PutKeepsValid(proofs, id, WithEvidence(proofs[id], name, now));
        proofs := proofs[id := WithEvidence(proofs[id], name, now)];
      }
      r := Ok("/p/" + id);
    }

    /** POST /api/admin/verify: only a pending proof can be verified. */
    method AdminVerify(sessionCookie: Option<string>, idField: Option<string>, now: Timestamp, loggedAt: Timestamp)
      returns (r: Response<VerifiedReply>)
      requires Valid()
      modifies this`proofs, this`auditLogs
      ensures Valid()
      ensures r.Ok? || r.Unauthorized? || r.BadRequest? || r.NotFound?
      ensures var id := Field(idField);
              && (r == Unauthorized("Unauthorized") <==> !HasSession(sessions.ids, sessionCookie))
              && (r == BadRequest("Missing id") <==> HasSession(sessions.ids, sessionCookie) && id == [])
              && (r == NotFound("Not found") <==> HasSession(sessions.ids, sessionCookie) && id != [] && id !in old(proofs))
              && (HasSession(sessions.ids, sessionCookie) && id != [] && id in old(proofs)
                  && old(proofs)[id].status != Pending ==>
                    r == BadRequest(CannotMove("verify", old(proofs)[id].status)))
              && (r.Ok? <==> HasSession(sessions.ids, sessionCookie) && id != [] && id in old(proofs)
                             && old(proofs)[id].status == Pending)
              && (!r.Ok? ==> proofs == old(proofs) && auditLogs == old(auditLogs))
              && (r.Ok? ==>
                    && HasSession(sessions.ids, sessionCookie) && id in old(proofs) && old(proofs)[id].status == Pending
                    && r.body == VerifiedReply(id, Verified, now)
                    && proofs == old(proofs)[id := Approved(old(proofs)[id], now)]
                    && auditLogs == old(auditLogs) + [AuditEvent(id, "admin_verified", loggedAt, None)])
      ensures proofs.Keys == old(proofs).Keys
      ensures forall k :: k in proofs ==> proofs[k].status == old(proofs)[k].status || Moves(old(proofs)[k].status, proofs[k].status)
    {
      if !HasSession(sessions.ids, sessionCookie) {
        return Unauthorized("Unauthorized");
      }
      var id := Field(idField);
      if id == [] {
        return BadRequest("Missing id");
      }
      if id !in proofs {
        return NotFound("Not found");
      }
      var existing := proofs[id];
      if existing.status != Pending {
        return BadRequest(CannotMove("verify", existing.status));
      }
      UpdatesMove(existing, "-", "", now);
      PutKeepsValid(proofs, id, Approved(existing, now));
      proofs := proofs[id := Approved(existing, now)];
      LogAudit(id, "admin_verified", None, loggedAt);
      r := Ok(VerifiedReply(id, Verified, now));
    }

    /** POST /api/admin/reject: only a pending proof, and only with a reason; no audit event is written. */
    method AdminReject(sessionCookie: Option<string>, idField: Option<string>, reasonField: Option<string>,
                       now: Timestamp) returns (r: Response<RejectedReply>)
      requires Valid()
      modifies this`proofs
      ensures Valid()
      ensures r.Ok? || r.Unauthorized? || r.BadRequest? || r.NotFound?
      ensures var id := Field(idField);
              var reason := Field(reasonField);
              && (r == Unauthorized("Unauthorized") <==> !HasSession(sessions.ids, sessionCookie))
              && (r == BadRequest("Missing id") <==> HasSession(sessions.ids, sessionCookie) && id == [])
              && (r == BadRequest("Rejection reason is required") <==>
                    HasSession(sessions.ids, sessionCookie) && id != [] && reason == [])
              && (r == NotFound("Not found") <==>
                    HasSession(sessions.ids, sessionCookie) && id != [] && reason != [] && id !in old(proofs))
              && (HasSession(sessions.ids, sessionCookie) && id != [] && reason != [] && id in old(proofs)
                  && old(proofs)[id].status != Pending ==>
                    r == BadRequest(CannotMove("reject", old(proofs)[id].status)))
              && (r.Ok? <==> HasSession(sessions.ids, sessionCookie) && id != [] && reason != [] && id in old(proofs)
                             && old(proofs)[id].status == Pending)
              && (!r.Ok? ==> proofs == old(proofs))
              && (r.Ok? ==>
                    && HasSession(sessions.ids, sessionCookie) && reason != []
                    && id in old(proofs) && old(proofs)[id].status == Pending
                    && r.body == RejectedReply(id, Rejected, now, reason)
                    && proofs == old(proofs)[id := Declined(old(proofs)[id], reason, now)])
      ensures proofs.Keys == old(proofs).Keys
      ensures forall k :: k in proofs ==> proofs[k].status == old(proofs)[k].status || Moves(old(proofs)[k].status, proofs[k].status)
    {
      if !HasSession(sessions.ids, sessionCookie) {
        return Unauthorized("Unauthorized");
      }
      var id := Field(idField);
      var reason := Field(reasonField);
      if id == [] {
        return BadRequest("Missing id");
      }
      if reason == [] {
        return BadRequest("Rejection reason is required");
      }
      if id !in proofs {
        return NotFound("Not found");
      }
      var existing := proofs[id];
      if existing.status != Pending {
        return BadRequest(CannotMove("reject", existing.status));
      }
      UpdatesMove(existing, "-", reason, now);
      PutKeepsValid(proofs, id, Declined(existing, reason, now));
      proofs := proofs[id := Declined(existing, reason, now)];
      r := Ok(RejectedReply(id, Rejected, now, reason));
    }

    /**
     * POST /api/admin/login. The submitted credentials are trimmed, the
     * expected ones are not. On success the new session id is what the
     * handler sets as the `admin_session` cookie.
     */
    method Login(usernameField: Option<string>, passwordField: Option<string>, env: Env, random: seq<byte>)
      returns (r: Response<string>)
      requires |random| == 24
      modifies sessions
      ensures r.Ok? || r.Misconfigured? || r.Unauthorized?
      ensures r == Misconfigured("Server misconfigured: ADMIN_PASSWORD is not set") <==> PasswordMissingInProduction(env)
      ensures r == Unauthorized("Invalid credentials") <==>
                !PasswordMissingInProduction(env)
                && (Field(usernameField) != ExpectedUser(env) || Field(passwordField) != ExpectedPassword(env))
      ensures r.Ok? <==>
                !PasswordMissingInProduction(env)
                && Field(usernameField) == ExpectedUser(env) && Field(passwordField) == ExpectedPassword(env)
      ensures !r.Ok? ==> sessions.ids == old(sessions.ids)
      ensures r.Ok? ==>
                && r.body == HexEncode(random) && |r.body| == 48
                && sessions.ids == old(sessions.ids) + {r.body}
                && HasSession(sessions.ids, Some(r.body))
    {
      var username := Field(usernameField);
      var password := Field(passwordField);
      if PasswordMissingInProduction(env) {
        return Misconfigured("Server misconfigured: ADMIN_PASSWORD is not set");
      }
      if username != ExpectedUser(env) || password != ExpectedPassword(env) {
        return Unauthorized("Invalid credentials");
      }
      var sessionId := sessions.CreateSession(random);
      r := Ok(sessionId);
    }

    /** POST /api/admin/merchants/create */
    method CreateMerchant(sessionCookie: Option<string>, nameField: Option<string>, id: string, createdAt: Timestamp)
      returns (r: Response<Merchant>)
      requires Valid()
      modifies this`merchants
      ensures Valid()
      ensures r.Ok? || r.Unauthorized? || r.BadRequest?
      ensures r == Unauthorized("Unauthorized") <==> !HasSession(sessions.ids, sessionCookie)
      ensures r == BadRequest("name is required") <==> HasSession(sessions.ids, sessionCookie) && Field(nameField) == []
      ensures r.Ok? <==> HasSession(sessions.ids, sessionCookie) && Field(nameField) != []
      ensures !r.Ok? ==> merchants == old(merchants)
      ensures r.Ok? ==> r.body == Merchant(id, Field(nameField), createdAt) && merchants == old(merchants) + [r.body]
    {
      if !HasSession(sessions.ids, sessionCookie) {
        return Unauthorized("Unauthorized");
      }
      var name := Field(nameField);
      if name == [] {
        return BadRequest("name is required");
      }
      var m := Merchant(id, name, createdAt);
      merchants := merchants + [m];
      r := Ok(m);
    }

    /**
     * POST /api/admin/merchants/new-key: the raw key is returned once and
     * only its digest is stored.
     */
    method NewKey(sessionCookie: Option<string>, merchantIdField: Option<string>, labelField: Option<string>,
                  random: seq<byte>, keyId: string, createdAt: Timestamp) returns (r: Response<NewKeyReply>)
      requires Valid() && |random| == 24
      modifies this`apiKeys
      ensures Valid()
      ensures r.Ok? || r.Unauthorized? || r.BadRequest? || r.NotFound?
      ensures var merchantId := Field(merchantIdField);
              && (r == Unauthorized("Unauthorized") <==> !HasSession(sessions.ids, sessionCookie))
              && (r == BadRequest("merchantId is required") <==> HasSession(sessions.ids, sessionCookie) && merchantId == [])
              && (r == NotFound("Merchant not found") <==>
                    HasSession(sessions.ids, sessionCookie) && merchantId != [] && FindMerchant(merchants, merchantId).None?)
              && (r.Ok? <==> HasSession(sessions.ids, sessionCookie) && merchantId != [] && FindMerchant(merchants, merchantId).Some?)
              && (!r.Ok? ==> apiKeys == old(apiKeys))
              && (r.Ok? ==>
                    && FindMerchant(merchants, merchantId).Some?
                    && r.body == NewKeyReply(GenerateApiKey(random), keyId, createdAt)
                    && apiKeys == old(apiKeys) + [ApiKey(keyId, merchantId, HashApiKey(prim, GenerateApiKey(random)),
                                                         createdAt, None, NullIfEmpty(Field(labelField)))])
    {
      if !HasSession(sessions.ids, sessionCookie) {
        return Unauthorized("Unauthorized");
      }
      var merchantId := Field(merchantIdField);
      var keyLabel := Field(labelField);
      if merchantId == [] {
        return BadRequest("merchantId is required");
      }
      if FindMerchant(merchants, merchantId).None? {
        return NotFound("Merchant not found");
      }
      var apiKey := GenerateApiKey(random);
      var keyHash := HashApiKey(prim, apiKey);
      apiKeys := apiKeys + [ApiKey(keyId, merchantId, keyHash, createdAt, None, NullIfEmpty(keyLabel))];
      r := Ok(NewKeyReply(apiKey, keyId, createdAt));
    }

    /**
     * POST /api/admin/merchants/revoke-key: the first row with the id
     * decides whether it is already revoked; the update then touches every
     * row with that id.
     */
    method RevokeKey(sessionCookie: Option<string>, keyIdField: Option<string>, now: Timestamp)
      returns (r: Response<RevokeReply>)
      requires Valid()
      modifies this`apiKeys
      ensures Valid()
      ensures r.Ok? || r.Unauthorized? || r.BadRequest? || r.NotFound?
      ensures var keyId := Field(keyIdField);
              var first := FirstKeyWithId(old(apiKeys), keyId);
              && (r == Unauthorized("Unauthorized") <==> !HasSession(sessions.ids, sessionCookie))
              && (r == BadRequest("keyId is required") <==> HasSession(sessions.ids, sessionCookie) && keyId == [])
              && (r == NotFound("Key not found") <==> HasSession(sessions.ids, sessionCookie) && keyId != [] && first.None?)
              && (r == Ok(AlreadyRevoked) <==>
                    HasSession(sessions.ids, sessionCookie) && keyId != [] && first.Some?
                    && old(apiKeys)[first.value].revokedAt.Some?)
              && (r == Ok(Revoked(now)) <==>
                    HasSession(sessions.ids, sessionCookie) && keyId != [] && first.Some?
                    && old(apiKeys)[first.value].revokedAt.None?)
              && (r != Ok(Revoked(now)) ==> apiKeys == old(apiKeys))
              && (r.Ok? && r.body.Revoked? ==>
                    && r.body.revokedAt == now && first.Some? && old(apiKeys)[first.value].revokedAt.None?
                    && apiKeys == RevokeAll(old(apiKeys), keyId, now))
    {
      if !HasSession(sessions.ids, sessionCookie) {
        return Unauthorized("Unauthorized");
      }
      var keyId := Field(keyIdField);
      if keyId == [] {
        return BadRequest("keyId is required");
      }
      var first := FirstKeyWithId(apiKeys, keyId);
      if first.None? {
        return NotFound("Key not found");
      }
      if apiKeys[first.value].revokedAt.Some? {
        return Ok(AlreadyRevoked);
      }
      apiKeys := RevokeAll(apiKeys, keyId, now);
      r := Ok(Revoked(now));
    }
  }

  /**
   * A key returned by new-key resolves to its merchant at issue-proof, as
   * long as no earlier stored row has the same digest.
   */
  lemma NewKeyResolves(prim: Primitives, keys: seq<ApiKey>, merchants: seq<Merchant>, merchantId: string,
                       random: seq<byte>, keyId: string, createdAt: Timestamp, keyLabel: Option<string>)
    requires |random| == 24 && FindMerchant(merchants, merchantId).Some?
    requires forall k :: k in keys ==> k.keyHash != HashApiKey(prim, GenerateApiKey(random))
    ensures var row := ApiKey(keyId, merchantId, HashApiKey(prim, GenerateApiKey(random)), createdAt, None, keyLabel);
            GetMerchantByApiKey(prim, keys + [row], merchants, GenerateApiKey(random))
              == Some(MerchantRef(merchantId, FindMerchant(merchants, merchantId).value.name))
  {
    var apiKey := GenerateApiKey(random);
    var row := ApiKey(keyId, merchantId, HashApiKey(prim, apiKey), createdAt, None, keyLabel);
    var all := keys + [row];
    forall j | 0 <= j < |keys| ensures !Joins(all[j], merchants, HashApiKey(prim, apiKey)) {
      assert all[j] == keys[j] && keys[j] in keys;
    }
    ActiveKeyResolves(prim, all, merchants, apiKey, |keys|);
  }

  /**
   * After revoke-key, a key whose digest only that key id's rows carry is
   * refused by issue-proof.
   */
  lemma RevokedKeyNoLongerResolves(prim: Primitives, keys: seq<ApiKey>, merchants: seq<Merchant>, keyId: string,
                                   now: Timestamp, apiKey: string)
    requires forall k :: k in keys && k.keyHash == HashApiKey(prim, apiKey) ==> k.id == keyId
    ensures GetMerchantByApiKey(prim, RevokeAll(keys, keyId, now), merchants, apiKey) == None
  {
    var after := RevokeAll(keys, keyId, now);
    forall k | k in after && k.keyHash == HashApiKey(prim, apiKey) ensures k.revokedAt.Some? {
      var i :| 0 <= i < |after| && after[i] == k;
      assert keys[i] in keys;
    }
    RevokedKeyRefused(prim, after, merchants, apiKey);
  }

  /**
   * A password set with leading or trailing white space can never be
   * entered: the submitted password is trimmed before the comparison.
   */
  lemma PaddedPasswordNeverMatches(env: Env, passwordField: Option<string>)
    requires Trim(ExpectedPassword(env)) != ExpectedPassword(env)
    ensures Field(passwordField) != ExpectedPassword(env)
  {
    TrimIdempotent(passwordField.GetOr(""));
  }

  /** Outside production, with neither variable set, `admin` with an empty password logs in. */
  lemma DefaultCredentials(env: Env)
    requires !Truthy(env.adminUsername) && !Truthy(env.adminPassword) && env.nodeEnv != Some("production")
    ensures !PasswordMissingInProduction(env)
    ensures ExpectedUser(env) == "admin" && ExpectedPassword(env) == ""
    ensures Field(Some("admin")) == ExpectedUser(env) && Field(None) == ExpectedPassword(env)
  {
    assert TrimStart("admin") == "admin";
  }

  /** A present but empty `id` hides `proofId`: the upload answers "Missing id". */
  lemma EmptyIdHidesProofId(proofIdField: Option<string>)
    ensures UploadId(Some(""), proofIdField) == []
  {
    assert Trim("") == "";
  }

  /**
   * The admin evidence route resolves a stored relative name against the
   * working directory, while the upload wrote it under UPLOAD_DIR: when the
   * two paths differ it reports the file missing, while the corrected id
   * route, with its session gate and an `[id]` segment, serves the same
   * admin the file.
   */
  lemma EvidenceRoutesDisagree(prim: Primitives, sessions: set<string>, sessionCookie: Option<string>,
                               proofs: map<string, Proof>, content: seq<byte>, cwd: string, uploadDir: string,
                               id: string, fileName: string)
    requires HasSession(sessions, sessionCookie) && id != [] && Trim(id) == id
    requires id in proofs && proofs[id].evidencePath == Some(fileName) && fileName != [] && !IsAbsolute(fileName)
    requires uploadDir != [] && prim.pathJoin(cwd, fileName) != prim.pathJoin(uploadDir, fileName)
    ensures var blobs := map[prim.pathJoin(uploadDir, fileName) := content];
            && AdminEvidence(prim, sessions, sessionCookie, proofs, blobs, cwd, Some(id)) == NotFound("Evidence file missing")
            && GatedEvidenceById(prim, sessions, sessionCookie, proofs, blobs, Some(uploadDir), id).Ok?
            && GatedEvidenceById(prim, sessions, sessionCookie, proofs, blobs, Some(uploadDir), id).body.content == content
  {
    assert Field(Some(id)) == id;
  }

  /**
   * Revoking a key a second time answers "already revoked": the first row
   * with that id is the same row after the update, and it now carries the
   * revocation time.
   */
  lemma SecondRevokeIsAlreadyRevoked(keys: seq<ApiKey>, id: string, now: Timestamp)
    ensures FirstKeyWithId(RevokeAll(keys, id, now), id) == FirstKeyWithId(keys, id)
    ensures FirstKeyWithId(keys, id).Some? ==>
              RevokeAll(keys, id, now)[FirstKeyWithId(keys, id).value].revokedAt == Some(now)
  {
    var after := RevokeAll(keys, id, now);
    assert forall i :: 0 <= i < |keys| ==> after[i].id == keys[i].id;
    forall k | k in after ensures k.id == id ==> exists i :: 0 <= i < |keys| && keys[i].id == id {
      var i :| 0 <= i < |after| && after[i] == k;
    }
  }

  /**
   * A proof just created by a customer is shown by get-proof as issued by
   * the user, with no decision, and the public verifier calls it not valid.
   */
  lemma CreatedProofNotYetValid(prim: Primitives, proofs: map<string, Proof>, merchant: string, reference: string,
                                item: string, publicId: string, createdAt: Timestamp)
    requires merchant != [] && publicId != [] && Trim(publicId) == publicId
    ensures var after := proofs[publicId := UserProof(prim, merchant, reference, item, publicId, createdAt)];
            var g := ProofViews.GetProof(after, Some(publicId));
            && g.Ok? && g.body.status == Issued && g.body.issuerType == "user"
            && g.body.verifiedAt.None? && g.body.rejectedAt.None?
            && !ProofViews.IsValid(ProofViews.VerifyProof(after, Some(publicId)))
  {
    assert Field(Some(publicId)) == publicId;
  }

  /**
   * A proof issued with a merchant key is valid to the public verifier at
   * once, with its creation time as `verifiedAt`.
   */
  lemma MerchantIssuedProofValid(prim: Primitives, proofs: map<string, Proof>, merchantId: string, merchantName: string,
                                 reference: string, item: string, publicId: string, createdAt: Timestamp)
    requires merchantName != [] && publicId != []
    ensures var after := proofs[publicId := MerchantProof(prim, merchantId, merchantName, reference, item, publicId, createdAt)];
            ProofViews.VerifyProof(after, Some(publicId)) == ProofViews.Found(true, Verified, Some(createdAt), None, None)
  {
  }
}
