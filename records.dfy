/**
 * The rows of the four collections (proofs, audit events, merchants, API
 * keys), the rows of the separate `audit` table, the outcomes a route
 * handler can return, and the record-level invariant that the handlers keep.
 */
module Records {
  import opened Common
  import Json

  datatype Status = Issued | Pending | Verified | Rejected

  /** The text stored in the `status` column. */
  function StatusName(s: Status): (r: string)
    ensures r != []
  {
    match s
    case Issued => "issued"
    case Pending => "pending"
    case Verified => "verified"
    case Rejected => "rejected"
  }

  /**
   * A row of the `proofs` table (the integer rowid is not modelled). The
   * raw purchase reference is not a column: only its digest, folded into
   * `proofHash`, reaches storage.
   */
  datatype Proof = Proof(
    publicId: string,
    merchant: string,
    item: Option<string>,
    createdAt: Timestamp,
    proofHash: string,
    status: Status,
    evidencePath: Option<string>,
    evidenceUploadedAt: Option<Timestamp>,
    evidenceMime: Option<string>,
    verifiedAt: Option<Timestamp>,
    rejectedAt: Option<Timestamp>,
    rejectionReason: Option<string>,
    issuerType: Option<string>,
    issuerId: Option<string>,
    merchantId: Option<string>)

  /**
   * What holds of every stored proof, given how the handlers write rows.
   * It is weaker than "verifiedAt is set iff the status is verified": an
   * evidence upload moves a decided proof back to pending without clearing
   * its decision fields, so a pending proof may carry one stale decision.
   */
  ghost predicate WellFormed(p: Proof) {
    && (p.status == Issued ==>
          p.verifiedAt.None? && p.rejectedAt.None? && p.rejectionReason.None?
          && p.evidencePath.None? && p.evidenceUploadedAt.None?)
    && (p.status == Pending ==> Truthy(p.evidencePath))
    && (p.status == Verified ==> p.verifiedAt.Some? && p.rejectedAt.None?)
    && (p.status == Rejected ==> p.rejectedAt.Some? && p.verifiedAt.None? && Truthy(p.rejectionReason))
    && (p.rejectedAt.Some? <==> p.rejectionReason.Some?)
    && !(p.verifiedAt.Some? && p.rejectedAt.Some?)
    && (p.evidencePath.Some? ==> p.evidenceUploadedAt.Some?)
    && p.evidenceMime.None?
    && p.merchant != []
    && (p.issuerType.None? ==> p.issuerId.None? && p.merchantId.None?)
    && (p.issuerType.Some? ==> p.issuerType == Some("merchant") && p.issuerId.Some? && p.merchantId == p.issuerId)
  }

  /**
   * A row of `audit_logs`, the table `logAudit` writes. `meta` is the object
   * passed in; the column holds its JSON text, `Lifecycle.MetaText(meta)`.
   */
  datatype AuditEvent = AuditEvent(proofId: string, event: string, at: Timestamp, meta: Option<Json.Meta>)

  /** A row of the `audit` table, the one the admin audit route reads. */
  datatype AuditRow = AuditRow(
    id: int,
    action: string,
    publicId: Option<string>,
    actorType: Option<string>,
    actorId: Option<string>,
    meta: Option<string>,
    createdAt: string)

  datatype Merchant = Merchant(id: string, name: string, createdAt: Timestamp)

  /** A row of `merchant_api_keys`: the digest of the key, never the key. */
  datatype ApiKey = ApiKey(
    id: string,
    merchantId: string,
    keyHash: string,
    createdAt: Timestamp,
    revokedAt: Option<Timestamp>,
    keyLabel: Option<string>)  // the `label` column (`label` is a Dafny keyword)

  /** What a route handler answers, in place of an HTTP response. */
  datatype Response<T> =
    | Ok(body: T)              // 200 (or the 303 redirect of the upload route)
    | BadRequest(error: string)    // 400
    | Unauthorized(error: string)  // 401
    | NotFound(error: string)      // 404
    | Misconfigured(error: string) // 500 caused by missing configuration
    | Failed(error: string, details: string) // 500 from a caught exception

  /**
   * The function-valued collaborators the handlers call but whose code is
   * not modelled: the digests (hex text), `path.join` and
   * `decodeURIComponent`. They are arbitrary fixed functions.
   */
  datatype Primitives = Primitives(
    sha256Hex: string -> string,
    sha1Hex: seq<byte> -> string,
    pathJoin: (string, string) -> string,
    decodeUriComponent: string -> string)

  /** The body fields of a JSON request: `String(body.x ?? "")`, trimmed. */
  function Field(f: Option<string>): string {
    Trim(f.GetOr(""))
  }
}
