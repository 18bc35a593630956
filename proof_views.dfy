/**
 * The read-only proof routes: app/api/get-proof/route.ts (public
 * projection with `??` defaults), app/api/admin/get-proof/route.ts
 * (session-gated, with `hasEvidence` and hard-coded issuer fields) and
 * app/api/verify/route.ts (`valid` iff verified). Each is a function of the
 * stored rows, so none of them changes the store.
 */
module ProofViews {
  import opened Common
  import opened Records
  import opened AdminSession

  /** The JSON body of GET /api/get-proof: no evidence fields. */
  datatype PublicProof = PublicProof(
    id: string,
    merchant: string,
    item: string,
    createdAt: Timestamp,
    proofHash: string,
    status: Status,
    verifiedAt: Option<Timestamp>,
    rejectedAt: Option<Timestamp>,
    rejectionReason: Option<string>,
    issuerType: string,
    issuerId: Option<string>)

  /** GET /api/get-proof?id=... */
  function GetProof(proofs: map<string, Proof>, idParam: Option<string>): (r: Response<PublicProof>)
    ensures r == BadRequest("Missing id") <==> Field(idParam) == []
    ensures r == NotFound("Not found") <==> Field(idParam) != [] && Field(idParam) !in proofs
    ensures r.Ok? <==> Field(idParam) != [] && Field(idParam) in proofs
    ensures r.Ok? || r.BadRequest? || r.NotFound?
    ensures r.Ok? ==>
              var p := proofs[Field(idParam)];
              && Field(idParam) in proofs
              && r.body.id == p.publicId && r.body.merchant == p.merchant
              && r.body.createdAt == p.createdAt && r.body.proofHash == p.proofHash
              && r.body.status == p.status
              && r.body.item == (if p.item.Some? then p.item.value else "")
              && r.body.verifiedAt == p.verifiedAt && r.body.rejectedAt == p.rejectedAt
              && r.body.rejectionReason == p.rejectionReason
              && r.body.issuerType == (if p.issuerType.Some? then p.issuerType.value else "user")
              && r.body.issuerId == p.issuerId
  {
    var id := Field(idParam);
    if id == [] then BadRequest("Missing id")
    else if id !in proofs then NotFound("Not found")
    else
      var p := proofs[id];
      Ok(PublicProof(p.publicId, p.merchant, p.item.GetOr(""), p.createdAt, p.proofHash, p.status,
                     p.verifiedAt, p.rejectedAt, p.rejectionReason, p.issuerType.GetOr("user"), p.issuerId))
  }

  /** The JSON body of POST /api/admin/get-proof. */
  datatype AdminProof = AdminProof(
    id: string,
    merchant: string,
    item: Option<string>,
    createdAt: Timestamp,
    proofHash: string,
    status: Status,
    hasEvidence: bool,
    evidenceMime: Option<string>,
    verifiedAt: Option<Timestamp>,
    rejectedAt: Option<Timestamp>,
    rejectionReason: Option<string>,
    issuerType: string,
    issuerId: Option<string>)

  /** POST /api/admin/get-proof */
  function AdminGetProof(sessions: set<string>, sessionCookie: Option<string>, proofs: map<string, Proof>,
                         idField: Option<string>): (r: Response<AdminProof>)
    ensures r == Unauthorized("Unauthorized") <==> !HasSession(sessions, sessionCookie)
    ensures r == BadRequest("Missing id") <==> HasSession(sessions, sessionCookie) && Field(idField) == []
    ensures r == NotFound("Not found") <==>
              HasSession(sessions, sessionCookie) && Field(idField) != [] && Field(idField) !in proofs
    ensures r.Ok? <==> HasSession(sessions, sessionCookie) && Field(idField) != [] && Field(idField) in proofs
    ensures r.Ok? || r.Unauthorized? || r.BadRequest? || r.NotFound?
    ensures r.Ok? ==>
              var p := proofs[Field(idField)];
              && Field(idField) in proofs
              && r.body.id == p.publicId && r.body.merchant == p.merchant && r.body.item == p.item
              && r.body.createdAt == p.createdAt && r.body.proofHash == p.proofHash
              && r.body.status == p.status
              && (r.body.hasEvidence <==> Truthy(p.evidencePath))
              && r.body.evidenceMime == p.evidenceMime
              && r.body.verifiedAt == p.verifiedAt && r.body.rejectedAt == p.rejectedAt
              && r.body.rejectionReason == p.rejectionReason
              && r.body.issuerType == "user" && r.body.issuerId == None
  {
    if !HasSession(sessions, sessionCookie) then Unauthorized("Unauthorized")
    else
      var id := Field(idField);
      if id == [] then BadRequest("Missing id")
      else if id !in proofs then NotFound("Not found")
      else
        var p := proofs[id];
        Ok(AdminProof(p.publicId, p.merchant, p.item, p.createdAt, p.proofHash, p.status,
                      Truthy(p.evidencePath), p.evidenceMime,
                      p.verifiedAt, p.rejectedAt, p.rejectionReason, "user", None))
  }

  /** The answers of GET /api/verify. */
  datatype VerifyReply =
    | MissingId      // 400 { valid: false }
    | UnknownProof   // 200 { valid: false }
    | Found(valid: bool, status: Status, verifiedAt: Option<Timestamp>,
            rejectedAt: Option<Timestamp>, rejectionReason: Option<string>)

  /** GET /api/verify?id=...: the id is used as given, without trimming. */
  function VerifyProof(proofs: map<string, Proof>, idParam: Option<string>): (r: VerifyReply)
    ensures r.MissingId? <==> !Truthy(idParam)
    ensures r.UnknownProof? <==> Truthy(idParam) && idParam.value !in proofs
    ensures r.Found? ==>
              var p := proofs[idParam.value];
              && idParam.Some? && idParam.value in proofs
              && (r.valid <==> p.status == Verified)
              && r.status == p.status && r.verifiedAt == p.verifiedAt
              && r.rejectedAt == p.rejectedAt && r.rejectionReason == p.rejectionReason
  {
    if !Truthy(idParam) then MissingId
    else if idParam.value !in proofs then UnknownProof
    else
      var p := proofs[idParam.value];
      Found(p.status == Verified, p.status, p.verifiedAt, p.rejectedAt, p.rejectionReason)
  }

  /** What the public verifier learns: valid, or not, with nothing else to tell them apart. */
  function IsValid(r: VerifyReply): bool {
    r.Found? && r.valid
  }

  lemma TrimmedIdFixed(id: string)
    requires Trim(id) == id
    ensures TrimStart(id) == id && TrimEnd(id) == id
  {
    TrimStartIsSuffix(id);
    TrimEndIsPrefix(TrimStart(id));
  }

  /**
   * For an id without surrounding white space, the verify route calls a
   * proof valid exactly when get-proof reports it as verified.
   */
  lemma VerifyAgreesWithGetProof(proofs: map<string, Proof>, id: string)
    requires id != [] && Trim(id) == id
    ensures IsValid(VerifyProof(proofs, Some(id)))
        <==> (GetProof(proofs, Some(id)).Ok? && GetProof(proofs, Some(id)).body.status == Verified)
  {
  }

  /**
   * The verify route does not trim: a padded id that get-proof resolves is
   * unknown to it (not valid), unless the padded text is itself an id.
   */
  lemma VerifyDoesNotTrim(proofs: map<string, Proof>, id: string)
    requires id != [] && Trim(id) == id && id in proofs && " " + id !in proofs
    ensures GetProof(proofs, Some(" " + id)).Ok?
    ensures VerifyProof(proofs, Some(" " + id)) == UnknownProof
  {
    TrimmedIdFixed(id);
    assert (" " + id)[1..] == id;
    assert TrimStart(" " + id) == id;
  }

  /**
   * The admin projection ignores the stored issuer: a merchant-issued proof
   * is reported as issued by "merchant" publicly and by "user" to admins.
   */
  lemma AdminIssuerHardCoded(sessions: set<string>, sessionCookie: Option<string>,
                             proofs: map<string, Proof>, id: string)
    requires HasSession(sessions, sessionCookie)
    requires id != [] && Trim(id) == id && id in proofs && proofs[id].issuerType == Some("merchant")
    ensures GetProof(proofs, Some(id)).Ok? && GetProof(proofs, Some(id)).body.issuerType == "merchant"
    ensures AdminGetProof(sessions, sessionCookie, proofs, Some(id)).Ok?
    ensures AdminGetProof(sessions, sessionCookie, proofs, Some(id)).body.issuerType == "user"
    ensures AdminGetProof(sessions, sessionCookie, proofs, Some(id)).body.issuerId == None
  {
    assert Field(Some(id)) == id;
    var p := proofs[id];
    assert GetProof(proofs, Some(id)) == Ok(PublicProof(p.publicId, p.merchant, p.item.GetOr(""), p.createdAt,
      p.proofHash, p.status, p.verifiedAt, p.rejectedAt, p.rejectionReason, "merchant", p.issuerId));
  }

  /**
   * For a well-formed proof the views stay consistent with its status: a
   * pending proof always shows evidence to admins, and a proof reported
   * as verified always carries `verifiedAt` and no rejection.
   */
  lemma ViewsOfWellFormedProof(sessions: set<string>, sessionCookie: Option<string>,
                               proofs: map<string, Proof>, id: string)
    requires HasSession(sessions, sessionCookie)
    requires id != [] && Trim(id) == id && id in proofs && WellFormed(proofs[id])
    ensures var a := AdminGetProof(sessions, sessionCookie, proofs, Some(id));
            a.Ok? && (a.body.status == Pending ==> a.body.hasEvidence) && a.body.evidenceMime == None
    ensures var v := VerifyProof(proofs, Some(id));
            v.Found? && (v.valid ==> v.verifiedAt.Some? && v.rejectedAt.None? && v.rejectionReason.None?)
    ensures var g := GetProof(proofs, Some(id));
            g.Ok? && (g.body.status == Rejected ==> g.body.rejectedAt.Some? && g.body.rejectionReason.Some? && g.body.verifiedAt.None?)
  {
  }
}
