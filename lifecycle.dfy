/**
 * The proof records the handlers write: the two ways a proof is created
 * (app/api/create-proof/route.ts, app/api/merchant/issue-proof/route.ts),
 * the three updates of an existing row (evidence upload, admin verify,
 * admin reject), the status moves these allow, and the `meta` objects that
 * go into the audit log.
 */
module Lifecycle {
  import opened Common
  import opened Records
  import opened Json

  /** `hash(merchant + hash(reference) + createdAt)`: the raw reference is never stored. */
  function ProofHash(prim: Primitives, merchant: string, reference: string, createdAt: Timestamp): string {
    prim.sha256Hex(merchant + prim.sha256Hex(reference) + createdAt)
  }

  /** Two references with the same digest give the same proof hash: only the digest is used. */
  lemma ProofHashUsesDigestOnly(prim: Primitives, merchant: string, r1: string, r2: string, createdAt: Timestamp)
    requires prim.sha256Hex(r1) == prim.sha256Hex(r2)
    ensures ProofHash(prim, merchant, r1, createdAt) == ProofHash(prim, merchant, r2, createdAt)
  {
  }

  /** The fields no update of an existing row touches. */
  predicate SameRecord(p: Proof, q: Proof) {
    && q.publicId == p.publicId && q.merchant == p.merchant && q.item == p.item
    && q.createdAt == p.createdAt && q.proofHash == p.proofHash && q.evidenceMime == p.evidenceMime
    && q.issuerType == p.issuerType && q.issuerId == p.issuerId && q.merchantId == p.merchantId
  }

  /** The row create-proof inserts: status 'issued', `item || null`, no issuer columns. */
  function UserProof(prim: Primitives, merchant: string, reference: string, item: string,
                     publicId: string, createdAt: Timestamp): (p: Proof)
    requires merchant != []
    ensures WellFormed(p)
    ensures p.publicId == publicId && p.merchant == merchant && p.createdAt == createdAt
    ensures p.status == Issued && p.item == NullIfEmpty(item)
    ensures p.proofHash == ProofHash(prim, merchant, reference, createdAt)
    ensures p.evidencePath.None? && p.verifiedAt.None? && p.rejectedAt.None?
    ensures p.issuerType.None? && p.issuerId.None? && p.merchantId.None?
  {
    Proof(publicId, merchant, NullIfEmpty(item), createdAt, ProofHash(prim, merchant, reference, createdAt),
          Issued, None, None, None, None, None, None, None, None, None)
  }

  /**
   * The row issue-proof inserts: already verified at its creation time,
   * named after the key's merchant, with `issuerId` and `merchantId` both
   * the merchant's id.
   */
  function MerchantProof(prim: Primitives, merchantId: string, merchantName: string, reference: string,
                         item: string, publicId: string, createdAt: Timestamp): (p: Proof)
    requires merchantName != []
    ensures WellFormed(p)
    ensures p.publicId == publicId && p.merchant == merchantName && p.createdAt == createdAt
    ensures p.status == Verified && p.verifiedAt == Some(createdAt) && p.item == NullIfEmpty(item)
    ensures p.proofHash == ProofHash(prim, merchantName, reference, createdAt)
    ensures p.evidencePath.None? && p.rejectedAt.None? && p.rejectionReason.None?
    ensures p.issuerType == Some("merchant") && p.issuerId == Some(merchantId) && p.merchantId == Some(merchantId)
  {
    Proof(publicId, merchantName, NullIfEmpty(item), createdAt, ProofHash(prim, merchantName, reference, createdAt),
          Verified, None, None, None, Some(createdAt), None, None, Some("merchant"), Some(merchantId), Some(merchantId))
  }

  /**
   * The upload's UPDATE: pending, the new file name, and the first upload
   * time kept (`COALESCE`). Whatever status the proof had, it becomes
   * pending, and an earlier decision stays in its columns.
   */
  function WithEvidence(p: Proof, fileName: string, now: Timestamp): (q: Proof)
    requires WellFormed(p) && fileName != []
    ensures WellFormed(q) && SameRecord(p, q)
    ensures q.status == Pending && q.evidencePath == Some(fileName)
    ensures q.evidenceUploadedAt == (if p.evidenceUploadedAt.Some? then p.evidenceUploadedAt else Some(now))
    ensures q.verifiedAt == p.verifiedAt && q.rejectedAt == p.rejectedAt && q.rejectionReason == p.rejectionReason
  {
    p.(status := Pending, evidencePath := Some(fileName),
       evidenceUploadedAt := if p.evidenceUploadedAt.Some? then p.evidenceUploadedAt else Some(now))
  }

  /** The admin verify UPDATE, allowed only from pending. */
  function Approved(p: Proof, now: Timestamp): (q: Proof)
    requires WellFormed(p) && p.status == Pending
    ensures WellFormed(q) && SameRecord(p, q)
    ensures q.status == Verified && q.verifiedAt == Some(now)
    ensures q.rejectedAt.None? && q.rejectionReason.None?
    ensures q.evidencePath == p.evidencePath && q.evidenceUploadedAt == p.evidenceUploadedAt
  {
    p.(status := Verified, verifiedAt := Some(now), rejectedAt := None, rejectionReason := None)
  }

  /** The admin reject UPDATE, allowed only from pending and with a non-empty reason. */
  function Declined(p: Proof, reason: string, now: Timestamp): (q: Proof)
    requires WellFormed(p) && p.status == Pending && reason != []
    ensures WellFormed(q) && SameRecord(p, q)
    ensures q.status == Rejected && q.rejectedAt == Some(now) && q.rejectionReason == Some(reason)
    ensures q.verifiedAt.None?
    ensures q.evidencePath == p.evidencePath && q.evidenceUploadedAt == p.evidenceUploadedAt
  {
    p.(status := Rejected, rejectedAt := Some(now), rejectionReason := Some(reason), verifiedAt := None)
  }

  /** A second upload replaces the file but keeps the first upload time. */
  lemma UploadKeepsFirstTime(p: Proof, f1: string, f2: string, t1: Timestamp, t2: Timestamp)
    requires WellFormed(p) && f1 != [] && f2 != []
    ensures WithEvidence(WithEvidence(p, f1, t1), f2, t2).evidenceUploadedAt
         == (if p.evidenceUploadedAt.Some? then p.evidenceUploadedAt else Some(t1))
    ensures WithEvidence(WithEvidence(p, f1, t1), f2, t2).evidencePath == Some(f2)
  {
  }

  /**
   * The status moves the existing-row updates make: anything to pending
   * (upload), and pending to verified or rejected (admin decisions).
   */
  predicate Moves(a: Status, b: Status) {
    b == Pending || (a == Pending && (b == Verified || b == Rejected))
  }

  lemma UpdatesMove(p: Proof, fileName: string, reason: string, now: Timestamp)
    requires WellFormed(p) && fileName != []
    ensures Moves(p.status, WithEvidence(p, fileName, now).status)
    ensures p.status == Pending ==> Moves(p.status, Approved(p, now).status)
    ensures p.status == Pending && reason != [] ==> Moves(p.status, Declined(p, reason, now).status)
    ensures !Moves(Issued, Verified) && !Moves(Issued, Rejected) && !Moves(Rejected, Verified) && !Moves(Verified, Rejected)
  {
  }

  /** The statuses one row goes through, each step unchanged or one of `Moves`. */
  ghost predicate StatusTrace(t: seq<Status>) {
    forall i :: 0 <= i < |t| - 1 ==> t[i + 1] == t[i] || Moves(t[i], t[i + 1])
  }

  /**
   * A proof created by a user (status issued) reaches a decision only by
   * passing through pending, that is, only after evidence was uploaded.
   */
  lemma {:induction false} DecisionNeedsPending(t: seq<Status>)
    requires |t| > 0 && t[0] == Issued && StatusTrace(t)
    requires t[|t| - 1] == Verified || t[|t| - 1] == Rejected
    ensures exists i :: 0 < i < |t| - 1 && t[i] == Pending
  {
    var n := |t|;
    assert t[n - 2 + 1] == t[n - 1];
    if t[n - 2] == Pending {
      assert 0 < n - 2;
    } else {
      assert t[n - 2] == t[n - 1];
      var s := t[..n - 1];
      assert StatusTrace(s) by {
        forall i | 0 <= i < |s| - 1 ensures s[i + 1] == s[i] || Moves(s[i], s[i + 1]) {
          assert s[i] == t[i] && s[i + 1] == t[i + 1];
        }
      }
      DecisionNeedsPending(s);
      var i :| 0 < i < |s| - 1 && s[i] == Pending;
      assert t[i] == Pending;
    }
  }

  // ---------------------------------------------------------------------
  // audit metadata

  const UserIssued: Meta := [("issuer", "user")]

  function MerchantIssued(merchantId: string): Meta {
    [("issuer", "merchant"), ("merchantId", merchantId)]
  }

  const AutoVerified: Meta := [("reason", "merchant_issued")]

  /** `meta ? JSON.stringify(meta) : null`: any object, even `{}`, is stored as text. */
  function MetaText(meta: Option<Meta>): Option<string> {
    match meta
    case None => None
    case Some(m) => Some(Serialize(m))
  }

  /** Stored metadata is NULL exactly when none was given, and otherwise parses back to it. */
  lemma MetaTextParses(meta: Option<Meta>)
    ensures MetaText(meta).None? <==> meta.None?
    ensures meta.Some? ==> Parse(MetaText(meta).value) == Some(meta.value)
  {
    if meta.Some? {
      SerializeRoundTrip(meta.value);
    }
  }

  /** Different metadata is never stored as the same text. */
  lemma MetaTextInjective(a: Option<Meta>, b: Option<Meta>)
    requires MetaText(a) == MetaText(b)
    ensures a == b
  {
    MetaTextParses(a);
    MetaTextParses(b);
  }
}
