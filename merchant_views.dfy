/**
 * The read-only merchant routes: app/api/admin/merchants/list-keys/route.ts
 * (one merchant's keys, newest first, with `active`) and
 * app/api/admin/merchants/list/route.ts (all merchants, newest first).
 * Neither returns a key digest.
 */
module MerchantViews {
  import opened Common
  import opened Records
  import opened AdminSession
  import opened Ordering

  /** One element of the `keys` array: the digest and the owner are not shown. */
  datatype KeyView = KeyView(id: string, keyLabel: Option<string>, createdAt: Timestamp,
                             revokedAt: Option<Timestamp>, active: bool)

  /** `active: !k.revokedAt`: a stored revocation time is never empty. */
  function View(k: ApiKey): (v: KeyView)
    ensures v.active <==> k.revokedAt.None?
    ensures v.id == k.id && v.keyLabel == k.keyLabel && v.createdAt == k.createdAt && v.revokedAt == k.revokedAt
  {
    KeyView(k.id, k.keyLabel, k.createdAt, k.revokedAt, k.revokedAt.None?)
  }

  function ViewCreatedAt(v: KeyView): string { v.createdAt }

  function MerchantCreatedAt(m: Merchant): string { m.createdAt }

  /** `WHERE merchantId = ?`, in row order. */
  function Owned(keys: seq<ApiKey>, merchantId: string): (r: seq<ApiKey>)
    ensures forall k :: k in r <==> k in keys && k.merchantId == merchantId
    ensures forall k :: multiset(r)[k] == if k.merchantId == merchantId then multiset(keys)[k] else 0
    ensures |r| <= |keys|
  {
    if keys == [] then []
    else
      assert keys == [keys[0]] + keys[1..];
      if keys[0].merchantId == merchantId then [keys[0]] + Owned(keys[1..], merchantId)
      else Owned(keys[1..], merchantId)
  }

  function Views(keys: seq<ApiKey>): (r: seq<KeyView>)
    ensures |r| == |keys|
    ensures forall i :: 0 <= i < |keys| ==> r[i] == View(keys[i])
  {
    if keys == [] then [] else [View(keys[0])] + Views(keys[1..])
  }

  /** POST /api/admin/merchants/list-keys */
  function ListKeys(sessions: set<string>, sessionCookie: Option<string>, keys: seq<ApiKey>,
                    merchantIdField: Option<string>): (r: Response<seq<KeyView>>)
    ensures r == Unauthorized("Unauthorized") <==> !HasSession(sessions, sessionCookie)
    ensures r == BadRequest("merchantId is required") <==>
              HasSession(sessions, sessionCookie) && Field(merchantIdField) == []
    ensures r.Ok? <==> HasSession(sessions, sessionCookie) && Field(merchantIdField) != []
    ensures r.Ok? || r.Unauthorized? || r.BadRequest?
    ensures r.Ok? ==> multiset(r.body) == multiset(Views(Owned(keys, Field(merchantIdField))))
    ensures r.Ok? ==> SortedDesc(r.body, ViewCreatedAt)
  {
    if !HasSession(sessions, sessionCookie) then Unauthorized("Unauthorized")
    else
      var merchantId := Field(merchantIdField);
      if merchantId == [] then BadRequest("merchantId is required")
      else Ok(SortDesc(Views(Owned(keys, merchantId)), ViewCreatedAt))
  }

  /**
   * The listing shows exactly this merchant's keys, each with `active` set
   * exactly when the key is not revoked; an unknown merchant id gives an
   * empty list rather than an error.
   */
  lemma ListKeysContents(sessions: set<string>, sessionCookie: Option<string>, keys: seq<ApiKey>,
                         merchantIdField: Option<string>, v: KeyView)
    requires HasSession(sessions, sessionCookie) && Field(merchantIdField) != []
    ensures var r := ListKeys(sessions, sessionCookie, keys, merchantIdField);
            r.Ok? &&
            (v in r.body <==> exists k :: k in keys && k.merchantId == Field(merchantIdField) && v == View(k))
    ensures var r := ListKeys(sessions, sessionCookie, keys, merchantIdField);
            v in r.body ==> (v.active <==> v.revokedAt.None?)
  {
    var owned := Owned(keys, Field(merchantIdField));
    var r := ListKeys(sessions, sessionCookie, keys, merchantIdField);
    assert v in r.body <==> v in multiset(Views(owned));
    if v in Views(owned) {
      var i :| 0 <= i < |owned| && Views(owned)[i] == v;
      assert owned[i] in owned;
    }
    if k :| k in keys && k.merchantId == Field(merchantIdField) && v == View(k) {
      var i :| 0 <= i < |owned| && owned[i] == k;
      assert Views(owned)[i] == v;
    }
  }

  lemma UnknownMerchantHasNoKeys(sessions: set<string>, sessionCookie: Option<string>, keys: seq<ApiKey>,
                                 merchantIdField: Option<string>)
    requires HasSession(sessions, sessionCookie) && Field(merchantIdField) != []
    requires forall k :: k in keys ==> k.merchantId != Field(merchantIdField)
    ensures ListKeys(sessions, sessionCookie, keys, merchantIdField) == Ok([])
  {
  }

  /** POST /api/admin/merchants/list: every merchant row, newest first. */
  function ListMerchants(sessions: set<string>, sessionCookie: Option<string>, merchants: seq<Merchant>): (r: Response<seq<Merchant>>)
    ensures r == Unauthorized("Unauthorized") <==> !HasSession(sessions, sessionCookie)
    ensures r.Ok? <==> HasSession(sessions, sessionCookie)
    ensures r.Ok? ==> multiset(r.body) == multiset(merchants) && SortedDesc(r.body, MerchantCreatedAt)
  {
    if !HasSession(sessions, sessionCookie) then Unauthorized("Unauthorized")
    else Ok(SortDesc(merchants, MerchantCreatedAt))
  }
}
