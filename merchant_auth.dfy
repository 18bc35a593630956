/**
 * app/lib/merchantAuth.ts: API keys are `rl_` followed by the hex text of 24
 * random bytes; only their SHA-256 digest is stored; a presented key is
 * resolved by digest through an inner join with `merchants`, taking the
 * first matching row, and refused when that row is revoked.
 */
module MerchantAuth {
  import opened Common
  import opened Records
  import opened Hex

  const KeyPrefix := "rl_"

  /** `generateApiKey()` with the 24 random bytes passed in. */
  function GenerateApiKey(random: seq<byte>): (key: string)
    requires |random| == 24
    ensures |key| == 51 && key[..3] == KeyPrefix
    ensures forall k :: 3 <= k < |key| ==> IsLowerHex(key[k])
    ensures HexDecode(key[3..]) == Some(random)
  {
    HexRoundTrip(random);
    assert (KeyPrefix + HexEncode(random))[3..] == HexEncode(random);
    KeyPrefix + HexEncode(random)
  }

  /** Different random bytes never give the same key. */
  lemma GenerateApiKeyInjective(a: seq<byte>, b: seq<byte>)
    requires |a| == 24 && |b| == 24
    requires GenerateApiKey(a) == GenerateApiKey(b)
    ensures a == b
  {
    assert GenerateApiKey(a)[3..] == GenerateApiKey(b)[3..];
  }

  /** `hashApiKey(apiKey)`: the stored digest, a function of the key alone. */
  function HashApiKey(p: Primitives, apiKey: string): string {
    p.sha256Hex(apiKey)
  }

  datatype MerchantRef = MerchantRef(merchantId: string, merchantName: string)

  /** The first merchant row with this id; nothing in the model keeps merchant ids unique, so later rows are shadowed. */
  function FindMerchant(merchants: seq<Merchant>, id: string): (r: Option<Merchant>)
    ensures r.Some? ==> r.value in merchants && r.value.id == id
    ensures r.None? ==> forall m :: m in merchants ==> m.id != id
  {
    if merchants == [] then None
    else if merchants[0].id == id then Some(merchants[0])
    else FindMerchant(merchants[1..], id)
  }

  /** A key row survives the inner join when it has the digest and its merchant exists. */
  predicate Joins(k: ApiKey, merchants: seq<Merchant>, digest: string) {
    k.keyHash == digest && FindMerchant(merchants, k.merchantId).Some?
  }

  /** Index of the first joined row at or after `from`, in row order. */
  function FirstJoined(keys: seq<ApiKey>, merchants: seq<Merchant>, digest: string, from: nat): (r: Option<nat>)
    requires from <= |keys|
    ensures r.Some? ==> from <= r.value < |keys| && Joins(keys[r.value], merchants, digest)
    ensures r.Some? ==> forall j :: from <= j < r.value ==> !Joins(keys[j], merchants, digest)
    ensures r.None? ==> forall j :: from <= j < |keys| ==> !Joins(keys[j], merchants, digest)
    decreases |keys| - from
  {
    if from == |keys| then None
    else if Joins(keys[from], merchants, digest) then Some(from)
    else FirstJoined(keys, merchants, digest, from + 1)
  }

  /** `getMerchantByApiKey(apiKey)` */
  function GetMerchantByApiKey(p: Primitives, keys: seq<ApiKey>, merchants: seq<Merchant>, apiKey: string): (r: Option<MerchantRef>)
    ensures r.Some? ==> exists i :: 0 <= i < |keys| && Resolves(keys, merchants, HashApiKey(p, apiKey), i, r.value)
    ensures r.Some? ==> var m := FindMerchant(merchants, r.value.merchantId);
                        m.Some? && r.value.merchantName == m.value.name
  {
    var digest := HashApiKey(p, apiKey);
    match FirstJoined(keys, merchants, digest, 0)
    case None => None
    case Some(i) =>
      if keys[i].revokedAt.Some? then None
      else
        var m := FindMerchant(merchants, keys[i].merchantId).value;
        assert Resolves(keys, merchants, digest, i, MerchantRef(m.id, m.name));
        Some(MerchantRef(m.id, m.name))
  }

  /**
   * Row `i` is the first joined row for `digest`, it is not revoked, and
   * `who` is its owning merchant's id and name.
   */
  ghost predicate Resolves(keys: seq<ApiKey>, merchants: seq<Merchant>, digest: string, i: nat, who: MerchantRef)
    requires i < |keys|
  {
    && Joins(keys[i], merchants, digest)
    && (forall j :: 0 <= j < i ==> !Joins(keys[j], merchants, digest))
    && keys[i].revokedAt.None?
    && who == MerchantRef(keys[i].merchantId, FindMerchant(merchants, keys[i].merchantId).value.name)
  }

  /** A key whose digest is not stored is refused. */
  lemma UnknownKeyRefused(p: Primitives, keys: seq<ApiKey>, merchants: seq<Merchant>, apiKey: string)
    requires forall k :: k in keys ==> k.keyHash != HashApiKey(p, apiKey)
    ensures GetMerchantByApiKey(p, keys, merchants, apiKey) == None
  {
  }

  /** A revoked key is refused although its row, digest included, is still stored. */
  lemma RevokedKeyRefused(p: Primitives, keys: seq<ApiKey>, merchants: seq<Merchant>, apiKey: string)
    requires forall k :: k in keys && k.keyHash == HashApiKey(p, apiKey) ==> k.revokedAt.Some?
    ensures GetMerchantByApiKey(p, keys, merchants, apiKey) == None
  {
  }

  /** A key of a merchant that no longer exists is refused (inner join). */
  lemma OrphanKeyRefused(p: Primitives, keys: seq<ApiKey>, merchants: seq<Merchant>, apiKey: string)
    requires forall k :: k in keys && k.keyHash == HashApiKey(p, apiKey) ==> FindMerchant(merchants, k.merchantId).None?
    ensures GetMerchantByApiKey(p, keys, merchants, apiKey) == None
  {
  }

  /**
   * An active key whose merchant exists, and whose digest no earlier joined
   * row shares, resolves to its owner.
   */
  lemma ActiveKeyResolves(p: Primitives, keys: seq<ApiKey>, merchants: seq<Merchant>, apiKey: string, i: nat)
    requires i < |keys| && keys[i].keyHash == HashApiKey(p, apiKey) && keys[i].revokedAt.None?
    requires FindMerchant(merchants, keys[i].merchantId).Some?
    requires forall j :: 0 <= j < i ==> !Joins(keys[j], merchants, HashApiKey(p, apiKey))
    ensures GetMerchantByApiKey(p, keys, merchants, apiKey)
         == Some(MerchantRef(keys[i].merchantId, FindMerchant(merchants, keys[i].merchantId).value.name))
  {
    var f := FirstJoined(keys, merchants, HashApiKey(p, apiKey), 0);
    assert Joins(keys[i], merchants, HashApiKey(p, apiKey));
    assert f == Some(i);
  }
}
