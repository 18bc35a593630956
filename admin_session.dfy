/**
 * app/lib/adminSession.ts: the process-wide map of admin session ids. A
 * session's `createdAt` is written but never read, so sessions never expire
 * and the map is modelled as the set of its keys.
 */
module AdminSession {
  import opened Common
  import Hex

  /** `hasSession(id)`: a missing or empty id is never a session. */
  function HasSession(ids: set<string>, id: Option<string>): bool {
    id.Some? && id.value != [] && id.value in ids
  }

  class SessionStore {
    var ids: set<string>

    constructor ()
      ensures ids == {}
    {
      ids := {};
    }

    /** `createSession()`: the id is the hex text of 24 random bytes. */
    method CreateSession(random: seq<byte>) returns (id: string)
      requires |random| == 24
      modifies this
      ensures id == Hex.HexEncode(random) && |id| == 48
      ensures ids == old(ids) + {id}
      ensures HasSession(ids, Some(id))
    {
      id := Hex.HexEncode(random);
      ids := ids + {id};
    }

    /** `deleteSession(id)`: forgetting an unknown id changes nothing. */
    method DeleteSession(id: string)
      modifies this
      ensures ids == old(ids) - {id}
      ensures !HasSession(ids, Some(id))
      ensures id !in old(ids) ==> ids == old(ids)
      ensures forall other :: other != id ==> (HasSession(ids, Some(other)) <==> HasSession(old(ids), Some(other)))
    {
      ids := ids - {id};
    }
  }

  /** The empty string and a missing cookie never authenticate, whatever is stored. */
  lemma NoSessionWithoutId(ids: set<string>)
    ensures !HasSession(ids, None) && !HasSession(ids, Some(""))
  {
  }
}
