/** Cross-instance invalidation: payload encoding and the notification handler. */
module Invalidation {
  import opened AuthStore
  import opened AuthCache
  import opened CachedAuthStore
  import opened ColonSeparated

  // ---------------------------------------------------------------------------------------------
  // Payloads
  // ---------------------------------------------------------------------------------------------

  function Payloads(ns: seq<Notice>): multiset<string> {
    if ns == [] then multiset{} else multiset{Encode(ns[0].kind, ns[0].name)} + Payloads(ns[1..])
  }

  /** What a delivered payload does to a cache; malformed and unknown payloads do nothing. */
  function Handle(c: Cache, payload: string): Cache {
    if payload == "flush:" then NO_ENTRIES
    else
      match SplitOnce(payload)
      case NoSeparator => c
      case Parts(kind, name) =>
        if kind == KEYS then EvictKeys(c, name)
        else if kind == ROLES then EvictRoles(c, name)
        else c
  }

  lemma HandleEncoded(c: Cache, name: string)
    ensures Handle(c, Encode(KEYS, name)) == EvictKeys(c, name)
    ensures Handle(c, Encode(ROLES, name)) == EvictRoles(c, name)
    ensures Handle(c, Encode(FLUSH, "")) == NO_ENTRIES
  {
    SplitInvertsEncode(KEYS, name);
    SplitInvertsEncode(ROLES, name);
    assert Encode(KEYS, name)[0] == 'k' && Encode(ROLES, name)[0] == 'r';
  }

  /** Everything else does nothing: a payload without a colon, or with another kind before its first one. */
  lemma HandleOther(c: Cache, payload: string)
    requires payload != "flush:" && !("keys:" <= payload) && !("roles:" <= payload)
    ensures Handle(c, payload) == c
  {
    SplitExact(payload);
  }

  /** Every payload is one or the other. */
  lemma HandleExact(c: Cache, payload: string)
    ensures payload == "flush:" ==> Handle(c, payload) == NO_ENTRIES
    ensures "keys:" <= payload ==> Handle(c, payload) == EvictKeys(c, payload[5..])
    ensures "roles:" <= payload ==> Handle(c, payload) == EvictRoles(c, payload[6..])
    ensures payload != "flush:" && !("keys:" <= payload) && !("roles:" <= payload) ==> Handle(c, payload) == c
  {
    if "keys:" <= payload {
      assert payload == Encode(KEYS, payload[5..]);
      HandleEncoded(c, payload[5..]);
    } else if "roles:" <= payload {
      assert payload == Encode(ROLES, payload[6..]);
      HandleEncoded(c, payload[6..]);
    } else if payload != "flush:" {
      HandleOther(c, payload);
    }
  }

  class PGNotifyListener {
    const cache: CachedStore

    constructor (cache: CachedStore)
      ensures this.cache == cache
    {
      this.cache := cache;
    }

    method HandleNotification(payload: string)
      modifies cache
      ensures cache.View() == Handle(old(cache.View()), payload)
      ensures cache.outbox == old(cache.outbox)
    {
      if payload == "flush:" {
        cache.FlushLocal();
        return;
      }
      match SplitOnce(payload)
      case NoSeparator =>
      case Parts(kind, name) =>
        if kind == KEYS {
          cache.EvictKeysForCaller(name);
        } else if kind == ROLES {
          cache.EvictRolesForCaller(name);
        }
    }
  }
}
