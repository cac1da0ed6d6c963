/** The caching store as an object. Its methods are proved against `CachedApply`; a cached key entry
    holds a reference to the one `Caller` object that every hit hands out. */
module CachedAuthStore {
  import opened AuthStore
  import opened AuthCache

  datatype CachedKey = CachedKey(caller: Caller, keyLabel: string, expiresAt: int)

  class CachedStore {
    const inner: SQLiteStore
    const ttl: int
    var byKeyHash: map<KeyHash, CachedKey>
    var reverseIndex: map<string, set<KeyHash>>
    var rolesByName: map<string, RoleEntry>
    var outbox: seq<Notice>

    /** The cache as a value. What authentication writes into the shared objects is not part of it. */
    ghost function View(): Cache
      reads this
    {
      Cache(map h | h in byKeyHash :: KeyEntry(byKeyHash[h].caller.name, byKeyHash[h].keyLabel, byKeyHash[h].expiresAt),
            reverseIndex, rolesByName)
    }

    constructor (inner: SQLiteStore, ttl: int)
      ensures this.inner == inner && this.ttl == ttl && View() == NO_ENTRIES && byKeyHash == map[] && outbox == []
    {
      this.inner, this.ttl := inner, ttl;
      byKeyHash, reverseIndex, rolesByName, outbox := map[], map[], map[], [];
    }

    method LookupByKey(hash: KeyHash, now: int, f: Fault) returns (result: KeyLookup)
      modifies this
      ensures CachedOutcome(View(), inner.View(), KeyAnswer(result)) ==
              CachedApply(old(View()), old(inner.View()), now, ttl, Op.LookupByKey(hash), f)
      ensures outbox == old(outbox)
      ensures result.KeyFound? ==> hash in byKeyHash && byKeyHash[hash].caller == result.caller
      ensures result.KeyFound? ==>
                if Hit(old(View()), now, Op.LookupByKey(hash)) then result.caller == old(byKeyHash)[hash].caller else fresh(result.caller)
      ensures forall h :: h in byKeyHash && h != hash ==> h in old(byKeyHash) && byKeyHash[h] == old(byKeyHash)[h]
      ensures Hit(old(View()), now, Op.LookupByKey(hash)) ==> byKeyHash == old(byKeyHash)
      ensures result.KeyFailed? ==> byKeyHash == old(byKeyHash)
    {
      if hash in byKeyHash && now <= byKeyHash[hash].expiresAt {
        return KeyFound(byKeyHash[hash].caller, byKeyHash[hash].keyLabel);
      }
      result := inner.LookupByKey(hash, f);
      if result.KeyFound? {
        InsertKey(hash, result.caller, result.keyLabel, now + ttl);
      }
    }

    /** The locked insertion: entry and reverse index together. */
    method InsertKey(hash: KeyHash, caller: Caller, keyLabel: string, expiresAt: int)
      modifies this`byKeyHash, this`reverseIndex
      ensures View() == FillKey(old(View()), hash, caller.name, keyLabel, expiresAt)
      ensures byKeyHash == old(byKeyHash)[hash := CachedKey(caller, keyLabel, expiresAt)]
    {
      byKeyHash := byKeyHash[hash := CachedKey(caller, keyLabel, expiresAt)];
      if caller.name !in reverseIndex {
        reverseIndex := reverseIndex[caller.name := {}];
      }
      reverseIndex := reverseIndex[caller.name := reverseIndex[caller.name] + {hash}];
      assert View().keys == old(View()).keys[hash := KeyEntry(caller.name, keyLabel, expiresAt)];
    }

    method RolesForCaller(name: string, now: int, f: Fault) returns (answer: Answer)
      modifies this`rolesByName
      ensures CachedOutcome(View(), inner.View(), answer) ==
              CachedApply(old(View()), old(inner.View()), now, ttl, Op.RolesForCaller(name), f)
    {
      if name in rolesByName && now <= rolesByName[name].expiresAt {
        return RoleList(rolesByName[name].roles);
      }
      answer := inner.RolesForCaller(name, f);
      if answer.RoleList? {
        rolesByName := rolesByName[name := RoleEntry(answer.roles, now + ttl)];
      }
    }

    method CallerExists(name: string, f: Fault) returns (answer: Answer)
      ensures CachedOutcome(View(), inner.View(), answer) ==
              CachedApply(View(), inner.View(), 0, ttl, Op.CallerExists(name), f)
    {
      answer := inner.CallerExists(name, f);
    }

    method EvictKeysForCaller(name: string)
      modifies this`byKeyHash, this`reverseIndex
      ensures View() == EvictKeys(old(View()), name)
      ensures byKeyHash.Keys <= old(byKeyHash).Keys && forall h :: h in byKeyHash ==> byKeyHash[h] == old(byKeyHash)[h]
    {
      var hashes := if name in reverseIndex then reverseIndex[name] else {};
      var rest := hashes;
      while rest != {}
        invariant rest <= hashes
        invariant byKeyHash == old(byKeyHash) - (hashes - rest)
        invariant reverseIndex == old(reverseIndex)
      {
        var h :| h in rest;
        byKeyHash := byKeyHash - {h};
        rest := rest - {h};
      }
      reverseIndex := reverseIndex - {name};
      assert View().keys == old(View()).keys - hashes;
    }

    method EvictRolesForCaller(name: string)
      modifies this`rolesByName
      ensures View() == EvictRoles(old(View()), name)
    {
      rolesByName := rolesByName - {name};
    }

    method FlushLocal()
      modifies this
      ensures View() == NO_ENTRIES && outbox == old(outbox)
    {
      byKeyHash, reverseIndex, rolesByName := map[], map[], map[];
    }

    method Flush()
      modifies this
      ensures View() == NO_ENTRIES && outbox == old(outbox) + [Notice(FLUSH, "")]
    {
      FlushLocal();
      outbox := outbox + [Notice(FLUSH, "")];
    }

    method AddCaller(name: string, f: Fault) returns (answer: Answer)
      modifies inner
      ensures CachedOutcome(View(), inner.View(), answer) == CachedApply(View(), old(inner.View()), 0, ttl, Op.AddCaller(name), f)
    {
      answer := inner.AddCaller(name, f);
    }

    method AddKey(name: string, hash: KeyHash, keyLabel: string, f: Fault) returns (answer: Answer)
      modifies inner
      ensures CachedOutcome(View(), inner.View(), answer) ==
              CachedApply(View(), old(inner.View()), 0, ttl, Op.AddKey(name, hash, keyLabel), f)
    {
      answer := inner.AddKey(name, hash, keyLabel, f);
    }

    method DeleteCaller(name: string, f: Fault) returns (answer: Answer)
      modifies this, inner
      ensures CachedOutcome(View(), inner.View(), answer) ==
              CachedApply(old(View()), old(inner.View()), 0, ttl, Op.DeleteCaller(name), f)
      ensures outbox == old(outbox) + (if answer.Done? then Notices(Op.DeleteCaller(name)) else [])
    {
      answer := inner.DeleteCaller(name, f);
      if !answer.Done? {
        return;
      }
      EvictKeysForCaller(name);
      EvictRolesForCaller(name);
      outbox := outbox + [Notice(KEYS, name)];
      outbox := outbox + [Notice(ROLES, name)];
    }

    method DeleteKey(name: string, id: nat, f: Fault) returns (answer: Answer)
      modifies this, inner
      ensures CachedOutcome(View(), inner.View(), answer) ==
              CachedApply(old(View()), old(inner.View()), 0, ttl, Op.DeleteKey(name, id), f)
      ensures outbox == old(outbox) + (if answer.Done? then Notices(Op.DeleteKey(name, id)) else [])
    {
      answer := inner.DeleteKey(name, id, f);
      if !answer.Done? {
        return;
      }
      EvictKeysForCaller(name);
      outbox := outbox + [Notice(KEYS, name)];
    }

    method RevokeKey(name: string, keyLabel: string, f: Fault) returns (answer: Answer)
      modifies this, inner
      ensures CachedOutcome(View(), inner.View(), answer) ==
              CachedApply(old(View()), old(inner.View()), 0, ttl, Op.RevokeKey(name, keyLabel), f)
      ensures outbox == old(outbox) + (if answer.Done? then Notices(Op.RevokeKey(name, keyLabel)) else [])
    {
      answer := inner.RevokeKey(name, keyLabel, f);
      if !answer.Done? {
        return;
      }
      EvictKeysForCaller(name);
      outbox := outbox + [Notice(KEYS, name)];
    }

    method AssignRole(name: string, role: string, f: Fault) returns (answer: Answer)
      modifies this, inner
      ensures CachedOutcome(View(), inner.View(), answer) ==
              CachedApply(old(View()), old(inner.View()), 0, ttl, Op.AssignRole(name, role), f)
      ensures outbox == old(outbox) + (if answer.Done? then Notices(Op.AssignRole(name, role)) else [])
      ensures byKeyHash == old(byKeyHash)
    {
      answer := inner.AssignRole(name, role, f);
      if !answer.Done? {
        return;
      }
      EvictRolesForCaller(name);
      outbox := outbox + [Notice(ROLES, name)];
    }

    method UnassignRole(name: string, role: string, f: Fault) returns (answer: Answer)
      modifies this, inner
      ensures CachedOutcome(View(), inner.View(), answer) ==
              CachedApply(old(View()), old(inner.View()), 0, ttl, Op.UnassignRole(name, role), f)
      ensures outbox == old(outbox) + (if answer.Done? then Notices(Op.UnassignRole(name, role)) else [])
      ensures byKeyHash == old(byKeyHash)
    {
      answer := inner.UnassignRole(name, role, f);
      if !answer.Done? {
        return;
      }
      EvictRolesForCaller(name);
      outbox := outbox + [Notice(ROLES, name)];
    }

    method EnsureCaller(name: string, defaults: seq<string>, f: Fault) returns (answer: Answer)
      modifies this, inner
      ensures CachedOutcome(View(), inner.View(), answer) ==
              CachedApply(old(View()), old(inner.View()), 0, ttl, Op.EnsureCaller(name, defaults), f)
      ensures outbox == old(outbox) + (if answer.Done? then Notices(Op.EnsureCaller(name, defaults)) else [])
      ensures byKeyHash == old(byKeyHash)
    {
      answer := inner.EnsureCaller(name, defaults, f);
      if !answer.Done? {
        return;
      }
      EvictRolesForCaller(name);
      outbox := outbox + [Notice(ROLES, name)];
    }
  }
}
