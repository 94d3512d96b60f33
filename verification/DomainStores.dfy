/** Which user has verified which domain (coordinator/domainstore.go). */
module DomainStores {
  import opened Wrappers
  import opened Identities
  import opened Persisters

  /** Verified domains, and for each the users who verified it. */
  type Verified = map<string, map<string, bool>>

  /** A missing key reads as false. */
  predicate IsVerifiedIn(verified: Verified, domain: string, ownerID: string) {
    domain in verified && ownerID in verified[domain] && verified[domain][ownerID]
  }

  function WithVerified(verified: Verified, v: Verification): Verified {
    var owners := if v.domain in verified then verified[v.domain] else map[];
    verified[v.domain := owners[v.ownerID := true]]
  }

  ghost predicate Holds(verified: Verified, pairs: set<Verification>) {
    forall domain, ownerID :: IsVerifiedIn(verified, domain, ownerID) <==> Verification(domain, ownerID) in pairs
  }

  /** One more verification authorizes that user for that domain, and nobody else for anything. */
  lemma OneMoreHolds(verified: Verified, pairs: set<Verification>, v: Verification)
    requires Holds(verified, pairs)
    ensures Holds(WithVerified(verified, v), pairs + {v})
  {
    forall domain, ownerID
      ensures IsVerifiedIn(WithVerified(verified, v), domain, ownerID) <==> Verification(domain, ownerID) in pairs + {v}
    {
      assert IsVerifiedIn(verified, domain, ownerID) <==> Verification(domain, ownerID) in pairs;
    }
  }

  class DomainStore {
    var verified: Verified
    const persist: Persister?
    ghost var pairs: set<Verification>

    ghost predicate Valid()
      reads this
    {
      Holds(verified, pairs)
    }

    ghost function State(users: Users, sessions: Sessions, now: Time): World
      requires persist != null
      reads this, persist
    {
      World(Memory(users, sessions, pairs), persist.View(), now)
    }

    constructor (persist: Persister?)
      ensures Valid() && pairs == {} && this.persist == persist
    {
      verified, pairs := map[], {};
      this.persist := persist;
    }

    /** `MarkVerified`: the database first, so that memory never claims what a restart would forget. */
    method MarkVerified(domain: string, ownerID: string, fate: Fate,
                        ghost users: Users, ghost sessions: Sessions, ghost now: Time) returns (ok: bool)
      requires Valid()
      modifies this`verified, this`pairs, persist
      ensures Valid()
      ensures persist == null ==> ok
      ensures persist != null ==>
                && State(users, sessions, now)
                   == AfterVerify(old(State(users, sessions, now)), Verification(domain, ownerID), fate)
                && (ok <==> VerificationFits(old(persist.View()), Verification(domain, ownerID)) && fate == Written)
      ensures pairs == if ok then old(pairs) + {Verification(domain, ownerID)} else old(pairs)
    {
      ok := true;
      if persist != null {
        ok := persist.SaveVerifiedDomain(Verification(domain, ownerID), fate);
      }
      if ok {
        OneMoreHolds(verified, pairs, Verification(domain, ownerID));
        verified := WithVerified(verified, Verification(domain, ownerID));
        pairs := pairs + {Verification(domain, ownerID)};
      }
    }

    /** `IsVerified`. */
    method IsVerified(domain: string, ownerID: string) returns (v: bool)
      requires Valid()
      ensures v <==> Verification(domain, ownerID) in pairs
    {
      v := IsVerifiedIn(verified, domain, ownerID);
    }
  }

  /** `LoadDomainStore`. */
  method LoadDomainStore(p: Persister, readable: bool, now: Time) returns (s: Option<DomainStore>)
    ensures s.Some? <==> readable
    ensures s.Some? ==>
              && fresh(s.value) && s.value.Valid() && s.value.persist == p
              && s.value.pairs == Load(p.View(), now).verified
  {
    if !readable {
      return None;
    }
    var store := new DomainStore(p);
    var rows := p.LoadVerifiedDomains();
    for i := 0 to |rows|
      invariant fresh(store) && store.Valid() && store.persist == p
      invariant forall v :: v in store.pairs <==> v in rows[..i]
    {
      OneMoreHolds(store.verified, store.pairs, rows[i]);
      store.verified := WithVerified(store.verified, rows[i]);
      store.pairs := store.pairs + {rows[i]};
    }
    assert rows[..|rows|] == rows;
    s := Some(store);
  }
}
