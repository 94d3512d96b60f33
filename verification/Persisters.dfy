/** The database tables behind the identity stores (coordinator/identitystore.go), with the constraints of
    their schema. */
module Persisters {
  import opened Wrappers
  import opened Identities

  /** A sessions row as it is loaded. */
  datatype PersistedSession = PersistedSession(hash: string, row: SessionRow)

  class Persister {
    var users: Users
    var sessions: Sessions
    var verified: set<Verification>

    function View(): Database
      reads this
    {
      Database(users, sessions, verified)
    }

    constructor ()
      ensures View() == EMPTY.db
    {
      users, sessions, verified := map[], map[], {};
    }

    /** The database's own check of the unique index. */
    method Fits(u: UserRow) returns (fits: bool)
      ensures fits == UserFits(View(), u)
    {
      var rest := users.Keys;
      while rest != {}
        invariant rest <= users.Keys
        invariant forall id :: id in users.Keys - rest && id != u.id ==> users[id].githubID != u.githubID
        decreases |rest|
      {
        var id := NextKey(rest);
        if id != u.id && users[id].githubID == u.githubID {
          return false;
        }
        rest := rest - {id};
      }
      return true;
    }

    method SaveUser(u: UserRow, fate: Fate) returns (ok: bool)
      modifies this`users
      ensures View() == Identities.SaveUser(old(View()), u, fate)
      ensures ok ==> u.id in users && users[u.id].login == u.login && users[u.id].webhookURL == u.webhookURL
      ensures ok ==> users[u.id].githubID == if u.id in old(users) then old(users)[u.id].githubID else u.githubID
      ensures forall id :: id != u.id ==>
                (id in users <==> id in old(users)) && (id in users ==> users[id] == old(users)[id])
      ensures fate == Lost ==> users == old(users)
      ensures ok <==> UserFits(old(View()), u) && fate == Written
    {
      var fits := Fits(u);
      if fits && fate != Lost {
        users := Upsert(users, u);
      }
      ok := fits && fate == Written;
    }

    method SaveSession(hash: string, row: SessionRow, fate: Fate) returns (ok: bool)
      modifies this`sessions
      ensures View() == Identities.SaveSession(old(View()), hash, row, fate)
      ensures ok <==> SessionFits(old(View()), hash, row) && fate == Written
    {
      var fits := hash !in sessions && row.userID in users;
      if fits && fate != Lost {
        sessions := sessions[hash := row];
      }
      ok := fits && fate == Written;
    }

    method SaveVerifiedDomain(v: Verification, fate: Fate) returns (ok: bool)
      modifies this`verified
      ensures View() == SaveVerification(old(View()), v, fate)
      ensures ok <==> VerificationFits(old(View()), v) && fate == Written
    {
      var fits := v.ownerID in users;
      if fits && fate != Lost {
        verified := verified + {v};
      }
      ok := fits && fate == Written;
    }

    /** Every user row, in no particular order. */
    method LoadUsers() returns (rows: seq<UserRow>)
      requires WellKeyed(users)
      ensures (forall i :: 0 <= i < |rows| ==> rows[i].id in users && users[rows[i].id] == rows[i])
      ensures forall id :: id in users ==> users[id] in rows
    {
      rows := [];
      var rest := users.Keys;
      while rest != {}
        invariant rest <= users.Keys
        invariant forall i :: 0 <= i < |rows| ==> rows[i].id in users && users[rows[i].id] == rows[i]
        invariant forall id :: id in users.Keys - rest ==> users[id] in rows
        decreases |rest|
      {
        var id := NextKey(rest);
        rows := rows + [users[id]];
        rest := rest - {id};
      }
    }

    /** Deletes the expired sessions, and gives the others in no particular order. */
    method LoadSessions(now: Time) returns (rows: seq<PersistedSession>)
      modifies this`sessions
      ensures sessions == Prune(old(sessions), now)
      ensures forall h :: h in sessions <==> h in old(sessions) && now < old(sessions)[h].expiresAt
      ensures forall h :: h in sessions ==> sessions[h] == old(sessions)[h]
      ensures forall i :: 0 <= i < |rows| ==> rows[i].hash in sessions && sessions[rows[i].hash] == rows[i].row
      ensures forall h :: h in sessions ==> PersistedSession(h, sessions[h]) in rows
    {
      sessions := Prune(sessions, now);
      rows := [];
      var rest := sessions.Keys;
      while rest != {}
        invariant rest <= sessions.Keys && sessions == Prune(old(sessions), now)
        invariant forall i :: 0 <= i < |rows| ==> rows[i].hash in sessions && sessions[rows[i].hash] == rows[i].row
        invariant forall h :: h in sessions.Keys - rest ==> PersistedSession(h, sessions[h]) in rows
        decreases |rest|
      {
        var h := NextKey(rest);
        rows := rows + [PersistedSession(h, sessions[h])];
        rest := rest - {h};
      }
    }

    method LoadVerifiedDomains() returns (rows: seq<Verification>)
      ensures forall v :: v in rows <==> v in verified
    {
      rows := [];
      var rest := verified;
      while rest != {}
        invariant rest <= verified && forall v :: v in rows <==> v in verified - rest
        decreases |rest|
      {
        var v := NextKey(rest);
        rows := rows + [v];
        rest := rest - {v};
      }
    }
  }
}
