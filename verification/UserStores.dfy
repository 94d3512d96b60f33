/** The users and sessions a coordinator knows (coordinator/userstore.go), updated in place and written through
    to the database. */
module UserStores {
  import opened Wrappers
  import opened Decimal
  import opened Identities
  import opened Persisters

  class User {
    const id: string
    const githubID: Int64
    var login: string
    var webhookURL: string

    constructor (id: string, githubID: Int64)
      ensures this.id == id && this.githubID == githubID && login == "" && webhookURL == ""
    {
      this.id, this.githubID, login, webhookURL := id, githubID, "", "";
    }

    function Row(): UserRow
      reads this
    {
      UserRow(id, githubID, login, webhookURL)
    }
  }

  type ByGitHub = map<Int64, User>
  type ByID = map<string, User>

  /** The two maps list the same user objects, each under its own keys. */
  ghost predicate Linked(byGitHub: ByGitHub, byID: ByID) {
    && (forall id :: id in byID ==> byID[id].id == id && Under(byGitHub, byID[id]))
    && (forall g :: g in byGitHub ==> byGitHub[g].githubID == g && UnderID(byID, byGitHub[g]))
  }

  ghost predicate Under(byGitHub: ByGitHub, u: User) {
    u.githubID in byGitHub && byGitHub[u.githubID] == u
  }

  ghost predicate UnderID(byID: ByID, u: User) {
    u.id in byID && byID[u.id] == u
  }

  ghost predicate RowsAre(byID: ByID, rows: Users)
    reads byID.Values
  {
    byID.Keys == rows.Keys && forall id :: id in byID ==> byID[id].Row() == rows[id]
  }

  /** The maps list the users whose rows these are. */
  ghost predicate Listed(byGitHub: ByGitHub, byID: ByID, rows: Users)
    reads byID.Values
  {
    Linked(byGitHub, byID) && RowsAre(byID, rows) && WellKeyed(rows)
  }

  /** One more user under both keys. */
  lemma LinkOne(byGitHub: ByGitHub, byID: ByID, u: User)
    requires Linked(byGitHub, byID)
    requires u.githubID in byGitHub ==> byGitHub[u.githubID] == u
    requires u.id in byID ==> byID[u.id] == u
    ensures Linked(byGitHub[u.githubID := u], byID[u.id := u])
  {
  }

  /** The account's user, or a new one not yet listed. */
  method Find(byGitHub: ByGitHub, byID: ByID, githubID: Int64, ghost rows: Users) returns (u: User)
    requires Linked(byGitHub, byID) && RowsAre(byID, rows) && WellKeyed(rows)
    ensures u.id == UserID(githubID) && u.githubID == githubID && (githubID in byGitHub <==> u.id in byID)
    ensures if githubID in byGitHub then u == byGitHub[githubID] == byID[u.id] else fresh(u)
    ensures u.Row() == if u.id in rows then rows[u.id] else UserRow(u.id, githubID, "", "")
  {
    SameUser(byGitHub, byID, rows, githubID);
    if githubID in byGitHub {
      u := byGitHub[githubID];
    } else {
      u := new User(UserID(githubID), githubID);
    }
  }

  /** Changing one user's login in place changes that user's row and no other. */
  method SetLogin(u: User, login: string, ghost byID: ByID, ghost rows: Users)
    requires RowsAre(byID, rows) && (forall id :: id in byID ==> byID[id].id == id)
    requires u.id in byID ==> byID[u.id] == u
    modifies u`login
    ensures u.Row() == old(u.Row()).(login := login)
    ensures RowsAre(byID[u.id := u], rows[u.id := u.Row()])
  {
    u.login := login;
  }

  method UserOf(row: UserRow) returns (u: User)
    ensures fresh(u) && u.Row() == row
  {
    u := new User(row.id, row.githubID);
    u.login, u.webhookURL := row.login, row.webhookURL;
  }

  /** A new user object takes its account's place under both keys. */
  lemma LinkNew(byGitHub: ByGitHub, byID: ByID, rows: Users, u: User)
    requires Linked(byGitHub, byID) && WellKeyed(rows) && byID.Keys == rows.Keys && u.id == UserID(u.githubID)
    requires forall id :: id in byID ==> byID[id].githubID == rows[id].githubID
    ensures Linked(byGitHub[u.githubID := u], byID[u.id := u])
  {
    if u.id in byID {
      UserIDInjective(rows[u.id].githubID, u.githubID);
      assert Under(byGitHub, byID[u.id]);
    }
    if u.githubID in byGitHub {
      assert UnderID(byID, byGitHub[u.githubID]);
      assert byGitHub[u.githubID].id == u.id;
    }
    var wider, widerByID := byGitHub[u.githubID := u], byID[u.id := u];
    forall id | id in widerByID ensures widerByID[id].id == id && Under(wider, widerByID[id]) {
      assert id != u.id ==> Under(byGitHub, byID[id]);
    }
    forall g | g in wider ensures wider[g].githubID == g && UnderID(widerByID, wider[g]) {
      assert g != u.githubID ==> UnderID(byID, byGitHub[g]);
    }
  }

  lemma OneMoreKeyed(rows: Users, row: UserRow)
    requires WellKeyed(rows) && row.id == UserID(row.githubID)
    ensures WellKeyed(rows[row.id := row])
  {
  }

  /** The user's new login, and the user listed under both keys. */
  method Relist(byGitHub: ByGitHub, byID: ByID, u: User, login: string, ghost rows: Users)
    returns (wider: ByGitHub, widerByID: ByID, ghost newRows: Users)
    requires Listed(byGitHub, byID, rows) && u.id == UserID(u.githubID)
    requires if u.githubID in byGitHub then byGitHub[u.githubID] == u else u.id !in byID
    modifies u`login
    ensures wider == byGitHub[u.githubID := u] && widerByID == byID[u.id := u] && newRows == rows[u.id := u.Row()]
    ensures Listed(wider, widerByID, newRows)
    ensures u.Row() == old(u.Row()).(login := login)
  {
    LinkOne(byGitHub, byID, u);
    SetLogin(u, login, byID, rows);
    OneMoreKeyed(rows, u.Row());
    wider, widerByID, newRows := byGitHub[u.githubID := u], byID[u.id := u], rows[u.id := u.Row()];
  }

  method ListOne(byGitHub: ByGitHub, byID: ByID, row: UserRow, ghost rows: Users)
    returns (wider: ByGitHub, widerByID: ByID)
    requires Linked(byGitHub, byID) && RowsAre(byID, rows) && WellKeyed(rows) && row.id == UserID(row.githubID)
    ensures Linked(wider, widerByID) && RowsAre(widerByID, rows[row.id := row])
    ensures fresh(widerByID.Values - byID.Values)
  {
    var u := UserOf(row);
    LinkNew(byGitHub, byID, rows, u);
    wider, widerByID := byGitHub[u.githubID := u], byID[u.id := u];
  }

  /** The first loop of `LoadUserStore`: a new object for each row. */
  method ListAll(users: seq<UserRow>, ghost table: Users) returns (byGitHub: ByGitHub, byID: ByID, ghost rows: Users)
    requires WellKeyed(table)
    requires forall i :: 0 <= i < |users| ==> users[i].id in table && table[users[i].id] == users[i]
    ensures Linked(byGitHub, byID) && RowsAre(byID, rows) && fresh(byID.Values)
    ensures Within(rows, table) && Includes(rows, users, |users|)
  {
    byGitHub, byID, rows := map[], map[], map[];
    for i := 0 to |users|
      invariant Linked(byGitHub, byID) && RowsAre(byID, rows) && fresh(byID.Values)
      invariant Within(rows, table) && Includes(rows, users, i)
    {
      OneMoreWithin(rows, table, users[i]);
      OneMoreIncluded(rows, users, i);
      byGitHub, byID := ListOne(byGitHub, byID, users[i], rows);
      rows := rows[users[i].id := users[i]];
    }
  }

  ghost predicate Within(rows: Users, table: Users) {
    forall id :: id in rows ==> id in table && table[id] == rows[id]
  }

  ghost predicate Includes(rows: Users, users: seq<UserRow>, n: nat) {
    n <= |users| && forall k :: 0 <= k < n ==> users[k].id in rows
  }

  lemma OneMoreIncluded(rows: Users, users: seq<UserRow>, n: nat)
    requires n < |users| && Includes(rows, users, n)
    ensures Includes(rows[users[n].id := users[n]], users, n + 1)
  {
  }

  lemma OneMoreWithin(rows: Users, table: Users, row: UserRow)
    requires Within(rows, table) && row.id in table && table[row.id] == row && WellKeyed(table)
    ensures Within(rows[row.id := row], table) && WellKeyed(rows) && row.id == UserID(row.githubID)
  {
  }

  lemma AllWithin(rows: Users, table: Users, users: seq<UserRow>)
    requires Within(rows, table) && WellKeyed(table) && Includes(rows, users, |users|)
    requires forall id :: id in table ==> table[id] in users
    ensures rows == table
  {
    forall id | id in table ensures id in rows {
      var k :| 0 <= k < |users| && users[k] == table[id];
      assert users[k].id in rows;
    }
  }

  /** The second loop of `LoadUserStore`. */
  method AddSessions(loaded: seq<PersistedSession>, ghost table: Sessions) returns (sessions: Sessions)
    requires forall i :: 0 <= i < |loaded| ==> loaded[i].hash in table && table[loaded[i].hash] == loaded[i].row
    requires forall h :: h in table ==> PersistedSession(h, table[h]) in loaded
    ensures sessions == table
  {
    sessions := map[];
    for i := 0 to |loaded|
      invariant sessions.Keys <= table.Keys && forall h :: h in sessions ==> sessions[h] == table[h]
      invariant forall k :: 0 <= k < i ==> loaded[k].hash in sessions
    {
      sessions := sessions[loaded[i].hash := loaded[i].row];
    }
    forall h | h in table ensures h in sessions {
      var k :| 0 <= k < |loaded| && loaded[k] == PersistedSession(h, table[h]);
      assert loaded[k].hash in sessions;
    }
  }

  class UserStore {
    var byGitHub: ByGitHub
    var byID: ByID
    var sessions: Sessions
    const persist: Persister?
    const hash: string -> string
    ghost var rows: Users

    ghost predicate Valid()
      reads this, byID.Values
    {
      Listed(byGitHub, byID, rows)
    }

    /** The store, its database and the time as one world; the verifications are none of its business. */
    ghost function State(verified: set<Verification>, now: Time): World
      requires persist != null
      reads this, persist
    {
      World(Memory(rows, sessions, verified), persist.View(), now)
    }

    constructor (persist: Persister?, hash: string -> string)
      ensures Valid() && rows == map[] && sessions == map[] && this.persist == persist && this.hash == hash
    {
      byGitHub, byID, sessions, rows := map[], map[], map[], map[];
      this.persist, this.hash := persist, hash;
    }

    constructor Loaded(p: Persister, hash: string -> string, byGitHub: ByGitHub, byID: ByID, sessions: Sessions,
                       ghost rows: Users)
      requires Linked(byGitHub, byID) && RowsAre(byID, rows) && WellKeyed(rows)
      ensures Valid() && this.rows == rows && this.sessions == sessions && persist == p && this.hash == hash
    {
      this.byGitHub, this.byID, this.sessions, this.rows := byGitHub, byID, sessions, rows;
      this.persist, this.hash := p, hash;
    }

    /** `save`: through to the persister, if there is one. */
    method Save(row: UserRow, fate: Fate) returns (ok: bool)
      modifies persist
      ensures persist == null ==> ok
      ensures persist != null ==>
                && persist.View() == SaveUser(old(persist.View()), row, fate)
                && (ok <==> UserFits(old(persist.View()), row) && fate == Written)
    {
      ok := true;
      if persist != null {
        ok := persist.SaveUser(row, fate);
      }
    }

    ghost function Mem(verified: set<Verification>): Memory
      reads this
    {
      Memory(rows, sessions, verified)
    }

    /** Finds the account's user, or makes one, and saves the row with the new login. */
    method SaveLogin(githubID: Int64, login: string, fate: Fate) returns (found: User, ok: bool)
      requires Valid()
      modifies persist
      ensures Valid() && found.id == UserID(githubID) && found.githubID == githubID
      ensures githubID in byGitHub <==> found.id in byID
      ensures if githubID in byGitHub then found == byGitHub[githubID] else fresh(found)
      ensures found.Row().(login := login) == LoggedIn(Memory(rows, sessions, {}), githubID, login)
      ensures persist == null ==> ok
      ensures persist != null ==>
                && persist.View() == SaveUser(old(persist.View()), found.Row().(login := login), fate)
                && (ok <==> UserFits(old(persist.View()), found.Row().(login := login)) && fate == Written)
    {
      found := Find(byGitHub, byID, githubID, rows);
      ok := Save(found.Row().(login := login), fate);
    }

    /** `FindOrCreate`: a returning user keeps their object, with the login refreshed in place. */
    method FindOrCreate(githubID: Int64, login: string, fate: Fate, ghost verified: set<Verification>, ghost now: Time)
      returns (u: Option<User>)
      requires Valid()
      modifies this`byGitHub, this`byID, this`rows, byID.Values, persist
      ensures Valid() && sessions == old(sessions)
      ensures persist != null ==>
                State(verified, now)
                == SaveThrough(old(State(verified, now)), LoggedIn(old(Mem(verified)), githubID, login), fate)
      ensures persist == null ==>
                u.Some? && rows == old(rows)[UserID(githubID) := LoggedIn(old(Mem(verified)), githubID, login)]
      ensures u.Some? ==> githubID in byGitHub && u.value == byGitHub[githubID] && u.value.login == login
      ensures u.Some? && githubID in old(byGitHub) ==> u.value == old(byGitHub)[githubID]
    {
      var found, ok := SaveLogin(githubID, login, fate);
      if !ok {
        return None;
      }
      Adopt(found, login);
      u := Some(found);
    }

    /** Refreshes the user's login and lists them, if they are not listed yet. */
    method Adopt(found: User, login: string)
      requires Valid() && found.id == UserID(found.githubID)
      requires if found.githubID in byGitHub then byGitHub[found.githubID] == found else found.id !in byID
      modifies this`byGitHub, this`byID, this`rows, found`login
      ensures Valid() && byGitHub == old(byGitHub)[found.githubID := found] && byID == old(byID)[found.id := found]
      ensures rows == old(rows)[found.id := old(found.Row()).(login := login)] && found.login == login
    {
      byGitHub, byID, rows := Relist(byGitHub, byID, found, login, rows);
    }

    /** `IssueSession`: `token` is what the random generator yields, if it does. */
    method IssueSession(userID: string, token: Option<string>, now: Time, fate: Fate, ghost verified: set<Verification>)
      returns (issued: Option<string>)
      requires Valid()
      modifies this`sessions, persist
      ensures Valid() && issued == (if issued.None? then None else token)
      ensures token.None? ==> issued.None? && sessions == old(sessions)
      ensures token.None? && persist != null ==> State(verified, now) == old(State(verified, now))
      ensures token.Some? && persist != null ==>
                && State(verified, now) == AfterOpenSession(old(State(verified, now)), userID, hash(token.value), fate)
                && (issued.Some? <==>
                      && SessionFits(old(persist.View()), hash(token.value), SessionRow(userID, now + SESSION_TTL))
                      && fate == Written)
      ensures token.Some? && persist == null ==>
                && issued.Some?
                && sessions == old(sessions)[hash(token.value) := SessionRow(userID, now + 2_592_000_000_000_000)]
    {
      if token.None? {
        return None;
      }
      var h := hash(token.value);
      var row := SessionRow(userID, now + SESSION_TTL);
      if persist != null {
        var ok := persist.SaveSession(h, row, fate);
        if !ok {
          return None;
        }
      }
      sessions := sessions[h := row];
      issued := token;
    }

    /** `UserForSession`: an expired session is forgotten when it is used. */
    method UserForSession(token: string, now: Time, ghost verified: set<Verification>) returns (u: Option<User>)
      requires Valid()
      modifies this`sessions
      ensures Valid()
      ensures u.None? <==> Resolve(old(Mem(verified)), hash(token), now).None?
      ensures u.Some? ==> u.value.Row() == Resolve(old(Mem(verified)), hash(token), now).value
      ensures u.Some? ==> byID[u.value.id] == u.value
      ensures persist != null ==> State(verified, now) == AfterUseSession(old(State(verified, now)), hash(token))
      ensures sessions == if hash(token) in old(sessions) && old(sessions)[hash(token)].expiresAt <= now
                          then old(sessions) - {hash(token)} else old(sessions)
    {
      var h := hash(token);
      if h !in sessions {
        return None;
      }
      var session := sessions[h];
      if now >= session.expiresAt {
        sessions := sessions - {h};
        return None;
      }
      return if session.userID in byID then Some(byID[session.userID]) else None;
    }

    /** `GetByID`. */
    method GetByID(userID: string) returns (u: Option<User>)
      requires Valid()
      ensures u.Some? <==> userID in rows
      ensures u.Some? ==> userID in byID && u.value == byID[userID] && u.value.Row() == rows[userID]
    {
      u := if userID in byID then Some(byID[userID]) else None;
    }

    /** `SetWebhookURL`: `found` tells whether there is such a user, `ok` whether the edit was saved. */
    method SetWebhookURL(userID: string, url: string, fate: Fate, ghost verified: set<Verification>, ghost now: Time)
      returns (found: bool, ok: bool)
      requires Valid()
      modifies this`rows, byID.Values, persist
      ensures Valid() && found == (userID in old(rows))
      ensures persist != null ==> State(verified, now) == AfterSetWebhook(old(State(verified, now)), userID, url, fate)
      ensures persist == null && found ==> ok && rows == old(rows)[userID := old(rows)[userID].(webhookURL := url)]
      ensures !(found && ok) ==> rows == old(rows)
    {
      if userID !in byID {
        return false, true;
      }
      var u := byID[userID];
      ok := Save(u.Row().(webhookURL := url), fate);
      if ok {
        Edit(u, url);
      }
      found := true;
    }

    method Edit(u: User, url: string)
      requires Valid() && u.id in byID && byID[u.id] == u
      modifies this`rows, u`webhookURL
      ensures Valid() && rows == old(rows)[u.id := old(rows)[u.id].(webhookURL := url)]
    {
      ghost var newRows := rows[u.id := rows[u.id].(webhookURL := url)];
      EditWebhook(u, url, byID, rows);
      rows := newRows;
    }
  }

  /** Changing one user's webhook in place changes that user's row and no other. */
  method EditWebhook(u: User, url: string, ghost byID: ByID, ghost rows: Users)
    requires RowsAre(byID, rows) && (forall id :: id in byID ==> byID[id].id == id)
    requires u.id in byID && byID[u.id] == u
    modifies u`webhookURL
    ensures RowsAre(byID, rows[u.id := rows[u.id].(webhookURL := url)])
  {
    u.webhookURL := url;
  }

  /** `LoadUserStore`. Either query may fail, and then there is no store. */
  method LoadUserStore(p: Persister, hash: string -> string, now: Time, usersReadable: bool, sessionsReadable: bool)
    returns (s: Option<UserStore>)
    requires WellKeyed(p.users)
    modifies p`sessions
    ensures s.Some? <==> usersReadable && sessionsReadable
    ensures s.Some? ==>
              && fresh(s.value) && s.value.Valid() && s.value.persist == p && s.value.hash == hash
              && s.value.rows == Load(old(p.View()), now).users && s.value.sessions == Load(old(p.View()), now).sessions
              && p.View() == old(p.View()).(sessions := Prune(old(p.sessions), now))
  {
    if !usersReadable {
      return None;
    }
    ghost var table := p.users;
    var users := p.LoadUsers();
    ghost var rows;
    var byGitHub, byID;
    byGitHub, byID, rows := ListAll(users, table);
    AllWithin(rows, table, users);
    if !sessionsReadable {
      return None;
    }
    var loaded := p.LoadSessions(now);
    var sessions := AddSessions(loaded, p.sessions);
    var store := new UserStore.Loaded(p, hash, byGitHub, byID, sessions, table);
    s := Some(store);
  }

  /** A GitHub account has a user exactly if its ID has. */
  lemma SameUser(byGitHub: ByGitHub, byID: ByID, rows: Users, githubID: Int64)
    requires Linked(byGitHub, byID) && byID.Keys == rows.Keys && WellKeyed(rows)
    requires forall id :: id in byID ==> byID[id].githubID == rows[id].githubID
    ensures githubID in byGitHub <==> UserID(githubID) in byID
    ensures githubID in byGitHub ==> byGitHub[githubID].id == UserID(githubID)
  {
    if UserID(githubID) in byID {
      UserIDInjective(rows[UserID(githubID)].githubID, githubID);
    }
  }
}
