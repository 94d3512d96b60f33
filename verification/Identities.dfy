/** Who is known to the coordinator, in memory and in the database (coordinator/userstore.go,
    coordinator/domainstore.go, coordinator/identitystore.go), as functions of what happened. */
module Identities {
  import opened Wrappers
  import opened Decimal

  /** Nanoseconds on the wall clock. */
  type Time = nat

  const SESSION_TTL: nat := 30 * 24 * 3600 * 1_000_000_000

  datatype UserRow = UserRow(id: string, githubID: Int64, login: string, webhookURL: string)

  datatype SessionRow = SessionRow(userID: string, expiresAt: Time)

  datatype Verification = Verification(domain: string, ownerID: string)

  type Users = map<string, UserRow>
  type Sessions = map<string, SessionRow>

  /** What one process holds in memory. Sessions are keyed by the hash of their token. */
  datatype Memory = Memory(users: Users, sessions: Sessions, verified: set<Verification>)

  datatype Database = Database(users: Users, sessions: Sessions, verified: set<Verification>)

  /** `userIDForGitHub`. */
  function UserID(githubID: int): string {
    "gh-" + Itoa(githubID)
  }

  /** GitHub accounts never share a user ID. */
  lemma UserIDInjective(a: int, b: int)
    requires UserID(a) == UserID(b)
    ensures a == b
  {
    assert UserID(a)[3..] == Itoa(a) && UserID(b)[3..] == Itoa(b);
    ItoaInjective(a, b);
  }

  /** How a write to the database ends: it is done; it fails and nothing is written; or it fails although it was
      written, for instance because the reply was lost. */
  datatype Fate = Written | Lost | Landed

  /** INSERT INTO users ... ON CONFLICT (id) DO UPDATE: refused if another user has the GitHub account. */
  predicate UserFits(db: Database, u: UserRow) {
    forall id :: id in db.users && id != u.id ==> db.users[id].githubID != u.githubID
  }

  function Upsert(users: Users, u: UserRow): Users {
    users[u.id := if u.id in users then users[u.id].(login := u.login, webhookURL := u.webhookURL) else u]
  }

  function SaveUser(db: Database, u: UserRow, fate: Fate): Database {
    if UserFits(db, u) && fate != Lost then db.(users := Upsert(db.users, u)) else db
  }

  /** INSERT INTO sessions: the hash is the primary key, and the user must exist. */
  predicate SessionFits(db: Database, hash: string, s: SessionRow) {
    hash !in db.sessions && s.userID in db.users
  }

  function SaveSession(db: Database, hash: string, s: SessionRow, fate: Fate): Database {
    if SessionFits(db, hash, s) && fate != Lost then db.(sessions := db.sessions[hash := s]) else db
  }

  /** INSERT INTO verified_domains ... ON CONFLICT DO UPDATE: the owner must exist. */
  predicate VerificationFits(db: Database, v: Verification) {
    v.ownerID in db.users
  }

  function SaveVerification(db: Database, v: Verification, fate: Fate): Database {
    if VerificationFits(db, v) && fate != Lost then db.(verified := db.verified + {v}) else db
  }

  /** The rows `LoadSessions` leaves: it deletes the expired ones. */
  function Prune(sessions: Sessions, now: Time): Sessions {
    map h | h in sessions && now < sessions[h].expiresAt :: sessions[h]
  }

  function Load(db: Database, now: Time): Memory {
    Memory(db.users, Prune(db.sessions, now), db.verified)
  }

  /** `FindOrCreate`'s new row. */
  function LoggedIn(mem: Memory, githubID: Int64, login: string): UserRow {
    var id := UserID(githubID);
    if id in mem.users then mem.users[id].(login := login) else UserRow(id, githubID, login, "")
  }

  /** The memory and the database together, and the clock. */
  datatype World = World(mem: Memory, db: Database, now: Time)

  const EMPTY: World := World(Memory(map[], map[], {}), Database(map[], map[], {}), 0)

  datatype Action =
    | Login(githubID: Int64, login: string, fate: Fate)
    | OpenSession(userID: string, hash: string, fate: Fate)
    | UseSession(hash: string)
    | SetWebhook(userID: string, url: string, fate: Fate)
    | Verify(v: Verification, fate: Fate)
    | Pass(duration: nat)
    | Restart

  /** The database first; memory only if that went well. */
  function SaveThrough(w: World, u: UserRow, fate: Fate): World {
    var db := SaveUser(w.db, u, fate);
    if UserFits(w.db, u) && fate == Written then w.(db := db, mem := w.mem.(users := w.mem.users[u.id := u]))
    else w.(db := db)
  }

  function AfterOpenSession(w: World, userID: string, hash: string, fate: Fate): World {
    var s := SessionRow(userID, w.now + SESSION_TTL);
    var db := SaveSession(w.db, hash, s, fate);
    if SessionFits(w.db, hash, s) && fate == Written
    then w.(db := db, mem := w.mem.(sessions := w.mem.sessions[hash := s]))
    else w.(db := db)
  }

  /** `UserForSession` forgets an expired session. */
  function AfterUseSession(w: World, hash: string): World {
    if hash in w.mem.sessions && w.mem.sessions[hash].expiresAt <= w.now
    then w.(mem := w.mem.(sessions := w.mem.sessions - {hash}))
    else w
  }

  function AfterSetWebhook(w: World, userID: string, url: string, fate: Fate): World {
    if userID in w.mem.users then SaveThrough(w, w.mem.users[userID].(webhookURL := url), fate) else w
  }

  function AfterVerify(w: World, v: Verification, fate: Fate): World {
    var db := SaveVerification(w.db, v, fate);
    if VerificationFits(w.db, v) && fate == Written
    then w.(db := db, mem := w.mem.(verified := w.mem.verified + {v}))
    else w.(db := db)
  }

  /** A new process loads the database, which prunes it. */
  function AfterRestart(w: World): World {
    w.(mem := Load(w.db, w.now), db := w.db.(sessions := Prune(w.db.sessions, w.now)))
  }

  function After(w: World, a: Action): World {
    match a
    case Login(githubID, login, fate) => SaveThrough(w, LoggedIn(w.mem, githubID, login), fate)
    case OpenSession(userID, hash, fate) => AfterOpenSession(w, userID, hash, fate)
    case UseSession(hash) => AfterUseSession(w, hash)
    case SetWebhook(userID, url, fate) => AfterSetWebhook(w, userID, url, fate)
    case Verify(v, fate) => AfterVerify(w, v, fate)
    case Pass(duration) => w.(now := w.now + duration)
    case Restart => AfterRestart(w)
  }

  function Run(actions: seq<Action>): World {
    if actions == [] then EMPTY else After(Run(actions[..|actions| - 1]), actions[|actions| - 1])
  }

  /** What `UserForSession` answers. */
  function Resolve(mem: Memory, hash: string, now: Time): Option<UserRow> {
    if hash in mem.sessions && now < mem.sessions[hash].expiresAt && mem.sessions[hash].userID in mem.users
    then Some(mem.users[mem.sessions[hash].userID])
    else None
  }

  /** The two memories answer every question alike from now on. */
  ghost predicate AnswerAlike(a: Memory, b: Memory, now: Time) {
    && a.users == b.users && a.verified == b.verified
    && forall hash, t :: now <= t ==> Resolve(a, hash, t) == Resolve(b, hash, t)
  }

  /** The failed write did reach the database. */
  predicate Landing(a: Action) {
    match a
    case Login(_, _, fate) => fate == Landed
    case OpenSession(_, _, fate) => fate == Landed
    case SetWebhook(_, _, fate) => fate == Landed
    case Verify(_, fate) => fate == Landed
    case _ => false
  }

  /** Users are keyed by the ID their GitHub account determines. */
  ghost predicate WellKeyed(users: Users) {
    forall id :: id in users ==> users[id].id == id == UserID(users[id].githubID)
  }

  /** Whatever the failures: memory's sessions and verifications are all in the database, its users are at least
      known there, and a session's user always exists. */
  ghost predicate Persisted(w: World) {
    && WellKeyed(w.mem.users) && WellKeyed(w.db.users) && w.mem.users.Keys <= w.db.users.Keys
    && (forall h :: h in w.mem.sessions ==> h in w.db.sessions && w.db.sessions[h] == w.mem.sessions[h])
    && (forall h :: h in w.db.sessions ==> w.db.sessions[h].userID in w.db.users)
    && w.mem.verified <= w.db.verified
    && (forall v :: v in w.db.verified ==> v.ownerID in w.db.users)
  }

  /** Without failed writes that landed, memory and database hold the same; only expired sessions may linger in
      the database. */
  ghost predicate Synced(w: World) {
    && w.mem.users == w.db.users && w.mem.verified == w.db.verified
    && forall h :: h in w.db.sessions && h !in w.mem.sessions ==> w.db.sessions[h].expiresAt <= w.now
  }

  /** The UNIQUE constraint on GitHub accounts never fires. */
  lemma NoAccountClash(db: Database, u: UserRow)
    requires WellKeyed(db.users) && u.id == UserID(u.githubID)
    ensures UserFits(db, u)
  {
  }

  lemma UpsertWellKeyed(users: Users, u: UserRow)
    requires WellKeyed(users) && u.id == UserID(u.githubID)
    ensures WellKeyed(Upsert(users, u)) && Upsert(users, u) == users[u.id := u]
  {
    if u.id in users {
      UserIDInjective(users[u.id].githubID, u.githubID);
    }
  }

  lemma LoggedInKeyed(mem: Memory, githubID: Int64, login: string)
    requires WellKeyed(mem.users)
    ensures var u := LoggedIn(mem, githubID, login);
            u.id == UserID(u.githubID) && u.githubID == githubID && u.login == login
  {
    var id := UserID(githubID);
    if id in mem.users {
      UserIDInjective(mem.users[id].githubID, githubID);
    }
  }

  lemma SavePersisted(w: World, u: UserRow, fate: Fate)
    requires Persisted(w) && u.id == UserID(u.githubID)
    ensures Persisted(SaveThrough(w, u, fate))
    ensures Synced(w) && fate != Landed ==> Synced(SaveThrough(w, u, fate))
    ensures SaveThrough(w, u, fate).mem.users == if fate == Written then w.mem.users[u.id := u] else w.mem.users
  {
    NoAccountClash(w.db, u);
    UpsertWellKeyed(w.db.users, u);
  }

  lemma StepPersisted(w: World, a: Action)
    requires Persisted(w)
    ensures Persisted(After(w, a))
    ensures Synced(w) && !Landing(a) ==> Synced(After(w, a))
  {
    match a {
      case Login(githubID, login, fate) =>
        LoggedInKeyed(w.mem, githubID, login);
        SavePersisted(w, LoggedIn(w.mem, githubID, login), fate);
      case SetWebhook(userID, url, fate) =>
        if userID in w.mem.users {
          SavePersisted(w, w.mem.users[userID].(webhookURL := url), fate);
        }
      case OpenSession(userID, hash, fate) => SessionPersisted(w, userID, hash, fate);
      case Verify(v, fate) => VerificationPersisted(w, v, fate);
      case _ =>
    }
  }

  lemma SessionPersisted(w: World, userID: string, hash: string, fate: Fate)
    requires Persisted(w)
    ensures Persisted(AfterOpenSession(w, userID, hash, fate))
    ensures Synced(w) && fate != Landed ==> Synced(AfterOpenSession(w, userID, hash, fate))
  {
    var w' := AfterOpenSession(w, userID, hash, fate);
    if Synced(w) && fate != Landed {
      forall h | h in w'.db.sessions && h !in w'.mem.sessions ensures w'.db.sessions[h].expiresAt <= w.now {
        assert h in w.db.sessions && h !in w.mem.sessions;
      }
    }
  }

  lemma VerificationPersisted(w: World, v: Verification, fate: Fate)
    requires Persisted(w)
    ensures Persisted(AfterVerify(w, v, fate))
    ensures Synced(w) && fate != Landed ==> Synced(AfterVerify(w, v, fate))
  {
    var w' := AfterVerify(w, v, fate);
    assert w'.mem.sessions == w.mem.sessions && w'.db.sessions == w.db.sessions && w'.now == w.now;
    assert w'.mem.users == w.mem.users && w'.db.users == w.db.users;
  }

  lemma {:induction false} RunPersisted(actions: seq<Action>)
    ensures Persisted(Run(actions))
    ensures (forall i :: 0 <= i < |actions| ==> !Landing(actions[i])) ==> Synced(Run(actions))
  {
    if actions != [] {
      RunPersisted(actions[..|actions| - 1]);
      StepPersisted(Run(actions[..|actions| - 1]), actions[|actions| - 1]);
    }
  }

  /** Restart agreement: after any run of logins, sessions, webhook edits, verifications and restarts in which
      failed writes write nothing, a store loaded from the database at any later time answers every question as
      the one in memory does from then on. */
  lemma RestartAgreement(actions: seq<Action>, later: Time)
    requires forall i :: 0 <= i < |actions| ==> !Landing(actions[i])
    requires Run(actions).now <= later
    ensures AnswerAlike(Run(actions).mem, Load(Run(actions).db, later), later)
  {
    RunPersisted(actions);
  }

  /** Whatever became of failed writes, no session that works and no verification is lost by a restart. */
  lemma NothingIsLost(actions: seq<Action>, hash: string, later: Time, t: Time)
    requires Run(actions).now <= later <= t
    ensures var w := Run(actions);
            && (Resolve(w.mem, hash, t).Some? ==>
                  Resolve(Load(w.db, later), hash, t).Some?
                  && Resolve(Load(w.db, later), hash, t).value.id == Resolve(w.mem, hash, t).value.id)
            && w.mem.verified <= Load(w.db, later).verified
  {
    RunPersisted(actions);
  }

  /** A session that has not expired always finds its user, unless a failed login landed. */
  lemma SessionsFindUsers(actions: seq<Action>, hash: string, t: Time)
    requires forall i :: 0 <= i < |actions| ==> !Landing(actions[i])
    ensures var mem := Run(actions).mem;
            Resolve(mem, hash, t).Some? <==> hash in mem.sessions && t < mem.sessions[hash].expiresAt
  {
    RunPersisted(actions);
  }

  /** Memory and database agree, from any state a run can reach, exactly if they are synchronized. */
  lemma AgreementIsSync(w: World)
    requires Persisted(w)
    ensures AnswerAlike(w.mem, Load(w.db, w.now), w.now) <==> Synced(w)
  {
    if !Synced(w) && w.mem.users == w.db.users && w.mem.verified == w.db.verified {
      var h :| h in w.db.sessions && h !in w.mem.sessions && w.now < w.db.sessions[h].expiresAt;
      assert Resolve(w.mem, h, w.now).None? && Resolve(Load(w.db, w.now), h, w.now).Some?;
    }
  }

  /** The write would change nothing: the login or webhook is the one on record, the verification is there or its
      owner unknown, the session is refused. */
  predicate Redundant(w: World, a: Action) {
    match a
    case Login(githubID, login, _) =>
      UserID(githubID) in w.mem.users && w.mem.users[UserID(githubID)].login == login
    case OpenSession(userID, hash, _) => hash in w.db.sessions || userID !in w.db.users
    case SetWebhook(userID, url, _) => userID in w.mem.users ==> w.mem.users[userID].webhookURL == url
    case Verify(v, _) => v in w.db.verified || v.ownerID !in w.db.users
    case _ => true
  }

  /** A failed write that landed breaks the agreement exactly if it was not redundant. */
  lemma LandedWriteDisagrees(w: World, a: Action)
    requires Persisted(w) && Synced(w) && Landing(a)
    ensures var w' := After(w, a);
            AnswerAlike(w'.mem, Load(w'.db, w'.now), w'.now) <==> Redundant(w, a)
  {
    StepPersisted(w, a);
    AgreementIsSync(After(w, a));
    match a {
      case Login(githubID, login, _) => LandedLogin(w, LoggedIn(w.mem, githubID, login), githubID, login);
      case SetWebhook(userID, url, _) =>
        if userID in w.mem.users {
          LandedUser(w, w.mem.users[userID].(webhookURL := url));
        }
      case _ =>
    }
  }

  lemma LandedUser(w: World, u: UserRow)
    requires Persisted(w) && Synced(w) && u.id == UserID(u.githubID)
    ensures Synced(SaveThrough(w, u, Landed)) <==> u.id in w.mem.users && w.mem.users[u.id] == u
  {
    NoAccountClash(w.db, u);
    UpsertWellKeyed(w.db.users, u);
    assert u.id in w.db.users[u.id := u];
  }

  lemma LandedLogin(w: World, u: UserRow, githubID: Int64, login: string)
    requires Persisted(w) && Synced(w) && u == LoggedIn(w.mem, githubID, login)
    ensures Synced(SaveThrough(w, u, Landed)) <==>
              UserID(githubID) in w.mem.users && w.mem.users[UserID(githubID)].login == login
  {
    LoggedInKeyed(w.mem, githubID, login);
    LandedUser(w, u);
  }

  /** One row of the three tables. */
  datatype Row = UserKey(id: string) | SessionKey(hash: string) | VerificationKey(v: Verification)

  /** The database has the row otherwise than memory does; an expired session does not matter. */
  predicate Off(w: World, row: Row) {
    match row
    case UserKey(id) => id in w.db.users && (id !in w.mem.users || w.mem.users[id] != w.db.users[id])
    case SessionKey(h) => h in w.db.sessions && h !in w.mem.sessions && w.now < w.db.sessions[h].expiresAt
    case VerificationKey(v) => v in w.db.verified && v !in w.mem.verified
  }

  lemma SyncedMeansNoneOff(w: World)
    requires Persisted(w)
    ensures Synced(w) <==> forall row :: !Off(w, row)
  {
    if forall row :: !Off(w, row) {
      forall id ensures id in w.db.users ==> id in w.mem.users && w.mem.users[id] == w.db.users[id] {
        assert !Off(w, UserKey(id));
      }
      forall v ensures v in w.db.verified ==> v in w.mem.verified {
        assert !Off(w, VerificationKey(v));
      }
      forall h | h in w.db.sessions && h !in w.mem.sessions ensures w.db.sessions[h].expiresAt <= w.now {
        assert !Off(w, SessionKey(h));
      }
      assert w.mem.users == w.db.users && w.mem.verified == w.db.verified;
    }
  }

  /** The row an action writes. */
  function WrittenRow(w: World, a: Action): Option<Row> {
    match a
    case Login(githubID, _, _) => Some(UserKey(UserID(githubID)))
    case OpenSession(_, hash, _) => Some(SessionKey(hash))
    case SetWebhook(userID, _, _) => if userID in w.mem.users then Some(UserKey(userID)) else None
    case Verify(v, _) => Some(VerificationKey(v))
    case _ => None
  }

  /** A failed write to the row landed, and changed it. */
  predicate Breaks(w: World, a: Action, row: Row) {
    Landing(a) && WrittenRow(w, a) == Some(row) && !Redundant(w, a)
  }

  /** The row comes right again: the process restarts; the row is written successfully, or a failed write of just
      what memory has of it lands; or the session expires. */
  predicate Heals(w: World, a: Action, row: Row) {
    match a
    case Restart => true
    case Pass(d) => row.SessionKey? && row.hash in w.db.sessions && w.db.sessions[row.hash].expiresAt <= w.now + d
    case Login(_, _, fate) =>
      WrittenRow(w, a) == Some(row) && (fate == Written || (fate == Landed && Redundant(w, a)))
    case SetWebhook(_, _, fate) =>
      WrittenRow(w, a) == Some(row) && (fate == Written || (fate == Landed && Redundant(w, a)))
    case Verify(_, fate) => WrittenRow(w, a) == Some(row) && fate == Written
    case _ => false
  }

  lemma SaveOff(w: World, u: UserRow, fate: Fate, row: Row)
    requires Persisted(w) && u.id == UserID(u.githubID)
    ensures var same := u.id in w.mem.users && w.mem.users[u.id] == u;
            Off(SaveThrough(w, u, fate), row) <==>
              if row != UserKey(u.id) || fate == Lost then Off(w, row) else fate == Landed && !same
  {
    NoAccountClash(w.db, u);
    UpsertWellKeyed(w.db.users, u);
  }

  lemma SessionOff(w: World, userID: string, hash: string, fate: Fate, row: Row)
    requires Persisted(w)
    ensures Off(AfterOpenSession(w, userID, hash, fate), row) <==>
              || Off(w, row)
              || (row == SessionKey(hash) && fate == Landed && SessionFits(w.db, hash, SessionRow(userID, 0)))
  {
  }

  lemma VerificationOff(w: World, v: Verification, fate: Fate, row: Row)
    requires Persisted(w)
    ensures Off(AfterVerify(w, v, fate), row) <==>
              if row != VerificationKey(v) || !VerificationFits(w.db, v) || fate == Lost then Off(w, row)
              else fate == Landed && v !in w.mem.verified
  {
  }

  /** One action: a row is off afterwards if and only if the action broke it, or it was off and was not healed. */
  lemma OffNext(w: World, a: Action, row: Row)
    requires Persisted(w)
    ensures Off(After(w, a), row) <==> Breaks(w, a, row) || (Off(w, row) && !Heals(w, a, row))
  {
    match a {
      case Login(githubID, login, fate) =>
        LoggedInKeyed(w.mem, githubID, login);
        SaveOff(w, LoggedIn(w.mem, githubID, login), fate, row);
      case SetWebhook(userID, url, fate) =>
        if userID in w.mem.users {
          SaveOff(w, w.mem.users[userID].(webhookURL := url), fate, row);
        }
      case OpenSession(userID, hash, fate) => SessionOff(w, userID, hash, fate, row);
      case Verify(v, fate) => VerificationOff(w, v, fate, row);
      case _ =>
    }
  }

  /** Step i of the run broke the row. */
  predicate BreaksAt(actions: seq<Action>, i: nat, row: Row) {
    i < |actions| && Breaks(Run(actions[..i]), actions[i], row)
  }

  /** Step i of the run broke the row, and nothing up to step n healed it. */
  ghost predicate BrokenSince(actions: seq<Action>, i: nat, n: nat, row: Row)
    requires n <= |actions|
  {
    i < n && BreaksAt(actions, i, row) && !HealedBetween(actions, i + 1, n, row)
  }

  ghost predicate HealedBetween(actions: seq<Action>, a: nat, b: nat, row: Row)
    requires b <= |actions|
  {
    exists j :: a <= j < b && Heals(Run(actions[..j]), actions[j], row)
  }

  ghost predicate Broken(actions: seq<Action>, n: nat, row: Row)
    requires n <= |actions|
  {
    exists i: nat :: BrokenSince(actions, i, n, row)
  }

  lemma {:induction false} OffOverRuns(actions: seq<Action>, n: nat, row: Row)
    requires n <= |actions|
    ensures Off(Run(actions[..n]), row) <==> Broken(actions, n, row)
  {
    if n > 0 {
      var w, a := Run(actions[..n - 1]), actions[n - 1];
      OffOverRuns(actions, n - 1, row);
      RunPersisted(actions[..n - 1]);
      OffNext(w, a, row);
      assert actions[..n][..n - 1] == actions[..n - 1];
      BrokenNext(actions, n, row);
    }
  }

  lemma BrokenNext(actions: seq<Action>, n: nat, row: Row)
    requires 0 < n <= |actions|
    ensures var w, a := Run(actions[..n - 1]), actions[n - 1];
            Broken(actions, n, row) <==> Breaks(w, a, row) || (Broken(actions, n - 1, row) && !Heals(w, a, row))
  {
    BecomesBroken(actions, n, row);
    if Broken(actions, n, row) && !BreaksAt(actions, n - 1, row) {
      var i: nat :| BrokenSince(actions, i, n, row);
      WasBroken(actions, i, n, row);
    }
  }

  lemma BecomesBroken(actions: seq<Action>, n: nat, row: Row)
    requires 0 < n <= |actions|
    ensures BreaksAt(actions, n - 1, row) ==> Broken(actions, n, row)
    ensures Broken(actions, n - 1, row) && !Heals(Run(actions[..n - 1]), actions[n - 1], row) ==>
              Broken(actions, n, row)
  {
    if BreaksAt(actions, n - 1, row) {
      assert BrokenSince(actions, n - 1, n, row);
    } else if Broken(actions, n - 1, row) {
      var i: nat :| BrokenSince(actions, i, n - 1, row);
      HealedNext(actions, i + 1, n, row);
      assert !Heals(Run(actions[..n - 1]), actions[n - 1], row) ==> BrokenSince(actions, i, n, row);
    }
  }

  lemma WasBroken(actions: seq<Action>, i: nat, n: nat, row: Row)
    requires i < n <= |actions| && BrokenSince(actions, i, n, row) && !BreaksAt(actions, n - 1, row)
    ensures Broken(actions, n - 1, row) && !Heals(Run(actions[..n - 1]), actions[n - 1], row)
  {
    HealedNext(actions, i + 1, n, row);
    assert BrokenSince(actions, i, n - 1, row);
  }

  lemma HealedNext(actions: seq<Action>, a: nat, n: nat, row: Row)
    requires a < n <= |actions|
    ensures HealedBetween(actions, a, n, row) <==>
              HealedBetween(actions, a, n - 1, row) || Heals(Run(actions[..n - 1]), actions[n - 1], row)
  {
  }

  /** Over every run, with failed writes of either kind: a store loaded now answers as the running one if and only if
      every row that a landed write broke was healed since, by a restart, by a write that makes the two alike, or by
      the expiry of the session. */
  lemma AgreementOverRuns(actions: seq<Action>)
    ensures var w := Run(actions);
            AnswerAlike(w.mem, Load(w.db, w.now), w.now) <==>
              forall row, i: nat :: BreaksAt(actions, i, row) ==>
                HealedBetween(actions, i + 1, |actions|, row)
  {
    var w := Run(actions);
    RunPersisted(actions);
    AgreementIsSync(w);
    SyncedMeansNoneOff(w);
    assert actions[..|actions|] == actions;
    forall row ensures Off(w, row) <==> Broken(actions, |actions|, row) {
      OffOverRuns(actions, |actions|, row);
    }
    NoneBroken(actions);
  }

  lemma NoneBroken(actions: seq<Action>)
    ensures (forall row :: !Broken(actions, |actions|, row)) <==>
              forall row, i: nat :: BreaksAt(actions, i, row) ==>
                HealedBetween(actions, i + 1, |actions|, row)
  {
    if forall row :: !Broken(actions, |actions|, row) {
      forall row, i: nat | BreaksAt(actions, i, row)
        ensures HealedBetween(actions, i + 1, |actions|, row)
      {
        assert !Broken(actions, |actions|, row) && !BrokenSince(actions, i, |actions|, row);
      }
    } else {
      var row :| Broken(actions, |actions|, row);
      var i: nat :| BrokenSince(actions, i, |actions|, row);
    }
  }

  lemma UserIDText()
    ensures UserID(42) == "gh-42"
  {
    PrintedNumbers();
    assert "gh-" + "42" == "gh-42";
  }

  /** The login of the last successful login of the account, if there was one. */
  function LastLogin(actions: seq<Action>, id: string): Option<string> {
    if actions == [] then None
    else
      match actions[|actions| - 1]
      case Login(githubID, login, Written) =>
        if UserID(githubID) == id then Some(login) else LastLogin(actions[..|actions| - 1], id)
      case _ => LastLogin(actions[..|actions| - 1], id)
  }

  /** The URL of the last successful edit of the user's webhook after the first login, or none yet. */
  function LastWebhook(actions: seq<Action>, id: string): string {
    if actions == [] then ""
    else
      var front := actions[..|actions| - 1];
      match actions[|actions| - 1]
      case SetWebhook(userID, url, Written) =>
        if userID == id && LastLogin(front, id).Some? then url else LastWebhook(front, id)
      case _ => LastWebhook(front, id)
  }

  /** Memory's users are those who logged in, with the login of the last time and the webhook they set last. */
  ghost predicate UsersFollow(users: Users, actions: seq<Action>) {
    forall id ::
      && (id in users <==> LastLogin(actions, id).Some?)
      && (id in users ==>
            users[id].login == LastLogin(actions, id).value && users[id].webhookURL == LastWebhook(actions, id))
  }

  lemma {:induction false} NoWebhookBeforeLogin(actions: seq<Action>, id: string)
    ensures LastLogin(actions, id).None? ==> LastWebhook(actions, id) == ""
  {
    if actions != [] {
      NoWebhookBeforeLogin(actions[..|actions| - 1], id);
    }
  }

  lemma LoginFollows(w: World, actions: seq<Action>, githubID: Int64, login: string, fate: Fate)
    requires Persisted(w) && UsersFollow(w.mem.users, actions)
    ensures UsersFollow(SaveThrough(w, LoggedIn(w.mem, githubID, login), fate).mem.users,
                        actions + [Login(githubID, login, fate)])
  {
    var u := LoggedIn(w.mem, githubID, login);
    LoggedInKeyed(w.mem, githubID, login);
    SavePersisted(w, u, fate);
    assert SaveThrough(w, u, fate).mem.users == if fate == Written then w.mem.users[u.id := u] else w.mem.users;
    NoWebhookBeforeLogin(actions, u.id);
    OneMoreLogin(actions, githubID, login, fate);
  }

  lemma OneMoreLogin(actions: seq<Action>, githubID: Int64, login: string, fate: Fate)
    ensures var more := actions + [Login(githubID, login, fate)];
            forall id ::
              && LastWebhook(more, id) == LastWebhook(actions, id)
              && LastLogin(more, id) == if fate == Written && id == UserID(githubID) then Some(login)
                                        else LastLogin(actions, id)
  {
    assert (actions + [Login(githubID, login, fate)])[..|actions|] == actions;
  }

  lemma WebhookFollows(w: World, actions: seq<Action>, userID: string, url: string, fate: Fate)
    requires Persisted(w) && UsersFollow(w.mem.users, actions)
    ensures UsersFollow(AfterSetWebhook(w, userID, url, fate).mem.users, actions + [SetWebhook(userID, url, fate)])
  {
    var mem := AfterSetWebhook(w, userID, url, fate).mem;
    if userID in w.mem.users {
      SavePersisted(w, w.mem.users[userID].(webhookURL := url), fate);
      assert mem.users == if fate == Written then w.mem.users[userID := w.mem.users[userID].(webhookURL := url)]
                          else w.mem.users;
    }
    OneMoreWebhook(actions, userID, url, fate);
  }

  lemma OneMoreWebhook(actions: seq<Action>, userID: string, url: string, fate: Fate)
    ensures var more := actions + [SetWebhook(userID, url, fate)];
            forall id ::
              && LastLogin(more, id) == LastLogin(actions, id)
              && LastWebhook(more, id) == if fate == Written && userID == id && LastLogin(actions, id).Some? then url
                                          else LastWebhook(actions, id)
  {
    assert (actions + [SetWebhook(userID, url, fate)])[..|actions|] == actions;
  }

  lemma OthersFollow(w: World, actions: seq<Action>, a: Action)
    requires Persisted(w) && Synced(w) && UsersFollow(w.mem.users, actions) && !a.Login? && !a.SetWebhook?
    ensures UsersFollow(After(w, a).mem.users, actions + [a])
  {
    var more := actions + [a];
    assert more[..|actions|] == actions;
    assert After(w, a).mem.users == w.mem.users;
  }

  /** Over any run in which failed writes write nothing, restarts included. */
  lemma {:induction false} UsersFollowActions(actions: seq<Action>)
    requires forall i :: 0 <= i < |actions| ==> !Landing(actions[i])
    ensures UsersFollow(Run(actions).mem.users, actions)
  {
    if actions != [] {
      var front, a := actions[..|actions| - 1], actions[|actions| - 1];
      UsersFollowActions(front);
      RunPersisted(front);
      assert actions == front + [a];
      match a {
        case Login(githubID, login, fate) => LoginFollows(Run(front), front, githubID, login, fate);
        case SetWebhook(userID, url, fate) => WebhookFollows(Run(front), front, userID, url, fate);
        case _ => OthersFollow(Run(front), front, a);
      }
    }
  }

  /** A verification of the pair was saved, for a user known by then. */
  ghost predicate EverVerified(actions: seq<Action>, v: Verification) {
    actions != [] &&
    var front, a := actions[..|actions| - 1], actions[|actions| - 1];
    (a == Verify(v, Written) && LastLogin(front, v.ownerID).Some?) || EverVerified(front, v)
  }

  lemma VerificationNext(w: World, a: Action, v: Verification)
    requires Persisted(w) && Synced(w) && !Landing(a)
    ensures v in After(w, a).mem.verified <==>
              v in w.mem.verified || (a == Verify(v, Written) && v.ownerID in w.mem.users)
  {
  }

  /** Memory's verifications are those that were saved. */
  lemma {:induction false} VerificationsFollowActions(actions: seq<Action>, v: Verification)
    requires forall i :: 0 <= i < |actions| ==> !Landing(actions[i])
    ensures v in Run(actions).mem.verified <==> EverVerified(actions, v)
  {
    if actions != [] {
      var front, a := actions[..|actions| - 1], actions[|actions| - 1];
      VerificationsFollowActions(front, v);
      UsersFollowActions(front);
      RunPersisted(front);
      VerificationNext(Run(front), a, v);
    }
  }

  /** The session's row is as it was written, or gone because it has expired. */
  ghost predicate RowKept(sessions: Sessions, hash: string, s: SessionRow, now: Time) {
    if hash in sessions then sessions[hash] == s else s.expiresAt <= now
  }

  /** In memory and in the database; and its user is known. */
  ghost predicate SessionKept(w: World, hash: string, s: SessionRow) {
    RowKept(w.mem.sessions, hash, s, w.now) && RowKept(w.db.sessions, hash, s, w.now) && s.userID in w.mem.users
  }

  predicate Reopens(a: Action, hash: string) {
    a.OpenSession? && a.hash == hash
  }

  lemma UserStays(w: World, a: Action, id: string)
    requires Persisted(w) && id in w.mem.users
    ensures id in After(w, a).mem.users
  {
    match a {
      case Login(githubID, login, fate) =>
        LoggedInKeyed(w.mem, githubID, login);
        SavePersisted(w, LoggedIn(w.mem, githubID, login), fate);
      case SetWebhook(userID, url, fate) =>
        if userID in w.mem.users {
          SavePersisted(w, w.mem.users[userID].(webhookURL := url), fate);
        }
      case _ =>
    }
  }

  lemma SavingKeepsSessions(w: World, u: UserRow, fate: Fate)
    ensures var w' := SaveThrough(w, u, fate);
            w'.mem.sessions == w.mem.sessions && w'.db.sessions == w.db.sessions && w'.now == w.now
  {
  }

  lemma RowsNext(w: World, a: Action, hash: string, s: SessionRow)
    requires SessionKept(w, hash, s) && !Reopens(a, hash)
    ensures RowKept(After(w, a).mem.sessions, hash, s, After(w, a).now)
    ensures RowKept(After(w, a).db.sessions, hash, s, After(w, a).now)
  {
    match a {
      case Login(githubID, login, fate) => SavingKeepsSessions(w, LoggedIn(w.mem, githubID, login), fate);
      case SetWebhook(userID, url, fate) =>
        if userID in w.mem.users {
          SavingKeepsSessions(w, w.mem.users[userID].(webhookURL := url), fate);
        }
      case _ =>
    }
  }

  lemma SessionNext(w: World, a: Action, hash: string, s: SessionRow)
    requires Persisted(w) && SessionKept(w, hash, s) && !Reopens(a, hash)
    ensures SessionKept(After(w, a), hash, s)
  {
    RowsNext(w, a, hash, s);
    UserStays(w, a, s.userID);
  }

  lemma RunUpTo(actions: seq<Action>, n: nat)
    requires 0 < n <= |actions|
    ensures Run(actions[..n]) == After(Run(actions[..n - 1]), actions[n - 1])
  {
    assert actions[..n][..n - 1] == actions[..n - 1];
  }

  lemma {:induction false} SessionStays(actions: seq<Action>, i: nat, n: nat, hash: string, s: SessionRow)
    requires i < n <= |actions| && SessionKept(Run(actions[..i + 1]), hash, s)
    requires forall j :: i < j < n ==> !Reopens(actions[j], hash)
    ensures SessionKept(Run(actions[..n]), hash, s)
  {
    if i + 1 < n {
      SessionStays(actions, i, n - 1, hash, s);
      RunUpTo(actions, n);
      RunPersisted(actions[..n - 1]);
      SessionNext(Run(actions[..n - 1]), actions[n - 1], hash, s);
    }
  }

  lemma SessionOpens(w: World, userID: string, hash: string)
    requires Persisted(w) && userID in w.mem.users && hash !in w.db.sessions
    ensures SessionKept(AfterOpenSession(w, userID, hash, Written), hash, SessionRow(userID, w.now + SESSION_TTL))
  {
  }

  lemma KeptResolves(w: World, hash: string, s: SessionRow, t: Time)
    requires Persisted(w) && SessionKept(w, hash, s) && w.now <= t
    ensures Resolve(w.mem, hash, t).Some? <==> t < s.expiresAt
    ensures Resolve(w.mem, hash, t).Some? ==> Resolve(w.mem, hash, t).value.id == s.userID
  {
  }

  lemma ThirtyDays()
    ensures SESSION_TTL == 2_592_000_000_000_000
  {
  }

  lemma OpenedAt(actions: seq<Action>, i: nat, userID: string, hash: string, w: World)
    requires i < |actions| && actions[i] == OpenSession(userID, hash, Written) && w == Run(actions[..i])
    requires userID in w.mem.users && hash !in w.db.sessions
    ensures SessionKept(Run(actions[..i + 1]), hash, SessionRow(userID, w.now + SESSION_TTL))
  {
    RunPersisted(actions[..i]);
    RunUpTo(actions, i + 1);
    SessionOpens(w, userID, hash);
  }

  lemma IssuedAt(actions: seq<Action>, i: nat, userID: string, hash: string)
    requires i < |actions| && actions[i] == OpenSession(userID, hash, Written)
    requires userID in Run(actions[..i]).mem.users && hash !in Run(actions[..i]).db.sessions
    requires forall j :: i < j < |actions| ==> !Reopens(actions[j], hash)
    ensures SessionKept(Run(actions), hash, SessionRow(userID, Run(actions[..i]).now + SESSION_TTL))
  {
    var w := Run(actions[..i]);
    OpenedAt(actions, i, userID, hash, w);
    SessionStays(actions, i, |actions|, hash, SessionRow(userID, w.now + SESSION_TTL));
    assert actions[..|actions|] == actions;
  }

  /** A session that was issued to a known user works for thirty days, to the nanosecond, through restarts and whatever
      becomes of other writes, and not from then on. */
  lemma SessionsLiveThirtyDays(actions: seq<Action>, i: nat, userID: string, hash: string, t: Time)
    requires i < |actions| && actions[i] == OpenSession(userID, hash, Written)
    requires var w := Run(actions[..i]);
             userID in w.mem.users && hash !in w.db.sessions
    requires forall j :: i < j < |actions| ==> !Reopens(actions[j], hash)
    requires Run(actions).now <= t
    ensures Resolve(Run(actions).mem, hash, t).Some? <==> t < Run(actions[..i]).now + 2_592_000_000_000_000
    ensures Resolve(Run(actions).mem, hash, t).Some? ==> Resolve(Run(actions).mem, hash, t).value.id == userID
  {
    IssuedAt(actions, i, userID, hash);
    RunPersisted(actions);
    KeptResolves(Run(actions), hash, SessionRow(userID, Run(actions[..i]).now + SESSION_TTL), t);
    ThirtyDays();
  }
}
