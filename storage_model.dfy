/**
 * What each operation of the storage layer (`DatabaseStorage` in server/storage.ts) does to the
 * database, as a function from the database before to the database after and the value returned.
 *
 * The clock is a parameter: `now` is the time of the call and `dayStart` the local midnight that
 * starts its day (`dayStart <= now` wherever the two meet). A write that Postgres rejects because
 * a foreign key names no row throws in the source; here it is `Err(ForeignKeyViolation)` and
 * nothing is written.
 */
module StorageModel {
  import opened Wrappers
  import opened Query
  import opened Text
  import opened Schema

  datatype DbError = ForeignKeyViolation | UniqueViolation

  /** The database after an insert, and the row the insert returned. */
  datatype Inserted<T> = Inserted(db: Db, row: T)

  /** The figures of the admin dashboard (the revenue figure is not part of this model). */
  datatype Stats = Stats(totalUsers: int, vipUsers: int, todayCalls: int)

  // ---------------------------------------------------------------------------------------------
  // Lookups by primary key (`const [row] = await db.select()...where(eq(table.id, id))`)

  function GetUser(db: Db, id: string): (r: Option<User>)
    ensures r.Some? ==> r.value in db.users && r.value.id == id
    ensures r.None? <==> id !in UserIds(db)
  {
    FirstWhere(db.users, (u: User) => u.id == id)
  }

  function GetModelById(db: Db, id: int): (r: Option<AiModel>)
    ensures r.Some? ==> r.value in db.models && r.value.id == id
    ensures r.None? <==> id !in ModelIds(db)
  {
    FirstWhere(db.models, (m: AiModel) => m.id == id)
  }

  function GetConversationById(db: Db, id: int): (r: Option<Conversation>)
    ensures r.Some? ==> r.value in db.conversations && r.value.id == id
    ensures r.None? <==> id !in ConversationIds(db)
  {
    FirstWhere(db.conversations, (c: Conversation) => c.id == id)
  }

  // ---------------------------------------------------------------------------------------------
  // The daily counter and its midnight rollover

  /** A reset stamp before the start of today is stale; a missing stamp counts as the epoch. */
  predicate IsStale(u: User, dayStart: Timestamp) {
    u.lastUsageReset.GetOr(0) < dayStart
  }

  /** The calls a user has made today: the stored counter, read as zero once its stamp is stale. */
  function EffectiveUsage(u: User, dayStart: Timestamp): int {
    if IsStale(u, dayStart) then 0 else u.dailyUsage
  }

  /** The row `incrementUsage` looks for: this user's and model's statistics dated today. */
  function FindTodayStat(db: Db, userId: string, modelId: int, dayStart: Timestamp): Option<UsageStat> {
    FirstWhere(db.usageStats,
               (s: UsageStat) => s.userId == userId && s.modelId == modelId && s.date >= dayStart)
  }

  /** First half of `incrementUsage`: bump today's (user, model) statistics row, or start one. */
  function RecordModelUse(db: Db, userId: string, modelId: int, dayStart: Timestamp, now: Timestamp)
    : Result<Db, DbError>
  {
    match FindTodayStat(db, userId, modelId, dayStart)
    case Some(e) =>
      Ok(db.(usageStats := UpdateWhere(db.usageStats, (s: UsageStat) => s.id == e.id,
                                       (s: UsageStat) => s.(requestCount := e.requestCount + 1))))
    case None =>
      if userId in UserIds(db) && modelId in ModelIds(db) then
        Ok(db.(usageStats := db.usageStats + [UsageStatRow(db.next.usageStat, userId, modelId, now)],
               next := db.next.(usageStat := db.next.usageStat + 1)))
      else
        Err(ForeignKeyViolation)
  }

  /** The user's counter as `incrementUsage` rewrites it: restarted at 1 if stale, else one more. */
  function Counted(u: User, dayStart: Timestamp, now: Timestamp): User {
    if IsStale(u, dayStart) then u.(dailyUsage := 1, lastUsageReset := Some(now))
    else u.(dailyUsage := u.dailyUsage + 1)
  }

  /** Second half of `incrementUsage`: the user's daily counter, if the user exists. */
  function CountUserCall(db: Db, userId: string, dayStart: Timestamp, now: Timestamp): Db {
    match GetUser(db, userId)
    case None => db
    case Some(u) =>
      var c := Counted(u, dayStart, now);
      db.(users := UpdateWhere(db.users, (x: User) => x.id == userId,
                               (x: User) => x.(dailyUsage := c.dailyUsage, lastUsageReset := c.lastUsageReset)))
  }

  /**
   * `incrementUsage(userId, modelId)`. When today's row for (user, model) exists it gains one
   * request and nothing is inserted; otherwise one row with count 1, dated now, is appended (and
   * the insert fails on its foreign keys when the user or the model does not exist). Only the
   * `usage_stats` and `users` tables change.
   */
  function IncrementUsage(db: Db, userId: string, modelId: int, dayStart: Timestamp, now: Timestamp)
    : (r: Result<Db, DbError>)
    ensures FindTodayStat(db, userId, modelId, dayStart).Some? ==>
              var e := FindTodayStat(db, userId, modelId, dayStart).value;
              && r.Ok?
              && |r.value.usageStats| == |db.usageStats|
              && r.value.next == db.next
              && forall i :: 0 <= i < |db.usageStats| ==>
                   r.value.usageStats[i] ==
                     if db.usageStats[i].id == e.id
                     then db.usageStats[i].(requestCount := e.requestCount + 1)
                     else db.usageStats[i]
    ensures FindTodayStat(db, userId, modelId, dayStart).None? ==>
              if userId in UserIds(db) && modelId in ModelIds(db) then
                && r.Ok?
                && r.value.usageStats == db.usageStats + [UsageStat(db.next.usageStat, userId, modelId, now, 1)]
                && r.value.next.usageStat == db.next.usageStat + 1
              else r == Err(ForeignKeyViolation)
    ensures r.Ok? && userId !in UserIds(db) ==> r.value.users == db.users
    ensures r.Ok? ==> r.value == db.(users := r.value.users, usageStats := r.value.usageStats,
                                      next := db.next.(usageStat := r.value.next.usageStat))
  {
    match RecordModelUse(db, userId, modelId, dayStart, now)
    case Err(e) => Err(e)
    case Ok(db1) => Ok(CountUserCall(db1, userId, dayStart, now))
  }

  /** Updating user rows without touching their ids finds the same rows by id. */
  lemma UserUpdateLookup(db: Db, p: User -> bool, f: User -> User, id: string)
    requires forall x :: p(x) ==> f(x).id == x.id
    ensures GetUser(db.(users := UpdateWhere(db.users, p, f)), id) ==
            match GetUser(db, id)
            case None => None
            case Some(v) => Some(if p(v) then f(v) else v)
  {
    FirstWhereAfterUpdate(db.users, p, f, (u: User) => u.id == id);
  }

  /**
   * The user's side of `incrementUsage`: a stale counter restarts at 1 with the stamp set to now,
   * a current one gains 1 with the stamp kept, and either way today's effective count rises by
   * exactly one. Other users are untouched.
   */
  lemma IncrementUsageCountsCall(db: Db, userId: string, modelId: int, dayStart: Timestamp,
                                 now: Timestamp, other: string)
    requires dayStart <= now
    requires IncrementUsage(db, userId, modelId, dayStart, now).Ok?
    ensures var db' := IncrementUsage(db, userId, modelId, dayStart, now).value;
            match GetUser(db, userId)
            case None => GetUser(db', userId).None?
            case Some(u) =>
              && GetUser(db', userId) == Some(Counted(u, dayStart, now))
              && (IsStale(u, dayStart) ==> Counted(u, dayStart, now).dailyUsage == 1
                                            && Counted(u, dayStart, now).lastUsageReset == Some(now))
              && (!IsStale(u, dayStart) ==> Counted(u, dayStart, now).dailyUsage == u.dailyUsage + 1
                                             && Counted(u, dayStart, now).lastUsageReset == u.lastUsageReset)
              && EffectiveUsage(Counted(u, dayStart, now), dayStart) == EffectiveUsage(u, dayStart) + 1
              && Counted(u, dayStart, now).role == u.role
    ensures other != userId ==>
              GetUser(IncrementUsage(db, userId, modelId, dayStart, now).value, other) == GetUser(db, other)
  {
    var db1 := RecordModelUse(db, userId, modelId, dayStart, now).value;
    assert db1.users == db.users;
    match GetUser(db1, userId)
    case None =>
    case Some(u) =>
      var c := Counted(u, dayStart, now);
      UserUpdateLookup(db1, (x: User) => x.id == userId,
                       (x: User) => x.(dailyUsage := c.dailyUsage, lastUsageReset := c.lastUsageReset), userId);
      UserUpdateLookup(db1, (x: User) => x.id == userId,
                       (x: User) => x.(dailyUsage := c.dailyUsage, lastUsageReset := c.lastUsageReset), other);
  }

  /** The calls counted today across all users and models, as the admin statistics sum them. */
  function TodayCalls(db: Db, dayStart: Timestamp): int {
    SumOf(db.usageStats, (s: UsageStat) => if s.date >= dayStart then s.requestCount else 0)
  }

  /** Changing one row's contribution by `d` changes the sum by `d`. */
  lemma {:induction false} SumOfPointChange(s: seq<UsageStat>, t: seq<UsageStat>, f: UsageStat -> int, k: nat, d: int)
    requires |s| == |t| && k < |s|
    requires forall i :: 0 <= i < |s| && i != k ==> s[i] == t[i]
    requires f(t[k]) == f(s[k]) + d
    ensures SumOf(t, f) == SumOf(s, f) + d
    decreases |s|
  {
    var n := |s| - 1;
    if k < n {
      SumOfPointChange(s[..n], t[..n], f, k, d);
    } else {
      assert s[..n] == t[..n];
    }
  }

  /** Bumping today's existing row adds one to the calls of today. */
  lemma BumpAddsTodayCall(db: Db, userId: string, modelId: int, dayStart: Timestamp, now: Timestamp)
    requires SerialsAhead(db)
    requires FindTodayStat(db, userId, modelId, dayStart).Some?
    ensures TodayCalls(RecordModelUse(db, userId, modelId, dayStart, now).value, dayStart) == TodayCalls(db, dayStart) + 1
  {
    var db1 := RecordModelUse(db, userId, modelId, dayStart, now).value;
    var f := (s: UsageStat) => if s.date >= dayStart then s.requestCount else 0;
    var e := FindTodayStat(db, userId, modelId, dayStart).value;
    var k :| 0 <= k < |db.usageStats| && db.usageStats[k] == e;
    forall i | 0 <= i < |db.usageStats| && i != k ensures db.usageStats[i].id != e.id {
      if i < k {
        assert StatId(db.usageStats[i]) < StatId(db.usageStats[k]);
      } else {
        assert StatId(db.usageStats[k]) < StatId(db.usageStats[i]);
      }
    }
    SumOfPointChange(db.usageStats, db1.usageStats, f, k, 1);
  }

  /** Inserting today's first row for the pair, dated now, adds one to the calls of today. */
  lemma InsertAddsTodayCall(db: Db, userId: string, modelId: int, dayStart: Timestamp, now: Timestamp)
    requires dayStart <= now
    requires FindTodayStat(db, userId, modelId, dayStart).None?
    requires RecordModelUse(db, userId, modelId, dayStart, now).Ok?
    ensures TodayCalls(RecordModelUse(db, userId, modelId, dayStart, now).value, dayStart) == TodayCalls(db, dayStart) + 1
  {
    var f := (s: UsageStat) => if s.date >= dayStart then s.requestCount else 0;
    SumOfAppend(db.usageStats, UsageStat(db.next.usageStat, userId, modelId, now, 1), f);
  }

  /** Every successful `incrementUsage` adds exactly one to the dashboard's calls of today. */
  lemma IncrementUsageAddsTodayCall(db: Db, userId: string, modelId: int, dayStart: Timestamp, now: Timestamp)
    requires SerialsAhead(db) && dayStart <= now
    requires IncrementUsage(db, userId, modelId, dayStart, now).Ok?
    ensures TodayCalls(IncrementUsage(db, userId, modelId, dayStart, now).value, dayStart)
            == TodayCalls(db, dayStart) + 1
  {
    var db1 := RecordModelUse(db, userId, modelId, dayStart, now).value;
    assert IncrementUsage(db, userId, modelId, dayStart, now).value.usageStats == db1.usageStats;
    if FindTodayStat(db, userId, modelId, dayStart).Some? {
      BumpAddsTodayCall(db, userId, modelId, dayStart, now);
    } else {
      InsertAddsTodayCall(db, userId, modelId, dayStart, now);
    }
  }

  /** An `UPDATE users` that keeps every row's id keeps every table but `users`, and every user id. */
  lemma UserUpdateKeepsIds(db: Db, p: User -> bool, f: User -> User)
    requires forall x :: p(x) ==> f(x).id == x.id
    ensures var r := db.(users := UpdateWhere(db.users, p, f));
            UserIds(r) == UserIds(db)
  {
    var r := db.(users := UpdateWhere(db.users, p, f));
    forall id | id in UserIds(db) ensures id in UserIds(r) {
      var i :| 0 <= i < |db.users| && db.users[i].id == id;
      assert r.users[i] in r.users;
    }
    forall id | id in UserIds(r) ensures id in UserIds(db) {
      var i :| 0 <= i < |r.users| && r.users[i].id == id;
      assert db.users[i] in db.users;
    }
  }

  lemma CountUserCallKeepsIds(db: Db, userId: string, dayStart: Timestamp, now: Timestamp)
    ensures var r := CountUserCall(db, userId, dayStart, now);
            r == db.(users := r.users) && UserIds(r) == UserIds(db)
  {
    match GetUser(db, userId)
    case None =>
    case Some(u) =>
      var c := Counted(u, dayStart, now);
      UserUpdateKeepsIds(db, (x: User) => x.id == userId,
                         (x: User) => x.(dailyUsage := c.dailyUsage, lastUsageReset := c.lastUsageReset));
  }

  lemma CountUserCallKeepsKeys(db: Db, userId: string, dayStart: Timestamp, now: Timestamp)
    requires Unique(db.users, UserKey) && Unique(db.users, EmailKey)
    ensures var r := CountUserCall(db, userId, dayStart, now);
            Unique(r.users, UserKey) && Unique(r.users, EmailKey)
  {
    match GetUser(db, userId)
    case None =>
    case Some(u) =>
      var c := Counted(u, dayStart, now);
      UserUpdateKeepsKeys(db, (x: User) => x.id == userId,
                          (x: User) => x.(dailyUsage := c.dailyUsage, lastUsageReset := c.lastUsageReset));
  }

  /**
   * A database that differs from an intact one only in its `users` rows (with the same ids), its
   * `usage_stats` rows and the `usage_stats` serial is intact when those rows resolve and ascend.
   */
  lemma StatsChangeKeepsIntact(db: Db, db': Db)
    requires Intact(db)
    requires db' == db.(users := db'.users, usageStats := db'.usageStats,
                        next := db.next.(usageStat := db'.next.usageStat))
    requires UserIds(db') == UserIds(db)
    requires forall s :: s in db'.usageStats ==>
               s.userId in UserIds(db) && s.modelId in ModelIds(db) && s.id < db'.next.usageStat
    requires Ascending(db'.usageStats, StatId)
    requires Unique(db'.users, UserKey) && Unique(db'.users, EmailKey)
    ensures Intact(db')
  {
  }

  /** An `UPDATE users` that rewrites neither the id nor the e-mail keeps both unique. */
  lemma UserUpdateKeepsKeys(db: Db, p: User -> bool, f: User -> User)
    requires Unique(db.users, UserKey) && Unique(db.users, EmailKey)
    requires forall x :: p(x) ==> f(x).id == x.id && f(x).email == x.email
    ensures Unique(UpdateWhere(db.users, p, f), UserKey) && Unique(UpdateWhere(db.users, p, f), EmailKey)
  {
    UpdateWhereKeepsUnique(db.users, p, f, UserKey);
    UpdateWhereKeepsUnique(db.users, p, f, EmailKey);
  }

  /** Two versions of `usage_stats` whose rows agree on everything but their request counts. */
  predicate SameStatKeys(t: seq<UsageStat>, t': seq<UsageStat>) {
    |t'| == |t| &&
    forall i :: 0 <= i < |t| ==>
      t'[i].id == t[i].id && t'[i].userId == t[i].userId && t'[i].modelId == t[i].modelId
  }

  /** Rows that resolve, stay below a bound and ascend keep doing so when only their counts change. */
  lemma SameStatKeysKeepIntact(t: seq<UsageStat>, t': seq<UsageStat>, users: set<string>, models: set<int>, bound: int)
    requires SameStatKeys(t, t')
    requires forall s :: s in t ==> s.userId in users && s.modelId in models && s.id < bound
    requires Ascending(t, StatId)
    ensures forall s :: s in t' ==> s.userId in users && s.modelId in models && s.id < bound
    ensures Ascending(t', StatId)
  {
    forall s | s in t' ensures s.userId in users && s.modelId in models && s.id < bound {
      var i :| 0 <= i < |t'| && t'[i] == s;
      assert t[i] in t;
    }
    forall i, j | 0 <= i < j < |t'| ensures StatId(t'[i]) < StatId(t'[j]) {
      assert StatId(t[i]) < StatId(t[j]);
    }
  }

  /** Appending a row whose id is above every existing one keeps the ids ascending. */
  lemma AppendAboveKeepsAscending(t: seq<UsageStat>, x: UsageStat)
    requires Ascending(t, StatId)
    requires forall s :: s in t ==> s.id < x.id
    ensures Ascending(t + [x], StatId)
  {
    var t' := t + [x];
    forall i, j | 0 <= i < j < |t'| ensures StatId(t'[i]) < StatId(t'[j]) {
      if j < |t| {
        assert StatId(t[i]) < StatId(t[j]);
      } else {
        assert t[i] in t;
      }
    }
  }

  /** Recording a model use keeps every foreign key resolved and every serial ahead. */
  lemma RecordModelUseKeepsIntact(db: Db, userId: string, modelId: int, dayStart: Timestamp, now: Timestamp)
    requires Intact(db)
    requires RecordModelUse(db, userId, modelId, dayStart, now).Ok?
    ensures Intact(RecordModelUse(db, userId, modelId, dayStart, now).value)
  {
    var db' := RecordModelUse(db, userId, modelId, dayStart, now).value;
    match FindTodayStat(db, userId, modelId, dayStart)
    case Some(e) =>
      assert SameStatKeys(db.usageStats, db'.usageStats);
      SameStatKeysKeepIntact(db.usageStats, db'.usageStats, UserIds(db), ModelIds(db), db.next.usageStat);
      StatsChangeKeepsIntact(db, db');
    case None =>
      AppendAboveKeepsAscending(db.usageStats, UsageStat(db.next.usageStat, userId, modelId, now, 1));
      StatsChangeKeepsIntact(db, db');
  }

  /** A successful `incrementUsage` keeps every foreign key resolved and every serial ahead. */
  lemma IncrementUsageKeepsIntact(db: Db, userId: string, modelId: int, dayStart: Timestamp, now: Timestamp)
    requires Intact(db)
    requires IncrementUsage(db, userId, modelId, dayStart, now).Ok?
    ensures Intact(IncrementUsage(db, userId, modelId, dayStart, now).value)
  {
    RecordModelUseKeepsIntact(db, userId, modelId, dayStart, now);
    var db1 := RecordModelUse(db, userId, modelId, dayStart, now).value;
    CountUserCallKeepsIds(db1, userId, dayStart, now);
    CountUserCallKeepsKeys(db1, userId, dayStart, now);
    StatsChangeKeepsIntact(db1, CountUserCall(db1, userId, dayStart, now));
  }

  // ---------------------------------------------------------------------------------------------
  // Reading the daily counter

  /** `resetDailyUsage(userId)`: the counter back to zero, stamped now. */
  function ResetDailyUsage(db: Db, userId: string, now: Timestamp): Db {
    db.(users := UpdateWhere(db.users, (x: User) => x.id == userId,
                             (x: User) => x.(dailyUsage := 0, lastUsageReset := Some(now))))
  }

  /**
   * `getUserDailyUsage(userId)`: today's count of calls, 0 for a missing user. Reading a stale
   * counter writes the reset (counter 0, stamp now) as a side effect; a current one is returned as
   * stored with no write.
   */
  function GetUserDailyUsage(db: Db, userId: string, dayStart: Timestamp, now: Timestamp): (r: (Db, int))
    ensures r.1 == match GetUser(db, userId) case None => 0 case Some(u) => EffectiveUsage(u, dayStart)
    ensures GetUser(db, userId).None? ==> r.0 == db
    ensures GetUser(db, userId).Some? && !IsStale(GetUser(db, userId).value, dayStart) ==> r.0 == db
    ensures GetUser(db, userId).Some? && IsStale(GetUser(db, userId).value, dayStart) ==>
              r.0 == ResetDailyUsage(db, userId, now)
  {
    match GetUser(db, userId)
    case None => (db, 0)
    case Some(u) =>
      if IsStale(u, dayStart) then (ResetDailyUsage(db, userId, now), 0) else (db, u.dailyUsage)
  }

  /**
   * The reset written by a read keeps today's effective count, leaves the stamp current and
   * changes nothing but the user's counter and stamp.
   */
  lemma DailyUsageReadKeepsCount(db: Db, userId: string, dayStart: Timestamp, now: Timestamp, other: string)
    requires dayStart <= now
    ensures var (db', n) := GetUserDailyUsage(db, userId, dayStart, now);
            && db' == db.(users := db'.users)
            && UserIds(db') == UserIds(db)
            && match GetUser(db, userId)
               case None => db' == db
               case Some(u) =>
                 && GetUser(db', userId).Some?
                 && !IsStale(GetUser(db', userId).value, dayStart)
                 && EffectiveUsage(GetUser(db', userId).value, dayStart) == n
                 && GetUser(db', userId).value == u.(dailyUsage := GetUser(db', userId).value.dailyUsage,
                                                     lastUsageReset := GetUser(db', userId).value.lastUsageReset)
    ensures other != userId ==> GetUser(GetUserDailyUsage(db, userId, dayStart, now).0, other) == GetUser(db, other)
  {
    var p := (x: User) => x.id == userId;
    var f := (x: User) => x.(dailyUsage := 0, lastUsageReset := Some(now));
    UserUpdateLookup(db, p, f, userId);
    UserUpdateLookup(db, p, f, other);
    var db' := GetUserDailyUsage(db, userId, dayStart, now).0;
    forall id | id in UserIds(db) ensures id in UserIds(db') {
      UserUpdateLookup(db, p, f, id);
    }
    forall id | id in UserIds(db') ensures id in UserIds(db) {
      UserUpdateLookup(db, p, f, id);
    }
  }

  /**
   * Reading the counter twice on the same day gives the same value, and the second read writes
   * nothing: after the first read the stamp is not before today.
   */
  lemma DailyUsageReadTwice(db: Db, userId: string, dayStart: Timestamp, now: Timestamp, later: Timestamp)
    requires dayStart <= now
    ensures var (db1, n1) := GetUserDailyUsage(db, userId, dayStart, now);
            GetUserDailyUsage(db1, userId, dayStart, later) == (db1, n1)
  {
    DailyUsageReadKeepsCount(db, userId, dayStart, now, userId);
  }

  /** `resetDailyUsage` (and so a reading of the counter) keeps the database intact. */
  lemma ResetKeepsIntact(db: Db, userId: string, now: Timestamp)
    requires Intact(db)
    ensures Intact(ResetDailyUsage(db, userId, now))
  {
    UserUpdateKeepsIds(db, (x: User) => x.id == userId, (x: User) => x.(dailyUsage := 0, lastUsageReset := Some(now)));
    UserUpdateKeepsKeys(db, (x: User) => x.id == userId, (x: User) => x.(dailyUsage := 0, lastUsageReset := Some(now)));
    StatsChangeKeepsIntact(db, ResetDailyUsage(db, userId, now));
  }

  // ---------------------------------------------------------------------------------------------
  // Signing in

  /** Another user already holds the (non-null) e-mail address: the `unique` constraint rejects it. */
  predicate EmailTaken(db: Db, id: string, email: Option<string>) {
    email.Some? && exists u :: u in db.users && u.id != id && u.email == email
  }

  /**
   * `upsertUser(user)`: a new id is inserted with the column defaults; an existing id has its
   * profile columns overwritten and `updatedAt` stamped, and keeps its role, VIP expiry, counter,
   * stamp and creation time. Either way the statement fails when another user holds the e-mail.
   */
  function UpsertUser(db: Db, n: NewUser, now: Timestamp): (r: Result<Inserted<User>, DbError>)
    ensures r.Err? <==> EmailTaken(db, n.id, n.email)
    ensures r.Ok? ==>
              var row := r.value.row;
              && row.id == n.id && row.email == n.email && row.firstName == n.firstName
              && row.lastName == n.lastName && row.profileImageUrl == n.profileImageUrl
              && row.updatedAt == now
              && r.value.db == db.(users := r.value.db.users)
    ensures r.Ok? && n.id !in UserIds(db) ==>
              r.value.row == UserRow(n, now) && r.value.db.users == db.users + [r.value.row]
    ensures r.Ok? && n.id in UserIds(db) ==>
              var u := GetUser(db, n.id).value;
              && r.value.row.role == u.role && r.value.row.vipExpiresAt == u.vipExpiresAt
              && r.value.row.dailyUsage == u.dailyUsage && r.value.row.lastUsageReset == u.lastUsageReset
              && r.value.row.createdAt == u.createdAt
  {
    if EmailTaken(db, n.id, n.email) then Err(UniqueViolation)
    else
      match GetUser(db, n.id)
      case None =>
        var row := UserRow(n, now);
        Ok(Inserted(db.(users := db.users + [row]), row))
      case Some(u) =>
        Ok(Inserted(db.(users := UpdateWhere(db.users, (x: User) => x.id == n.id, (x: User) => Relogged(x, n, now))),
                    Relogged(u, n, now)))
  }

  /** A signed-in user's row with the profile of `n` and `updatedAt` now. */
  function Relogged(u: User, n: NewUser, now: Timestamp): User {
    u.(email := n.email, firstName := n.firstName, lastName := n.lastName,
       profileImageUrl := n.profileImageUrl, updatedAt := now)
  }

  /** After a successful upsert, looking the id up finds exactly the row the upsert returned. */
  lemma UpsertThenGet(db: Db, n: NewUser, now: Timestamp, other: string)
    requires UpsertUser(db, n, now).Ok?
    ensures GetUser(UpsertUser(db, n, now).value.db, n.id) == Some(UpsertUser(db, n, now).value.row)
    ensures other != n.id ==> GetUser(UpsertUser(db, n, now).value.db, other) == GetUser(db, other)
  {
    match GetUser(db, n.id)
    case None =>
      var row := UserRow(n, now);
      FirstWhereAppend(db.users, row, (u: User) => u.id == n.id);
      FirstWhereAppend(db.users, row, (u: User) => u.id == other);
    case Some(u) =>
      UserUpdateLookup(db, (x: User) => x.id == n.id, (x: User) => Relogged(x, n, now), n.id);
      UserUpdateLookup(db, (x: User) => x.id == n.id, (x: User) => Relogged(x, n, now), other);
  }

  /**
   * An upsert keeps every constraint, the unique e-mail included: that is what its failure case
   * is for. The user ids gain exactly the upserted one.
   */
  lemma UpsertKeepsIntact(db: Db, n: NewUser, now: Timestamp)
    requires Intact(db)
    requires UpsertUser(db, n, now).Ok?
    ensures Intact(UpsertUser(db, n, now).value.db)
    ensures UserIds(UpsertUser(db, n, now).value.db) == UserIds(db) + {n.id}
  {
    var db' := UpsertUser(db, n, now).value.db;
    UpsertKeepsKeys(db, n, now);
    match GetUser(db, n.id)
    case None =>
      assert UserIds(db') == UserIds(db) + {n.id} by {
        assert db'.users[|db.users|] in db'.users;
      }
      UsersChangeKeepsIntact(db, db');
    case Some(u) =>
      UserUpdateKeepsIds(db, (x: User) => x.id == n.id, (x: User) => Relogged(x, n, now));
      UsersChangeKeepsIntact(db, db');
  }

  /** Changing only the `users` rows, keeping every user id and both user keys unique, keeps the database intact. */
  lemma UsersChangeKeepsIntact(db: Db, db': Db)
    requires Intact(db)
    requires db' == db.(users := db'.users)
    requires UserIds(db) <= UserIds(db')
    requires Unique(db'.users, UserKey) && Unique(db'.users, EmailKey)
    ensures Intact(db')
  {
  }

  /** After an upsert no two users share an id or a non-null e-mail. */
  lemma UpsertKeepsKeys(db: Db, n: NewUser, now: Timestamp)
    requires Unique(db.users, UserKey) && Unique(db.users, EmailKey)
    requires UpsertUser(db, n, now).Ok?
    ensures Unique(UpsertUser(db, n, now).value.db.users, UserKey)
    ensures Unique(UpsertUser(db, n, now).value.db.users, EmailKey)
  {
    if GetUser(db, n.id).None? {
      SignUpKeepsKeys(db.users, UserRow(n, now));
    } else {
      ReloginKeepsKeys(db.users, n, now);
    }
  }

  /** Appending a user whose id is new and whose e-mail no one holds keeps both keys unique. */
  lemma SignUpKeepsKeys(s: seq<User>, row: User)
    requires Unique(s, UserKey) && Unique(s, EmailKey)
    requires forall u :: u in s ==> u.id != row.id && (row.email.Some? ==> u.email != row.email)
    ensures Unique(s + [row], UserKey) && Unique(s + [row], EmailKey)
  {
    forall i | 0 <= i < |s| ensures UserKey(s[i]) != UserKey(row) && (EmailKey(row).Some? ==> EmailKey(s[i]) != EmailKey(row)) {
      assert s[i] in s;
    }
    AppendKeepsUnique(s, row, UserKey);
    AppendKeepsUnique(s, row, EmailKey);
  }

  /** Rewriting the profile of the one user with id `n.id` keeps both keys unique when no one else holds its e-mail. */
  lemma ReloginKeepsKeys(s: seq<User>, n: NewUser, now: Timestamp)
    requires Unique(s, UserKey) && Unique(s, EmailKey)
    requires n.email.Some? ==> forall u :: u in s && u.id != n.id ==> u.email != n.email
    ensures var t := UpdateWhere(s, (x: User) => x.id == n.id, (x: User) => Relogged(x, n, now));
            Unique(t, UserKey) && Unique(t, EmailKey)
  {
    var t := UpdateWhere(s, (x: User) => x.id == n.id, (x: User) => Relogged(x, n, now));
    UpdateWhereKeepsUnique(s, (x: User) => x.id == n.id, (x: User) => Relogged(x, n, now), UserKey);
    forall i, j | 0 <= i < j < |t| && EmailKey(t[i]).Some? ensures EmailKey(t[i]) != EmailKey(t[j]) {
      assert s[i] in s && s[j] in s;
      assert UserKey(s[i]) != UserKey(s[j]);
    }
  }

  /** A user signing in for the first time, today, has made no call yet and is a plain user. */
  lemma NewUserStartsAtZero(db: Db, n: NewUser, dayStart: Timestamp, now: Timestamp)
    requires dayStart <= now
    requires n.id !in UserIds(db) && UpsertUser(db, n, now).Ok?
    ensures var u := UpsertUser(db, n, now).value.row;
            && u.role == "user" && u.vipExpiresAt.None? && u.dailyUsage == 0
            && !IsStale(u, dayStart) && EffectiveUsage(u, dayStart) == 0
  {
  }

  // ---------------------------------------------------------------------------------------------
  // Messages, conversations, payments, models

  /** Every row with id `conversationId` gets `updatedAt = now`; the others are kept. */
  function TouchConversation(db: Db, conversationId: int, now: Timestamp): Db {
    db.(conversations := UpdateWhere(db.conversations, (c: Conversation) => c.id == conversationId,
                                     (c: Conversation) => c.(updatedAt := now)))
  }

  /**
   * `addMessage(message)`: the message is appended with the next id and stamped now, and its
   * conversation, alone, gets `updatedAt = now`. The insert fails on its foreign key when the
   * conversation does not exist.
   */
  function AddMessage(db: Db, m: NewMessage, now: Timestamp): (r: Result<Inserted<Message>, DbError>)
    ensures r.Err? <==> m.conversationId !in ConversationIds(db)
    ensures r.Ok? ==>
              var Inserted(db', msg) := r.value;
              && msg == Message(db.next.message, m.conversationId, m.role, m.content, now)
              && db'.messages == db.messages + [msg]
              && db'.next == db.next.(message := db.next.message + 1)
              && |db'.conversations| == |db.conversations|
              && (forall i :: 0 <= i < |db.conversations| ==>
                    db'.conversations[i] == if db.conversations[i].id == m.conversationId
                                            then db.conversations[i].(updatedAt := now)
                                            else db.conversations[i])
              && db' == db.(conversations := db'.conversations, messages := db'.messages, next := db'.next)
  {
    if m.conversationId !in ConversationIds(db) then Err(ForeignKeyViolation)
    else
      var msg := MessageRow(m, db.next.message, now);
      var db1 := db.(messages := db.messages + [msg], next := db.next.(message := db.next.message + 1));
      Ok(Inserted(TouchConversation(db1, m.conversationId, now), msg))
  }

  /** Bumping a conversation's `updatedAt` keeps every conversation findable by id, with its owner and model. */
  lemma TouchKeepsConversation(db: Db, conversationId: int, now: Timestamp, id: int)
    ensures var c' := GetConversationById(TouchConversation(db, conversationId, now), id);
            match GetConversationById(db, id)
            case None => c'.None?
            case Some(c) => c'.Some? && c'.value == c.(updatedAt := c'.value.updatedAt)
  {
    FirstWhereAfterUpdate(db.conversations, (c: Conversation) => c.id == conversationId,
                          (c: Conversation) => c.(updatedAt := now), (c: Conversation) => c.id == id);
  }

  /** Adding a message keeps every conversation findable by id, with its owner and model. */
  lemma AddMessageKeepsConversations(db: Db, m: NewMessage, now: Timestamp, id: int)
    requires AddMessage(db, m, now).Ok?
    ensures var c' := GetConversationById(AddMessage(db, m, now).value.db, id);
            match GetConversationById(db, id)
            case None => c'.None?
            case Some(c) => c'.Some? && c'.value == c.(updatedAt := c'.value.updatedAt)
  {
    var db1 := db.(messages := db.messages + [MessageRow(m, db.next.message, now)],
                   next := db.next.(message := db.next.message + 1));
    TouchKeepsConversation(db1, m.conversationId, now, id);
  }

  /** A message's id is new: no message in the table had it. */
  lemma AddMessageFreshId(db: Db, m: NewMessage, now: Timestamp)
    requires SerialsAhead(db)
    requires AddMessage(db, m, now).Ok?
    ensures forall x :: x in db.messages ==> x.id != AddMessage(db, m, now).value.row.id
  {
  }

  lemma AddMessageKeepsIntact(db: Db, m: NewMessage, now: Timestamp)
    requires Intact(db)
    requires AddMessage(db, m, now).Ok?
    ensures Intact(AddMessage(db, m, now).value.db)
  {
    var msg := MessageRow(m, db.next.message, now);
    var db1 := db.(messages := db.messages + [msg], next := db.next.(message := db.next.message + 1));
    var db' := TouchConversation(db1, m.conversationId, now);
    assert AddMessage(db, m, now).value.db == db';
    assert UserIds(db1) == UserIds(db) && ModelIds(db1) == ModelIds(db);
    TouchKeepsReferences(db1, m.conversationId, now);
    assert ReferencesResolve(db') by {
      forall x | x in db'.messages ensures x.conversationId in ConversationIds(db') {
        if x != msg {
          assert x in db.messages;
        }
      }
    }
    assert SerialsAhead(db') by {
      forall x | x in db'.messages ensures x.id < db'.next.message {
        if x != msg {
          assert x in db.messages;
        }
      }
    }
    AddMessageKeepsKeys(db, m, now);
  }

  /**
   * Touching a conversation keeps every conversation's owner, model and id: the references that
   * resolved still resolve, the ids stay below the sequence, and the set of ids is the same.
   */
  lemma TouchKeepsReferences(db: Db, conversationId: int, now: Timestamp)
    requires forall c :: c in db.conversations ==>
               c.userId in UserIds(db) && c.modelId in ModelIds(db) && c.id < db.next.conversation
    ensures var t := TouchConversation(db, conversationId, now);
            && (forall c :: c in t.conversations ==>
                  c.userId in UserIds(db) && c.modelId in ModelIds(db) && c.id < db.next.conversation)
            && ConversationIds(t) == ConversationIds(db)
  {
    var s := db.conversations;
    var t := TouchConversation(db, conversationId, now);
    forall c | c in t.conversations
      ensures c.userId in UserIds(db) && c.modelId in ModelIds(db) && c.id < db.next.conversation
    {
      var i :| 0 <= i < |t.conversations| && t.conversations[i] == c;
      assert s[i] in s;
    }
    forall id | id in ConversationIds(db) ensures id in ConversationIds(t) {
      var i :| 0 <= i < |s| && s[i].id == id;
      assert t.conversations[i] in t.conversations;
    }
    forall id | id in ConversationIds(t) ensures id in ConversationIds(db) {
      var i :| 0 <= i < |t.conversations| && t.conversations[i].id == id;
      assert s[i] in s;
    }
  }

  /** The new message's id is fresh, and touching a conversation keeps its id. */
  lemma AddMessageKeepsKeys(db: Db, m: NewMessage, now: Timestamp)
    requires SerialsAhead(db) && KeysUnique(db)
    requires AddMessage(db, m, now).Ok?
    ensures KeysUnique(AddMessage(db, m, now).value.db)
  {
    var msg := MessageRow(m, db.next.message, now);
    forall i | 0 <= i < |db.messages| ensures MessageKey(db.messages[i]) != MessageKey(msg) {
      assert db.messages[i] in db.messages;
    }
    AppendKeepsUnique(db.messages, msg, MessageKey);
    UpdateWhereKeepsUnique(db.conversations, (c: Conversation) => c.id == m.conversationId,
                           (c: Conversation) => c.(updatedAt := now), ConversationKey);
  }

  /**
   * `createConversation(conversation)`: appended with the next id and both timestamps now; the
   * insert fails on its foreign keys when the user or the model does not exist.
   */
  function CreateConversation(db: Db, c: NewConversation, now: Timestamp): (r: Result<Inserted<Conversation>, DbError>)
    ensures r.Err? <==> c.userId !in UserIds(db) || c.modelId !in ModelIds(db)
    ensures r.Ok? ==>
              var Inserted(db', row) := r.value;
              && row.id == db.next.conversation && row.userId == c.userId && row.modelId == c.modelId
              && row.title == c.title && row.createdAt == now && row.updatedAt == now
              && db' == db.(conversations := db.conversations + [row],
                            next := db.next.(conversation := db.next.conversation + 1))
  {
    if c.userId !in UserIds(db) || c.modelId !in ModelIds(db) then Err(ForeignKeyViolation)
    else
      var row := ConversationRow(c, db.next.conversation, now);
      Ok(Inserted(db.(conversations := db.conversations + [row],
                      next := db.next.(conversation := db.next.conversation + 1)), row))
  }

  lemma CreateConversationKeepsIntact(db: Db, c: NewConversation, now: Timestamp)
    requires Intact(db)
    requires CreateConversation(db, c, now).Ok?
    ensures Intact(CreateConversation(db, c, now).value.db)
  {
    var db' := CreateConversation(db, c, now).value.db;
    forall m | m in db'.messages ensures m.conversationId in ConversationIds(db') {
      var x :| x in db.conversations && x.id == m.conversationId;
      assert x in db'.conversations;
    }
    var row := CreateConversation(db, c, now).value.row;
    forall i | 0 <= i < |db.conversations| ensures ConversationKey(db.conversations[i]) != ConversationKey(row) {
      assert db.conversations[i] in db.conversations;
    }
    AppendKeepsUnique(db.conversations, row, ConversationKey);
  }

  /**
   * `createPayment(payment)`: appended with the next id, stamped now, with status "pending" unless
   * the caller gave one; the insert fails on its foreign key when the user does not exist.
   */
  function CreatePayment(db: Db, p: NewPayment, now: Timestamp): (r: Result<Inserted<Payment>, DbError>)
    ensures r.Err? <==> p.userId !in UserIds(db)
    ensures r.Ok? ==>
              var Inserted(db', row) := r.value;
              && row.id == db.next.payment && row.userId == p.userId && row.expiresAt == p.expiresAt
              && (p.status.None? ==> row.status == "pending")
              && (p.status.Some? ==> row.status == p.status.value)
              && row.createdAt == now
              && db' == db.(payments := db.payments + [row], next := db.next.(payment := db.next.payment + 1))
  {
    if p.userId !in UserIds(db) then Err(ForeignKeyViolation)
    else
      var row := PaymentRow(p, db.next.payment, now);
      Ok(Inserted(db.(payments := db.payments + [row], next := db.next.(payment := db.next.payment + 1)), row))
  }

  lemma CreatePaymentKeepsIntact(db: Db, p: NewPayment, now: Timestamp)
    requires Intact(db)
    requires CreatePayment(db, p, now).Ok?
    ensures Intact(CreatePayment(db, p, now).value.db)
  {
    var row := CreatePayment(db, p, now).value.row;
    forall i | 0 <= i < |db.payments| ensures PaymentKey(db.payments[i]) != PaymentKey(row) {
      assert db.payments[i] in db.payments;
    }
    AppendKeepsUnique(db.payments, row, PaymentKey);
  }

  /** `updatePaymentStatus(id, status)`. */
  function UpdatePaymentStatus(db: Db, id: int, status: string): (r: Db)
    ensures |r.payments| == |db.payments|
    ensures forall i :: 0 <= i < |db.payments| ==>
              r.payments[i] == if db.payments[i].id == id then db.payments[i].(status := status) else db.payments[i]
    ensures r == db.(payments := r.payments)
  {
    db.(payments := UpdateWhere(db.payments, (p: Payment) => p.id == id, (p: Payment) => p.(status := status)))
  }

  lemma UpdatePaymentStatusKeepsIntact(db: Db, id: int, status: string)
    requires Intact(db)
    ensures Intact(UpdatePaymentStatus(db, id, status))
  {
    var r := UpdatePaymentStatus(db, id, status);
    forall p | p in r.payments ensures p.userId in UserIds(db) && p.id < db.next.payment {
      var i :| 0 <= i < |r.payments| && r.payments[i] == p;
      assert db.payments[i] in db.payments;
    }
    UpdateWhereKeepsUnique(db.payments, (p: Payment) => p.id == id, (p: Payment) => p.(status := status), PaymentKey);
  }

  /**
   * `updateUserRole(userId, role, vipExpiresAt)`: sets the role and `updatedAt`. An absent role or
   * expiry is `undefined`, which the update skips, so the stored value is then kept as it was.
   */
  function UpdateUserRole(db: Db, userId: string, role: Option<string>, vipExpiresAt: Option<Timestamp>, now: Timestamp): (r: Db)
    ensures |r.users| == |db.users|
    ensures forall i :: 0 <= i < |db.users| ==>
              r.users[i] == if db.users[i].id == userId
                            then db.users[i].(role := role.GetOr(db.users[i].role), updatedAt := now,
                                              vipExpiresAt := if vipExpiresAt.Some? then vipExpiresAt
                                                              else db.users[i].vipExpiresAt)
                            else db.users[i]
    ensures r == db.(users := r.users)
  {
    db.(users := UpdateWhere(db.users, (u: User) => u.id == userId,
                             (u: User) => u.(role := role.GetOr(u.role), vipExpiresAt := if vipExpiresAt.Some? then vipExpiresAt
                                                                            else u.vipExpiresAt,
                                             updatedAt := now)))
  }

  /** A role change leaves every user's usage counter and stamp, and every other table, alone. */
  lemma UpdateUserRoleKeepsUsage(db: Db, userId: string, role: Option<string>, vipExpiresAt: Option<Timestamp>,
                                 now: Timestamp, id: string, dayStart: Timestamp)
    ensures var r := GetUser(UpdateUserRole(db, userId, role, vipExpiresAt, now), id);
            match GetUser(db, id)
            case None => r.None?
            case Some(u) =>
              && r.Some?
              && EffectiveUsage(r.value, dayStart) == EffectiveUsage(u, dayStart)
              && (id == userId ==> r.value.role == role.GetOr(u.role))
              && (id != userId ==> r.value == u)
  {
    UserUpdateLookup(db, (u: User) => u.id == userId,
                     (u: User) => u.(role := role.GetOr(u.role), vipExpiresAt := if vipExpiresAt.Some? then vipExpiresAt
                                                                    else u.vipExpiresAt,
                                     updatedAt := now), id);
  }

  lemma UpdateUserRoleKeepsIntact(db: Db, userId: string, role: Option<string>, vipExpiresAt: Option<Timestamp>, now: Timestamp)
    requires Intact(db)
    ensures Intact(UpdateUserRole(db, userId, role, vipExpiresAt, now))
  {
    UserUpdateKeepsIds(db, (u: User) => u.id == userId,
                       (u: User) => u.(role := role.GetOr(u.role), vipExpiresAt := if vipExpiresAt.Some? then vipExpiresAt
                                                                      else u.vipExpiresAt,
                                       updatedAt := now));
    UserUpdateKeepsKeys(db, (u: User) => u.id == userId,
                        (u: User) => u.(role := role.GetOr(u.role), vipExpiresAt := if vipExpiresAt.Some? then vipExpiresAt
                                                                       else u.vipExpiresAt,
                                        updatedAt := now));
    StatsChangeKeepsIntact(db, UpdateUserRole(db, userId, role, vipExpiresAt, now));
  }

  /**
   * `insertModels(models)`: one multi-row insert; each row gets the next id and the column
   * defaults. The query builder throws on an empty list of rows, so there is at least one.
   */
  function InsertModels(db: Db, ms: seq<NewModel>, now: Timestamp): (r: Db)
    requires |ms| > 0
    ensures |r.models| == |db.models| + |ms|
    ensures r.models[..|db.models|] == db.models
    ensures forall i :: 0 <= i < |ms| ==>
              var row := r.models[|db.models| + i];
              && row.id == db.next.model + i && row.name == ms[i].name && row.displayName == ms[i].displayName
              && row.provider == ms[i].provider && row.description == ms[i].description
              && row.accuracy == ms[i].accuracy && row.speed == ms[i].speed
              && row.category == ms[i].category && row.createdAt == now
              && row.isActive == (ms[i].isActive != Some(false))
              && row.requiresVip == (ms[i].requiresVip == Some(true))
    ensures r == db.(models := r.models, next := db.next.(model := db.next.model + |ms|))
  {
    var rows := seq(|ms|, i requires 0 <= i < |ms| => ModelRow(ms[i], db.next.model + i, now));
    db.(models := db.models + rows, next := db.next.(model := db.next.model + |ms|))
  }

  lemma InsertModelsKeepsIntact(db: Db, ms: seq<NewModel>, now: Timestamp)
    requires |ms| > 0 && Intact(db)
    ensures Intact(InsertModels(db, ms, now))
  {
    var r := InsertModels(db, ms, now);
    assert ModelIds(db) <= ModelIds(r) by {
      forall id | id in ModelIds(db) ensures id in ModelIds(r) {
        var i :| 0 <= i < |db.models| && db.models[i].id == id;
        assert r.models[i] in r.models;
      }
    }
    InsertModelsKeepsModelKeys(db, ms, now);
  }

  /** The inserted models take consecutive ids from the sequence, so every id stays unique and below it. */
  lemma InsertModelsKeepsModelKeys(db: Db, ms: seq<NewModel>, now: Timestamp)
    requires |ms| > 0
    requires forall m :: m in db.models ==> m.id < db.next.model
    requires Unique(db.models, ModelKey)
    ensures var r := InsertModels(db, ms, now);
            && (forall m :: m in r.models ==> m.id < r.next.model)
            && Unique(r.models, ModelKey)
  {
    var r := InsertModels(db, ms, now);
    var n := |db.models|;
    assert r.models == db.models + r.models[n..];
    ConsecutiveIdsKeepKeys(db.models, r.models[n..], db.next.model);
  }

  /** Rows whose ids count up from a sequence value lying above every existing id keep the ids unique. */
  lemma ConsecutiveIdsKeepKeys(rows: seq<AiModel>, added: seq<AiModel>, next: int)
    requires forall m :: m in rows ==> m.id < next
    requires Unique(rows, ModelKey)
    requires forall k :: 0 <= k < |added| ==> added[k].id == next + k
    ensures forall m :: m in rows + added ==> m.id < next + |added|
    ensures Unique(rows + added, ModelKey)
  {
    var s := rows + added;
    forall m | m in s ensures m.id < next + |added| {
      if m !in rows {
        var k :| 0 <= k < |added| && added[k] == m;
      }
    }
    forall i, j | 0 <= i < j < |s| ensures ModelKey(s[i]) != ModelKey(s[j]) {
      if j < |rows| {
        assert s[i] == rows[i] && s[j] == rows[j];
      } else if i < |rows| {
        assert s[i] in rows && s[j] == added[j - |rows|];
      } else {
        assert s[i] == added[i - |rows|] && s[j] == added[j - |rows|];
      }
    }
  }

  // ---------------------------------------------------------------------------------------------
  // Ordered and filtered queries

  function NameLe(a: AiModel, b: AiModel): bool {
    StrLe(a.name, b.name)
  }

  lemma NameOrder()
    ensures Total(NameLe) && Transitive(NameLe)
  {
    forall a: AiModel, b: AiModel ensures NameLe(a, b) || NameLe(b, a) {
      StrLeTotal(a.name, b.name);
    }
    forall a: AiModel, b: AiModel, c: AiModel | NameLe(a, b) && NameLe(b, c) ensures NameLe(a, c) {
      StrLeTransitive(a.name, b.name, c.name);
    }
  }

  function IsActive(m: AiModel): bool {
    m.isActive
  }

  /** `getAllModels()`: every model, ordered by name. */
  function GetAllModels(db: Db): (r: seq<AiModel>)
    ensures multiset(r) == multiset(db.models)
    ensures forall i, j :: 0 <= i < j < |r| ==> StrLe(r[i].name, r[j].name)
  {
    NameOrder();
    var rows := db.models;
    SortByFacts(rows, NameLe);
    SortBy(rows, NameLe)
  }

  /** `getActiveModels()`: exactly the active models, each once, ordered by name. */
  function GetActiveModels(db: Db): (r: seq<AiModel>)
    ensures forall m :: m in r <==> m in db.models && m.isActive
    ensures multiset(r) == multiset(Where(db.models, IsActive))
    ensures forall i, j :: 0 <= i < j < |r| ==> StrLe(r[i].name, r[j].name)
  {
    NameOrder();
    var rows := Where(db.models, IsActive);
    SortByFacts(rows, NameLe);
    SortBy(rows, NameLe)
  }

  function NewerOrSame(a: Conversation, b: Conversation): bool {
    a.updatedAt >= b.updatedAt
  }

  /** `getUserConversations(userId)`: exactly the user's conversations, most recently updated first. */
  function GetUserConversations(db: Db, userId: string): (r: seq<Conversation>)
    ensures forall c :: c in r <==> c in db.conversations && c.userId == userId
    ensures multiset(r) == multiset(Where(db.conversations, (c: Conversation) => c.userId == userId))
    ensures forall i, j :: 0 <= i < j < |r| ==> r[i].updatedAt >= r[j].updatedAt
  {
    var rows := Where(db.conversations, (c: Conversation) => c.userId == userId);
    SortByFacts(rows, NewerOrSame);
    SortBy(rows, NewerOrSame)
  }

  function SentNoLater(a: Message, b: Message): bool {
    a.createdAt <= b.createdAt
  }

  /** `getConversationMessages(conversationId)`: exactly the conversation's messages, oldest first. */
  function GetConversationMessages(db: Db, conversationId: int): (r: seq<Message>)
    ensures forall m :: m in r <==> m in db.messages && m.conversationId == conversationId
    ensures multiset(r) == multiset(Where(db.messages, (m: Message) => m.conversationId == conversationId))
    ensures forall i, j :: 0 <= i < j < |r| ==> r[i].createdAt <= r[j].createdAt
  {
    var rows := Where(db.messages, (m: Message) => m.conversationId == conversationId);
    SortByFacts(rows, SentNoLater);
    SortBy(rows, SentNoLater)
  }

  function PaidNoEarlier(a: Payment, b: Payment): bool {
    a.createdAt >= b.createdAt
  }

  /** `getUserPayments(userId)`: exactly the user's payments, newest first. */
  function GetUserPayments(db: Db, userId: string): (r: seq<Payment>)
    ensures forall p :: p in r <==> p in db.payments && p.userId == userId
    ensures multiset(r) == multiset(Where(db.payments, (p: Payment) => p.userId == userId))
    ensures forall i, j :: 0 <= i < j < |r| ==> r[i].createdAt >= r[j].createdAt
  {
    var rows := Where(db.payments, (p: Payment) => p.userId == userId);
    SortByFacts(rows, PaidNoEarlier);
    SortBy(rows, PaidNoEarlier)
  }

  function JoinedNoEarlier(a: User, b: User): bool {
    a.createdAt >= b.createdAt
  }

  /** `getAllUsers()`: every user, newest first. */
  function GetAllUsers(db: Db): (r: seq<User>)
    ensures multiset(r) == multiset(db.users)
    ensures forall i, j :: 0 <= i < j < |r| ==> r[i].createdAt >= r[j].createdAt
  {
    var rows := db.users;
    SortByFacts(rows, JoinedNoEarlier);
    SortBy(rows, JoinedNoEarlier)
  }

  /** A VIP as the dashboard counts one: role "vip" with an expiry not yet passed (a null expiry never counts). */
  predicate IsCurrentVip(u: User, now: Timestamp) {
    u.role == "vip" && u.vipExpiresAt.Some? && u.vipExpiresAt.value >= now
  }

  /** `getUserStats()`, without the revenue figure. */
  function GetUserStats(db: Db, dayStart: Timestamp, now: Timestamp): (r: Stats)
    ensures r.totalUsers == |db.users|
    ensures 0 <= r.vipUsers <= r.totalUsers
    ensures forall u :: u in Where(db.users, (x: User) => IsCurrentVip(x, now)) <==> u in db.users && IsCurrentVip(u, now)
    ensures r.vipUsers == |Where(db.users, (x: User) => IsCurrentVip(x, now))|
    ensures r.todayCalls == TodayCalls(db, dayStart)
  {
    Stats(|db.users|, |Where(db.users, (x: User) => IsCurrentVip(x, now))|, TodayCalls(db, dayStart))
  }

  /** With no statistics row dated today the dashboard shows no calls (the SQL sum is null, read as 0). */
  lemma {:induction false} NoRowsTodayNoCalls(s: seq<UsageStat>, dayStart: Timestamp)
    requires forall x :: x in s ==> x.date < dayStart
    ensures SumOf(s, (x: UsageStat) => if x.date >= dayStart then x.requestCount else 0) == 0
    decreases |s|
  {
    if s != [] {
      NoRowsTodayNoCalls(s[..|s| - 1], dayStart);
    }
  }
}
