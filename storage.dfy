/**
 * `DatabaseStorage` (server/storage.ts): the storage object the routes call. Each table is a field
 * holding its rows in table order, and `next` holds the `serial` sequences. Every method performs
 * the source's statements one after the other on these fields and is proved to leave the tables
 * exactly as the matching function of `StorageModel` says; the lemmas about those functions then
 * carry over. A statement that Postgres rejects throws in the source: here the method returns
 * `Err` having written nothing for that statement.
 */
module Storage {
  import opened Wrappers
  import opened Query
  import opened Schema
  import M = StorageModel

  class DatabaseStorage {
    var users: seq<User>
    var models: seq<AiModel>
    var conversations: seq<Conversation>
    var messages: seq<Message>
    var payments: seq<Payment>
    var usageStats: seq<UsageStat>
    var next: Serials

    /** The whole database the fields hold. */
    function State(): Db
      reads this
    {
      Db(users, models, conversations, messages, payments, usageStats, next)
    }

    /** The constraints the schema declares hold. */
    ghost predicate Valid()
      reads this
    {
      Intact(State())
    }

    constructor()
      ensures State() == EmptyDb() && Valid()
    {
      users, models, conversations, messages, payments, usageStats := [], [], [], [], [], [];
      next := Serials(1, 1, 1, 1, 1);
    }

    // -------------------------------------------------------------------------------------------
    // Lookups

    method GetUser(id: string) returns (user: Option<User>)
      ensures user == M.GetUser(State(), id)
      ensures user.None? <==> id !in UserIds(State())
    {
      user := FirstWhere(users, (u: User) => u.id == id);
    }

    method GetConversationById(id: int) returns (conversation: Option<Conversation>)
      ensures conversation == M.GetConversationById(State(), id)
      ensures conversation.Some? ==> conversation.value in State().conversations && conversation.value.id == id
    {
      conversation := FirstWhere(conversations, (c: Conversation) => c.id == id);
    }

    // -------------------------------------------------------------------------------------------
    // Writes

    method UpsertUser(n: NewUser, now: Timestamp) returns (r: Result<User, M.DbError>)
      modifies this
      ensures var e := M.UpsertUser(old(State()), n, now);
              && (e.Err? ==> r == Err(e.error) && State() == old(State()))
              && (e.Ok? ==> r == Ok(e.value.row) && State() == e.value.db)
      ensures old(Valid()) ==> Valid()
    {
      ghost var db0 := State();
      if M.EmailTaken(State(), n.id, n.email) {
        return Err(M.UniqueViolation);
      }
      var existing := GetUser(n.id);
      match existing {
        case None =>
          var row := UserRow(n, now);
          users := users + [row];
          r := Ok(row);
        case Some(u) =>
          users := UpdateWhere(users, (x: User) => x.id == n.id, (x: User) => M.Relogged(x, n, now));
          r := Ok(M.Relogged(u, n, now));
      }
      if Intact(db0) {
        M.UpsertKeepsIntact(db0, n, now);
      }
    }

    /** `insertModels(models)`. */
    method InsertModels(ms: seq<NewModel>, now: Timestamp)
      requires |ms| > 0
      modifies this
      ensures State() == M.InsertModels(old(State()), ms, now)
      ensures old(Valid()) ==> Valid()
    {
      ghost var db0 := State();
      var first := next.model;
      models := models + seq(|ms|, i requires 0 <= i < |ms| => ModelRow(ms[i], first + i, now));
      next := next.(model := first + |ms|);
      if Intact(db0) {
        M.InsertModelsKeepsIntact(db0, ms, now);
      }
    }

    /** `createConversation(conversation)`. */
    method CreateConversation(c: NewConversation, now: Timestamp) returns (r: Result<Conversation, M.DbError>)
      modifies this
      ensures var e := M.CreateConversation(old(State()), c, now);
              && (e.Err? ==> r == Err(e.error) && State() == old(State()))
              && (e.Ok? ==> r == Ok(e.value.row) && State() == e.value.db)
      ensures old(Valid()) ==> Valid()
    {
      ghost var db0 := State();
      if c.userId !in UserIds(State()) || c.modelId !in ModelIds(State()) {
        return Err(M.ForeignKeyViolation);
      }
      var row := ConversationRow(c, next.conversation, now);
      conversations := conversations + [row];
      next := next.(conversation := next.conversation + 1);
      r := Ok(row);
      if Intact(db0) {
        M.CreateConversationKeepsIntact(db0, c, now);
      }
    }

    /** `addMessage(message)`: insert the message, then stamp its conversation. */
    method AddMessage(m: NewMessage, now: Timestamp) returns (r: Result<Message, M.DbError>)
      modifies this
      ensures var e := M.AddMessage(old(State()), m, now);
              && (e.Err? ==> r == Err(e.error) && State() == old(State()))
              && (e.Ok? ==> r == Ok(e.value.row) && State() == e.value.db)
      ensures old(Valid()) ==> Valid()
    {
      ghost var db0 := State();
      if m.conversationId !in ConversationIds(State()) {
        return Err(M.ForeignKeyViolation);
      }
      var row := MessageRow(m, next.message, now);
      messages := messages + [row];
      next := next.(message := next.message + 1);
      conversations := UpdateWhere(conversations, (c: Conversation) => c.id == m.conversationId,
                                   (c: Conversation) => c.(updatedAt := now));
      r := Ok(row);
      if Intact(db0) {
        M.AddMessageKeepsIntact(db0, m, now);
      }
    }

    /** `createPayment(payment)`. */
    method CreatePayment(p: NewPayment, now: Timestamp) returns (r: Result<Payment, M.DbError>)
      modifies this
      ensures var e := M.CreatePayment(old(State()), p, now);
              && (e.Err? ==> r == Err(e.error) && State() == old(State()))
              && (e.Ok? ==> r == Ok(e.value.row) && State() == e.value.db)
      ensures old(Valid()) ==> Valid()
    {
      ghost var db0 := State();
      if p.userId !in UserIds(State()) {
        return Err(M.ForeignKeyViolation);
      }
      var row := PaymentRow(p, next.payment, now);
      payments := payments + [row];
      next := next.(payment := next.payment + 1);
      r := Ok(row);
      if Intact(db0) {
        M.CreatePaymentKeepsIntact(db0, p, now);
      }
    }

    /** `updatePaymentStatus(id, status)`. */
    method UpdatePaymentStatus(id: int, status: string)
      modifies this
      ensures State() == M.UpdatePaymentStatus(old(State()), id, status)
      ensures old(Valid()) ==> Valid()
    {
      ghost var db0 := State();
      payments := UpdateWhere(payments, (p: Payment) => p.id == id, (p: Payment) => p.(status := status));
      if Intact(db0) {
        M.UpdatePaymentStatusKeepsIntact(db0, id, status);
      }
    }

    // -------------------------------------------------------------------------------------------
    // Usage tracking

    /**
     * `incrementUsage(userId, modelId)`: bump or start today's statistics row, then rewrite the
     * user's daily counter if the user exists.
     */
    method IncrementUsage(userId: string, modelId: int, dayStart: Timestamp, now: Timestamp)
      returns (r: Result<(), M.DbError>)
      modifies this
      ensures var e := M.IncrementUsage(old(State()), userId, modelId, dayStart, now);
              && (e.Err? ==> r == Err(e.error) && State() == old(State()))
              && (e.Ok? ==> r == Ok(()) && State() == e.value)
      ensures old(Valid()) ==> Valid()
    {
      ghost var db0 := State();
      r := RecordModelUse(userId, modelId, dayStart, now);
      if r.Err? {
        return;
      }
      CountUserCall(userId, dayStart, now);
      if Intact(db0) {
        M.IncrementUsageKeepsIntact(db0, userId, modelId, dayStart, now);
      }
    }

    /** The `usage_stats` half of `incrementUsage`: bump today's row, or insert one. */
    method RecordModelUse(userId: string, modelId: int, dayStart: Timestamp, now: Timestamp)
      returns (r: Result<(), M.DbError>)
      modifies this
      ensures var e := M.RecordModelUse(old(State()), userId, modelId, dayStart, now);
              && (e.Err? ==> r == Err(e.error) && State() == old(State()))
              && (e.Ok? ==> r == Ok(()) && State() == e.value)
    {
      var existing := FirstWhere(usageStats,
                                 (s: UsageStat) => s.userId == userId && s.modelId == modelId && s.date >= dayStart);
      match existing {
        case Some(e) =>
          usageStats := UpdateWhere(usageStats, (s: UsageStat) => s.id == e.id,
                                    (s: UsageStat) => s.(requestCount := e.requestCount + 1));
        case None =>
          if userId !in UserIds(State()) || modelId !in ModelIds(State()) {
            return Err(M.ForeignKeyViolation);
          }
          usageStats := usageStats + [UsageStatRow(next.usageStat, userId, modelId, now)];
          next := next.(usageStat := next.usageStat + 1);
      }
      r := Ok(());
    }

    /** The `users` half of `incrementUsage`: count the call on the user's row, if there is one. */
    method CountUserCall(userId: string, dayStart: Timestamp, now: Timestamp)
      modifies this
      ensures State() == M.CountUserCall(old(State()), userId, dayStart, now)
    {
      var user := GetUser(userId);
      if user.Some? {
        var c := M.Counted(user.value, dayStart, now);
        users := UpdateWhere(users, (x: User) => x.id == userId,
                             (x: User) => x.(dailyUsage := c.dailyUsage, lastUsageReset := c.lastUsageReset));
      }
    }

    /** `resetDailyUsage(userId)`. */
    method ResetDailyUsage(userId: string, now: Timestamp)
      modifies this
      ensures State() == M.ResetDailyUsage(old(State()), userId, now)
      ensures old(Valid()) ==> Valid()
    {
      ghost var db0 := State();
      users := UpdateWhere(users, (x: User) => x.id == userId,
                           (x: User) => x.(dailyUsage := 0, lastUsageReset := Some(now)));
      if Intact(db0) {
        M.ResetKeepsIntact(db0, userId, now);
      }
    }

    /** `getUserDailyUsage(userId)`: read the counter, writing the reset when its stamp is stale. */
    method GetUserDailyUsage(userId: string, dayStart: Timestamp, now: Timestamp) returns (usage: int)
      modifies this
      ensures (State(), usage) == M.GetUserDailyUsage(old(State()), userId, dayStart, now)
      ensures old(Valid()) ==> Valid()
    {
      var user := GetUser(userId);
      if user.None? {
        return 0;
      }
      if M.IsStale(user.value, dayStart) {
        ResetDailyUsage(userId, now);
        return 0;
      }
      return user.value.dailyUsage;
    }

    // -------------------------------------------------------------------------------------------
    // Admin functions

    /** `updateUserRole(userId, role, vipExpiresAt)`. */
    method UpdateUserRole(userId: string, role: Option<string>, vipExpiresAt: Option<Timestamp>, now: Timestamp)
      modifies this
      ensures State() == M.UpdateUserRole(old(State()), userId, role, vipExpiresAt, now)
      ensures old(Valid()) ==> Valid()
    {
      ghost var db0 := State();
      users := UpdateWhere(users, (u: User) => u.id == userId,
                           (u: User) => u.(role := role.GetOr(u.role), vipExpiresAt := if vipExpiresAt.Some? then vipExpiresAt
                                                                          else u.vipExpiresAt,
                                           updatedAt := now));
      if Intact(db0) {
        M.UpdateUserRoleKeepsIntact(db0, userId, role, vipExpiresAt, now);
      }
    }

    /** Writes every table (and the sequences) at once, as one statement whose effects are `db`. */
    method Store(db: Db)
      modifies this
      ensures State() == db
    {
      users, models, conversations, messages, payments, usageStats, next :=
        db.users, db.models, db.conversations, db.messages, db.payments, db.usageStats, db.next;
    }

    /** `deleteUser(userId)`, with the cascades the schema declares. */
    method DeleteUser(userId: string)
      modifies this
      ensures State() == DeleteUserCascade(old(State()), userId)
      ensures old(Valid()) ==> Valid()
    {
      ghost var db0 := State();
      // One DELETE statement; the database carries out the cascades it declares.
      var after := DeleteUserCascade(State(), userId);
      if Intact(db0) {
        DeleteUserKeepsIntact(db0, userId);
      }
      Store(after);
    }
  }
}
