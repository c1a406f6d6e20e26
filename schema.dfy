/**
 * The tables of the application's Postgres database (`users`, `kun` for the AI models,
 * `conversations`, `messages`, `payments`, `usage_stats`), their column defaults, the insert
 * shapes callers pass (which leave out the columns the database fills in), and the foreign keys
 * with their `ON DELETE CASCADE` rules.
 *
 * Timestamps are milliseconds since the Unix epoch, compared the way JavaScript compares `Date`
 * values. A nullable column is an `Option`.
 */
module Schema {
  import opened Wrappers
  import opened Query

  type Timestamp = int

  datatype User = User(
    id: string,
    email: Option<string>,
    firstName: Option<string>,
    lastName: Option<string>,
    profileImageUrl: Option<string>,
    role: string,                      // "user", "vip" or "admin"
    vipExpiresAt: Option<Timestamp>,
    dailyUsage: int,
    lastUsageReset: Option<Timestamp>,
    createdAt: Timestamp,
    updatedAt: Timestamp)

  /**
   * The columns the sign-in flow passes to `upsertUser`: the id and the profile. Every other
   * column of the insert shape is left out, so a new row takes the column defaults.
   */
  datatype NewUser = NewUser(
    id: string,
    email: Option<string>,
    firstName: Option<string>,
    lastName: Option<string>,
    profileImageUrl: Option<string>)

  /** A row of the `kun` table: one AI model offered to users. */
  datatype AiModel = AiModel(
    id: int,
    name: string,
    displayName: string,
    provider: string,
    description: Option<string>,
    accuracy: Option<int>,
    speed: Option<string>,
    category: Option<string>,          // "text", "image", "code" or "multimodal"
    isActive: bool,
    requiresVip: bool,
    createdAt: Timestamp)

  /** What `insertModels` is given for one model; omitted flags take the column defaults. */
  datatype NewModel = NewModel(
    name: string,
    displayName: string,
    provider: string,
    description: Option<string>,
    accuracy: Option<int>,
    speed: Option<string>,
    category: Option<string>,
    isActive: Option<bool>,
    requiresVip: Option<bool>)

  datatype Conversation = Conversation(
    id: int,
    userId: string,
    modelId: int,
    title: Option<string>,
    createdAt: Timestamp,
    updatedAt: Timestamp)

  /** The insert shape of a conversation: no `id`, `createdAt` or `updatedAt`. */
  datatype NewConversation = NewConversation(userId: string, modelId: int, title: Option<string>)

  datatype Message = Message(
    id: int,
    conversationId: int,
    role: string,                      // "user" or "assistant"
    content: string,
    createdAt: Timestamp)

  /** The insert shape of a message: no `id` or `createdAt`. */
  datatype NewMessage = NewMessage(conversationId: int, role: string, content: string)

  datatype Payment = Payment(
    id: int,
    userId: string,
    amount: string,
    payMethod: string,                 // the `method` column: "alipay" or "wechat"
    status: string,                    // "pending", "completed" or "failed"
    expiresAt: Timestamp,
    createdAt: Timestamp)

  /** The insert shape of a payment: no `id` or `createdAt`; the status may be left to its default. */
  datatype NewPayment = NewPayment(
    userId: string,
    amount: string,
    payMethod: string,
    status: Option<string>,
    expiresAt: Timestamp)

  /** A row of `usage_stats`: requests by one user to one model, dated by its first request. */
  datatype UsageStat = UsageStat(
    id: int,
    userId: string,
    modelId: int,
    date: Timestamp,
    requestCount: int)

  /** The next value of each table's `serial` id sequence. */
  datatype Serials = Serials(model: int, conversation: int, message: int, payment: int, usageStat: int)

  /** The whole database: every table in row order, and the id sequences. */
  datatype Db = Db(
    users: seq<User>,
    models: seq<AiModel>,
    conversations: seq<Conversation>,
    messages: seq<Message>,
    payments: seq<Payment>,
    usageStats: seq<UsageStat>,
    next: Serials)

  // Rows as the database completes them from an insert shape, applying the column defaults.

  function UserRow(n: NewUser, now: Timestamp): User {
    User(n.id, n.email, n.firstName, n.lastName, n.profileImageUrl, "user", None, 0, Some(now), now, now)
  }

  function ModelRow(m: NewModel, id: int, now: Timestamp): AiModel {
    AiModel(id, m.name, m.displayName, m.provider, m.description, m.accuracy, m.speed, m.category,
            m.isActive.GetOr(true), m.requiresVip.GetOr(false), now)
  }

  function ConversationRow(c: NewConversation, id: int, now: Timestamp): Conversation {
    Conversation(id, c.userId, c.modelId, c.title, now, now)
  }

  function MessageRow(m: NewMessage, id: int, now: Timestamp): Message {
    Message(id, m.conversationId, m.role, m.content, now)
  }

  function PaymentRow(p: NewPayment, id: int, now: Timestamp): Payment {
    Payment(id, p.userId, p.amount, p.payMethod, p.status.GetOr("pending"), p.expiresAt, now)
  }

  function UsageStatRow(id: int, userId: string, modelId: int, date: Timestamp): UsageStat {
    UsageStat(id, userId, modelId, date, 1)
  }

  // Foreign keys.

  function UserIds(db: Db): set<string> {
    set u | u in db.users :: u.id
  }

  function ModelIds(db: Db): set<int> {
    set m | m in db.models :: m.id
  }

  function ConversationIds(db: Db): set<int> {
    set c | c in db.conversations :: c.id
  }

  /** Every foreign key names an existing row. */
  ghost predicate ReferencesResolve(db: Db) {
    && (forall c :: c in db.conversations ==> c.userId in UserIds(db) && c.modelId in ModelIds(db))
    && (forall m :: m in db.messages ==> m.conversationId in ConversationIds(db))
    && (forall p :: p in db.payments ==> p.userId in UserIds(db))
    && (forall s :: s in db.usageStats ==> s.userId in UserIds(db) && s.modelId in ModelIds(db))
  }

  function StatId(s: UsageStat): int {
    s.id
  }

  /** Every serial id was drawn from its sequence, and `usage_stats` ids ascend in row order. */
  ghost predicate SerialsAhead(db: Db) {
    && (forall m :: m in db.models ==> m.id < db.next.model)
    && (forall c :: c in db.conversations ==> c.id < db.next.conversation)
    && (forall m :: m in db.messages ==> m.id < db.next.message)
    && (forall p :: p in db.payments ==> p.id < db.next.payment)
    && (forall s :: s in db.usageStats ==> s.id < db.next.usageStat)
    && Ascending(db.usageStats, StatId)
  }

  // Primary keys and the `unique` e-mail column.

  function UserKey(u: User): Option<string> { Some(u.id) }
  function EmailKey(u: User): Option<string> { u.email }
  function ModelKey(m: AiModel): Option<int> { Some(m.id) }
  function ConversationKey(c: Conversation): Option<int> { Some(c.id) }
  function MessageKey(m: Message): Option<int> { Some(m.id) }
  function PaymentKey(p: Payment): Option<int> { Some(p.id) }
  function StatKey(s: UsageStat): Option<int> { Some(s.id) }

  /**
   * No two rows of a table share their primary key, and no two users share a non-null e-mail.
   * (`usage_stats` ids are unique because they ascend; see `StatKeysUnique`.)
   */
  ghost predicate KeysUnique(db: Db) {
    && Unique(db.users, UserKey) && Unique(db.users, EmailKey)
    && Unique(db.models, ModelKey)
    && Unique(db.conversations, ConversationKey)
    && Unique(db.messages, MessageKey)
    && Unique(db.payments, PaymentKey)
  }

  /** Ascending `usage_stats` ids are a primary key. */
  lemma StatKeysUnique(db: Db)
    requires SerialsAhead(db)
    ensures Unique(db.usageStats, StatKey)
  {
    forall i, j | 0 <= i < j < |db.usageStats| ensures StatKey(db.usageStats[i]) != StatKey(db.usageStats[j]) {
      assert StatId(db.usageStats[i]) < StatId(db.usageStats[j]);
    }
  }

  /** The state a database with the declared constraints is always in. */
  ghost predicate Intact(db: Db) {
    ReferencesResolve(db) && SerialsAhead(db) && KeysUnique(db)
  }

  /** A database with no rows, every `serial` sequence at its start value 1. */
  function EmptyDb(): (r: Db)
    ensures Intact(r)
  {
    Db([], [], [], [], [], [], Serials(1, 1, 1, 1, 1))
  }

  /** The ids of the conversations that deleting `userId` removes along with the user. */
  function ConversationsOf(db: Db, userId: string): set<int> {
    set c | c in db.conversations && c.userId == userId :: c.id
  }

  /**
   * `DELETE FROM users WHERE id = userId` with the schema's cascades: the user's conversations,
   * payments and usage statistics go with it, and so do the messages of those conversations.
   * Models are never cascaded to.
   */
  function DeleteUserCascade(db: Db, userId: string): (r: Db)
    ensures forall u :: u in r.users <==> u in db.users && u.id != userId
    ensures forall c :: c in r.conversations <==> c in db.conversations && c.userId != userId
    ensures forall m :: m in r.messages <==>
              m in db.messages && m.conversationId !in ConversationsOf(db, userId)
    ensures forall p :: p in r.payments <==> p in db.payments && p.userId != userId
    ensures forall s :: s in r.usageStats <==> s in db.usageStats && s.userId != userId
    ensures r.models == db.models && r.next == db.next
  {
    var doomed := ConversationsOf(db, userId);
    db.(users := Where(db.users, (u: User) => u.id != userId),
        conversations := Where(db.conversations, (c: Conversation) => c.userId != userId),
        messages := Where(db.messages, (m: Message) => m.conversationId !in doomed),
        payments := Where(db.payments, (p: Payment) => p.userId != userId),
        usageStats := Where(db.usageStats, (s: UsageStat) => s.userId != userId))
  }

  /** The cascades leave no dangling reference behind: deleting a user keeps the database intact. */
  lemma DeleteUserKeepsIntact(db: Db, userId: string)
    requires Intact(db)
    ensures Intact(DeleteUserCascade(db, userId))
  {
    var r := DeleteUserCascade(db, userId);
    forall c | c in r.conversations
      ensures c.userId in UserIds(r) && c.modelId in ModelIds(r)
    {
      var u :| u in db.users && u.id == c.userId;
      assert u in r.users;
    }
    forall m | m in r.messages ensures m.conversationId in ConversationIds(r) {
      var c :| c in db.conversations && c.id == m.conversationId;
      assert c.userId != userId;
      assert c in r.conversations;
    }
    forall p | p in r.payments ensures p.userId in UserIds(r) {
      var u :| u in db.users && u.id == p.userId;
      assert u in r.users;
    }
    forall s | s in r.usageStats ensures s.userId in UserIds(r) && s.modelId in ModelIds(r) {
      var u :| u in db.users && u.id == s.userId;
      assert u in r.users;
    }
    WhereKeepsAscending(db.usageStats, (s: UsageStat) => s.userId != userId, StatId);
    DeleteUserKeepsKeys(db, userId);
  }

  /** Deleting rows never makes two of them share a key. */
  lemma DeleteUserKeepsKeys(db: Db, userId: string)
    requires KeysUnique(db)
    ensures KeysUnique(DeleteUserCascade(db, userId))
  {
    WhereKeepsUnique(db.users, (u: User) => u.id != userId, UserKey);
    WhereKeepsUnique(db.users, (u: User) => u.id != userId, EmailKey);
    WhereKeepsUnique(db.conversations, (c: Conversation) => c.userId != userId, ConversationKey);
    WhereKeepsUnique(db.messages, (m: Message) => m.conversationId !in ConversationsOf(db, userId), MessageKey);
    WhereKeepsUnique(db.payments, (p: Payment) => p.userId != userId, PaymentKey);
  }
}
