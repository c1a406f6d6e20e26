/**
 * What the HTTP handlers of server/routes.ts decide, as functions from the database before a
 * request to the database after it and the response. The caller's id is the authenticated
 * session's subject; a request body is taken as already validated into its insert shape, except
 * the role route's, which the source reads unvalidated (`RoleField`). A storage
 * call that throws ends the handler with status 500, and whatever earlier statements wrote stays
 * written.
 */
module RouteModel {
  import opened Wrappers
  import opened Query
  import opened Text
  import opened Schema
  import opened StorageModel

  /** Calls a day allowed to a caller whose role is neither "vip" nor "admin". */
  const DailyLimit := 10

  /** The thirty days a payment or a promotion to "vip" grants, in milliseconds. */
  const VipPeriodMs := 30 * 24 * 60 * 60 * 1000

  /** What the placeholder reply puts before the user's text. */
  const ReplyPrefix := "这是来自AI模型的回复："

  const Forbidden := 403
  const NotFound := 404
  const TooManyRequests := 429
  const ServerError := 500

  /** A JSON body with status 200, or an error status. */
  datatype Response<T> = Json(body: T) | Fail(status: int)

  /** The database after a request, and the response sent. */
  datatype Handled<T> = Handled(db: Db, response: Response<T>)

  /** What a successful `POST /api/messages` returns: the stored message, with the reply to a user message. */
  datatype Posted = One(message: Message) | Pair(message: Message, reply: Message)

  /** The roles whose calls are never counted against the daily limit; the VIP expiry plays no part. */
  predicate Unlimited(role: string) {
    role == "vip" || role == "admin"
  }

  // ---------------------------------------------------------------------------------------------
  // POST /api/messages

  /**
   * The quota check: unlimited roles skip it without reading anything; any other caller's count
   * of today is read (writing the reset of a stale counter) and compared with the limit. Returns
   * the database after the read and whether the request is over the limit.
   */
  function QuotaGate(db: Db, userId: string, role: string, dayStart: Timestamp, now: Timestamp): (Db, bool) {
    if Unlimited(role) then (db, false)
    else
      var (db1, usage) := GetUserDailyUsage(db, userId, dayStart, now);
      (db1, usage >= DailyLimit)
  }

  /** The placeholder reply stored after a user message. */
  function ReplyTo(body: NewMessage): NewMessage {
    NewMessage(body.conversationId, "assistant", ReplyPrefix + body.content)
  }

  /**
   * The writes once the caller has passed every check: store the message; for a "user" message,
   * count the call against the conversation's model and store the placeholder reply.
   */
  function StoreMessage(db: Db, userId: string, modelId: int, body: NewMessage, dayStart: Timestamp, now: Timestamp)
    : Handled<Posted>
  {
    match AddMessage(db, body, now)
    case Err(_) => Handled(db, Fail(ServerError))
    case Ok(Inserted(db2, message)) =>
      if body.role != "user" then Handled(db2, Json(One(message)))
      else
        match IncrementUsage(db2, userId, modelId, dayStart, now)
        case Err(_) => Handled(db2, Fail(ServerError))
        case Ok(db3) =>
          match AddMessage(db3, ReplyTo(body), now)
          case Err(_) => Handled(db3, Fail(ServerError))
          case Ok(Inserted(db4, reply)) => Handled(db4, Json(Pair(message, reply)))
  }

  /**
   * `POST /api/messages`: 404 for an unknown caller, then the quota check (429), then the
   * ownership check on the target conversation (403), then the writes.
   */
  function PostMessage(db: Db, userId: string, body: NewMessage, dayStart: Timestamp, now: Timestamp): Handled<Posted> {
    match GetUser(db, userId)
    case None => Handled(db, Fail(NotFound))
    case Some(user) =>
      var (db1, over) := QuotaGate(db, userId, user.role, dayStart, now);
      if over then Handled(db1, Fail(TooManyRequests))
      else
        match GetConversationById(db1, body.conversationId)
        case None => Handled(db1, Fail(Forbidden))
        case Some(c) =>
          if c.userId != userId then Handled(db1, Fail(Forbidden))
          else StoreMessage(db1, userId, c.modelId, body, dayStart, now)
  }

  /** The caller exists, is neither "vip" nor "admin", and has used up today's calls. */
  ghost predicate OverQuota(db: Db, userId: string, dayStart: Timestamp) {
    GetUser(db, userId).Some? && !Unlimited(GetUser(db, userId).value.role)
    && EffectiveUsage(GetUser(db, userId).value, dayStart) >= DailyLimit
  }

  /** The conversation exists and belongs to the caller. */
  ghost predicate Owns(db: Db, userId: string, conversationId: int) {
    GetConversationById(db, conversationId).Some? && GetConversationById(db, conversationId).value.userId == userId
  }

  /**
   * The quota check reads the caller's counter without changing what it means: only the caller's
   * counter and stamp may be rewritten, today's count, role and every other user stay as they
   * were, and the request is over the limit exactly when the caller is `OverQuota`.
   */
  lemma QuotaGateReads(db: Db, userId: string, dayStart: Timestamp, now: Timestamp, other: string)
    requires dayStart <= now
    requires GetUser(db, userId).Some?
    ensures var u := GetUser(db, userId).value;
            var (db1, over) := QuotaGate(db, userId, u.role, dayStart, now);
            && db1 == db.(users := db1.users)
            && UserIds(db1) == UserIds(db)
            && GetUser(db1, userId).Some?
            && GetUser(db1, userId).value.role == u.role
            && EffectiveUsage(GetUser(db1, userId).value, dayStart) == EffectiveUsage(u, dayStart)
            && (other != userId ==> GetUser(db1, other) == GetUser(db, other))
            && (over <==> OverQuota(db, userId, dayStart))
            && (Unlimited(u.role) ==> db1 == db)
            && (Intact(db) ==> Intact(db1))
  {
    var u := GetUser(db, userId).value;
    if !Unlimited(u.role) {
      DailyUsageReadKeepsCount(db, userId, dayStart, now, other);
      if IsStale(u, dayStart) {
        if Intact(db) {
          ResetKeepsIntact(db, userId, now);
        }
      }
    }
  }

  /** Once the checks are passed a request can fail only with 500. */
  lemma StoreMessageStatus(db: Db, userId: string, modelId: int, body: NewMessage, dayStart: Timestamp, now: Timestamp)
    ensures var r := StoreMessage(db, userId, modelId, body, dayStart, now).response;
            r.Fail? ==> r.status == ServerError
  {
  }

  /**
   * Each check of `POST /api/messages` answers for exactly its own condition, in order: 404 for an
   * unknown caller, 429 over the daily limit, 403 for a conversation that is missing or another
   * user's (so the quota is checked before ownership). None of the three stores a message, counts
   * a call or touches a conversation; the only write they can leave is the reset of a stale counter.
   */
  lemma PostMessageGates(db: Db, userId: string, body: NewMessage, dayStart: Timestamp, now: Timestamp)
    requires dayStart <= now
    ensures var h := PostMessage(db, userId, body, dayStart, now);
            && (h.response == Fail(NotFound) <==> userId !in UserIds(db))
            && (h.response == Fail(TooManyRequests) <==> OverQuota(db, userId, dayStart))
            && (h.response == Fail(Forbidden) <==>
                  userId in UserIds(db) && !OverQuota(db, userId, dayStart) && !Owns(db, userId, body.conversationId))
            && (h.response in {Fail(NotFound), Fail(TooManyRequests), Fail(Forbidden)} ==>
                  && h.db.messages == db.messages && h.db.usageStats == db.usageStats
                  && h.db.conversations == db.conversations && h.db.next == db.next
                  && UserIds(h.db) == UserIds(db))
  {
    match GetUser(db, userId)
    case None =>
    case Some(u) =>
      QuotaGateReads(db, userId, dayStart, now, userId);
      var db1 := QuotaGate(db, userId, u.role, dayStart, now).0;
      match GetConversationById(db1, body.conversationId)
      case None =>
      case Some(c) =>
        StoreMessageStatus(db1, userId, c.modelId, body, dayStart, now);
  }

  /** The writes keep the database intact, whatever they end with. */
  lemma StoreMessageKeepsIntact(db: Db, userId: string, modelId: int, body: NewMessage, dayStart: Timestamp, now: Timestamp)
    requires Intact(db)
    ensures Intact(StoreMessage(db, userId, modelId, body, dayStart, now).db)
  {
    if AddMessage(db, body, now).Ok? {
      AddMessageKeepsIntact(db, body, now);
      var db2 := AddMessage(db, body, now).value.db;
      if body.role == "user" && IncrementUsage(db2, userId, modelId, dayStart, now).Ok? {
        IncrementUsageKeepsIntact(db2, userId, modelId, dayStart, now);
        var db3 := IncrementUsage(db2, userId, modelId, dayStart, now).value;
        if AddMessage(db3, ReplyTo(body), now).Ok? {
          AddMessageKeepsIntact(db3, ReplyTo(body), now);
        }
      }
    }
  }

  /**
   * The three successful steps of a "user" message from an existing caller into an existing
   * conversation whose model exists: store the message, count the call, store the reply.
   */
  lemma UserMessageSteps(db: Db, userId: string, modelId: int, body: NewMessage, dayStart: Timestamp, now: Timestamp)
    requires body.role == "user"
    requires userId in UserIds(db) && modelId in ModelIds(db) && body.conversationId in ConversationIds(db)
    ensures AddMessage(db, body, now).Ok?
    ensures var db2 := AddMessage(db, body, now).value.db;
            && IncrementUsage(db2, userId, modelId, dayStart, now).Ok?
            && AddMessage(IncrementUsage(db2, userId, modelId, dayStart, now).value, ReplyTo(body), now).Ok?
    ensures var r2 := AddMessage(db, body, now).value;
            var db3 := IncrementUsage(r2.db, userId, modelId, dayStart, now).value;
            var r4 := AddMessage(db3, ReplyTo(body), now).value;
            StoreMessage(db, userId, modelId, body, dayStart, now) == Handled(r4.db, Json(Pair(r2.row, r4.row)))
  {
    var r2 := AddMessage(db, body, now).value;
    assert ConversationIds(r2.db) == ConversationIds(db) by {
      forall id ensures id in ConversationIds(r2.db) <==> id in ConversationIds(db) {
        AddMessageKeepsConversations(db, body, now, id);
      }
    }
  }

  /**
   * A "user" message from an existing caller into a conversation whose model exists: the
   * message and then the placeholder reply are stored with the next two ids.
   */
  lemma StoreUserMessage(db: Db, userId: string, modelId: int, body: NewMessage, dayStart: Timestamp, now: Timestamp)
    requires body.role == "user"
    requires userId in UserIds(db) && modelId in ModelIds(db) && body.conversationId in ConversationIds(db)
    ensures var m := Message(db.next.message, body.conversationId, "user", body.content, now);
            var reply := Message(db.next.message + 1, body.conversationId, "assistant", ReplyPrefix + body.content, now);
            var h := StoreMessage(db, userId, modelId, body, dayStart, now);
            h.response == Json(Pair(m, reply)) && h.db.messages == db.messages + [m, reply]
  {
    UserMessageSteps(db, userId, modelId, body, dayStart, now);
    var r2 := AddMessage(db, body, now).value;
    var db3 := IncrementUsage(r2.db, userId, modelId, dayStart, now).value;
    assert db3.next.message == db.next.message + 1 && db3.messages == db.messages + [r2.row];
  }

  /** The same request counts exactly one call for the caller, who keeps their role. */
  lemma StoreUserMessageCountsCaller(db: Db, userId: string, modelId: int, body: NewMessage, dayStart: Timestamp, now: Timestamp)
    requires dayStart <= now && body.role == "user"
    requires GetUser(db, userId).Some?
    requires modelId in ModelIds(db) && body.conversationId in ConversationIds(db)
    ensures var h := StoreMessage(db, userId, modelId, body, dayStart, now);
            && GetUser(h.db, userId).Some?
            && GetUser(h.db, userId).value.role == GetUser(db, userId).value.role
            && EffectiveUsage(GetUser(h.db, userId).value, dayStart) == EffectiveUsage(GetUser(db, userId).value, dayStart) + 1
  {
    UserMessageSteps(db, userId, modelId, body, dayStart, now);
    var db2 := AddMessage(db, body, now).value.db;
    assert GetUser(db2, userId) == GetUser(db, userId);
    IncrementUsageCountsCall(db2, userId, modelId, dayStart, now, userId);
    var db3 := IncrementUsage(db2, userId, modelId, dayStart, now).value;
    assert GetUser(AddMessage(db3, ReplyTo(body), now).value.db, userId) == GetUser(db3, userId);
  }

  /** The same request adds exactly one call to today's statistics. */
  lemma StoreUserMessageTodayCalls(db: Db, userId: string, modelId: int, body: NewMessage, dayStart: Timestamp, now: Timestamp)
    requires SerialsAhead(db) && dayStart <= now && body.role == "user"
    requires userId in UserIds(db) && modelId in ModelIds(db) && body.conversationId in ConversationIds(db)
    ensures TodayCalls(StoreMessage(db, userId, modelId, body, dayStart, now).db, dayStart) == TodayCalls(db, dayStart) + 1
  {
    UserMessageSteps(db, userId, modelId, body, dayStart, now);
    var db2 := AddMessage(db, body, now).value.db;
    assert SerialsAhead(db2) by {
      AddMessageFreshId(db, body, now);
    }
    IncrementUsageAddsTodayCall(db2, userId, modelId, dayStart, now);
    var db3 := IncrementUsage(db2, userId, modelId, dayStart, now).value;
    assert AddMessage(db3, ReplyTo(body), now).value.db.usageStats == db3.usageStats;
  }

  /** The same request leaves the conversation with its owner. */
  lemma StoreUserMessageOwns(db: Db, userId: string, modelId: int, body: NewMessage, dayStart: Timestamp, now: Timestamp)
    requires body.role == "user" && Owns(db, userId, body.conversationId)
    requires userId in UserIds(db) && modelId in ModelIds(db)
    ensures Owns(StoreMessage(db, userId, modelId, body, dayStart, now).db, userId, body.conversationId)
  {
    assert body.conversationId in ConversationIds(db) by {
      assert GetConversationById(db, body.conversationId).value in db.conversations;
    }
    UserMessageSteps(db, userId, modelId, body, dayStart, now);
    AddMessageKeepsConversations(db, body, now, body.conversationId);
    var db2 := AddMessage(db, body, now).value.db;
    var db3 := IncrementUsage(db2, userId, modelId, dayStart, now).value;
    assert db3.conversations == db2.conversations;
    AddMessageKeepsConversations(db3, ReplyTo(body), now, body.conversationId);
  }

  /**
   * The same request counts exactly one call, today, for the caller, who keeps their role, and
   * leaves the conversation with its owner.
   */
  lemma StoreUserMessageCounts(db: Db, userId: string, c: Conversation, body: NewMessage, dayStart: Timestamp, now: Timestamp)
    requires SerialsAhead(db) && dayStart <= now
    requires body.role == "user"
    requires GetUser(db, userId).Some?
    requires GetConversationById(db, body.conversationId) == Some(c) && c.userId == userId
    requires c.modelId in ModelIds(db)
    ensures var h := StoreMessage(db, userId, c.modelId, body, dayStart, now);
            && GetUser(h.db, userId).Some?
            && GetUser(h.db, userId).value.role == GetUser(db, userId).value.role
            && EffectiveUsage(GetUser(h.db, userId).value, dayStart) == EffectiveUsage(GetUser(db, userId).value, dayStart) + 1
    ensures TodayCalls(StoreMessage(db, userId, c.modelId, body, dayStart, now).db, dayStart) == TodayCalls(db, dayStart) + 1
    ensures Owns(StoreMessage(db, userId, c.modelId, body, dayStart, now).db, userId, body.conversationId)
  {
    assert body.conversationId in ConversationIds(db) by {
      assert c in db.conversations;
    }
    StoreUserMessageCountsCaller(db, userId, c.modelId, body, dayStart, now);
    StoreUserMessageTodayCalls(db, userId, c.modelId, body, dayStart, now);
    StoreUserMessageOwns(db, userId, c.modelId, body, dayStart, now);
  }

  /** Any other message is stored alone, with the next id, and counts nothing. */
  lemma StoreOtherMessage(db: Db, userId: string, c: Conversation, body: NewMessage, dayStart: Timestamp, now: Timestamp)
    requires body.role != "user"
    requires GetConversationById(db, body.conversationId) == Some(c) && c.userId == userId
    ensures var h := StoreMessage(db, userId, c.modelId, body, dayStart, now);
            && h.response == Json(One(Message(db.next.message, body.conversationId, body.role, body.content, now)))
            && h.db.messages == db.messages + [h.response.body.message]
            && h.db.users == db.users && h.db.usageStats == db.usageStats
            && Owns(h.db, userId, body.conversationId)
  {
    AddMessageKeepsConversations(db, body, now, body.conversationId);
  }

  /**
   * A known caller within the quota who owns the target conversation gets past every check:
   * what follows is exactly the writes, on the database the quota read left behind, which holds
   * the same messages, statistics, conversations and models.
   */
  lemma PostMessagePassesGates(db: Db, userId: string, body: NewMessage, dayStart: Timestamp, now: Timestamp)
    requires dayStart <= now
    requires GetUser(db, userId).Some?
    requires !OverQuota(db, userId, dayStart) && Owns(db, userId, body.conversationId)
    ensures var db1 := QuotaGate(db, userId, GetUser(db, userId).value.role, dayStart, now).0;
            var c := GetConversationById(db, body.conversationId).value;
            && PostMessage(db, userId, body, dayStart, now) == StoreMessage(db1, userId, c.modelId, body, dayStart, now)
            && GetConversationById(db1, body.conversationId) == Some(c)
            && db1.next.message == db.next.message && db1.messages == db.messages && db1.usageStats == db.usageStats
            && ModelIds(db1) == ModelIds(db)
            && GetUser(db1, userId).Some? && GetUser(db1, userId).value.role == GetUser(db, userId).value.role
            && EffectiveUsage(GetUser(db1, userId).value, dayStart) == EffectiveUsage(GetUser(db, userId).value, dayStart)
            && (Intact(db) ==> Intact(db1))
            && userId in UserIds(db1) && body.conversationId in ConversationIds(db1)
  {
    var u := GetUser(db, userId).value;
    QuotaGateReads(db, userId, dayStart, now, userId);
    var db1 := QuotaGate(db, userId, u.role, dayStart, now).0;
    assert GetConversationById(db1, body.conversationId).value in db1.conversations;
  }

  /**
   * A caller within the quota posting into a conversation of theirs, in an intact database,
   * leaves it intact, keeps their role, and the conversation keeps its owner.
   */
  lemma PostMessageKeepsIntact(db: Db, userId: string, body: NewMessage, dayStart: Timestamp, now: Timestamp)
    requires Intact(db) && dayStart <= now
    requires GetUser(db, userId).Some?
    requires !OverQuota(db, userId, dayStart) && Owns(db, userId, body.conversationId)
    ensures Intact(PostMessage(db, userId, body, dayStart, now).db)
    ensures Owns(PostMessage(db, userId, body, dayStart, now).db, userId, body.conversationId)
    ensures var h := PostMessage(db, userId, body, dayStart, now);
            GetUser(h.db, userId).Some? && GetUser(h.db, userId).value.role == GetUser(db, userId).value.role
  {
    PostMessagePassesGates(db, userId, body, dayStart, now);
    var db1 := QuotaGate(db, userId, GetUser(db, userId).value.role, dayStart, now).0;
    var c := GetConversationById(db, body.conversationId).value;
    StoreMessageKeepsIntact(db1, userId, c.modelId, body, dayStart, now);
    if body.role == "user" {
      assert c in db.conversations;
      assert body.conversationId in ConversationIds(db1) by {
        assert c in db1.conversations;
      }
      StoreUserMessageCounts(db1, userId, c, body, dayStart, now);
    } else {
      StoreOtherMessage(db1, userId, c, body, dayStart, now);
    }
  }

  /**
   * A "user" message from a caller within the quota into a conversation of theirs, whose model
   * exists (as it does in an intact database), gets 200 with
   * the message and its placeholder reply, stored with the next two ids.
   */
  lemma PostUserMessage(db: Db, userId: string, body: NewMessage, dayStart: Timestamp, now: Timestamp)
    requires dayStart <= now
    requires GetUser(db, userId).Some? && body.role == "user"
    requires !OverQuota(db, userId, dayStart) && Owns(db, userId, body.conversationId)
    requires GetConversationById(db, body.conversationId).value.modelId in ModelIds(db)
    ensures var m := Message(db.next.message, body.conversationId, "user", body.content, now);
            var reply := Message(db.next.message + 1, body.conversationId, "assistant", ReplyPrefix + body.content, now);
            var h := PostMessage(db, userId, body, dayStart, now);
            && h.response == Json(Pair(m, reply))
            && h.db.messages == db.messages + [m, reply]
  {
    PostMessagePassesGates(db, userId, body, dayStart, now);
    var db1 := QuotaGate(db, userId, GetUser(db, userId).value.role, dayStart, now).0;
    var c := GetConversationById(db, body.conversationId).value;
    StoreUserMessage(db1, userId, c.modelId, body, dayStart, now);
    // The rows carry the serial read from `db1`, which the checks left as it was in `db`.
    var m1 := Message(db1.next.message, body.conversationId, "user", body.content, now);
    var r1 := Message(db1.next.message + 1, body.conversationId, "assistant", ReplyPrefix + body.content, now);
    assert StoreMessage(db1, userId, c.modelId, body, dayStart, now).response == Json(Pair(m1, r1));
    assert m1 == Message(db.next.message, body.conversationId, "user", body.content, now);
    assert r1 == Message(db.next.message + 1, body.conversationId, "assistant", ReplyPrefix + body.content, now);
  }

  /**
   * The same request, in an intact database, raises the caller's count and today's calls by one.
   */
  lemma PostUserMessageCounts(db: Db, userId: string, body: NewMessage, dayStart: Timestamp, now: Timestamp)
    requires Intact(db) && dayStart <= now
    requires GetUser(db, userId).Some? && body.role == "user"
    requires !OverQuota(db, userId, dayStart) && Owns(db, userId, body.conversationId)
    ensures var h := PostMessage(db, userId, body, dayStart, now);
            && GetUser(h.db, userId).Some?
            && EffectiveUsage(GetUser(h.db, userId).value, dayStart) == EffectiveUsage(GetUser(db, userId).value, dayStart) + 1
            && TodayCalls(h.db, dayStart) == TodayCalls(db, dayStart) + 1
  {
    PostMessagePassesGates(db, userId, body, dayStart, now);
    var db1 := QuotaGate(db, userId, GetUser(db, userId).value.role, dayStart, now).0;
    var c := GetConversationById(db, body.conversationId).value;
    assert c in db.conversations;
    assert TodayCalls(db1, dayStart) == TodayCalls(db, dayStart);
    StoreUserMessageCounts(db1, userId, c, body, dayStart, now);
  }

  /**
   * Any other message from a caller within the quota into a conversation of theirs gets 200
   * with the message alone, stored with the next id, and counts nothing.
   */
  lemma PostOtherMessage(db: Db, userId: string, body: NewMessage, dayStart: Timestamp, now: Timestamp)
    requires dayStart <= now
    requires GetUser(db, userId).Some? && body.role != "user"
    requires !OverQuota(db, userId, dayStart) && Owns(db, userId, body.conversationId)
    ensures var m := Message(db.next.message, body.conversationId, body.role, body.content, now);
            var h := PostMessage(db, userId, body, dayStart, now);
            && h.response == Json(One(m))
            && h.db.messages == db.messages + [m]
            && h.db.usageStats == db.usageStats
            && GetUser(h.db, userId).Some?
            && EffectiveUsage(GetUser(h.db, userId).value, dayStart) == EffectiveUsage(GetUser(db, userId).value, dayStart)
  {
    PostMessagePassesGates(db, userId, body, dayStart, now);
    var db1 := QuotaGate(db, userId, GetUser(db, userId).value.role, dayStart, now).0;
    var c := GetConversationById(db, body.conversationId).value;
    StoreOtherMessage(db1, userId, c, body, dayStart, now);
  }

  /**
   * "vip" and "admin" callers are never refused for quota, and their quota check reads and writes
   * nothing, whatever their count says.
   */
  lemma UnlimitedSkipsQuota(db: Db, userId: string, body: NewMessage, dayStart: Timestamp, now: Timestamp)
    requires dayStart <= now
    requires GetUser(db, userId).Some? && Unlimited(GetUser(db, userId).value.role)
    ensures PostMessage(db, userId, body, dayStart, now).response != Fail(TooManyRequests)
    ensures QuotaGate(db, userId, GetUser(db, userId).value.role, dayStart, now) == (db, false)
  {
    PostMessageGates(db, userId, body, dayStart, now);
  }

  /** A conversation's model exists in an intact database. */
  lemma ConversationModelExists(db: Db, c: Conversation)
    requires Intact(db) && c in db.conversations
    ensures c.modelId in ModelIds(db)
  {
  }

  /**
   * One "user" message from a counted caller into a conversation of theirs, below the limit: it
   * is answered with 200 and today's count rises by one.
   */
  lemma QuotaStepPasses(db: Db, userId: string, body: NewMessage, dayStart: Timestamp, now: Timestamp)
    requires Intact(db) && dayStart <= now && body.role == "user"
    requires GetUser(db, userId).Some? && !Unlimited(GetUser(db, userId).value.role)
    requires EffectiveUsage(GetUser(db, userId).value, dayStart) < DailyLimit
    requires Owns(db, userId, body.conversationId)
    ensures var h := PostMessage(db, userId, body, dayStart, now);
            && h.response.Json?
            && Intact(h.db) && Owns(h.db, userId, body.conversationId)
            && GetUser(h.db, userId).Some? && GetUser(h.db, userId).value.role == GetUser(db, userId).value.role
            && EffectiveUsage(GetUser(h.db, userId).value, dayStart) == EffectiveUsage(GetUser(db, userId).value, dayStart) + 1
  {
    ConversationModelExists(db, GetConversationById(db, body.conversationId).value);
    PostMessageKeepsIntact(db, userId, body, dayStart, now);
    PostUserMessage(db, userId, body, dayStart, now);
    PostUserMessageCounts(db, userId, body, dayStart, now);
  }

  /**
   * The same message at or over the limit: it is refused with 429, and the count, the role, the
   * ownership and the constraints are as they were.
   */
  lemma QuotaStepRefused(db: Db, userId: string, body: NewMessage, dayStart: Timestamp, now: Timestamp)
    requires Intact(db) && dayStart <= now
    requires GetUser(db, userId).Some? && !Unlimited(GetUser(db, userId).value.role)
    requires EffectiveUsage(GetUser(db, userId).value, dayStart) >= DailyLimit
    requires Owns(db, userId, body.conversationId)
    ensures var h := PostMessage(db, userId, body, dayStart, now);
            && h.response == Fail(TooManyRequests)
            && Intact(h.db) && Owns(h.db, userId, body.conversationId)
            && GetUser(h.db, userId).Some? && GetUser(h.db, userId).value.role == GetUser(db, userId).value.role
            && EffectiveUsage(GetUser(h.db, userId).value, dayStart) == EffectiveUsage(GetUser(db, userId).value, dayStart)
  {
    var u := GetUser(db, userId).value;
    QuotaGateReads(db, userId, dayStart, now, userId);
    var db1 := QuotaGate(db, userId, u.role, dayStart, now).0;
    assert db1.conversations == db.conversations;
    assert PostMessage(db, userId, body, dayStart, now) == Handled(db1, Fail(TooManyRequests));
  }

  /** A run of requests to `POST /api/messages` from one caller, in order; the database after, and every response. */
  function PostAll(db: Db, userId: string, bodies: seq<NewMessage>, dayStart: Timestamp, now: Timestamp)
    : (r: (Db, seq<Response<Posted>>))
    ensures |r.1| == |bodies|
    decreases |bodies|
  {
    if bodies == [] then (db, [])
    else
      var h := PostMessage(db, userId, bodies[0], dayStart, now);
      var (db', rest) := PostAll(h.db, userId, bodies[1..], dayStart, now);
      (db', [h.response] + rest)
  }

  /** The caller exists, is counted against the limit, owns conversation `cid`, and the database is intact. */
  ghost predicate Counting(db: Db, userId: string, cid: int) {
    Intact(db) && GetUser(db, userId).Some? && !Unlimited(GetUser(db, userId).value.role) && Owns(db, userId, cid)
  }

  /** The caller's calls of today, as the quota check reads them. */
  function CallsToday(db: Db, userId: string, dayStart: Timestamp): int
    requires GetUser(db, userId).Some?
  {
    EffectiveUsage(GetUser(db, userId).value, dayStart)
  }

  /**
   * One "user" message from a counted caller into a conversation of theirs: below the limit it
   * is answered and counted, at the limit it is refused with 429 and nothing is counted.
   */
  lemma QuotaStep(db: Db, userId: string, body: NewMessage, dayStart: Timestamp, now: Timestamp)
    requires Counting(db, userId, body.conversationId) && dayStart <= now && body.role == "user"
    ensures var h := PostMessage(db, userId, body, dayStart, now);
            var k := CallsToday(db, userId, dayStart);
            && Counting(h.db, userId, body.conversationId)
            && CallsToday(h.db, userId, dayStart) == (if k < DailyLimit then k + 1 else k)
            && (h.response.Json? <==> k < DailyLimit)
            && (h.response.Fail? ==> h.response == Fail(TooManyRequests))
  {
    if CallsToday(db, userId, dayStart) < DailyLimit {
      QuotaStepPasses(db, userId, body, dayStart, now);
    } else {
      QuotaStepRefused(db, userId, body, dayStart, now);
    }
  }

  /**
   * The responses to a run of requests from a caller who had made `k` calls today: the `i`-th is
   * answered exactly when `k + i` is below the limit, and otherwise refused with 429.
   */
  predicate Paced(rs: seq<Response<Posted>>, k: int) {
    forall i :: 0 <= i < |rs| ==>
      && (rs[i].Json? <==> k + i < DailyLimit)
      && (rs[i].Fail? ==> rs[i] == Fail(TooManyRequests))
  }

  /** A response paced for `k` calls, followed by a run paced for the count it leaves. */
  lemma PacedCons(r: Response<Posted>, rest: seq<Response<Posted>>, k: int)
    requires (r.Json? <==> k < DailyLimit) && (r.Fail? ==> r == Fail(TooManyRequests))
    requires Paced(rest, if k < DailyLimit then k + 1 else k)
    ensures Paced([r] + rest, k)
  {
    var k' := if k < DailyLimit then k + 1 else k;
    forall i | 1 <= i < |rest| + 1
      ensures (([r] + rest)[i].Json? <==> k + i < DailyLimit)
      ensures (([r] + rest)[i].Fail? ==> ([r] + rest)[i] == Fail(TooManyRequests))
    {
      assert ([r] + rest)[i] == rest[i - 1];
      assert rest[i - 1].Json? <==> k' + (i - 1) < DailyLimit;
    }
  }

  /**
   * The daily limit over a run of "user" messages into one conversation of the caller's, from a
   * counted caller who has made `k` calls today: the `i`-th request is answered with 200 exactly
   * when `k + i` is below the limit, and every other one with 429.
   */
  lemma {:induction false} QuotaSequence(db: Db, userId: string, cid: int, bodies: seq<NewMessage>,
                                         dayStart: Timestamp, now: Timestamp)
    requires Counting(db, userId, cid) && dayStart <= now
    requires forall i :: 0 <= i < |bodies| ==> bodies[i].role == "user" && bodies[i].conversationId == cid
    ensures Paced(PostAll(db, userId, bodies, dayStart, now).1, CallsToday(db, userId, dayStart))
    decreases |bodies|
  {
    if bodies != [] {
      var h := PostMessage(db, userId, bodies[0], dayStart, now);
      QuotaStep(db, userId, bodies[0], dayStart, now);
      QuotaSequence(h.db, userId, cid, bodies[1..], dayStart, now);
      var rest := PostAll(h.db, userId, bodies[1..], dayStart, now).1;
      PacedCons(h.response, rest, CallsToday(db, userId, dayStart));
      assert PostAll(db, userId, bodies, dayStart, now).1 == [h.response] + rest;
    }
  }

  /**
   * On a fresh day (or for a new user) a counted caller gets exactly ten answered messages: the
   * tenth is answered and the eleventh refused with 429.
   */
  lemma TenCallsADay(db: Db, userId: string, cid: int, bodies: seq<NewMessage>, dayStart: Timestamp, now: Timestamp)
    requires Counting(db, userId, cid) && dayStart <= now && |bodies| == 11
    requires CallsToday(db, userId, dayStart) == 0
    requires forall i :: 0 <= i < |bodies| ==> bodies[i].role == "user" && bodies[i].conversationId == cid
    ensures var rs := PostAll(db, userId, bodies, dayStart, now).1;
            (forall i :: 0 <= i < 10 ==> rs[i].Json?) && rs[10] == Fail(TooManyRequests)
  {
    QuotaSequence(db, userId, cid, bodies, dayStart, now);
    var rs := PostAll(db, userId, bodies, dayStart, now).1;
    assert rs[10].Fail?;
  }

  // ---------------------------------------------------------------------------------------------
  // GET /api/conversations/:id/messages

  /** The messages of a conversation, for its owner only; a missing conversation and another user's both give 404. */
  function ConversationMessagesRoute(db: Db, userId: string, conversationId: int): Response<seq<Message>> {
    match GetConversationById(db, conversationId)
    case None => Fail(NotFound)
    case Some(c) => if c.userId != userId then Fail(NotFound) else Json(GetConversationMessages(db, conversationId))
  }

  /** The owner gets exactly the conversation's messages, oldest first; anyone else gets 404. */
  lemma ConversationMessagesOwnerOnly(db: Db, userId: string, conversationId: int)
    ensures var r := ConversationMessagesRoute(db, userId, conversationId);
            && (r == Fail(NotFound) <==> !Owns(db, userId, conversationId))
            && (r.Json? ==> forall m :: m in r.body <==> m in db.messages && m.conversationId == conversationId)
            && (r.Json? ==> forall i, j :: 0 <= i < j < |r.body| ==> r.body[i].createdAt <= r.body[j].createdAt)
  {
  }

  // ---------------------------------------------------------------------------------------------
  // POST /api/payments and its simulated completion

  /** What the client sends to `POST /api/payments`; the caller's id and the expiry are filled in by the route. */
  datatype PaymentForm = PaymentForm(amount: string, payMethod: string, status: Option<string>)

  /** The insert shape the route builds: the caller as payer, expiring thirty days from now. */
  function PaymentRequest(userId: string, form: PaymentForm, now: Timestamp): NewPayment {
    NewPayment(userId, form.amount, form.payMethod, form.status, now + VipPeriodMs)
  }

  /** `POST /api/payments`: the payment row, or 500 when the insert throws. */
  function PostPayment(db: Db, userId: string, form: PaymentForm, now: Timestamp): Handled<Payment> {
    match CreatePayment(db, PaymentRequest(userId, form, now), now)
    case Err(_) => Handled(db, Fail(ServerError))
    case Ok(Inserted(db1, row)) => Handled(db1, Json(row))
  }

  /**
   * The completion the route schedules after answering: the payment is marked "completed", then the
   * payer becomes "vip" until the expiry the route computed.
   */
  function CompletePayment(db: Db, paymentId: int, userId: string, expiresAt: Timestamp, later: Timestamp): Db {
    UpdateUserRole(UpdatePaymentStatus(db, paymentId, "completed"), userId, Some("vip"), Some(expiresAt), later)
  }

  /**
   * A known caller's payment is stored as the next row with the chosen status ("pending" when none
   * was sent) and an expiry thirty days after the request; an unknown caller gets 500 and nothing
   * is stored.
   */
  lemma PostPaymentStores(db: Db, userId: string, form: PaymentForm, now: Timestamp)
    ensures var h := PostPayment(db, userId, form, now);
            && (h.response.Fail? <==> userId !in UserIds(db))
            && (h.response.Fail? ==> h.response.status == ServerError && h.db == db)
            && (h.response.Json? ==>
                  var row := h.response.body;
                  && row.id == db.next.payment && row.userId == userId
                  && row.expiresAt == now + VipPeriodMs
                  && row.status == form.status.GetOr("pending")
                  && h.db.payments == db.payments + [row])
  {
  }

  /**
   * Once the scheduled completion has run, the payer's role is "vip" (whatever it was before, an
   * admin's included), expiring thirty days after the payment request, and the payer's count of
   * today is untouched.
   */
  lemma PaymentGrantsVip(db: Db, userId: string, form: PaymentForm, now: Timestamp, later: Timestamp, dayStart: Timestamp)
    requires GetUser(db, userId).Some?
    ensures var h := PostPayment(db, userId, form, now);
            && h.response.Json?
            && var db2 := CompletePayment(h.db, h.response.body.id, userId, now + VipPeriodMs, later);
               && GetUser(db2, userId).Some?
               && GetUser(db2, userId).value.role == "vip"
               && GetUser(db2, userId).value.vipExpiresAt == Some(now + VipPeriodMs)
               && EffectiveUsage(GetUser(db2, userId).value, dayStart) == EffectiveUsage(GetUser(db, userId).value, dayStart)
  {
    var h := PostPayment(db, userId, form, now);
    var db1 := UpdatePaymentStatus(h.db, h.response.body.id, "completed");
    assert db1.users == db.users;
    UpdateUserRoleKeepsUsage(db1, userId, Some("vip"), Some(now + VipPeriodMs), later, userId, dayStart);
    UserUpdateLookup(db1, (u: User) => u.id == userId,
                     (u: User) => u.(role := "vip", vipExpiresAt := Some(now + VipPeriodMs), updatedAt := later), userId);
  }

  /** The completion marks exactly the new payment "completed": it is the only row with the fresh id. */
  lemma PaymentCompleted(db: Db, userId: string, form: PaymentForm, now: Timestamp, later: Timestamp)
    requires SerialsAhead(db)
    requires GetUser(db, userId).Some?
    ensures var h := PostPayment(db, userId, form, now);
            && h.response.Json?
            && CompletePayment(h.db, h.response.body.id, userId, now + VipPeriodMs, later).payments
               == db.payments + [h.response.body.(status := "completed")]
  {
    var h := PostPayment(db, userId, form, now);
    var row := h.response.body;
    var db1 := UpdatePaymentStatus(h.db, row.id, "completed");
    assert forall k :: 0 <= k < |db.payments| ==> db.payments[k] in db.payments;
    assert db1.payments == db.payments + [row.(status := "completed")];
  }

  /** The payment route and its completion keep the database intact. */
  lemma PaymentKeepsIntact(db: Db, userId: string, form: PaymentForm, now: Timestamp, later: Timestamp)
    requires Intact(db)
    ensures var h := PostPayment(db, userId, form, now);
            && Intact(h.db)
            && (h.response.Json? ==> Intact(CompletePayment(h.db, h.response.body.id, userId, now + VipPeriodMs, later)))
  {
    var h := PostPayment(db, userId, form, now);
    if h.response.Json? {
      CreatePaymentKeepsIntact(db, PaymentRequest(userId, form, now), now);
      UpdatePaymentStatusKeepsIntact(h.db, h.response.body.id, "completed");
      UpdateUserRoleKeepsIntact(UpdatePaymentStatus(h.db, h.response.body.id, "completed"), userId, Some("vip"),
                                Some(now + VipPeriodMs), later);
    }
  }

  // ---------------------------------------------------------------------------------------------
  // Admin routes

  const RoleUpdated := "User role updated successfully"
  const UserDeleted := "User deleted successfully"

  /** The guard of every admin route: the caller exists and has role "admin". */
  predicate IsAdmin(db: Db, callerId: string) {
    GetUser(db, callerId).Some? && GetUser(db, callerId).value.role == "admin"
  }

  /** `GET /api/admin/users`. */
  function AdminListUsers(db: Db, callerId: string): Response<seq<User>> {
    if !IsAdmin(db, callerId) then Fail(Forbidden) else Json(GetAllUsers(db))
  }

  /** `GET /api/admin/stats`. */
  function AdminStats(db: Db, callerId: string, dayStart: Timestamp, now: Timestamp): Response<Stats> {
    if !IsAdmin(db, callerId) then Fail(Forbidden) else Json(GetUserStats(db, dayStart, now))
  }

  /**
   * The `role` field of the role route's JSON body, which the route reads without validating it:
   * left out (`undefined`), `null`, or a string. Other JSON values are not modelled.
   */
  datatype RoleField = Missing | Null | Given(name: string)

  /** The expiry the role route passes along: thirty days from now for "vip", and none (`undefined`) otherwise. */
  function RoleExpiry(role: RoleField, now: Timestamp): Option<Timestamp> {
    if role == Given("vip") then Some(now + VipPeriodMs) else None
  }

  /**
   * `PUT /api/admin/users/:id/role`. A missing role reaches the update as `undefined`, which is
   * skipped, so only `updatedAt` is written and the route still reports success. A `null` role
   * breaks the column's NOT NULL on a matching row: the statement writes nothing and the route
   * answers 500; with no matching row there is nothing to reject.
   */
  function AdminSetRole(db: Db, callerId: string, userId: string, role: RoleField, now: Timestamp): Handled<string> {
    if !IsAdmin(db, callerId) then Handled(db, Fail(Forbidden))
    else match role
      case Null => if userId in UserIds(db) then Handled(db, Fail(ServerError)) else Handled(db, Json(RoleUpdated))
      case Missing => Handled(UpdateUserRole(db, userId, None, None, now), Json(RoleUpdated))
      case Given(name) => Handled(UpdateUserRole(db, userId, Some(name), RoleExpiry(role, now), now), Json(RoleUpdated))
  }

  /** `DELETE /api/admin/users/:id`. */
  function AdminDeleteUser(db: Db, callerId: string, userId: string): Handled<string> {
    if !IsAdmin(db, callerId) then Handled(db, Fail(Forbidden))
    else Handled(DeleteUserCascade(db, userId), Json(UserDeleted))
  }

  /**
   * Every admin route answers 403 exactly when the caller is not an existing admin, and then
   * changes nothing. For an admin the reads, the deletion and the role change succeed, except a
   * role change to `null` of an existing user, which fails with 500 and changes nothing.
   */
  lemma AdminGuards(db: Db, callerId: string, userId: string, role: RoleField, dayStart: Timestamp, now: Timestamp)
    ensures AdminListUsers(db, callerId) == Fail(Forbidden) <==> !IsAdmin(db, callerId)
    ensures AdminStats(db, callerId, dayStart, now) == Fail(Forbidden) <==> !IsAdmin(db, callerId)
    ensures var h := AdminSetRole(db, callerId, userId, role, now);
            && (h.response == Fail(Forbidden) <==> !IsAdmin(db, callerId))
            && (!IsAdmin(db, callerId) ==> h.db == db)
            && (IsAdmin(db, callerId) && role == Null && userId in UserIds(db) ==>
                  h.response == Fail(ServerError) && h.db == db)
            && (IsAdmin(db, callerId) && (role != Null || userId !in UserIds(db)) ==> h.response == Json(RoleUpdated))
    ensures var h := AdminDeleteUser(db, callerId, userId);
            && (h.response == Fail(Forbidden) <==> !IsAdmin(db, callerId))
            && (!IsAdmin(db, callerId) ==> h.db == db)
            && (IsAdmin(db, callerId) ==> h.response == Json(UserDeleted))
  {
  }

  /** An admin sees every user once, newest first, and the dashboard figures of the whole database. */
  lemma AdminReadsEverything(db: Db, callerId: string, dayStart: Timestamp, now: Timestamp)
    requires IsAdmin(db, callerId)
    ensures AdminListUsers(db, callerId).Json?
    ensures multiset(AdminListUsers(db, callerId).body) == multiset(db.users)
    ensures var us := AdminListUsers(db, callerId).body;
            forall i, j :: 0 <= i < j < |us| ==> us[i].createdAt >= us[j].createdAt
    ensures AdminStats(db, callerId, dayStart, now) ==
            Json(Stats(|db.users|, |Where(db.users, (x: User) => IsCurrentVip(x, now))|, TodayCalls(db, dayStart)))
  {
  }

  /**
   * An admin's role change: the target takes the new role when the body gives one and keeps its
   * role when it does not; a promotion to "vip" expires thirty days from now, while anything else
   * keeps the stored expiry (the column is skipped); `updatedAt` is stamped unless the role is
   * `null`, which is refused and writes nothing; the target's count of today, every other user and
   * the database's constraints are untouched.
   */
  lemma AdminSetRoleEffect(db: Db, callerId: string, userId: string, role: RoleField, now: Timestamp,
                           dayStart: Timestamp, other: string)
    requires IsAdmin(db, callerId) && GetUser(db, userId).Some?
    ensures var h := AdminSetRole(db, callerId, userId, role, now);
            var u := GetUser(db, userId).value;
            && (role == Null <==> h.response == Fail(ServerError))
            && (role == Null ==> h.db == db)
            && GetUser(h.db, userId).Some?
            && GetUser(h.db, userId).value.role == (if role.Given? then role.name else u.role)
            && GetUser(h.db, userId).value.vipExpiresAt == (if role == Given("vip") then Some(now + VipPeriodMs) else u.vipExpiresAt)
            && GetUser(h.db, userId).value.updatedAt == (if role == Null then u.updatedAt else now)
            && EffectiveUsage(GetUser(h.db, userId).value, dayStart) == EffectiveUsage(u, dayStart)
            && (other != userId ==> GetUser(h.db, other) == GetUser(db, other))
            && (Intact(db) ==> Intact(h.db))
  {
    if role != Null {
      var name := if role.Given? then Some(role.name) else None;
      var expiry := RoleExpiry(role, now);
      UpdateUserRoleKeepsUsage(db, userId, name, expiry, now, userId, dayStart);
      UpdateUserRoleKeepsUsage(db, userId, name, expiry, now, other, dayStart);
      UserUpdateLookup(db, (u: User) => u.id == userId,
                       (u: User) => u.(role := name.GetOr(u.role), vipExpiresAt := if expiry.Some? then expiry else u.vipExpiresAt,
                                       updatedAt := now), userId);
      if Intact(db) {
        UpdateUserRoleKeepsIntact(db, userId, name, expiry, now);
      }
    }
  }

  /**
   * An admin's deletion removes the user with everything that references them (their
   * conversations with those conversations' messages, their payments and statistics) and leaves
   * the database intact; an admin may delete themselves.
   */
  lemma AdminDeleteUserEffect(db: Db, callerId: string, userId: string)
    requires IsAdmin(db, callerId)
    ensures var db' := AdminDeleteUser(db, callerId, userId).db;
            && userId !in UserIds(db')
            && (forall c :: c in db'.conversations ==> c.userId != userId)
            && (forall p :: p in db'.payments ==> p.userId != userId)
            && (forall s :: s in db'.usageStats ==> s.userId != userId)
            && (forall m :: m in db'.messages ==> m.conversationId !in ConversationsOf(db, userId))
            && (forall u :: u in db.users && u.id != userId ==> u in db'.users)
            && (Intact(db) ==> Intact(db'))
  {
    if Intact(db) {
      DeleteUserKeepsIntact(db, userId);
    }
  }

  // ---------------------------------------------------------------------------------------------
  // initializeAiModels

  /** The six models a fresh installation offers, in the order they are inserted. */
  const DefaultModels: seq<NewModel> := [
    NewModel("gpt-4", "龙神GPT-4", "OpenAI",
             Some("最强大的语言理解与生成模型，擅长复杂推理、创意写作和代码生成"),
             Some(95), Some("fast"), Some("text"), Some(true), Some(false)),
    NewModel("claude", "凤凰Claude", "Anthropic",
             Some("注重安全性和有用性的AI助手，擅长深度分析、学术研究和安全对话"),
             Some(93), Some("medium"), Some("text"), Some(true), Some(false)),
    NewModel("gemini", "麒麟Gemini", "Google",
             Some("支持文本、图像、音频多模态处理的先进AI模型，适合综合性任务处理"),
             Some(91), Some("fast"), Some("multimodal"), Some(true), Some(true)),
    NewModel("dall-e", "神笔DALL-E", "OpenAI",
             Some("革命性的文本到图像生成模型，能够创造出惊人的艺术作品和概念图像"),
             Some(88), Some("medium"), Some("image"), Some(true), Some(true)),
    NewModel("midjourney", "幻境Midjourney", "Midjourney",
             Some("专业级艺术图像生成工具，特别擅长创造富有想象力的艺术作品"),
             Some(92), Some("slow"), Some("image"), Some(true), Some(true)),
    NewModel("codex", "文曲星CodeX", "OpenAI",
             Some("专门优化的代码生成和理解模型，支持多种编程语言和框架"),
             Some(96), Some("fast"), Some("code"), Some(true), Some(false))
  ]

  /** The names of the seeded models. */
  const DefaultModelNames: seq<string> := ["gpt-4", "claude", "gemini", "dall-e", "midjourney", "codex"]

  /** `initializeAiModels()`: seed the defaults when the model table is empty, otherwise do nothing. */
  function InitializeAiModels(db: Db, now: Timestamp): Db {
    if |GetAllModels(db)| == 0 then InsertModels(db, DefaultModels, now) else db
  }

  /**
   * On an empty model table the six defaults are inserted in order with the next six ids, all
   * active, and only gemini, dall-e and midjourney reserved for VIPs.
   */
  lemma InitializeSeedsEmpty(db: Db, now: Timestamp)
    requires db.models == []
    ensures var r := InitializeAiModels(db, now);
            && |r.models| == 6
            && (forall i :: 0 <= i < 6 ==> r.models[i].name == DefaultModelNames[i] && r.models[i].id == db.next.model + i)
            && (forall i :: 0 <= i < 6 ==> r.models[i].isActive)
            && (forall i :: 0 <= i < 6 ==>
                  && r.models[i].displayName == DefaultModels[i].displayName
                  && r.models[i].provider == DefaultModels[i].provider
                  && r.models[i].description == DefaultModels[i].description
                  && r.models[i].accuracy == DefaultModels[i].accuracy
                  && r.models[i].speed == DefaultModels[i].speed
                  && r.models[i].category == DefaultModels[i].category
                  && r.models[i].createdAt == now)
            && (forall i :: 0 <= i < 6 ==> (r.models[i].requiresVip <==> 2 <= i <= 4))
            && r.users == db.users && r.conversations == db.conversations
  {
    var r := InsertModels(db, DefaultModels, now);
    assert |GetAllModels(db)| == 0 by {
      assert |multiset(GetAllModels(db))| == 0;
    }
    forall i | 0 <= i < 6
      ensures r.models[i].name == DefaultModelNames[i] && r.models[i].isActive
      ensures r.models[i].displayName == DefaultModels[i].displayName
      ensures r.models[i].provider == DefaultModels[i].provider
      ensures r.models[i].description == DefaultModels[i].description
      ensures r.models[i].accuracy == DefaultModels[i].accuracy
      ensures r.models[i].speed == DefaultModels[i].speed
      ensures r.models[i].category == DefaultModels[i].category
      ensures r.models[i].createdAt == now
      ensures r.models[i].requiresVip <==> 2 <= i <= 4
    {
      assert r.models[|db.models| + i] == r.models[i];
    }
  }

  /** With any model present nothing is inserted: the database is returned as it was. */
  lemma InitializeKeepsExisting(db: Db, now: Timestamp)
    requires db.models != []
    ensures InitializeAiModels(db, now) == db
  {
    assert |multiset(GetAllModels(db))| == |db.models|;
  }

  /** Seeding twice, at any two times, inserts the defaults once. */
  lemma InitializeIdempotent(db: Db, now: Timestamp, later: Timestamp)
    ensures InitializeAiModels(InitializeAiModels(db, now), later) == InitializeAiModels(db, now)
  {
    var r := InitializeAiModels(db, now);
    assert |multiset(GetAllModels(db))| == |db.models|;
    if db.models == [] {
      InitializeSeedsEmpty(db, now);
    }
    InitializeKeepsExisting(r, later);
  }

  lemma InitializeKeepsIntact(db: Db, now: Timestamp)
    requires Intact(db)
    ensures Intact(InitializeAiModels(db, now))
  {
    if |GetAllModels(db)| == 0 {
      InsertModelsKeepsIntact(db, DefaultModels, now);
    }
  }
}
