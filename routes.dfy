/**
 * The handlers of server/routes.ts that write, as the source runs them: one storage call after the
 * other on the shared `DatabaseStorage`, returning early at each guard. Each handler is proved to
 * leave the storage and answer exactly as the matching function of `RouteModel` says, so the
 * lemmas proved there (the quota, the ownership check, the admin guard, the payment expiry, the
 * seeding) hold of the handlers, and each keeps the declared constraints.
 */
module Routes {
  import opened Wrappers
  import opened Schema
  import M = StorageModel
  import opened RouteModel
  import opened Storage

  /** `POST /api/messages`. */
  method PostMessage(storage: DatabaseStorage, userId: string, body: NewMessage, dayStart: Timestamp, now: Timestamp)
    returns (response: Response<Posted>)
    modifies storage
    ensures storage.State() == RouteModel.PostMessage(old(storage.State()), userId, body, dayStart, now).db
    ensures response == RouteModel.PostMessage(old(storage.State()), userId, body, dayStart, now).response
    ensures old(storage.Valid()) ==> storage.Valid()
  {
    ghost var db0 := storage.State();
    var user := storage.GetUser(userId);
    if user.None? {
      return Fail(NotFound);
    }
    if !Unlimited(user.value.role) {
      var usage := storage.GetUserDailyUsage(userId, dayStart, now);
      if usage >= DailyLimit {
        return Fail(TooManyRequests);
      }
    }
    ghost var db1 := storage.State();
    assert db1 == QuotaGate(db0, userId, user.value.role, dayStart, now).0;
    var conversation := storage.GetConversationById(body.conversationId);
    if conversation.None? || conversation.value.userId != userId {
      return Fail(Forbidden);
    }
    response := StoreMessage(storage, userId, conversation.value.modelId, body, dayStart, now);
  }

  /**
   * The writes of `POST /api/messages` once every check has passed: the message; for a "user"
   * message the count and then the placeholder reply.
   */
  method StoreMessage(storage: DatabaseStorage, userId: string, modelId: int, body: NewMessage,
                      dayStart: Timestamp, now: Timestamp)
    returns (response: Response<Posted>)
    modifies storage
    ensures storage.State() == RouteModel.StoreMessage(old(storage.State()), userId, modelId, body, dayStart, now).db
    ensures response == RouteModel.StoreMessage(old(storage.State()), userId, modelId, body, dayStart, now).response
    ensures old(storage.Valid()) ==> storage.Valid()
  {
    var message := storage.AddMessage(body, now);
    if message.Err? {
      return Fail(ServerError);
    }
    if body.role == "user" {
      var counted := storage.IncrementUsage(userId, modelId, dayStart, now);
      if counted.Err? {
        return Fail(ServerError);
      }
      var reply := storage.AddMessage(ReplyTo(body), now);
      if reply.Err? {
        return Fail(ServerError);
      }
      response := Json(Pair(message.value, reply.value));
    } else {
      response := Json(One(message.value));
    }
  }

  /** `POST /api/payments`, answered before the completion runs. */
  method PostPayment(storage: DatabaseStorage, userId: string, form: PaymentForm, now: Timestamp)
    returns (response: Response<Payment>)
    modifies storage
    ensures storage.State() == RouteModel.PostPayment(old(storage.State()), userId, form, now).db
    ensures response == RouteModel.PostPayment(old(storage.State()), userId, form, now).response
    ensures old(storage.Valid()) ==> storage.Valid()
  {
    var payment := storage.CreatePayment(PaymentRequest(userId, form, now), now);
    if payment.Err? {
      return Fail(ServerError);
    }
    response := Json(payment.value);
  }

  /** The completion `POST /api/payments` schedules, run at a later time. */
  method CompletePayment(storage: DatabaseStorage, paymentId: int, userId: string, expiresAt: Timestamp,
                         later: Timestamp)
    modifies storage
    ensures storage.State() == RouteModel.CompletePayment(old(storage.State()), paymentId, userId, expiresAt, later)
    ensures old(storage.Valid()) ==> storage.Valid()
  {
    storage.UpdatePaymentStatus(paymentId, "completed");
    storage.UpdateUserRole(userId, Some("vip"), Some(expiresAt), later);
  }

  /** `PUT /api/admin/users/:id/role`. */
  method AdminSetRole(storage: DatabaseStorage, callerId: string, userId: string, role: RoleField, now: Timestamp)
    returns (response: Response<string>)
    modifies storage
    ensures storage.State() == RouteModel.AdminSetRole(old(storage.State()), callerId, userId, role, now).db
    ensures response == RouteModel.AdminSetRole(old(storage.State()), callerId, userId, role, now).response
    ensures old(storage.Valid()) ==> storage.Valid()
  {
    var admin := storage.GetUser(callerId);
    if admin.None? || admin.value.role != "admin" {
      return Fail(Forbidden);
    }
    var vipExpiresAt: Option<Timestamp> := None;
    if role == Given("vip") {
      vipExpiresAt := Some(now + VipPeriodMs);
    }
    match role {
      case Null =>
        // `SET role = NULL` breaks the column's NOT NULL on a matching row; the statement throws.
        var target := storage.GetUser(userId);
        if target.Some? {
          return Fail(ServerError);
        }
      case Missing =>
        storage.UpdateUserRole(userId, None, vipExpiresAt, now);
      case Given(name) =>
        storage.UpdateUserRole(userId, Some(name), vipExpiresAt, now);
    }
    response := Json(RoleUpdated);
  }

  /** `DELETE /api/admin/users/:id`. */
  method AdminDeleteUser(storage: DatabaseStorage, callerId: string, userId: string)
    returns (response: Response<string>)
    modifies storage
    ensures storage.State() == RouteModel.AdminDeleteUser(old(storage.State()), callerId, userId).db
    ensures response == RouteModel.AdminDeleteUser(old(storage.State()), callerId, userId).response
    ensures old(storage.Valid()) ==> storage.Valid()
  {
    var admin := storage.GetUser(callerId);
    if admin.None? || admin.value.role != "admin" {
      return Fail(Forbidden);
    }
    storage.DeleteUser(userId);
    response := Json(UserDeleted);
  }

  /** `initializeAiModels()`, run once when the routes are registered. */
  method InitializeAiModels(storage: DatabaseStorage, now: Timestamp)
    modifies storage
    ensures storage.State() == RouteModel.InitializeAiModels(old(storage.State()), now)
    ensures old(storage.Valid()) ==> storage.Valid()
  {
    var models := M.GetAllModels(storage.State());
    if |models| == 0 {
      storage.InsertModels(DefaultModels, now);
    }
  }
}
