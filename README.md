# KunlunPlatform core, modelled in Dafny

KunlunPlatform is a chat site that lets signed-in users talk to several AI models. Plain users get
ten calls a day; "vip" and "admin" users are unlimited. A payment buys thirty days of VIP, and
admins manage users. This project models the parts of the platform that hold state or make
decisions, and proves properties of them:

- **Storage** (`server/storage.ts`, `shared/schema.ts`).
  - The six tables are values of `Schema.Db`, which also holds the next value of each `serial` id.
  - Every storage operation is a pure transition in `StorageModel`.
  - `Storage.DatabaseStorage` holds one sequence field per table. Its methods update those fields
    step by step, as the source's statements do, and each is proved to end in the state the
    matching `StorageModel` transition gives.
  - The declared primary keys, the `unique` e-mail column, the foreign keys and the
    `ON DELETE CASCADE` relations are modelled. An insert whose referenced row is missing fails
    and changes nothing. `Schema.Intact` states the constraints (every foreign key resolves, no two
    rows of a table share an id, no two users share a non-null e-mail, every `serial` id lies below
    its sequence), and every write is proved to keep them.
- **Daily usage accounting.**
  - A user's counter is stale when its stamp (null reads as the epoch) is before the start of
    today. A stale counter reads as zero.
  - Reading the counter writes the reset.
  - Counting a call restarts a stale counter at 1, or else adds 1.
  - A per-(user, model, day) `usage_stats` row is bumped, or inserted if there is none.
- **The routes** (`server/routes.ts`).
  - `RouteModel` decides each handler as a function from the database to a new database and a
    response: `POST /api/messages` with its quota check, ownership check and placeholder reply;
    the payment route and its delayed completion; the four admin routes; and the seeding of the
    model table.
  - `Routes` holds the handlers as methods over a `DatabaseStorage`, proved against those
    functions.
  - The quota is proved over a whole run of requests: from zero calls today, a plain user's first
    ten messages are answered and the eleventh gets 429.
- **The AI service** (`server/aiService.ts`).
  - Which integration a model's exact name selects.
  - What each integration does without its key.
  - The catch-all fallback to a canned demo reply.
  - The Claude request shape.
  - The demo reply's four templates.
- **The client's mirrors of the server rules** (`client/src/components/chat-interface.tsx`,
  `client/src/components/ai-models.tsx`).
  - The remaining-calls badge is proved to read "0" exactly when the server would answer 429.
  - The send guard, the Enter key and the auto-opened conversation are modelled.
  - The VIP lock on model cards, and the icon and category fallbacks, are modelled.

Some behaviour of the source that the model keeps as written:
- The message route never calls the AI service. It stores the placeholder reply "这是来自AI模型的回复：" followed by the message.
- Whether a role is unlimited depends on the role string alone. `vipExpiresAt` is never consulted by the quota.
- The VIP lock on models exists only in the client. No route reads `requiresVip`.
- A paying user becomes "vip" whatever their role was, an admin included.
- Demoting a VIP keeps the old `vipExpiresAt`: the role route passes `undefined`, and an update skips undefined columns.
- The role route does not validate its body. Without a `role` it writes only `updatedAt` and still reports success. A `null` role breaks the column's NOT NULL and gets 500.

Inputs the source takes from its environment:
- **Times.** The current time `now` and the start of the local day `dayStart` are integer milliseconds with `dayStart <= now`.
- **API keys.** Whether each key is set is the boolean record `AiService.Keys`.
- **Provider calls.** What the one provider call of a request returned is `AiService.CallOutcome`.
- **Template choice.** `Math.random`'s choice of demo template is the index `pick`.

## Model

| member | source | states |
|---|---|---|
| Schema.EmptyDb | shared/schema.ts:29-95 | a database with no rows and every id sequence at 1 satisfies all the declared constraints: foreign keys, primary keys and the unique e-mail |
| Schema.StatKeysUnique | shared/schema.ts:89-90 | `usage_stats` ids, which ascend in row order, are a primary key: no two rows share one |
| Schema.DeleteUserCascade | shared/schema.ts:61-91 | deleting a user removes exactly their row, their conversations, payments and usage rows, and the messages of their conversations; models and id sequences are untouched |
| Schema.DeleteUserKeepsIntact | shared/schema.ts:61-91 | after the cascades no foreign key dangles and the id invariants still hold |
| Schema.DeleteUserKeepsKeys | shared/schema.ts:29-95 | deleting a user and its cascades leaves no two rows of a table with the same id and no two users with the same e-mail |
| StorageModel.GetUser | server/storage.ts:66-69 | a found user is a row with that id; nothing is found exactly when no row has the id |
| StorageModel.GetModelById | server/storage.ts:95-98 | a found model is a row with that id; nothing is found exactly when no row has the id |
| StorageModel.GetConversationById | server/storage.ts:121-127 | a found conversation is a row with that id; nothing is found exactly when no row has the id |
| StorageModel.UpsertUser | server/storage.ts:71-84 | fails exactly when another user holds the e-mail; a new id is inserted with the defaults (role "user", counter 0, stamp now); an existing id gets the new profile and `updatedAt` and keeps role, expiry, counter, stamp and creation time; only `users` changes |
| StorageModel.UpsertThenGet | server/storage.ts:71-84 | after an upsert, looking up the id finds exactly the returned row, and every other user is unchanged |
| StorageModel.UpsertKeepsIntact | server/storage.ts:71-84 | an upsert keeps every constraint, ids and non-null e-mails unique among users included, and adds exactly the upserted id to the user ids |
| StorageModel.UpsertKeepsKeys | server/storage.ts:71-84 | after a successful upsert no two users share an id or a non-null e-mail: a new id is appended, an existing one is rewritten in place, and the failure case keeps the e-mail unique |
| StorageModel.NewUserStartsAtZero | shared/schema.ts:35-38 | a new user has role "user", no VIP expiry, and zero calls today |
| StorageModel.InsertModels | server/storage.ts:100-102 | at least one model is given (an empty insert throws); the models are appended in order with consecutive new ids, each row carrying the given name, display name, provider, description, accuracy, speed and category and stamped now; `isActive` defaults to true and `requiresVip` to false; nothing else changes |
| StorageModel.InsertModelsKeepsIntact | server/storage.ts:100-102 | inserting models keeps the constraints |
| StorageModel.InsertModelsKeepsModelKeys | server/storage.ts:100-102 | the inserted models take fresh consecutive ids, so model ids stay unique and below the sequence |
| StorageModel.CreateConversation | server/storage.ts:105-111 | fails exactly when the user or the model does not exist; otherwise it appends one row with the next id, the given fields and both stamps set to now |
| StorageModel.CreateConversationKeepsIntact | server/storage.ts:105-111 | creating a conversation keeps the constraints |
| StorageModel.AddMessage | server/storage.ts:130-143 | fails exactly when the conversation does not exist; otherwise it appends one message with the next id, stamped now, and sets `updatedAt` = now on that conversation alone |
| StorageModel.AddMessageKeepsConversations | server/storage.ts:136-140 | after adding a message every conversation is the same except, possibly, its `updatedAt` |
| StorageModel.TouchKeepsConversation | server/storage.ts:136-140 | touching a conversation changes at most its `updatedAt`, and a missing conversation stays missing |
| StorageModel.AddMessageFreshId | server/storage.ts:130-134 | the new message's id differs from the id of every existing message |
| StorageModel.AddMessageKeepsIntact | server/storage.ts:130-143 | adding a message keeps the constraints |
| StorageModel.AddMessageKeepsKeys | server/storage.ts:130-143 | the new message's id is fresh and the touched conversation keeps its id, so every primary key stays unique |
| StorageModel.CreatePayment | server/storage.ts:154-160 | fails exactly when the user does not exist; otherwise it appends one row with the next id, status "pending" unless one is given, and the given expiry |
| StorageModel.CreatePaymentKeepsIntact | server/storage.ts:154-160 | creating a payment keeps the constraints |
| StorageModel.UpdatePaymentStatus | server/storage.ts:170-175 | the rows with the id get the new status; every other row and table is unchanged |
| StorageModel.UpdatePaymentStatusKeepsIntact | server/storage.ts:170-175 | updating a status keeps the constraints |
| StorageModel.IncrementUsage | server/storage.ts:178-222 | if today's row for (user, model) exists its count rises by one and nothing is inserted; otherwise one row with count 1, dated now, is appended, which fails when the user or the model is missing; only `usage_stats` and `users` change |
| StorageModel.IncrementUsageCountsCall | server/storage.ts:209-221 | a stale counter restarts at 1 with the stamp set to now; a current one gains 1 with its stamp kept; either way today's count rises by exactly one and the role is kept; a missing user stays missing; other users are unchanged |
| StorageModel.IncrementUsageAddsTodayCall | server/storage.ts:182-206 | every successful increment adds exactly one to the dashboard's calls of today |
| StorageModel.BumpAddsTodayCall | server/storage.ts:194-198 | bumping today's existing row adds one to today's calls, since ids are unique |
| StorageModel.InsertAddsTodayCall | server/storage.ts:199-206 | inserting a row dated now adds one to today's calls |
| StorageModel.IncrementUsageKeepsIntact | server/storage.ts:178-222 | a successful increment keeps the constraints |
| StorageModel.RecordModelUseKeepsIntact | server/storage.ts:182-206 | bumping or inserting today's statistics row keeps the constraints |
| StorageModel.GetUserDailyUsage | server/storage.ts:224-238 | returns 0 for a missing user and the effective count otherwise; a stale counter is reset (0, stamp now) as a side effect, a current one causes no write |
| StorageModel.DailyUsageReadKeepsCount | server/storage.ts:224-248 | the read changes only the caller's counter and stamp, leaves the counter current and equal to the returned value, and leaves every other user alone |
| StorageModel.DailyUsageReadTwice | server/storage.ts:232-248 | reading twice on the same day gives the same value and writes nothing the second time |
| StorageModel.ResetKeepsIntact | server/storage.ts:240-248 | a reset keeps the constraints |
| StorageModel.UpdateUserRole | server/storage.ts:305-314 | the user's row gets `updatedAt`; its role and its expiry are replaced only when one is given (an `undefined` column is skipped); every other row and table is unchanged |
| StorageModel.UpdateUserRoleKeepsUsage | server/storage.ts:305-314 | after a role change the user has the given role (or keeps theirs when none is given) and the same calls today, and every other user is unchanged |
| StorageModel.UpdateUserRoleKeepsIntact | server/storage.ts:305-314 | a role change keeps the constraints |
| StorageModel.GetAllModels | server/storage.ts:87-89 | the result is a permutation of all models, ordered by name |
| StorageModel.NameOrder | server/storage.ts:88 | ordering by name is total and transitive, so the sorted listings are well defined |
| StorageModel.GetActiveModels | server/storage.ts:91-93 | the result is exactly the active models, each once, ordered by name |
| StorageModel.GetUserConversations | server/storage.ts:113-119 | the result is exactly the user's conversations, most recently updated first |
| StorageModel.GetConversationMessages | server/storage.ts:145-151 | the result is exactly the conversation's messages, oldest first |
| StorageModel.GetUserPayments | server/storage.ts:162-168 | the result is exactly the user's payments, each as often as stored, newest first |
| StorageModel.GetAllUsers | server/storage.ts:251-253 | the result is a permutation of all users, newest first |
| StorageModel.GetUserStats | server/storage.ts:255-303 | `totalUsers` is the number of users; `vipUsers` counts the users with role "vip" and an expiry not yet passed; `todayCalls` is the sum of request counts over rows dated today or later |
| Query.WhereCounts | server/storage.ts:272-280 | a filter keeps every matching row as often as it occurs and drops the others, so a count over a filter (the current VIPs) counts exactly the matching rows |
| StorageModel.NoRowsTodayNoCalls | server/storage.ts:282-300 | with no row dated today, today's calls are 0 |
| Storage.DatabaseStorage.GetUser | server/storage.ts:66-69 | returns what `StorageModel.GetUser` gives on the current tables and changes nothing |
| Storage.DatabaseStorage.constructor | server/storage.ts:64-65 | a new storage holds the empty database, which satisfies the constraints |
| Storage.DatabaseStorage.GetConversationById | server/storage.ts:121-127 | returns what `StorageModel.GetConversationById` gives and changes nothing |
| Storage.DatabaseStorage.UpsertUser | server/storage.ts:71-84 | leaves the tables as `StorageModel.UpsertUser` says and keeps the constraints |
| Storage.DatabaseStorage.InsertModels | server/storage.ts:100-102 | leaves the tables as `StorageModel.InsertModels` says and keeps the constraints |
| Storage.DatabaseStorage.CreateConversation | server/storage.ts:105-111 | leaves the tables as `StorageModel.CreateConversation` says and keeps the constraints |
| Storage.DatabaseStorage.AddMessage | server/storage.ts:130-143 | the insert and then the conversation touch leave the tables as `StorageModel.AddMessage` says and keep the constraints |
| Storage.DatabaseStorage.CreatePayment | server/storage.ts:154-160 | leaves the tables as `StorageModel.CreatePayment` says and keeps the constraints |
| Storage.DatabaseStorage.UpdatePaymentStatus | server/storage.ts:170-175 | leaves the tables as `StorageModel.UpdatePaymentStatus` says and keeps the constraints |
| Storage.DatabaseStorage.IncrementUsage | server/storage.ts:178-222 | the statistics step and then the user step end where `StorageModel.IncrementUsage` says, or fail with nothing written, and keep the constraints |
| Storage.DatabaseStorage.RecordModelUse | server/storage.ts:182-206 | the lookup and then the bump or insert of today's row end where `StorageModel.RecordModelUse` says |
| Storage.DatabaseStorage.CountUserCall | server/storage.ts:208-221 | reading the user and then rewriting the counter ends where `StorageModel.CountUserCall` says |
| Storage.DatabaseStorage.ResetDailyUsage | server/storage.ts:240-248 | leaves the tables as `StorageModel.ResetDailyUsage` says and keeps the constraints |
| Storage.DatabaseStorage.GetUserDailyUsage | server/storage.ts:224-238 | returns and writes what `StorageModel.GetUserDailyUsage` says |
| Storage.DatabaseStorage.UpdateUserRole | server/storage.ts:305-314 | leaves the tables as `StorageModel.UpdateUserRole` says and keeps the constraints |
| Storage.DatabaseStorage.DeleteUser | server/storage.ts:316-318 | leaves the tables as the cascading delete says and keeps the constraints |
| RouteModel.QuotaGateReads | server/routes.ts:107-113 | the quota check rewrites at most the caller's counter and stamp, keeps the caller's role and calls today, and refuses exactly when a non-vip, non-admin caller has used 10 or more calls today |
| RouteModel.UnlimitedSkipsQuota | server/routes.ts:108 | "vip" and "admin" callers are never answered 429, and the check reads and writes nothing for them |
| RouteModel.PostMessageGates | server/routes.ts:98-121 | 404 exactly for an unknown caller; 429 exactly for an over-quota caller; 403 exactly for a caller under the quota who does not own the conversation (so the quota is checked first); none of these stores a message or a count |
| RouteModel.StoreMessageStatus | server/routes.ts:123-146 | once the checks pass, the only possible failure is 500 |
| RouteModel.StoreUserMessage | server/routes.ts:123-138 | a "user" message is stored, followed by the assistant reply "这是来自AI模型的回复：" + content, with consecutive ids; the response is the pair |
| RouteModel.UserMessageSteps | server/routes.ts:123-138 | with the caller, the model and the conversation present, each of the three writes (message, count, reply) succeeds |
| RouteModel.StoreUserMessageCountsCaller | server/routes.ts:125-128 | storing a "user" message keeps the caller's role and adds exactly one to their calls today |
| RouteModel.StoreUserMessageTodayCalls | server/routes.ts:125-128 | storing a "user" message adds exactly one to the dashboard's calls of today |
| RouteModel.StoreUserMessageOwns | server/routes.ts:123-138 | storing a "user" message keeps the conversation the caller's |
| RouteModel.StoreUserMessageCounts | server/routes.ts:125-128 | storing a "user" message counts exactly one call for the caller, keeps their role, adds one to today's calls and keeps the conversation theirs |
| RouteModel.StoreOtherMessage | server/routes.ts:126-140 | any other role is stored alone: no reply, no count, and no change to users or statistics |
| RouteModel.StoreMessageKeepsIntact | server/routes.ts:123-138 | the writes of the message route keep the constraints |
| RouteModel.PostMessagePassesGates | server/routes.ts:98-123 | for an existing caller under the quota who owns the conversation, the route is exactly the stores, applied after the quota read |
| RouteModel.PostUserMessage | server/routes.ts:98-138 | such a caller's "user" message is answered with the stored message and the placeholder reply, and the two are appended in that order |
| RouteModel.PostUserMessageCounts | server/routes.ts:108-128 | such a caller's "user" message raises their calls today and the dashboard's calls of today by one each |
| RouteModel.ConversationModelExists | shared/schema.ts:59-66 | in a database satisfying the constraints, every conversation's model exists |
| RouteModel.PostOtherMessage | server/routes.ts:126-140 | such a caller's message with another role is stored alone and does not change their count |
| RouteModel.PostMessageKeepsIntact | server/routes.ts:98-147 | a request that passes the checks keeps the constraints, the ownership and the caller's role |
| RouteModel.QuotaStep | server/routes.ts:108-128 | one "user" message from a plain caller succeeds exactly when the calls today are under 10; success raises the count by one; refusal is 429 and keeps the count |
| RouteModel.QuotaStepPasses | server/routes.ts:108-138 | a plain caller under the limit who owns the conversation is answered with JSON; the constraints, the ownership and the role are kept |
| RouteModel.QuotaStepRefused | server/routes.ts:108-113 | a plain caller at or over the limit is answered 429; the constraints, the ownership and the role are kept |
| RouteModel.QuotaSequence | server/routes.ts:108-128 | over any run of "user" messages, request i succeeds exactly when k + i < 10 (k = calls before the run); every other request is 429 |
| RouteModel.TenCallsADay | server/routes.ts:110 | from zero calls today, ten messages succeed and the eleventh gets 429 |
| RouteModel.ConversationMessagesOwnerOnly | server/routes.ts:80-95 | 404 exactly when the caller does not own the conversation; otherwise exactly its messages, oldest first |
| RouteModel.PostPaymentStores | server/routes.ts:150-173 | an unknown caller gets 500 and nothing is stored; otherwise the next payment row is stored with the chosen status ("pending" by default) and an expiry 30 days after the request |
| RouteModel.PaymentGrantsVip | server/routes.ts:156-166 | after the completion the payer has role "vip", that expiry and unchanged calls today |
| RouteModel.PaymentCompleted | server/routes.ts:163-165 | after the completion the payments are the old ones plus the new row marked "completed" |
| RouteModel.PaymentKeepsIntact | server/routes.ts:150-173 | the payment route and its completion keep the constraints |
| RouteModel.AdminGuards | server/routes.ts:199-266 | each admin route answers 403 exactly when the caller is not an existing admin, and then changes nothing; for an admin the reads, the deletion and the role change succeed, except a `null` role for an existing user, which answers 500 and changes nothing |
| RouteModel.AdminReadsEverything | server/routes.ts:199-227 | an admin gets every user, newest first, and the dashboard statistics |
| RouteModel.AdminSetRoleEffect | server/routes.ts:236-244 | a string role is given to the target; with no role in the body the target keeps theirs and only `updatedAt` is written, and the route still reports success; a `null` role answers 500 and writes nothing; the expiry becomes now + 30 days for "vip" and is kept otherwise; calls today and other users are unchanged; the constraints hold |
| RouteModel.AdminDeleteUserEffect | server/routes.ts:259-261 | the target and everything that references them are gone, every other user stays, and the constraints hold |
| RouteModel.InitializeSeedsEmpty | server/routes.ts:273-354 | on an empty model table the six defaults are inserted in order with consecutive ids, each with its listed display name, provider, description, accuracy, speed and category, all active, with only gemini, dall-e and midjourney reserved for VIP |
| RouteModel.InitializeKeepsExisting | server/routes.ts:274-276 | a non-empty model table is left alone |
| RouteModel.InitializeIdempotent | server/routes.ts:273-354 | seeding twice is the same as seeding once |
| RouteModel.InitializeKeepsIntact | server/routes.ts:273-354 | seeding keeps the constraints |
| Routes.PostMessage | server/routes.ts:98-147 | the handler's storage calls and early returns give exactly the state and the response that `RouteModel.PostMessage` gives, and keep the constraints |
| Routes.StoreMessage | server/routes.ts:123-141 | the stores give the state and response `RouteModel.StoreMessage` gives |
| Routes.PostPayment | server/routes.ts:150-173 | the handler gives the state and response `RouteModel.PostPayment` gives |
| Routes.CompletePayment | server/routes.ts:163-166 | the two delayed writes give the state `RouteModel.CompletePayment` gives |
| Routes.AdminSetRole | server/routes.ts:229-250 | the handler gives the state and response `RouteModel.AdminSetRole` gives |
| Routes.AdminDeleteUser | server/routes.ts:252-266 | the handler gives the state and response `RouteModel.AdminDeleteUser` gives |
| Routes.InitializeAiModels | server/routes.ts:273-354 | reading the models and inserting the defaults only when there are none gives the state `RouteModel.InitializeAiModels` gives |
| AiService.MockResponseContent | server/aiService.ts:176-194 | the demo reply fails exactly on an empty message list; otherwise it contains the display name, quotes the last message (every template but the second), ends with the demo notice and is labelled with the model's name |
| AiService.TemplateMentions | server/aiService.ts:179-182 | every template contains the display name, and three of the four contain the last message |
| AiService.WithoutSystemMembers | server/aiService.ts:160 | the filtered messages are exactly the non-system entries |
| AiService.WithoutSystemAppend | server/aiService.ts:160 | filtering a concatenation filters each part and keeps them in order |
| AiService.WithoutSystemKeepsPlain | server/aiService.ts:160 | a conversation without system entries is sent unchanged |
| AiService.FirstSystem | server/aiService.ts:161 | absent exactly when there is no system entry; otherwise the content of the first system entry |
| AiService.ClaudeRequestShape | server/aiService.ts:144-161 | the Claude request names "claude-3-haiku-20240307" with 1000 tokens, carries the non-system messages in order and the first system text; DeepSeek and OpenAI get the conversation unchanged, and OpenAI gets the id passed |
| AiService.OtherNamesGetMock | server/aiService.ts:23-39 | a name outside the six, compared exactly, gets the demo reply of the model itself |
| AiService.SeededModelsGetMock | server/aiService.ts:23-39 | each of the six seeded model names gets the demo reply of the model itself |
| AiService.FailureFallsBack | server/aiService.ts:41-44 | a keyed provider whose call fails falls back to the demo reply of the model asked for |
| AiService.ProviderReplyLabels | server/aiService.ts:47-174 | a keyed provider's reply is labelled "deepseek-chat", the OpenAI id passed, or "claude-3-haiku", which differs from the id the Claude request names |
| AiService.KeyAbsentPersonas | server/aiService.ts:47-142 | without its key each integration answers with its own demo persona and ignores the provider; Qwen, GLM and Llama do so even with a key |
| AiService.EmptyConversation | server/aiService.ts:23-45 | with no messages the chat settles with an answer exactly when a keyed DeepSeek, OpenAI or Claude provider replies |
| AiService.ChatAnswers | server/aiService.ts:23-45 | with at least one message the chat always answers |
| ChatInterface.RemainingCallsValue | client/src/components/chat-interface.tsx:150-151 | for a limited role the badge is an unsigned decimal of max(0, 10 - usage); it reads "0" exactly when the usage is 10 or more, and "10" at zero usage |
| ChatInterface.RemainingCallsTellsUsage | client/src/components/chat-interface.tsx:150-151 | for a limited role two usages of at most ten show the same badge exactly when they are equal |
| ChatInterface.RemainingCallsUnlimited | client/src/components/chat-interface.tsx:143-148 | nothing is shown until the user and the usage are known; "无限" exactly for vip and admin |
| ChatInterface.RemainingCallsMatchesQuota | client/src/components/chat-interface.tsx:143-152 | given the stored user and the usage the server reports, the badge reads "0" exactly when the server's quota check would refuse (server/routes.ts:108-110) |
| Text.DecimalRoundTrip | client/src/components/chat-interface.tsx:151 | the decimal rendering of a count parses back to the count |
| Text.Trim | client/src/components/chat-interface.tsx:124-128 | the trimmed text is the input with a prefix and a suffix of white space removed; it is empty exactly when the input is all white space, and otherwise starts and ends with non-space |
| Text.TrimCharacterized | client/src/components/chat-interface.tsx:124-128 | any slice with only white space outside it and none at either end is the trimmed text, so trimming removes exactly the leading and trailing white space |
| Text.TrimIdempotent | client/src/components/chat-interface.tsx:124-128 | trimming the trimmed text changes nothing, so the posted content is already trimmed |
| ChatInterface.SendGuardMeaning | client/src/components/chat-interface.tsx:123-134 | whitespace-only input is never sent; what is sent is a "user" message to the open conversation whose text is the input without its leading and trailing white space, non-empty |
| ChatInterface.ConversationTitleNames | client/src/components/chat-interface.tsx:113 | the title is "与" + display name + "的对话" |
| ChatInterface.ChatPanel.HandleSendMessage | client/src/components/chat-interface.tsx:123-134 | when the guard passes, exactly one message (the trimmed input) is posted and a send is in flight; otherwise nothing happens |
| ChatInterface.ChatPanel.constructor | client/src/components/chat-interface.tsx:23-24 | a fresh panel has empty input, no conversation, nothing in flight and nothing posted, so the panel's invariant holds from the start |
| ChatInterface.ChatPanel.SetInput | client/src/components/chat-interface.tsx:279 | typing replaces the input and nothing else |
| ChatInterface.ChatPanel.HandleKeyPress | client/src/components/chat-interface.tsx:136-141 | Enter without Shift sends and suppresses the default; any other key does nothing |
| ChatInterface.ChatPanel.SendSucceeded | client/src/components/chat-interface.tsx:81-87 | a successful send clears the input |
| ChatInterface.ChatPanel.SendFailed | client/src/components/chat-interface.tsx:88-105 | a failed send keeps the input |
| ChatInterface.ChatPanel.SelectionChanged | client/src/components/chat-interface.tsx:108-116 | a conversation is requested exactly when a non-zero model id is chosen, its row has loaded and none is open; the request carries the model id and the title |
| ChatInterface.ChatPanel.ConversationCreated | client/src/components/chat-interface.tsx:51-54 | the created conversation becomes the current one |
| AiModels.HandleSelectModel | client/src/components/ai-models.tsx:38-52 | a locked model makes no `onSelectModel` call and shows the warning; an unlocked one makes exactly one call, with its id |
| AiModels.LockMatchesRoles | client/src/components/ai-models.tsx:39-83 | signed out, a model is locked exactly when it needs VIP; a model without the flag is never locked; vip and admin unlock every model |
| AiModels.SeededLocks | server/routes.ts:279-335 | of the seeded models exactly gemini, dall-e and midjourney need VIP |
| AiModels.IconsOfSeededModels | client/src/components/ai-models.tsx:14-81 | each seeded name has its own icon, all six different; a name that every object inherits from `Object.prototype` (such as "constructor") yields that inherited member instead of an icon; any other name gets the Brain icon |
| AiModels.CategoryFallback | client/src/components/ai-models.tsx:23-82 | a null or empty category reads as "text"; the badge exists exactly for the four listed categories; a name inherited from `Object.prototype` renders a blank badge; any other category leaves the lookup `undefined`; every seeded model's category is one of them |

## Left out

- Network and environment: the `fetch` calls, the parsing of provider JSON, `process.env`, and the provider temperature 0.7. Whether a key is set and what a call returned are inputs.
- `Math.random` and the `setTimeout` delays are not modelled. The template index is an input, and the delayed payment completion is a separate step (`RouteModel.CompletePayment`) run at a later time.
- Concurrency. One request runs at a time, so the race between the quota read and the later increment is not modelled.
- Local midnight is not computed. `dayStart` is an input, as are the timestamps.
- `monthlyRevenue` of the admin statistics is not modelled. It sums decimal strings through SQL and `Number(...)`. `StorageModel.GetUserStats` states the other three figures only.
- The `getInstance` singleton of the AI service is not modelled.
- zod `.parse`, Express, the session middleware and the pass-through read routes are not modelled. The pass-through routes are `GET /api/auth/user`, `/api/models`, `/api/models/:id`, `/api/conversations`, `/api/payments` and `/api/usage`. Their storage calls are modelled, and `POST /api/conversations` is `StorageModel.CreateConversation`.
- SQL ordering compares names by code point, so database collations are not modelled. The order among rows with equal sort keys is not stated.
- The UI pages, toasts, redirects, query invalidation and rendering are not modelled.
- StorageModel.IncrementUsage: with the schema's foreign keys, counting a call for a user who does not exist fails on the `usage_stats` insert (when there is no row for today), rather than inserting a row and leaving `users` alone.
- RouteModel.PostUserMessage: requires that the conversation's model exists. `RouteModel.PostUserMessageCounts` derives this from the constraints.
- RouteModel.StoreMessage: one `now` stamps both the user's message and the placeholder reply, so the model does not show that the reply, written by a later statement, sorts after the question by `createdAt`.
- RouteModel.AdminSetRole: the body's `role` is missing, `null` or a string. Other JSON values (numbers, objects) are not modelled.
- AiModels.IconFor: what React does when it renders an inherited `Object.prototype` member as an icon component is not modelled. The lookup's result is stated.
- Routes.PostMessage: a thrown error becomes 500 only where a foreign key fails. Other database failures are not modelled.
