/**
 * The chat panel of the client (client/src/components/chat-interface.tsx): the remaining-calls
 * badge, which mirrors the server's daily quota; the guard in front of sending a message; the
 * Enter key; and the effect that opens a conversation once a model is chosen.
 *
 * The component's state (the input box, the current conversation, whether a send is in flight)
 * becomes the fields of `ChatPanel`, and the two mutations it fires become the requests it
 * records in `sent` and `created`. Rendering, toasts, redirects and query invalidation are not
 * part of this model.
 */
module ChatInterface {
  import opened Wrappers
  import opened Text
  import opened Schema
  import opened StorageModel
  import opened RouteModel

  /** What the badge reads for an unlimited role. */
  const UnlimitedLabel := "无限"

  /**
   * `getRemainingCalls()`: nothing until both the signed-in user and the usage reply are known;
   * "无限" for the roles the server exempts from the quota; otherwise what is left of today's ten
   * calls, never below zero, in decimal.
   */
  function RemainingCalls(user: Option<User>, dailyUsage: Option<int>): Option<string> {
    if user.None? || dailyUsage.None? then None
    else if Unlimited(user.value.role) then Some(UnlimitedLabel)
    else
      var remaining := if DailyLimit - dailyUsage.value < 0 then 0 else DailyLimit - dailyUsage.value;
      Some(DecimalString(remaining))
  }

  /**
   * For a limited role the badge is a plain decimal numeral (no sign) whose value is
   * max(0, 10 - usage); it reads "0" exactly when the usage has reached the limit, and "10" before
   * the first call of the day.
   */
  lemma RemainingCallsValue(user: User, dailyUsage: int)
    requires !Unlimited(user.role)
    ensures var r := RemainingCalls(Some(user), Some(dailyUsage));
            && r.Some?
            && |r.value| >= 1
            && (forall i :: 0 <= i < |r.value| ==> IsDigit(r.value[i]))
            && ParseDecimal(r.value) == (if dailyUsage >= DailyLimit then 0 else DailyLimit - dailyUsage)
            && (r.value == "0" <==> dailyUsage >= DailyLimit)
    ensures dailyUsage == 0 ==> RemainingCalls(Some(user), Some(dailyUsage)) == Some("10")
  {
    var n: nat := if DailyLimit - dailyUsage < 0 then 0 else DailyLimit - dailyUsage;
    DecimalRoundTrip(n);
    if dailyUsage == 0 {
      assert DigitChar(1) == '1' && DigitChar(0) == '0';
      assert DecimalString(10) == DecimalString(1) + [DigitChar(0)];
      assert DecimalString(10) == "10";
    }
  }

  /**
   * Until the limit is reached the badge tells the usage apart: for a limited role two usages of
   * at most ten show the same badge exactly when they are equal.
   */
  lemma RemainingCallsTellsUsage(user: User, a: int, b: int)
    requires !Unlimited(user.role) && a <= DailyLimit && b <= DailyLimit
    ensures RemainingCalls(Some(user), Some(a)) == RemainingCalls(Some(user), Some(b)) <==> a == b
  {
    if RemainingCalls(Some(user), Some(a)) == RemainingCalls(Some(user), Some(b)) {
      DecimalStringInjective(DailyLimit - a, DailyLimit - b);
    }
  }

  /** The badge shows "无限" exactly for the vip and admin roles, and nothing while loading. */
  lemma RemainingCallsUnlimited(user: Option<User>, dailyUsage: Option<int>)
    ensures RemainingCalls(user, dailyUsage).None? <==> user.None? || dailyUsage.None?
    ensures RemainingCalls(user, dailyUsage) == Some(UnlimitedLabel) <==>
              user.Some? && dailyUsage.Some? && (user.value.role == "vip" || user.value.role == "admin")
  {
    if user.Some? && dailyUsage.Some? && !Unlimited(user.value.role) {
      var r := RemainingCalls(user, dailyUsage).value;
      assert IsDigit(r[0]) && !IsDigit(UnlimitedLabel[0]);
    }
  }

  /**
   * The badge agrees with the server: given the user's row and the usage `GET /api/usage` reports,
   * it reads "0" exactly when `POST /api/messages` would answer 429.
   */
  lemma RemainingCallsMatchesQuota(db: Db, userId: string, dayStart: Timestamp, now: Timestamp)
    requires GetUser(db, userId).Some?
    ensures var u := GetUser(db, userId).value;
            var usage := GetUserDailyUsage(db, userId, dayStart, now).1;
            RemainingCalls(Some(u), Some(usage)) == Some("0") <==> QuotaGate(db, userId, u.role, dayStart, now).1
  {
    var u := GetUser(db, userId).value;
    var usage := GetUserDailyUsage(db, userId, dayStart, now).1;
    if Unlimited(u.role) {
      RemainingCallsUnlimited(Some(u), Some(usage));
    } else {
      RemainingCallsValue(u, usage);
    }
  }

  /** `handleSendMessage`'s guard: something besides whitespace typed, a conversation open, no send in flight. */
  predicate MaySend(input: string, current: Option<Conversation>, sendPending: bool) {
    Trim(input) != [] && current.Some? && !sendPending
  }

  /** What `handleSendMessage` posts when its guard passes. */
  function OutgoingMessage(input: string, current: Conversation): NewMessage {
    NewMessage(current.id, "user", Trim(input))
  }

  /**
   * Input made only of whitespace is never sent; what is sent is a "user" message to the open
   * conversation whose text is a piece of the input with no whitespace at either end.
   */
  lemma SendGuardMeaning(input: string, current: Option<Conversation>, sendPending: bool)
    ensures (forall k :: 0 <= k < |input| ==> IsJsWhitespace(input[k])) ==> !MaySend(input, current, sendPending)
    ensures MaySend(input, current, sendPending) ==>
              var m := OutgoingMessage(input, current.value);
              && m.conversationId == current.value.id
              && m.role == "user"
              && m.content != []
              && !IsJsWhitespace(m.content[0]) && !IsJsWhitespace(m.content[|m.content| - 1])
              && (exists a, b :: StrippedTo(input, m.content, a, b))
              && Contains(input, m.content)
  {
  }

  /** `handleKeyPress`: Enter sends, Shift+Enter does not. */
  predicate SendsOnKey(key: string, shiftKey: bool) {
    key == "Enter" && !shiftKey
  }

  /** The title of a conversation created for a model. */
  function ConversationTitle(displayName: string): string {
    "与" + displayName + "的对话"
  }

  /** The title begins with "与", ends with "的对话" and names the model in between. */
  lemma ConversationTitleNames(displayName: string)
    ensures var t := ConversationTitle(displayName);
            && Contains(t, displayName)
            && t[..1] == "与"
            && t[|t| - 3..] == "的对话"
            && |t| == |displayName| + 4
  {
    ContainsMiddle("与", displayName, "的对话");
  }

  /**
   * The condition of the effect that opens a conversation: a model id chosen (a zero id is falsy),
   * its row loaded, and no conversation open yet.
   */
  predicate OpensConversation(selectedModelId: Option<int>, selectedModel: Option<AiModel>, current: Option<Conversation>) {
    selectedModelId.Some? && selectedModelId.value != 0 && selectedModel.Some? && current.None?
  }

  /** A request to `POST /api/conversations` as the panel issues it. */
  datatype ConversationDraft = ConversationDraft(modelId: int, title: string)

  /** The component's state and the requests it has issued. */
  class ChatPanel {
    var input: string
    var current: Option<Conversation>
    var sendPending: bool
    /** The bodies posted to `/api/messages`, oldest first. */
    var sent: seq<NewMessage>
    /** The bodies posted to `/api/conversations`, oldest first. */
    var created: seq<ConversationDraft>

    /** A freshly mounted panel: empty input, no conversation, nothing in flight or sent. */
    constructor ()
      ensures input == [] && current.None? && !sendPending && sent == [] && created == []
      ensures Valid()
    {
      input := [];
      current := None;
      sendPending := false;
      sent := [];
      created := [];
    }

    /** Every message the panel has posted is a non-blank "user" message. */
    ghost predicate Valid()
      reads this
    {
      forall i :: 0 <= i < |sent| ==> sent[i].role == "user" && sent[i].content != []
    }

    /** Typing replaces the input. */
    method SetInput(text: string)
      modifies this
      ensures input == text
      ensures current == old(current) && sendPending == old(sendPending)
      ensures sent == old(sent) && created == old(created)
    {
      input := text;
    }

    /** `handleSendMessage`: when the guard passes, post the trimmed input and mark a send in flight. */
    method HandleSendMessage()
      modifies this
      ensures old(MaySend(input, current, sendPending)) ==>
                && sent == old(sent) + [old(OutgoingMessage(input, current.value))]
                && sendPending
      ensures !old(MaySend(input, current, sendPending)) ==> sent == old(sent) && sendPending == old(sendPending)
      ensures input == old(input) && current == old(current) && created == old(created)
      ensures old(Valid()) ==> Valid()
    {
      if Trim(input) == [] || current.None? || sendPending {
        return;
      }
      var content := Trim(input);
      sent := sent + [NewMessage(current.value.id, "user", content)];
      sendPending := true;
    }

    /** `handleKeyPress`: Enter without Shift sends (and the default newline is suppressed). */
    method HandleKeyPress(key: string, shiftKey: bool) returns (preventDefault: bool)
      modifies this
      ensures preventDefault == SendsOnKey(key, shiftKey)
      ensures SendsOnKey(key, shiftKey) && old(MaySend(input, current, sendPending)) ==>
                sent == old(sent) + [old(OutgoingMessage(input, current.value))] && sendPending
      ensures !(SendsOnKey(key, shiftKey) && old(MaySend(input, current, sendPending))) ==>
                sent == old(sent) && sendPending == old(sendPending)
      ensures input == old(input) && current == old(current) && created == old(created)
      ensures old(Valid()) ==> Valid()
    {
      preventDefault := false;
      if key == "Enter" && !shiftKey {
        preventDefault := true;
        HandleSendMessage();
      }
    }

    /** The send mutation's `onSuccess`: the input box is cleared. */
    method SendSucceeded()
      modifies this
      ensures input == [] && !sendPending
      ensures current == old(current) && sent == old(sent) && created == old(created)
    {
      input := [];
      sendPending := false;
    }

    /** The send mutation's `onError`: the input is kept for another try. */
    method SendFailed()
      modifies this
      ensures !sendPending
      ensures input == old(input) && current == old(current) && sent == old(sent) && created == old(created)
    {
      sendPending := false;
    }

    /** The effect run when the selected model id or its loaded row changes. */
    method SelectionChanged(selectedModelId: Option<int>, selectedModel: Option<AiModel>)
      modifies this
      ensures OpensConversation(selectedModelId, selectedModel, old(current)) ==>
                created == old(created) + [ConversationDraft(selectedModelId.value, ConversationTitle(selectedModel.value.displayName))]
      ensures !OpensConversation(selectedModelId, selectedModel, old(current)) ==> created == old(created)
      ensures input == old(input) && current == old(current) && sendPending == old(sendPending) && sent == old(sent)
    {
      if selectedModelId.Some? && selectedModelId.value != 0 && selectedModel.Some? && current.None? {
        created := created + [ConversationDraft(selectedModelId.value, "与" + selectedModel.value.displayName + "的对话")];
      }
    }

    /** The create mutation's `onSuccess`: the new conversation becomes the current one. */
    method ConversationCreated(conversation: Conversation)
      modifies this
      ensures current == Some(conversation)
      ensures input == old(input) && sendPending == old(sendPending) && sent == old(sent) && created == old(created)
    {
      current := Some(conversation);
    }
  }
}
