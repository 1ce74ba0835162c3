/** What each update does to the session map, as pure functions of the map
    before the update. The handlers of class ChatBot.Bot are proved to compute
    exactly these. */
module Handlers {
  import opened Conversation
  import opened JsText

  /** The message list sent to the completion service: the system
      instruction, then the prior context unchanged, then the new user text. */
  function BuildRequest(context: seq<Message>, userMessage: string): (r: seq<Message>)
    ensures |r| == |context| + 2
    ensures r[0] == Message(System, SystemPrompt)
    ensures r[1..|r| - 1] == context
    ensures r[|r| - 1] == Message(User, userMessage)
  {
    [Message(System, SystemPrompt)] + context + [Message(User, userMessage)]
  }

  /** Result of getAIResponse: the session map after it and the text it returns. */
  datatype Answer = Answer(sessions: SessionMap, response: string)

  /** getAIResponse: asks the service about `BuildRequest(context, userMessage)`.
      On success the reply is appended to the sender's context as an assistant
      entry and returned. On failure, or when the sender has no session (the
      append then throws inside the same try), the apology is returned and
      nothing changes. */
  function AiResponse(m: SessionMap, u: UserId, userMessage: string, context: seq<Message>,
                      service: Completion): (a: Answer)
    ensures a.sessions.Keys == m.Keys
    ensures forall v :: v in m && v != u ==> a.sessions[v] == m[v]
    ensures forall v :: v in m ==> a.sessions[v].step == m[v].step
    ensures
      var reply := service(BuildRequest(context, userMessage));
      if reply.Some? && u in m
      then a.response == reply.value
           && a.sessions[u].context == m[u].context + [Message(Assistant, a.response)]
      else a.response == Apology && a.sessions == m
  {
    match service(BuildRequest(context, userMessage))
    case Some(reply) =>
      if u in m then
        Answer(m[u := m[u].(context := m[u].context + [Message(Assistant, reply)])], reply)
      else
        Answer(m, Apology)
    case None => Answer(m, Apology)
  }

  /** `/start`: the sender's session is replaced by a fresh one whatever it
      was, the greeting is sent, and no other session is touched. */
  function OnStart(m: SessionMap, u: UserId): (e: Effect)
    ensures !e.threw && e.replies == [Greeting]
    ensures e.sessions.Keys == m.Keys + {u}
    ensures e.sessions[u] == NewSession
    ensures forall v :: v in m && v != u ==> e.sessions[v] == m[v]
  {
    Effect(m[u := NewSession], [Greeting], false)
  }

  /** The first callback handler. Only the start_dialog payload does anything:
      it sends the prompt and then moves the sender to the dialog step,
      leaving the context alone; for a sender without a session the step
      assignment throws after the prompt was sent. */
  function OnStartDialogButton(m: SessionMap, u: UserId, data: string): (e: Effect)
    ensures e.threw <==> data == StartDialogData && u !in m
    ensures e.replies == if data == StartDialogData then [AskForDetails] else []
    ensures e.sessions.Keys == m.Keys
    ensures forall v :: v in m ==> e.sessions[v].context == m[v].context
    ensures forall v :: v in m && v != u ==> e.sessions[v] == m[v]
    ensures u in m ==> e.sessions[u].step == if data == StartDialogData then Dialog else m[u].step
  {
    if data == StartDialogData then
      if u in m then Effect(m[u := m[u].(step := Dialog)], [AskForDetails], false)
      else Effect(m, [AskForDetails], true)
    else
      Effect(m, [], false)
  }

  /** A free-text message. The text is trimmed; a sender without a session gets
      a fresh one, which is not in the dialog step. Only in the dialog step does anything else happen: one
      completion exchange (the reply, if any, then the user's text appended to
      the context), the reply or apology and the breathing exercise sent, and
      the step set to feedback. There is no turn limit. */
  function OnText(m: SessionMap, u: UserId, raw: string, service: Completion): (e: Effect)
    ensures !e.threw
    ensures e.sessions.Keys == m.Keys + {u}
    ensures forall v :: v in m && v != u ==> e.sessions[v] == m[v]
    ensures u !in m ==> e.sessions[u] == NewSession && e.replies == []
    ensures u in m && m[u].step != Dialog ==> e.sessions == m && e.replies == []
    ensures u in m && m[u].step == Dialog ==>
      var text := Trim(raw);
      var reply := service(BuildRequest(m[u].context, text));
      && e.sessions[u].step == Feedback
      && e.sessions[u].context
         == m[u].context + (if reply.Some? then [Message(Assistant, reply.value)] else [])
            + [Message(User, text)]
      && e.replies == [Said(if reply.Some? then reply.value else Apology), BreathingExercise]
  {
    var text := Trim(raw);
    if u !in m then
      Effect(m[u := NewSession], [], false)
    else if m[u].step != Dialog then
      Effect(m, [], false)
    else
      var a := AiResponse(m, u, text, m[u].context, service);
      var s := a.sessions[u];
      Effect(a.sessions[u := Session(s.context + [Message(User, text)], Feedback)],
             [Said(a.response), BreathingExercise], false)
  }

  /** The second callback handler. It reads the sender's step first, so a
      sender without a session makes it throw whatever the payload. Only in the
      feedback step does it answer: helped and subscribe send their text and
      keep the step; not_helped and partially_helped send theirs and return
      to the dialog step; any other payload does nothing. No context changes. */
  function OnFeedbackButton(m: SessionMap, u: UserId, data: string): (e: Effect)
    ensures e.threw <==> u !in m
    ensures e.sessions.Keys == m.Keys
    ensures forall v :: v in m ==> e.sessions[v].context == m[v].context
    ensures forall v :: v in m && v != u ==> e.sessions[v] == m[v]
    ensures u in m ==>
      e.sessions[u].step
      == (if m[u].step == Feedback && (data == NotHelpedData || data == PartiallyHelpedData)
          then Dialog else m[u].step)
    ensures (u !in m || m[u].step != Feedback) ==> e.replies == []
    ensures u in m && m[u].step == Feedback ==>
      e.replies == if data == HelpedData then [SubscriptionOffer]
                   else if data == NotHelpedData then [NotHelpedFollowUp]
                   else if data == PartiallyHelpedData then [PartlyHelpedFollowUp]
                   else if data == SubscribeData then [SubscriptionConfirmed]
                   else []
  {
    if u !in m then
      Effect(m, [], true)
    else if m[u].step != Feedback then
      Effect(m, [], false)
    else if data == HelpedData then
      Effect(m, [SubscriptionOffer], false)
    else if data == NotHelpedData || data == PartiallyHelpedData then
      var reply := if data == NotHelpedData then NotHelpedFollowUp else PartlyHelpedFollowUp;
      Effect(m[u := m[u].(step := Dialog)], [reply], false)
    else if data == SubscribeData then
      Effect(m, [SubscriptionConfirmed], false)
    else
      Effect(m, [], false)
  }
}
