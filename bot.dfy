/** The bot process: the session map it owns and the handlers the messaging
    platform calls, each changing the map in place. Each handler runs to
    completion before the next update is handled. */
module ChatBot {
  import opened Conversation
  import opened JsText
  import opened Handlers
  import opened Invariants

  class Bot {
    /** `userSessions`: one session per user that sent `/start` or a text. */
    var sessions: SessionMap

    constructor ()
      ensures sessions == map[]
    {
      sessions := map[];
    }

    /** getAIResponse: sends the request built from `context` and the user's
        text, pushes a successful reply onto the sender's stored context and
        returns it; returns the apology when the call fails or when the sender
        has no session to push onto. */
    method GetAIResponse(u: UserId, userMessage: string, context: seq<Message>, service: Completion)
      returns (response: string)
      modifies this
      ensures var a := AiResponse(old(sessions), u, userMessage, context, service);
        sessions == a.sessions && response == a.response
    {
      var messages := BuildRequest(context, userMessage);
      var completion := service(messages);
      match completion {
        case Some(reply) =>
          if u in sessions {
            var s := sessions[u];
            sessions := sessions[u := s.(context := s.context + [Message(Assistant, reply)])];
            response := reply;
          } else {
            response := Apology;
          }
        case None =>
          response := Apology;
      }
    }

    /** `/start`: a fresh session for the sender, then the greeting. */
    method HandleStart(u: UserId) returns (replies: seq<Reply>)
      modifies this
      ensures Effect(sessions, replies, false) == OnStart(old(sessions), u)
      ensures SessionsValid(old(sessions)) ==> SessionsValid(sessions)
    {
      if SessionsValid(sessions) {
        StartKeepsValid(sessions, u);
      }
      sessions := sessions[u := NewSession];
      replies := [Greeting];
    }

    /** The first callback handler; `threw` reports the TypeError raised when
        the sender has no session. */
    method HandleStartDialogButton(u: UserId, data: string) returns (replies: seq<Reply>, threw: bool)
      modifies this
      ensures Effect(sessions, replies, threw) == OnStartDialogButton(old(sessions), u, data)
      ensures SessionsValid(old(sessions)) ==> SessionsValid(sessions)
    {
      if SessionsValid(sessions) {
        ButtonsKeepValid(sessions, u, data);
      }
      replies, threw := [], false;
      if data == StartDialogData {
        replies := replies + [AskForDetails];
        if u !in sessions {
          threw := true;
          return;
        }
        sessions := sessions[u := sessions[u].(step := Dialog)];
      }
    }

    /** A free-text message: trim it, create the sender's session if missing,
        and in the dialog step run one exchange and ask for feedback. */
    method HandleText(u: UserId, raw: string, service: Completion) returns (replies: seq<Reply>)
      modifies this
      ensures Effect(sessions, replies, false) == OnText(old(sessions), u, raw, service)
      ensures SessionsValid(old(sessions)) ==> SessionsValid(sessions)
    {
      if SessionsValid(sessions) {
        TextKeepsValid(sessions, u, raw, service);
      }
      var text := Trim(raw);
      if u !in sessions {
        sessions := sessions[u := NewSession];
      }
      replies := [];
      if sessions[u].step == Dialog {
        var response := GetAIResponse(u, text, sessions[u].context, service);
        var s := sessions[u];
        sessions := sessions[u := s.(context := s.context + [Message(User, text)])];
        replies := replies + [Said(response)];
        replies := replies + [BreathingExercise];
        sessions := sessions[u := sessions[u].(step := Feedback)];
      }
    }

    /** The second callback handler; `threw` reports the TypeError raised when
        the sender has no session. */
    method HandleFeedbackButton(u: UserId, data: string) returns (replies: seq<Reply>, threw: bool)
      modifies this
      ensures Effect(sessions, replies, threw) == OnFeedbackButton(old(sessions), u, data)
      ensures SessionsValid(old(sessions)) ==> SessionsValid(sessions)
    {
      if SessionsValid(sessions) {
        ButtonsKeepValid(sessions, u, data);
      }
      replies, threw := [], false;
      if u !in sessions {
        threw := true;
        return;
      }
      if sessions[u].step == Feedback {
        if data == HelpedData {
          replies := replies + [SubscriptionOffer];
        } else if data == NotHelpedData || data == PartiallyHelpedData {
          var message := if data == NotHelpedData then NotHelpedFollowUp else PartlyHelpedFollowUp;
          replies := replies + [message];
          sessions := sessions[u := sessions[u].(step := Dialog)];
        } else if data == SubscribeData {
          replies := replies + [SubscriptionConfirmed];
        }
      }
    }
  }
}
