/** The data the bot keeps per user and the values its handlers exchange with
    the messaging platform and the completion service. */
module Conversation {

  datatype Option<+T> = None | Some(value: T)

  /** The numeric sender id the messaging platform attaches to every update. */
  type UserId = int

  /** Author of one entry of a chat-completion message list. */
  datatype Role = System | User | Assistant

  datatype Message = Message(role: Role, content: string)

  /** Where the user is in the script: waiting for the dialog button, talking
      to the assistant, or asked for feedback. */
  datatype Step = Problem | Dialog | Feedback

  /** The session `{context, step}` stored per user; `context` is the
      conversation forwarded to the completion service. */
  datatype Session = Session(context: seq<Message>, step: Step)

  /** The process-wide `userSessions` object, keyed by user id. */
  type SessionMap = map<UserId, Session>

  /** The session both `/start` and a first text message create. */
  const NewSession: Session := Session([], Problem)

  /** Instruction placed first in every completion request. */
  const SystemPrompt: string :=
    "You are a helpful, empathetic assistant trained to help with emotional and psychological issues."

  /** Text returned in place of a completion when the request fails. */
  const Apology: string := "Извините, я не могу сейчас ответить. Попробуйте позже."

  /** Callback payloads carried by the inline buttons. */
  const StartDialogData: string := "start_dialog"
  const HelpedData: string := "helped"
  const NotHelpedData: string := "not_helped"
  const PartiallyHelpedData: string := "partially_helped"
  const SubscribeData: string := "subscribe"

  /** Outgoing messages. The fixed texts and their keyboards are opaque;
      only a completion reply (or the apology) carries its text. */
  datatype Reply =
    | Greeting                 // welcome text with the start_dialog button
    | AskForDetails            // prompt sent when the dialog starts
    | Said(text: string)       // the completion reply or the apology
    | BreathingExercise        // the technique with the three feedback buttons
    | SubscriptionOffer        // the pitch with the subscribe button
    | NotHelpedFollowUp        // answer to not_helped
    | PartlyHelpedFollowUp     // answer to partially_helped
    | SubscriptionConfirmed    // answer to subscribe

  /** What handling one update does: the new session map, the messages sent
      (in order), and whether the handler ended by throwing a TypeError. */
  datatype Effect = Effect(sessions: SessionMap, replies: seq<Reply>, threw: bool)

  /** The completion service seen from the bot: a request (the message list)
      is answered with a reply, or the call fails. */
  type Completion = seq<Message> -> Option<string>
}
