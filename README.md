# YouMeCare support bot: conversation state machine

This project models the Telegram bot in `bot.js`, which forwards users' messages to a
chat-completion service. The bot keeps one process-wide object, `userSessions`. It maps
each user id to a session `{context, step}`:

- `step` is `problem`, `dialog` or `feedback`.
- `context` is the list of `{role, content}` messages forwarded with every completion request.

Four handlers change that map: `/start`, the `start_dialog` button, free text, and the
feedback buttons. The completion helper `getAIResponse` builds the request and appends
a successful reply to the sender's context.

Layout:

- `conversation.dfy` (module `Conversation`): sessions, messages, steps, outgoing replies,
  the fixed texts the model needs (system instruction, apology, button payloads), and
  `Effect`, the result of handling one update.
- `text.dfy` (module `JsText`): `String.prototype.trim`, which strips the ECMAScript
  WhiteSpace and LineTerminator code points. It is proved equal to a declarative
  description of trimming.
- `handlers.dfy` (module `Handlers`): one pure function per handler and one for
  `getAIResponse`. Each gives the map after the update as a function of the map before it.
- `invariants.dfy` (module `Invariants`): the shape every stored context keeps, the
  shape of the completion request, and lemmas about handlers applied one after another.
- `trace.dfy` (module `Trace`): any sequence of updates, with the invariants that hold
  along it, and one end-to-end walk through the script.
- `bot.dfy` (module `ChatBot`): class `Bot`. It holds the map as a field, and each
  handler is a method that updates it step by step as the source does. Each method is
  proved to produce exactly the map, replies and error outcome of its `Handlers` function.

Behaviour reproduced as written:

- One text message in `dialog` always ends in `feedback`. There is no turn limit.
- The assistant reply is appended to the context before the user text that prompted it.
  A stored exchange therefore reads `[assistant reply, user text]`.
- When the completion fails, the user text is still appended but no assistant entry is.
- Both callback handlers dereference the sender's session without checking it exists.
  This is modelled as an explicit error outcome (`Effect.threw`), not as a precondition.
  The first handler only dereferences for the `start_dialog` payload, after its prompt
  was sent. The second handler dereferences for every payload, before replying.
- `getAIResponse` pushes onto the sender's stored session inside its `try`. A sender
  with no session therefore gets the apology and no change. Through the text handler
  this cannot happen.
- The completion service is a parameter `Completion = seq<Message> -> Option<string>`.
  `None` means the call threw. Passing the request to the service makes the request
  itself part of what is proved.

Facts about `bot.js` that the model keeps:

- There is no turn counter: feedback can reopen the dialog any number of times.
- There is no diary button and no subscription tier. The subscribe payload only sends a
  confirmation text.
- A failed completion still appends the user's text (bot.js:92).
- Only `/start` and a text message create a session (bot.js:47, bot.js:83). The callback
  handlers never do.

## Model

| member | source | states |
|---|---|---|
| Handlers.BuildRequest | bot.js:22-26 | The request is the system instruction, then the prior context unchanged, then the user's text; its length is the context's plus two |
| Handlers.AiResponse | bot.js:20-40 | On a successful completion for a sender with a session, the reply is returned and appended to that session's context as one assistant entry; otherwise the apology is returned and the map is unchanged; no step and no other user's session changes |
| Handlers.OnStart | bot.js:45-58 | The sender's session becomes `{[], problem}` whatever it was, the greeting is sent, every other session is unchanged |
| Handlers.OnStartDialogButton | bot.js:63-73 | Payload start_dialog sends the prompt and sets the sender's step to dialog from any step; it throws exactly when the sender has no session; other payloads change and send nothing; no context changes |
| Handlers.OnText | bot.js:78-107 | An unseen sender gets `{[], problem}` and nothing else happens; outside the dialog step nothing changes; in the dialog step the step becomes feedback, the context grows by the reply (on success) then the trimmed text, and the reply or apology is sent before the exercise |
| Handlers.OnFeedbackButton | bot.js:112-139 | Throws exactly when the sender has no session; acts only in the feedback step: not_helped and partially_helped return to dialog, helped and subscribe keep feedback, each sends its own text; no context and no other session changes |
| JsText.Trim | bot.js:80 | Strips leading and trailing ECMAScript WhiteSpace/LineTerminator code points; the result starts and ends with no whitespace and is no longer than the input |
| JsText.TrimStartSuffix | bot.js:80 | Trimming the start keeps the suffix after the leading whitespace, which does not start with whitespace |
| JsText.TrimEndPrefix | bot.js:80 | Trimming the end keeps the prefix before the trailing whitespace, which does not end with whitespace |
| JsText.TrimIsTrimOf | bot.js:80 | Trim removes only whitespace, only at the two ends |
| JsText.TrimOfUnique | bot.js:80 | A string has exactly one trimmed form |
| JsText.TrimCharacterized | bot.js:80 | A string is a trim of the input if and only if it equals Trim of the input |
| JsText.TrimIdempotent | bot.js:80 | Trimming an already trimmed text changes nothing; trimming twice equals trimming once |
| Invariants.AppendTurnWellFormed | bot.js:86-105 | Appending one dialog turn, `[reply, text]` or `[text]`, keeps a context made of such turns |
| Invariants.RequestShape | bot.js:22-26 | With a stored context, the request has exactly one system entry, at its head, and ends with a user entry |
| Invariants.StartKeepsValid | bot.js:45-50 | `/start` keeps every context well formed |
| Invariants.TextKeepsValid | bot.js:78-107 | A text message keeps every context well formed, and every stored user text is trimmed |
| Invariants.ButtonsKeepValid | bot.js:63-139 | Neither callback handler breaks a well-formed context |
| Invariants.StartIdempotent | bot.js:45-58 | Two `/start`s give the same state and replies as one |
| Invariants.OneExchangePerDialog | bot.js:86-105 | After one exchange the session is in feedback, so a second text message changes and sends nothing |
| Invariants.DialogReopens | bot.js:126-132 | not_helped or partially_helped reopens the dialog, and the next text runs another exchange: the number of turns is unbounded |
| Trace.Handle | bot.js:45-139 | Handling any update never removes a session |
| Trace.Run | bot.js:15 | Along any sequence of updates, sessions are never removed |
| Trace.RunKeepsValid | bot.js:15-139 | Every session map reachable from a valid one has well-formed contexts |
| Trace.RunIsolatesUsers | bot.js:45-139 | Updates from other users neither create nor change a user's session |
| Trace.RunContextAppendOnly | bot.js:20-139 | Until the user's next `/start`, earlier context entries are never rewritten or removed |
| Trace.WalkTurn | bot.js:86-105 | For a user alone in the dialog step, one text message gives exactly the stated session (reply if any, then trimmed text; step feedback) and replies |
| Trace.ScriptWalkthrough | bot.js:45-139 | The walk /start, start_dialog, a successful turn, helped, not_helped, then a failed turn yields the stated sessions and replies |
| ChatBot.Bot.constructor | bot.js:15 | The session map starts empty |
| ChatBot.Bot.GetAIResponse | bot.js:20-40 | Leaves the map and returns the text that AiResponse gives |
| ChatBot.Bot.HandleStart | bot.js:45-58 | Leaves the map and sends the replies that OnStart gives, and keeps contexts well formed |
| ChatBot.Bot.HandleStartDialogButton | bot.js:63-73 | Leaves the map, replies and error outcome that OnStartDialogButton gives, and keeps contexts well formed |
| ChatBot.Bot.HandleText | bot.js:78-107 | Leaves the map and sends the replies that OnText gives, and keeps contexts well formed |
| ChatBot.Bot.HandleFeedbackButton | bot.js:112-139 | Leaves the map, replies and error outcome that OnFeedbackButton gives, and keeps contexts well formed |

## Left out

- The Telegram transport: delivering replies, rendering inline keyboards, `answerCbQuery`, `bot.launch`. Outgoing messages are the opaque `Reply` values, without their texts or button labels. A send that fails is not modelled either: it throws and aborts the handler midway. For example, the platform refuses an empty completion text at bot.js:93, which leaves the user text appended but the step still `dialog`, because the step change at bot.js:105 is never reached. The model assumes every send succeeds.
- The typing indicator, which is sent without being awaited. It is a transport signal.
- The OpenAI client and its request options, such as the model name. The service is the `Completion` parameter.
- A completion whose message content is null. The model's service returns a string or fails.
- Environment variables, secrets and console logging.
- Interleaving of handlers at their `await` points. Each handler is atomic. Two updates from the same user racing on the map are not modelled.
- Whether both callback handlers run for one button press. That depends on the Telegraf middleware chain, so the two handlers are separate and no dispatch order is asserted.
- What Telegraf does after a handler throws. The model records the error, leaves the map as the handler left it, and goes on with the next update.
- JavaScript strings are UTF-16 code units, while Dafny characters are Unicode scalar values. Every whitespace character `trim` strips is a single code unit, so trimming agrees on every string made of scalar values.
- Property-key conversion of user ids by the JavaScript object. Ids are integers used as map keys.
