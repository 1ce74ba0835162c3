/** Properties of the session map that every update keeps, and what single
    updates do when put one after another. */
module Invariants {
  import opened Conversation
  import opened JsText
  import opened Handlers

  /** Entry `i` of a context is a user entry holding trimmed text, or an
      assistant entry immediately followed by a user entry; never a system
      entry. */
  predicate EntryWellFormed(ctx: seq<Message>, i: int)
    requires 0 <= i < |ctx|
  {
    && ctx[i].role != System
    && (ctx[i].role == User ==> IsTrimmed(ctx[i].content))
    && (ctx[i].role == Assistant ==> i + 1 < |ctx| && ctx[i + 1].role == User)
  }

  /** A context made of exchanges `[assistant reply, user text]` and lone user
      texts (exchanges whose completion failed). */
  predicate WellFormedContext(ctx: seq<Message>) {
    forall i :: 0 <= i < |ctx| ==> EntryWellFormed(ctx, i)
  }

  predicate SessionsValid(m: SessionMap) {
    forall v :: v in m ==> WellFormedContext(m[v].context)
  }

  /** One dialog turn, successful or not, keeps a context well formed. */
  lemma AppendTurnWellFormed(ctx: seq<Message>, reply: Option<string>, text: string)
    requires WellFormedContext(ctx) && IsTrimmed(text)
    ensures WellFormedContext(
      ctx + (if reply.Some? then [Message(Assistant, reply.value)] else []) + [Message(User, text)])
  {
    var added := (if reply.Some? then [Message(Assistant, reply.value)] else []) + [Message(User, text)];
    var c := ctx + (if reply.Some? then [Message(Assistant, reply.value)] else []) + [Message(User, text)];
    assert c == ctx + added;
    forall i | 0 <= i < |c| ensures EntryWellFormed(c, i) {
      if i < |ctx| {
        assert EntryWellFormed(ctx, i);
        assert c[i] == ctx[i];
        if ctx[i].role == Assistant {
          assert c[i + 1] == ctx[i + 1];
        }
      } else {
        assert c[i] == added[i - |ctx|];
      }
    }
  }

  /** Under a well-formed context the request has exactly one system entry, at
      its head, and ends with the user's text. */
  lemma RequestShape(context: seq<Message>, userMessage: string)
    requires WellFormedContext(context)
    ensures var r := BuildRequest(context, userMessage);
      && (forall i :: 0 <= i < |r| ==> (r[i].role == System <==> i == 0))
      && r[|r| - 1].role == User
  {
    var r := BuildRequest(context, userMessage);
    forall i | 0 <= i < |r| ensures r[i].role == System <==> i == 0 {
      if 0 < i < |r| - 1 {
        assert r[i] == r[1..|r| - 1][i - 1] == context[i - 1];
        assert EntryWellFormed(context, i - 1);
      }
    }
  }

  /** `/start` keeps every context well formed. */
  lemma StartKeepsValid(m: SessionMap, u: UserId)
    requires SessionsValid(m)
    ensures SessionsValid(OnStart(m, u).sessions)
  {
  }

  /** A text message keeps every context well formed: the user text it stores
      is trimmed and follows the reply it belongs to. */
  lemma TextKeepsValid(m: SessionMap, u: UserId, raw: string, service: Completion)
    requires SessionsValid(m)
    ensures SessionsValid(OnText(m, u, raw, service).sessions)
  {
    var m' := OnText(m, u, raw, service).sessions;
    forall v | v in m' ensures WellFormedContext(m'[v].context) {
      if v != u {
        assert WellFormedContext(m[v].context);
      } else if u in m && m[u].step == Dialog {
        AppendTurnWellFormed(m[u].context, service(BuildRequest(m[u].context, Trim(raw))), Trim(raw));
      }
    }
  }

  /** A button press keeps every context well formed (it changes none). */
  lemma ButtonsKeepValid(m: SessionMap, u: UserId, data: string)
    requires SessionsValid(m)
    ensures SessionsValid(OnStartDialogButton(m, u, data).sessions)
    ensures SessionsValid(OnFeedbackButton(m, u, data).sessions)
  {
  }

  /** Repeating `/start` gives the state and the replies of a single `/start`. */
  lemma StartIdempotent(m: SessionMap, u: UserId)
    ensures OnStart(OnStart(m, u).sessions, u) == OnStart(m, u)
  {
  }

  /** After the one exchange of a dialog turn the session is in the feedback
      step, so a second text message changes nothing and sends nothing: each
      visit to the dialog step allows exactly one exchange. */
  lemma OneExchangePerDialog(m: SessionMap, u: UserId, raw1: string, s1: Completion,
                             raw2: string, s2: Completion)
    requires u in m && m[u].step == Dialog
    ensures var m1 := OnText(m, u, raw1, s1).sessions;
      && m1[u].step == Feedback
      && OnText(m1, u, raw2, s2) == Effect(m1, [], false)
  {
  }

  /** A feedback answer of not_helped or partially_helped reopens the dialog,
      and the next text message is again forwarded: nothing limits the number
      of turns. */
  lemma DialogReopens(m: SessionMap, u: UserId, data: string, raw: string, service: Completion)
    requires u in m && m[u].step == Feedback
    requires data == NotHelpedData || data == PartiallyHelpedData
    ensures var m1 := OnFeedbackButton(m, u, data).sessions;
      var e := OnText(m1, u, raw, service);
      && e.sessions[u].step == Feedback
      && |e.sessions[u].context| > |m[u].context|
      && |e.replies| == 2
  {
  }
}
