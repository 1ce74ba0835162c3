/** Sequences of updates, each handled to completion before the next (the
    handlers treated as atomic), and what holds along any such sequence. */
module Trace {
  import opened Conversation
  import opened JsText
  import opened Handlers
  import opened Invariants

  /** One incoming update, as routed to one of the four handlers. */
  datatype Update =
    | Start
    | TextMessage(raw: string, service: Completion)
    | StartDialogButton(data: string)
    | FeedbackButton(data: string)

  function Handle(m: SessionMap, u: UserId, up: Update): (e: Effect)
    ensures m.Keys <= e.sessions.Keys
  {
    match up
    case Start => OnStart(m, u)
    case TextMessage(raw, service) => OnText(m, u, raw, service)
    case StartDialogButton(data) => OnStartDialogButton(m, u, data)
    case FeedbackButton(data) => OnFeedbackButton(m, u, data)
  }

  /** The session map after handling `updates` (sender, update) in order. A
      handler that threw leaves the map as it found it, and the next update is
      handled from there. Sessions are never removed. */
  function Run(m: SessionMap, updates: seq<(UserId, Update)>): (r: SessionMap)
    ensures m.Keys <= r.Keys
    decreases |updates|
  {
    if updates == [] then m
    else Run(Handle(m, updates[0].0, updates[0].1).sessions, updates[1..])
  }

  /** Every reachable session map has well-formed contexts. */
  lemma {:induction false} RunKeepsValid(m: SessionMap, updates: seq<(UserId, Update)>)
    requires SessionsValid(m)
    ensures SessionsValid(Run(m, updates))
    decreases |updates|
  {
    if updates != [] {
      var (u, up) := updates[0];
      match up {
        case Start => StartKeepsValid(m, u);
        case TextMessage(raw, service) => TextKeepsValid(m, u, raw, service);
        case StartDialogButton(data) => ButtonsKeepValid(m, u, data);
        case FeedbackButton(data) => ButtonsKeepValid(m, u, data);
      }
      RunKeepsValid(Handle(m, u, up).sessions, updates[1..]);
    }
  }

  /** Updates from other users never touch a user's session, nor create one. */
  lemma {:induction false} RunIsolatesUsers(m: SessionMap, updates: seq<(UserId, Update)>, v: UserId)
    requires forall i :: 0 <= i < |updates| ==> updates[i].0 != v
    ensures v in Run(m, updates) <==> v in m
    ensures v in m ==> Run(m, updates)[v] == m[v]
    decreases |updates|
  {
    if updates != [] {
      var m1 := Handle(m, updates[0].0, updates[0].1).sessions;
      assert updates[0].0 != v;
      assert v in m1 <==> v in m;
      assert v in m ==> m1[v] == m[v];
      RunIsolatesUsers(m1, updates[1..], v);
    }
  }

  /** Until the user sends `/start` again, their context only grows at the
      end: earlier entries are never rewritten or removed. */
  lemma {:induction false} RunContextAppendOnly(m: SessionMap, updates: seq<(UserId, Update)>, v: UserId)
    requires v in m
    requires forall i :: 0 <= i < |updates| ==> !(updates[i].0 == v && updates[i].1.Start?)
    ensures v in Run(m, updates) && m[v].context <= Run(m, updates)[v].context
    decreases |updates|
  {
    if updates != [] {
      var (u, up) := updates[0];
      var m1 := Handle(m, u, up).sessions;
      assert !(u == v && up.Start?);
      assert v in m1 && m[v].context <= m1[v].context;
      RunContextAppendOnly(m1, updates[1..], v);
    }
  }

  /** The path through the script for a fresh user whose first completion
      succeeds with `reply` and whose second one fails: after the first turn
      the context holds the reply and then the first trimmed text; helped
      changes nothing; not_helped reopens the dialog; after the failed turn
      only the second trimmed text is added and the apology is sent. */
  lemma ScriptWalkthrough(u: UserId, raw1: string, reply: string, ok: Completion,
                          raw2: string, down: Completion)
    requires ok(BuildRequest([], Trim(raw1))) == Some(reply)
    requires down(BuildRequest(Turn(reply, raw1), Trim(raw2))) == None
    ensures
      var m0 := OnStart(map[], u).sessions;
      var m1 := OnStartDialogButton(m0, u, StartDialogData).sessions;
      var e2 := OnText(m1, u, raw1, ok);
      var m3 := OnFeedbackButton(e2.sessions, u, HelpedData).sessions;
      var m4 := OnFeedbackButton(m3, u, NotHelpedData).sessions;
      var e5 := OnText(m4, u, raw2, down);
      && m1 == map[u := Session([], Dialog)]
      && e2.replies == [Said(reply), BreathingExercise]
      && m3 == map[u := Session(Turn(reply, raw1), Feedback)]
      && m4 == map[u := Session(Turn(reply, raw1), Dialog)]
      && e5.replies == [Said(Apology), BreathingExercise]
      && e5.sessions == map[u := Session(Turn(reply, raw1) + [Message(User, Trim(raw2))], Feedback)]
  {
    WalkOpen(u);
    var m1 := map[u := Session([], Dialog)];
    WalkTurn(u, [], raw1, ok);
    assert [] + [Message(Assistant, reply)] + [Message(User, Trim(raw1))] == Turn(reply, raw1);
    var m2 := map[u := Session(Turn(reply, raw1), Feedback)];
    assert OnText(m1, u, raw1, ok) == Effect(m2, [Said(reply), BreathingExercise], false);
    WalkFeedback(m2, u, Turn(reply, raw1));
    WalkTurn(u, Turn(reply, raw1), raw2, down);
    assert Turn(reply, raw1) + [] + [Message(User, Trim(raw2))] == Turn(reply, raw1) + [Message(User, Trim(raw2))];
  }

  /** A fresh user's `/start` followed by start_dialog. */
  lemma WalkOpen(u: UserId)
    ensures OnStartDialogButton(OnStart(map[], u).sessions, u, StartDialogData)
      == Effect(map[u := Session([], Dialog)], [AskForDetails], false)
  {
  }

  /** A dialog turn of the only user there is. */
  lemma WalkTurn(u: UserId, ctx: seq<Message>, raw: string, service: Completion)
    ensures var reply := service(BuildRequest(ctx, Trim(raw)));
      OnText(map[u := Session(ctx, Dialog)], u, raw, service)
      == Effect(map[u := Session(ctx + (if reply.Some? then [Message(Assistant, reply.value)] else [])
                                 + [Message(User, Trim(raw))], Feedback)],
                [Said(if reply.Some? then reply.value else Apology), BreathingExercise], false)
  {
    var e := OnText(map[u := Session(ctx, Dialog)], u, raw, service);
    assert e.sessions.Keys == {u};
  }

  /** The context after a successful first turn. */
  function Turn(reply: string, raw: string): seq<Message> {
    [Message(Assistant, reply), Message(User, Trim(raw))]
  }

  lemma WalkFeedback(m: SessionMap, u: UserId, ctx: seq<Message>)
    requires m == map[u := Session(ctx, Feedback)]
    ensures OnFeedbackButton(m, u, HelpedData).sessions == m
    ensures OnFeedbackButton(m, u, NotHelpedData).sessions == map[u := Session(ctx, Dialog)]
  {
  }
}
