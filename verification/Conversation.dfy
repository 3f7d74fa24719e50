// The conversation held in the Streamlit session state: the message log, the pending session
// and the entry points that change them.
module Conversation {
  import opened Wrappers
  import opened Text
  import opened ChatLog

  // How a submission ends: an answer, the frontend's own error, or any other exception.
  datatype Outcome =
    | Answered(payload: Payload)
    | Refused(message: Text, statusCode: Option<int>, detail: Option<Text>)
    | Crashed

  // What goes over the wire: with a session a reply to it, otherwise a question of its own.
  datatype Request = Submission(prompt: Text, sessionId: Option<Text>, action: Option<Text>) | Form

  datatype State = State(messages: seq<Message>, sessionId: Option<Text>, needsReply: bool, lastError: Option<Text>)

  const INITIAL := State([], None, false, None)

  predicate Given(t: Option<Text>) {
    t.Some? && t.value != []
  }

  predicate IsStale(o: Outcome) {
    && o.Refused? && o.statusCode == Some(404)
    && o.detail.Some? && Strip(o.detail.value) == Points("session not found")
  }

  function FailureText(message: Text): Text {
    Points("请求失败：") + message
  }

  // ---- what a turn does ----

  // The session a prompt is sent to.
  function Active(s: State): Option<Text> {
    if s.needsReply && Given(s.sessionId) then s.sessionId else None
  }

  // Only a reply has a place for an action.
  function RequestFor(prompt: Text, session: Option<Text>, action: Option<Text>): Request {
    if Given(session) then Submission(prompt, session, if Given(action) then action else None)
    else Submission(prompt, None, None)
  }

  function Say(s: State, content: Text): State {
    s.(messages := s.messages + [User(content)])
  }

  function Accept(s: State, p: Payload): State {
    s.(messages := s.messages + [Assistant(p.answer, Some(p))],
       needsReply := p.needsReply,
       sessionId := if p.needsReply && Given(p.sessionId) then p.sessionId else None)
  }

  function Refuse(s: State, message: Text): State {
    s.(messages := s.messages + [Assistant(FailureText(message), None)], lastError := Some(message))
  }

  predicate Retries(s: State, first: Outcome) {
    Active(s).Some? && IsStale(first)
  }

  function Settle(s: State, o: Outcome): State {
    match o
    case Answered(p) => Accept(s, p)
    case Refused(m, _, _) => Refuse(s, m)
    case Crashed => s
  }

  // What the submissions of a prompt already in the log lead to.
  function Respond(asked: State, first: Outcome, retry: Outcome): State {
    if Retries(asked, first) then Settle(asked.(sessionId := None, needsReply := false), retry)
    else Settle(if first.Answered? then asked.(lastError := None) else asked, first)
  }

  function Turn(s: State, prompt: Text, first: Outcome, retry: Outcome): State {
    Respond(Say(s, prompt), first, retry)
  }

  // What is sent for a prompt already in the log.
  function Requests(asked: State, prompt: Text, action: Option<Text>, first: Outcome): seq<Request> {
    [RequestFor(prompt, Active(asked), action)]
    + if Retries(asked, first) then [RequestFor(RecoveryPrompt(asked.messages, prompt), None, None)] else []
  }

  // ---- the prompt typed by the user ----

  // `text.lower().startswith(prefix)` for the lower-case ASCII prefixes of the program.
  predicate StartsWithLower(t: Text, prefix: string) {
    |prefix| <= |t| && forall i | 0 <= i < |prefix| ::
      t[i] == prefix[i] as int || ('a' <= prefix[i] <= 'z' && t[i] == prefix[i] as int - 32)
  }

  function CleanPrompt(prompt: Text): Text {
    var t := Strip(prompt);
    Strip(if StartsWithLower(t, "/diy ") then Strip(t[5..])
          else if StartsWithLower(t, "diy ") then Strip(t[4..])
          else t)
  }

  // ---- the session object ----

  class Session {
    var messages: seq<Message>
    var sessionId: Option<Text>
    var needsReply: bool
    var lastError: Option<Text>

    ghost function Now(): State
      reads this
    {
      State(messages, sessionId, needsReply, lastError)
    }

    constructor ()
      ensures Now() == INITIAL
      ensures messages == [] && sessionId.None? && !needsReply && lastError.None?
    {
      messages, sessionId, needsReply, lastError := [], None, false, None;
    }

    method ResetConversation()
      modifies this
      ensures Now() == INITIAL
      ensures messages == [] && sessionId.None? && !needsReply && lastError.None?
    {
      messages := [];
      sessionId := None;
      needsReply := false;
      lastError := None;
    }

    method SyncSession(payload: Payload)
      modifies this`sessionId, this`needsReply
      ensures needsReply == payload.needsReply
      ensures sessionId == if payload.needsReply && Given(payload.sessionId) then payload.sessionId else None
    {
      needsReply := payload.needsReply;
      sessionId := if needsReply && Given(payload.sessionId) then payload.sessionId else None;
    }

    // Quotes the messages before the prompt, the last in the log, that are not blank.
    method StaleSessionRecoveryPrompt(prompt: Text) returns (recovery: Text)
      ensures recovery == RecoveryPrompt(messages, prompt)
    {
      var recent := Recent(messages);
      var lines: seq<Text> := [];
      for i := 0 to |recent|
        invariant lines == ContextLines(recent[..i])
      {
        assert recent[..i + 1][..i] == recent[..i];
        if Quoted(recent[i]) != [] {
          lines := lines + [ContextLine(recent[i])];
        }
      }
      assert recent[..|recent|] == recent;
      if lines == [] {
        return prompt;
      }
      return Points(CONTEXT_HEADER) + JoinTexts(0x0A, lines) + Points(CONTEXT_FOOTER) + prompt;
    }

    // The first submission and, when it meets a lost session, a second one without it.
    method SubmitPrompt(prompt: Text, action: Option<Text>, first: Outcome, retry: Outcome)
      returns (requests: seq<Request>)
      modifies this
      ensures Now() == Respond(old(Now()), first, retry)
      ensures requests == Requests(old(Now()), prompt, action, first)
    {
      var session := if needsReply then sessionId else None;
      requests := [RequestFor(prompt, session, action)];
      var outcome := first;
      if first.Refused? && Given(session) && IsStale(first) {
        sessionId := None;
        needsReply := false;
        var recovery := StaleSessionRecoveryPrompt(prompt);
        requests := requests + [RequestFor(recovery, None, None)];
        outcome := retry;
      } else if first.Answered? {
        lastError := None;
      }
      match outcome {
        case Refused(message, _, _) =>
          lastError := Some(message);
          messages := messages + [Assistant(FailureText(message), None)];
        case Crashed =>
        case Answered(payload) =>
          SyncSession(payload);
          messages := messages + [Assistant(payload.answer, Some(payload))];
      }
    }

    method SubmitUserPrompt(prompt: Text, first: Outcome, retry: Outcome) returns (requests: seq<Request>)
      modifies this
      ensures var clean := CleanPrompt(prompt);
              if clean == [] then Now() == old(Now()) && requests == []
              else Now() == Turn(old(Now()), clean, first, retry)
                   && requests == Requests(Say(old(Now()), clean), clean, None, first)
    {
      var clean := CleanPrompt(prompt);
      if clean == [] {
        return [];
      }
      messages := messages + [User(clean)];
      requests := SubmitPrompt(clean, None, first, retry);
    }

    method SubmitQuickReply(message: Text, action: Option<Text>, first: Outcome, retry: Outcome)
      returns (requests: seq<Request>)
      modifies this
      ensures Now() == Turn(old(Now()), message, first, retry)
      ensures requests == Requests(Say(old(Now()), message), message, action, first)
    {
      messages := messages + [User(message)];
      requests := SubmitPrompt(message, action, first, retry);
    }

    method SubmitFormRequest(summary: Text, outcome: Outcome) returns (requests: seq<Request>)
      modifies this
      ensures Now() == Settle(Say(old(Now()), summary), outcome) && requests == [Form]
    {
      messages := messages + [User(summary)];
      requests := [Form];
      match outcome {
        case Refused(message, _, _) =>
          lastError := Some(message);
          messages := messages + [Assistant(FailureText(message), None)];
        case Crashed =>
        case Answered(payload) =>
          SyncSession(payload);
          messages := messages + [Assistant(payload.answer, Some(payload))];
      }
    }

    // The newest completed itinerary, with the request it answers.
    method LatestHandoffContext() returns (context: Option<Handoff>)
      ensures context == HandoffOf(Now())
    {
      if needsReply {
        return None;
      }
      var index := |messages|;
      assert messages[..index] == messages;
      while index > 0 && !messages[index - 1].Assistant?
        invariant 0 <= index <= |messages|
        invariant LastAssistant(messages) == LastAssistant(messages[..index])
      {
        assert messages[..index][..index - 1] == messages[..index - 1];
        index := index - 1;
      }
      if index == 0 || messages[index - 1].payload.None? {
        return None;
      }
      var payload := messages[index - 1].payload.value;
      if payload.needsReply || !payload.hasItinerary {
        return None;
      }
      var snapshot := Strip(payload.answer);
      if snapshot == [] {
        return None;
      }
      var request := LatestUserMessageBefore(messages, index - 1);
      if request.None? {
        return None;
      }
      var session := if Given(payload.sessionId) then payload.sessionId
                     else if Given(sessionId) then sessionId else None;
      return Some(Handoff(request.value, snapshot, session));
    }
  }

  method LatestUserMessageBefore(messages: seq<Message>, index: nat) returns (content: Option<Text>)
    requires index <= |messages|
    ensures content == UserBefore(messages[..index])
  {
    var k := index;
    while k > 0
      invariant 0 <= k <= index
      invariant UserBefore(messages[..index]) == UserBefore(messages[..k])
    {
      assert messages[..k][..k - 1] == messages[..k - 1];
      var message := messages[k - 1];
      if message.User? && Strip(message.content) != [] {
        return Some(Strip(message.content));
      }
      k := k - 1;
    }
    return None;
  }

  // ---- the handoff to a sales adviser ----

  datatype Handoff = Handoff(request: Text, snapshot: Text, sessionId: Option<Text>)

  // One past the position of the last assistant message, or 0.
  function LastAssistant(messages: seq<Message>): (n: nat)
    ensures n <= |messages|
    ensures n > 0 ==> messages[n - 1].Assistant?
  {
    if messages == [] || messages[|messages| - 1].Assistant? then |messages|
    else LastAssistant(messages[..|messages| - 1])
  }

  // The last user message that is not blank.
  function UserBefore(messages: seq<Message>): Option<Text> {
    if messages == [] then None
    else
      var last := messages[|messages| - 1];
      if last.User? && Strip(last.content) != [] then Some(Strip(last.content))
      else UserBefore(messages[..|messages| - 1])
  }

  function HandoffOf(s: State): Option<Handoff> {
    var n := LastAssistant(s.messages);
    if s.needsReply || n == 0 then None
    else
      var p :- s.messages[n - 1].payload;
      if p.needsReply || !p.hasItinerary || Strip(p.answer) == [] then None
      else
        var request :- UserBefore(s.messages[..n - 1]);
        Some(Handoff(request, Strip(p.answer),
                     if Given(p.sessionId) then p.sessionId else if Given(s.sessionId) then s.sessionId else None))
  }

  // ---- quick replies ----

  predicate ShowsQuickReplies(s: State, index: nat) {
    && index < |s.messages| && index == |s.messages| - 1
    && s.needsReply
    && s.messages[index].Assistant? && s.messages[index].payload.Some?
  }

  // ---- runs ----

  // A form summary and a quick reply are never blank: the summary opens with a title, and only
  // options with a message are offered.
  datatype Event =
    | Prompt(prompt: Text, first: Outcome, retry: Outcome)
    | QuickReply(message: Text, action: Option<Text>, first: Outcome, retry: Outcome)
    | FormSent(summary: Text, outcome: Outcome)
    | Reset

  predicate Possible(e: Event) {
    (e.QuickReply? ==> Strip(e.message) != []) && (e.FormSent? ==> Strip(e.summary) != [])
  }

  function Next(s: State, e: Event): State {
    match e
    case Prompt(prompt, first, retry) =>
      var clean := CleanPrompt(prompt);
      if clean == [] then s else Turn(s, clean, first, retry)
    case QuickReply(message, _, first, retry) => Turn(s, message, first, retry)
    case FormSent(summary, outcome) => Settle(Say(s, summary), outcome)
    case Reset => INITIAL
  }

  function Run(events: seq<Event>): State {
    if events == [] then INITIAL else Next(Run(events[..|events| - 1]), events[|events| - 1])
  }

  predicate AllPossible(events: seq<Event>) {
    forall i | 0 <= i < |events| :: Possible(events[i])
  }

  // Does the turn end in an exception other than the frontend's own?
  predicate Crashes(s: State, e: Event) {
    match e
    case Prompt(prompt, first, retry) =>
      CleanPrompt(prompt) != [] && (if Retries(s, first) then retry else first).Crashed?
    case QuickReply(_, _, first, retry) => (if Retries(s, first) then retry else first).Crashed?
    case FormSent(_, outcome) => outcome.Crashed?
    case Reset => false
  }

  predicate CrashFree(events: seq<Event>) {
    forall i | 0 <= i < |events| :: !Crashes(Run(events[..i]), events[i])
  }

  predicate LastIs(s: State, p: Payload) {
    && s.messages != [] && s.messages[|s.messages| - 1].Assistant?
    && s.messages[|s.messages| - 1].payload == Some(p)
  }

  // What the session fields mean in every reachable state, crashes included.
  ghost predicate Consistent(s: State) {
    && (s.sessionId.Some? ==> s.needsReply && s.sessionId.value != [])
    && (s.sessionId.Some? ==>
          var p := NewestPayload(s.messages);
          p.Some? && p.value.needsReply && p.value.sessionId == s.sessionId)
    && (forall p | LastIs(s, p) ::
          s.needsReply == p.needsReply
          && s.sessionId == (if p.needsReply && Given(p.sessionId) then p.sessionId else None))
  }

  predicate Alternates(messages: seq<Message>) {
    && |messages| % 2 == 0
    && forall i | 0 <= i < |messages| ::
         if i % 2 == 0 then messages[i].User? && Strip(messages[i].content) != [] else messages[i].Assistant?
  }

  lemma TurnConsistent(s: State, prompt: Text, first: Outcome, retry: Outcome)
    requires Consistent(s)
    ensures Consistent(Turn(s, prompt, first, retry))
  {
    var asked := Say(s, prompt);
    assert asked.messages[..|s.messages|] == s.messages;
    SettleConsistent(asked.(sessionId := None, needsReply := false), retry);
    SettleConsistent(if first.Answered? then asked.(lastError := None) else asked, first);
  }

  lemma SettleConsistent(s: State, o: Outcome)
    requires Consistent(s)
    ensures Consistent(Settle(s, o))
  {
    hide FailureText;
    var t := Settle(s, o);
    if !o.Crashed? {
      assert t.messages[..|s.messages|] == s.messages;
    }
  }

  // Over every run: a session is kept only for a checkpoint that asked for a reply, it is the one
  // the newest payload named, and behind the last answer the fields equal that answer's own.
  lemma {:induction false} RunConsistent(events: seq<Event>)
    ensures Consistent(Run(events))
  {
    if events != [] {
      var s, e := Run(events[..|events| - 1]), events[|events| - 1];
      RunConsistent(events[..|events| - 1]);
      match e
      case Prompt(prompt, first, retry) => TurnConsistent(s, CleanPrompt(prompt), first, retry);
      case QuickReply(message, _, first, retry) => TurnConsistent(s, message, first, retry);
      case FormSent(summary, outcome) =>
        assert Say(s, summary).messages[..|s.messages|] == s.messages;
        SettleConsistent(Say(s, summary), outcome);
      case Reset =>
    }
  }

  lemma CleanPromptBare(prompt: Text)
    ensures CleanPrompt(prompt) != [] ==> Strip(CleanPrompt(prompt)) != []
  {
    var t := Strip(prompt);
    var u := if StartsWithLower(t, "/diy ") then Strip(t[5..])
             else if StartsWithLower(t, "diy ") then Strip(t[4..]) else t;
    var _, _ := TrimParts(u, IsSpace);
    TrimOfBare(Strip(u), IsSpace);
  }

  // The user message and the answer that one turn adds.
  predicate Adds(s: State, t: State, content: Text) {
    && |t.messages| == |s.messages| + 2
    && t.messages[..|s.messages|] == s.messages
    && t.messages[|s.messages|] == User(content)
    && t.messages[|s.messages| + 1].Assistant?
  }

  lemma SettleAdds(s: State, asked: State, content: Text, o: Outcome)
    requires asked.messages == s.messages + [User(content)] && !o.Crashed?
    ensures Adds(s, Settle(asked, o), content)
  {
    hide FailureText;
  }

  lemma TurnAdds(s: State, content: Text, first: Outcome, retry: Outcome)
    requires !(if Retries(s, first) then retry else first).Crashed?
    ensures Adds(s, Turn(s, content, first, retry), content)
  {
    hide Settle, IsStale, Adds;
    var asked := Say(s, content);
    if Retries(s, first) {
      SettleAdds(s, asked.(sessionId := None, needsReply := false), content, retry);
    } else {
      SettleAdds(s, if first.Answered? then asked.(lastError := None) else asked, content, first);
    }
  }

  lemma AlternatesMore(s: State, t: State, content: Text)
    requires Alternates(s.messages) && Strip(content) != [] && Adds(s, t, content)
    ensures Alternates(t.messages)
  {
    hide Strip;
    assert forall i | 0 <= i < |s.messages| :: t.messages[i] == t.messages[..|s.messages|][i];
  }

  // A turn keeps the alternation exactly when it does not end in a foreign exception, which would
  // leave the user's message without an answer.
  lemma NextAlternates(s: State, e: Event)
    requires Alternates(s.messages) && Possible(e)
    ensures Alternates(Next(s, e).messages) <==> !Crashes(s, e)
  {
    if Crashes(s, e) {
      CrashLeavesOne(s, e);
    } else {
      NextAdds(s, e);
    }
  }

  lemma CrashLeavesOne(s: State, e: Event)
    requires Crashes(s, e)
    ensures |Next(s, e).messages| == |s.messages| + 1
  {
    hide CleanPrompt, IsStale;
  }

  lemma NextAdds(s: State, e: Event)
    requires Alternates(s.messages) && Possible(e) && !Crashes(s, e)
    ensures Alternates(Next(s, e).messages)
  {
    hide Turn, Settle, CleanPrompt, Strip, Alternates, Retries;
    match e
    case Prompt(prompt, first, retry) =>
      CleanPromptBare(prompt);
      if CleanPrompt(prompt) != [] {
        TurnAdds(s, CleanPrompt(prompt), first, retry);
        AlternatesMore(s, Next(s, e), CleanPrompt(prompt));
      }
    case QuickReply(message, _, first, retry) =>
      TurnAdds(s, message, first, retry);
      AlternatesMore(s, Next(s, e), message);
    case FormSent(summary, outcome) =>
      SettleAdds(s, Say(s, summary), summary, outcome);
      AlternatesMore(s, Next(s, e), summary);
    case Reset => EmptyAlternates();
  }

  lemma EmptyAlternates()
    ensures Alternates([])
  {
  }

  // Over every run without foreign exceptions the log alternates between one user message, never
  // blank, and one assistant message.
  lemma {:induction false} RunAlternates(events: seq<Event>)
    requires AllPossible(events) && CrashFree(events)
    ensures Alternates(Run(events).messages)
  {
    hide Next, Crashes, Possible, Alternates;
    if events == [] {
      EmptyAlternates();
    } else {
      var front := events[..|events| - 1];
      assert forall i | 0 <= i < |front| :: front[..i] == events[..i];
      RunAlternates(front);
      NextAlternates(Run(front), events[|front|]);
    }
  }

  // In every reachable state a prompt makes at most two submissions.  The first goes to the stored
  // session, which the newest payload named and waits for, and has an action only with it; the
  // second happens exactly when that session is found lost, carries neither and ends with the prompt,
  // and any session kept after it was named by the answer to it.
  lemma {:induction false} AtMostTwoRequests(events: seq<Event>, prompt: Text, action: Option<Text>,
                                             first: Outcome, retry: Outcome)
    ensures var s := Run(events);
            var asked, p := Say(s, prompt), NewestPayload(s.messages);
            var r, t := Requests(asked, prompt, action, first), Turn(s, prompt, first, retry);
            && 1 <= |r| <= 2 && (forall i | 0 <= i < |r| :: r[i].Submission?)
            && r[0].prompt == prompt && r[0].sessionId == s.sessionId
            && (r[0].sessionId.Some? ==> p.Some? && p.value.needsReply && p.value.sessionId == r[0].sessionId)
            && r[0].action == (if s.sessionId.Some? && Given(action) then action else None)
            && (|r| == 2 <==> r[0].sessionId.Some? && IsStale(first))
            && (|r| == 2 ==> r[1].sessionId.None? && r[1].action.None? && EndsWith(r[1].prompt, prompt))
            && (|r| == 2 ==> r[1].prompt == RecoveryPrompt(asked.messages, prompt))
            && (|r| == 2 && t.sessionId.Some? ==>
                  retry.Answered? && retry.payload.needsReply && t.sessionId == retry.payload.sessionId)
  {
    RunConsistent(events);
    RecoveryEnds(Say(Run(events), prompt).messages, prompt);
    hide Run, IsStale, FailureText, RecoveryPrompt;
  }

  // The message that asked for the reply a session waits for.
  predicate IsCheckpoint(m: Message, session: Option<Text>) {
    m.Assistant? && m.payload.Some? && m.payload.value.needsReply && m.payload.value.sessionId == session
  }

  // From position n on, turns that ended in a refusal.
  ghost predicate RefusedTurns(messages: seq<Message>, n: nat, turns: nat) {
    && |messages| == n + 2 * turns
    && forall i | n <= i < |messages| ::
         if (i - n) % 2 == 0 then messages[i].User? else messages[i].Assistant? && messages[i].payload.None?
  }

  // What a recovered prompt still knows of the checkpoint it replies to.  Behind the checkpoint there
  // are only refused turns.  When there is at most one, the prompt quotes the checkpoint; when there
  // are more, it would be the same whatever the log said up to and at the checkpoint.
  lemma {:induction false} RecoveredCheckpoint(events: seq<Event>, prompt: Text) returns (n: nat, refused: nat)
    requires AllPossible(events) && CrashFree(events) && Run(events).sessionId.Some?
    ensures var s := Run(events);
            && 0 < n <= |s.messages| && IsCheckpoint(s.messages[n - 1], s.sessionId)
            && RefusedTurns(s.messages, n, refused)
            && (refused <= 1 ==> Quotes(Say(s, prompt).messages, prompt, s.messages[n - 1]))
            && (refused >= 2 ==> Forgets(Say(s, prompt).messages, prompt, n))
  {
    hide Run, AllPossible, CrashFree, Quotes, Forgets, Alternates;
    var s := Run(events);
    RunConsistent(events);
    RunAlternates(events);
    NewestAtPayload(s.messages);
    n := NewestAt(s.messages);
    refused := (|s.messages| - n) / 2;
    SinceCheckpoint(s.messages, n);
    if refused <= 1 {
      RecoveryQuotes(Say(s, prompt).messages, prompt, n - 1);
    } else {
      RecoveryForgets(Say(s, prompt).messages, prompt, n);
    }
  }

  lemma SinceCheckpoint(messages: seq<Message>, n: nat)
    requires Alternates(messages) && 0 < n <= |messages| && messages[n - 1].Assistant?
    requires forall i | n <= i < |messages| :: messages[i].User? || messages[i].payload.None?
    ensures RefusedTurns(messages, n, (|messages| - n) / 2)
  {
    hide Strip;
  }

  // A checkpoint, and two replies to it that time out.
  function TwoTimeouts(answer: Text, session: Text, request: Text, reply: Text, error: Text): seq<Event> {
    var timeout := Refused(error, None, None);
    [FormSent(request, Answered(Payload(answer, Some(session), true, false))),
     QuickReply(reply, None, timeout, Crashed), QuickReply(reply, None, timeout, Crashed)]
  }

  // The session is still waited for, and a prompt recovered from its loss no longer depends on what
  // the checkpoint said or was asked.
  lemma CheckpointForgotten(a: Text, b: Text, session: Text, request: Text, reply: Text, error: Text, prompt: Text)
    requires session != []
    ensures var s := Run(TwoTimeouts(a, session, request, reply, error));
            var t := Run(TwoTimeouts(b, session, [], reply, error));
            && s.sessionId == Some(session) && t.sessionId == Some(session)
            && RecoveryPrompt(Say(s, prompt).messages, prompt) == RecoveryPrompt(Say(t, prompt).messages, prompt)
  {
    hide RecoveryPrompt, FailureText;
    var s := AfterTimeouts(a, session, request, reply, error);
    var t := AfterTimeouts(b, session, [], reply, error);
    RecoveryForgets(Say(s, prompt).messages, prompt, 2);
  }

  lemma AfterTimeouts(answer: Text, session: Text, request: Text, reply: Text, error: Text) returns (s: State)
    requires session != []
    ensures s == Run(TwoTimeouts(answer, session, request, reply, error)) && s.sessionId == Some(session)
    ensures var p := Payload(answer, Some(session), true, false);
            s.messages == [User(request), Assistant(answer, Some(p)), User(reply), Refusal(FailureText(error)),
                           User(reply), Refusal(FailureText(error))]
  {
    hide FailureText;
    var events := TwoTimeouts(answer, session, request, reply, error);
    assert events[..2][..1] == events[..1] && events[..1][..0] == [];
    assert Run(events[..1]) == Next(INITIAL, events[0]);
    assert Run(events[..2]) == Next(Run(events[..1]), events[1]);
    s := Run(events);
  }

  function Refusal(content: Text): Message {
    Assistant(content, None)
  }

  // ---- quick replies of checkpoints the service backs ----

  // A payload that waits for a reply names the session to reply to.
  predicate Backed(p: Payload) {
    p.needsReply ==> Given(p.sessionId)
  }

  // How the service clears the reply state of an answer before a client sees it; `finished` tells
  // whether the answer holds an itinerary.
  function ClearUnbackedReplyState(p: Payload, finished: bool): Payload {
    if finished then p.(needsReply := false, sessionId := None)
    else if !p.needsReply then p.(sessionId := None)
    else if !Given(p.sessionId) then p.(needsReply := false)
    else p
  }

  // Whatever the service clears is backed, and a backed checkpoint is left alone.
  lemma ClearedIsBacked(p: Payload, finished: bool)
    ensures Backed(ClearUnbackedReplyState(p, finished))
    ensures !finished && p.needsReply && Backed(p) ==> ClearUnbackedReplyState(p, finished) == p
  {
  }

  predicate OutcomeBacked(o: Outcome) {
    o.Answered? ==> Backed(o.payload)
  }

  predicate EventBacked(e: Event) {
    match e
    case Prompt(_, first, retry) => OutcomeBacked(first) && OutcomeBacked(retry)
    case QuickReply(_, _, first, retry) => OutcomeBacked(first) && OutcomeBacked(retry)
    case FormSent(_, outcome) => OutcomeBacked(outcome)
    case Reset => true
  }

  ghost predicate LogBacked(messages: seq<Message>) {
    forall i | 0 <= i < |messages| && messages[i].Assistant? && messages[i].payload.Some? ::
      Backed(messages[i].payload.value)
  }

  lemma NextBacked(s: State, e: Event)
    requires LogBacked(s.messages) && EventBacked(e)
    ensures LogBacked(Next(s, e).messages)
  {
    hide CleanPrompt, IsStale, FailureText, Backed;
  }

  lemma {:induction false} RunBacked(events: seq<Event>)
    requires forall i | 0 <= i < |events| :: EventBacked(events[i])
    ensures LogBacked(Run(events).messages)
  {
    if events != [] {
      RunBacked(events[..|events| - 1]);
      hide Next, EventBacked, LogBacked;
      NextBacked(Run(events[..|events| - 1]), events[|events| - 1]);
    }
  }

  // Main result on quick replies.  In every run in which the service backs its checkpoints, a quick
  // reply that is shown is sent to the session of the checkpoint on display, with its action.
  lemma {:induction false} QuickReplyReaches(events: seq<Event>, index: nat, message: Text, action: Option<Text>,
                                             first: Outcome)
    requires forall i | 0 <= i < |events| :: EventBacked(events[i])
    requires ShowsQuickReplies(Run(events), index)
    ensures var s := Run(events);
            var p := s.messages[index].payload.value;
            && p.needsReply && Given(p.sessionId)
            && Requests(Say(s, message), message, action, first)[0]
               == Submission(message, p.sessionId, if Given(action) then action else None)
  {
    RunBacked(events);
    QuickReplyTarget(events, index, message, action, first);
    hide Run, IsStale, RecoveryPrompt;
  }

  // Without that assumption it is sent there exactly when the checkpoint names a session.
  lemma {:induction false} QuickReplyTarget(events: seq<Event>, index: nat, message: Text, action: Option<Text>,
                                            first: Outcome)
    requires ShowsQuickReplies(Run(events), index)
    ensures var s := Run(events);
            var p := s.messages[index].payload.value;
            var sent := Requests(Say(s, message), message, action, first)[0];
            && p.needsReply
            && (Given(p.sessionId) ==> sent == Submission(message, p.sessionId, if Given(action) then action else None))
            && (!Given(p.sessionId) ==> sent == Submission(message, None, None))
  {
    RunConsistent(events);
    var s := Run(events);
    assert LastIs(s, s.messages[index].payload.value);
    hide Run, IsStale, RecoveryPrompt;
  }

  // What a checkpoint that the service did not back would cause: its quick reply goes out as a new
  // question.
  lemma QuickReplyAstray(answer: Text, summary: Text, message: Text, action: Option<Text>, first: Outcome)
    ensures var s := Run([FormSent(summary, Answered(Payload(answer, None, true, false)))]);
            && ShowsQuickReplies(s, 1)
            && Requests(Say(s, message), message, action, first)[0] == Submission(message, None, None)
  {
    var events := [FormSent(summary, Answered(Payload(answer, None, true, false)))];
    assert events[..0] == [];
    assert Run(events[..0]) == INITIAL;
    hide IsStale, RecoveryPrompt;
  }

  // Over every run without foreign exceptions a handoff is offered exactly when the last message
  // is a finished itinerary, and it pairs that itinerary with the request right before it.
  lemma HandoffPairs(events: seq<Event>)
    requires AllPossible(events) && CrashFree(events)
    ensures var s := Run(events);
            var n := |s.messages|;
            var h := HandoffOf(s);
            && (h.Some? <==> exists p :: LastIs(s, p) && !p.needsReply && p.hasItinerary && Strip(p.answer) != [])
            && (h.Some? ==>
                  && n >= 2 && s.messages[n - 1].Assistant? && s.messages[n - 1].payload.Some?
                  && s.messages[n - 2].User?
                  && var p := s.messages[n - 1].payload.value;
                  h.value == Handoff(Strip(s.messages[n - 2].content), Strip(p.answer),
                                     if Given(p.sessionId) then p.sessionId else None))
  {
    hide *;
    RunConsistent(events);
    RunAlternates(events);
    HandoffOfState(Run(events));
  }

  lemma HandoffOfState(s: State)
    requires Consistent(s) && Alternates(s.messages)
    ensures var n, h := |s.messages|, HandoffOf(s);
            && (h.Some? <==> exists p :: LastIs(s, p) && !p.needsReply && p.hasItinerary && Strip(p.answer) != [])
            && (h.Some? ==>
                  && n >= 2 && s.messages[n - 1].Assistant? && s.messages[n - 1].payload.Some?
                  && s.messages[n - 2].User?
                  && var p := s.messages[n - 1].payload.value;
                  h.value == Handoff(Strip(s.messages[n - 2].content), Strip(p.answer),
                                     if Given(p.sessionId) then p.sessionId else None))
  {
    hide Strip;
    var n := |s.messages|;
    if n > 0 {
      assert s.messages[n - 1].Assistant? && s.messages[n - 2].User?;
      assert LastAssistant(s.messages) == n;
      var before := s.messages[..n - 1];
      assert before[n - 2] == s.messages[n - 2];
      assert UserBefore(before) == Some(Strip(s.messages[n - 2].content));
      if s.messages[n - 1].payload.Some? {
        assert LastIs(s, s.messages[n - 1].payload.value);
      }
      hide LastAssistant, UserBefore;
    }
  }
}
