// The message log of a conversation, and the prompt that quotes it when the session behind it is
// lost.
module ChatLog {
  import opened Wrappers
  import opened Text

  datatype Payload = Payload(answer: Text, sessionId: Option<Text>, needsReply: bool, hasItinerary: bool)

  datatype Message = User(content: Text) | Assistant(content: Text, payload: Option<Payload>)

  // The newest payload in the log, if any.
  function NewestPayload(messages: seq<Message>): Option<Payload> {
    if messages == [] then None
    else
      var last := messages[|messages| - 1];
      if last.Assistant? && last.payload.Some? then last.payload
      else NewestPayload(messages[..|messages| - 1])
  }

  // One past the position of the newest message with a payload, or 0.
  function NewestAt(messages: seq<Message>): (n: nat)
    ensures n <= |messages|
  {
    if messages == [] then 0
    else
      var last := messages[|messages| - 1];
      if last.Assistant? && last.payload.Some? then |messages| else NewestAt(messages[..|messages| - 1])
  }

  lemma {:induction false} NewestAtPayload(messages: seq<Message>)
    ensures var n := NewestAt(messages);
            && (n == 0 <==> NewestPayload(messages).None?)
            && (n > 0 ==> messages[n - 1].Assistant? && messages[n - 1].payload == NewestPayload(messages))
            && forall i | n <= i < |messages| :: messages[i].User? || messages[i].payload.None?
  {
    if messages != [] {
      var front := messages[..|messages| - 1];
      NewestAtPayload(front);
      assert forall i | 0 <= i < |front| :: messages[i] == front[i];
    }
  }

  // ---- recovery ----

  const CONTEXT_HEADER := "以下是本地界面保留的上文，后端会话已失效，请基于这些上下文继续处理用户的新请求。\n"
  const CONTEXT_FOOTER := "\n\n用户的新请求："

  // What is quoted of a message: the answer of its payload if it has one.
  function Quoted(m: Message): Text {
    Strip(if m.Assistant? && m.payload.Some? && m.payload.value.answer != [] then m.payload.value.answer
          else m.content)
  }

  function ContextLine(m: Message): (line: Text)
    ensures |line| <= 603
  {
    var text := Quoted(m);
    Points(if m.User? then "用户：" else "夏夏：") + if |text| > 600 then text[..600] else text
  }

  function ContextLines(messages: seq<Message>): (lines: seq<Text>)
    ensures |lines| <= |messages|
  {
    if messages == [] then []
    else
      var last := messages[|messages| - 1];
      ContextLines(messages[..|messages| - 1]) + if Quoted(last) == [] then [] else [ContextLine(last)]
  }

  // The four messages before the last one, or as many as there are.
  function Recent(messages: seq<Message>): seq<Message> {
    if |messages| <= 1 then []
    else if |messages| <= 5 then messages[..|messages| - 1]
    else messages[|messages| - 5..|messages| - 1]
  }

  function RecoveryPrompt(messages: seq<Message>, prompt: Text): Text {
    var lines := ContextLines(Recent(messages));
    if lines == [] then prompt
    else Points(CONTEXT_HEADER) + JoinTexts(0x0A, lines) + Points(CONTEXT_FOOTER) + prompt
  }

  ghost predicate Contains(t: Text, part: Text) {
    exists i, j :: 0 <= i <= j <= |t| && t[i..j] == part
  }

  predicate EndsWith(t: Text, end: Text) {
    |end| <= |t| && t[|t| - |end|..] == end
  }

  // A recovered prompt ends with the prompt, and is the prompt alone exactly when all it could
  // quote is blank.
  lemma {:induction false} RecoveryEnds(messages: seq<Message>, prompt: Text)
    ensures EndsWith(RecoveryPrompt(messages, prompt), prompt)
    ensures RecoveryPrompt(messages, prompt) == prompt
       <==> forall i | 0 <= i < |Recent(messages)| :: Quoted(Recent(messages)[i]) == []
  {
    hide Quoted, ContextLine, Recent, JoinTexts;
    ContextBlank(Recent(messages));
  }

  lemma {:induction false} ContextBlank(messages: seq<Message>)
    ensures ContextLines(messages) == [] <==> forall i | 0 <= i < |messages| :: Quoted(messages[i]) == []
  {
    hide Quoted, ContextLine;
    if messages != [] {
      var front := messages[..|messages| - 1];
      ContextBlank(front);
      assert forall i | 0 <= i < |front| :: messages[i] == front[i];
    }
  }

  // The lines follow the messages that are not blank, in order.
  lemma {:induction false} ContextLinesConcat(a: seq<Message>, b: seq<Message>)
    ensures ContextLines(a + b) == ContextLines(a) + ContextLines(b)
  {
    hide Quoted, ContextLine;
    if b == [] {
      assert a + b == a;
    } else {
      assert (a + b)[..|a| + |b| - 1] == a + b[..|b| - 1];
      ContextLinesConcat(a, b[..|b| - 1]);
    }
  }

  lemma {:induction false} ContextHas(messages: seq<Message>, i: nat) returns (k: nat)
    requires i < |messages| && Quoted(messages[i]) != []
    ensures k < |ContextLines(messages)| && ContextLines(messages)[k] == ContextLine(messages[i])
  {
    hide Quoted, ContextLine;
    if i == |messages| - 1 {
      k := |ContextLines(messages)| - 1;
    } else {
      k := ContextHas(messages[..|messages| - 1], i);
    }
  }

  lemma {:induction false} JoinHas(c: CodePoint, ts: seq<Text>, k: nat)
    requires k < |ts|
    ensures Contains(JoinTexts(c, ts), ts[k])
  {
    var t := JoinTexts(c, ts);
    if k == 0 {
      assert t[0..|ts[0]|] == ts[0];
    } else {
      JoinHas(c, ts[1..], k - 1);
      ContainsInside(ts[0] + [c], JoinTexts(c, ts[1..]), [], ts[k]);
      assert t == ts[0] + [c] + JoinTexts(c, ts[1..]) + [];
    }
  }

  lemma ContainsInside(a: Text, t: Text, b: Text, part: Text)
    requires Contains(t, part)
    ensures Contains(a + t + b, part)
  {
    var i, j :| 0 <= i <= j <= |t| && t[i..j] == part;
    assert (a + t + b)[|a| + i..|a| + j] == part;
  }

  // A message that is not blank has its line in the recovered prompt.
  ghost predicate Quotes(messages: seq<Message>, prompt: Text, m: Message) {
    Quoted(m) != [] ==> Contains(RecoveryPrompt(messages, prompt), ContextLine(m))
  }

  // The recovered prompt depends on the log from position n on.
  ghost predicate Forgets(messages: seq<Message>, prompt: Text, n: nat) {
    forall log: seq<Message> | |log| == |messages| && (forall i | n <= i < |log| :: log[i] == messages[i]) ::
      RecoveryPrompt(log, prompt) == RecoveryPrompt(messages, prompt)
  }

  // The last four messages before the prompt are quoted, and nothing before them matters.
  lemma {:induction false} RecoveryQuotes(messages: seq<Message>, prompt: Text, i: nat)
    requires |messages| - 5 <= i < |messages| - 1
    ensures Quotes(messages, prompt, messages[i])
  {
    hide Quoted, ContextLine, JoinTexts, Contains;
    if Quoted(messages[i]) != [] {
      var recent := Recent(messages);
      var at := i - (|messages| - 1 - |recent|);
      assert recent[at] == messages[i];
      var k := ContextHas(recent, at);
      var context, footer := JoinTexts(0x0A, ContextLines(recent)), Points(CONTEXT_FOOTER) + prompt;
      JoinHas(0x0A, ContextLines(recent), k);
      ContainsInside(Points(CONTEXT_HEADER), context, footer, ContextLine(messages[i]));
      assert RecoveryPrompt(messages, prompt) == Points(CONTEXT_HEADER) + context + footer;
    }
  }

  lemma RecoveryForgets(messages: seq<Message>, prompt: Text, n: nat)
    requires n + 5 <= |messages|
    ensures Forgets(messages, prompt, n)
  {
    forall log: seq<Message> | |log| == |messages| && (forall i | n <= i < |log| :: log[i] == messages[i])
      ensures RecoveryPrompt(log, prompt) == RecoveryPrompt(messages, prompt)
    {
      assert Recent(log) == Recent(messages);
    }
  }
}
