// What one turn of the conversation does, told case by case in the program's own literals.
module Turns {
  import opened Wrappers
  import opened Text
  import opened ChatLog
  import opened Conversation

  predicate Blank(t: Text) {
    forall i | 0 <= i < |t| :: IsSpace(t[i])
  }

  // ---- lost sessions ----

  // The service's answer to a reply whose session it no longer has, with white space around it or not.
  ghost predicate SaysLost(o: Outcome) {
    && o.Refused? && o.statusCode == Some(404) && o.detail.Some?
    && exists a: Text, b: Text :: Surrounds(o.detail.value, a, Points("session not found"), b)
  }

  ghost predicate Surrounds(t: Text, a: Text, middle: Text, b: Text) {
    Blank(a) && Blank(b) && t == a + middle + b
  }

  lemma StripSurrounded(t: Text, middle: Text)
    requires middle != [] && Bare(middle, IsSpace)
    ensures Strip(t) == middle <==> exists a: Text, b: Text :: Surrounds(t, a, middle, b)
  {
    if Strip(t) == middle {
      var i, j := TrimParts(t, IsSpace);
      assert t == t[..i] + middle + t[j..];
      assert Surrounds(t, t[..i], middle, t[j..]);
    }
    if a: Text, b: Text :| Surrounds(t, a, middle, b) {
      TrimAround(a, middle, b, IsSpace);
    }
  }

  lemma StaleIsLost(o: Outcome)
    ensures IsStale(o) <==> SaysLost(o)
  {
    var phrase := Points("session not found");
    assert phrase[0] == 's' as int && phrase[|phrase| - 1] == 'd' as int;
    if o.Refused? && o.detail.Some? {
      StripSurrounded(o.detail.value, phrase);
    }
    hide Strip, Points;
  }

  // Main result on lost sessions.  In every run that waits on a session, a refused prompt is sent a
  // second time, and the session dropped, exactly when the refusal is a 404 that says the session was
  // not found; any other refusal leaves one request and the session as it was.
  lemma {:induction false} LostSession(events: seq<Event>, prompt: Text, action: Option<Text>, first: Outcome,
                                       retry: Outcome)
    requires Run(events).sessionId.Some? && first.Refused?
    ensures var s := Run(events);
            var r, t := Requests(Say(s, prompt), prompt, action, first), Turn(s, prompt, first, retry);
            && s.needsReply && r[0].Submission? && r[0].sessionId == s.sessionId
            && |r| == (if SaysLost(first) then 2 else 1)
            && (SaysLost(first) && !retry.Answered? ==> t.sessionId.None? && !t.needsReply)
            && (!SaysLost(first) ==> t.sessionId == s.sessionId && t.needsReply)
  {
    RunConsistent(events);
    StaleIsLost(first);
    hide Run, IsStale, SaysLost, RecoveryPrompt, FailureText;
  }

  // ---- the whole turn ----

  // State t follows s after a message of the user whose submission ended this way.
  ghost predicate Ends(s: State, t: State, content: Text, o: Outcome, lost: bool, clears: bool) {
    match o
    case Answered(p) =>
      && t.messages == s.messages + [User(content), Assistant(p.answer, Some(p))]
      && t.needsReply == p.needsReply
      && t.sessionId == (if p.needsReply && p.sessionId.Some? && p.sessionId.value != [] then p.sessionId else None)
      && t.lastError == if clears then None else s.lastError
    case Refused(message, _, _) =>
      && t.messages == s.messages + [User(content), Assistant(Points("请求失败：") + message, None)]
      && t.lastError == Some(message)
      && KeepsSession(s, t, lost)
    case Crashed =>
      && t.messages == s.messages + [User(content)]
      && t.lastError == s.lastError
      && KeepsSession(s, t, lost)
  }

  predicate KeepsSession(s: State, t: State, lost: bool) {
    if lost then t.sessionId.None? && !t.needsReply else t.sessionId == s.sessionId && t.needsReply == s.needsReply
  }

  // A prompt ends as its only submission did, or, when that found the session lost, as the second; an
  // old error is cleared by a first submission that is answered.
  lemma {:induction false} TurnEnds(events: seq<Event>, content: Text, first: Outcome, retry: Outcome)
    ensures var s := Run(events);
            var lost := s.sessionId.Some? && SaysLost(first);
            Ends(s, Turn(s, content, first, retry), content, if lost then retry else first, lost, !lost)
  {
    RunConsistent(events);
    StaleIsLost(first);
    hide Run, IsStale, SaysLost;
  }

  // A form ends as its submission did; the session stays unless it is answered, and so does an error.
  lemma FormEnds(s: State, summary: Text, outcome: Outcome)
    ensures Ends(s, Next(s, FormSent(summary, outcome)), summary, outcome, false, false)
  {
  }

  // ---- what a prompt says ----

  // `/diy ` or `diy `, in letters of either case.
  predicate IsDiyPrefix(p: Text) {
    || (|p| == 5 && p[0] == 0x2F && IsDiyPrefix(p[1..]))
    || (|p| == 4 && p[0] in {0x44, 0x64} && p[1] in {0x49, 0x69} && p[2] in {0x59, 0x79} && p[3] == 0x20)
  }

  // Whatever stands behind the prefix and is not blank is the prompt, without the white space around it.
  lemma DropsPrefix(a: Text, p: Text, gap: Text, x: Text, b: Text)
    requires Blank(a) && Blank(gap) && Blank(b) && IsDiyPrefix(p) && x != [] && Bare(x, IsSpace)
    ensures CleanPrompt(a + (p + gap + x) + b) == x
  {
    hide Strip, IsSpace, Trim;
    var t := p + gap + x;
    PrefixBare(p, gap, x);
    TrimAround(a, t, b, IsSpace);
    StripIs(a + t + b, t);
    assert t[|p|..] == gap + x + [] && t[..|p|] == p;
    TrimAround(gap, x, [], IsSpace);
    StripIs(t[|p|..], x);
    TrimOfBare(x, IsSpace);
    StripIs(x, x);
    PrefixSeen(p, t);
    assert Strip(a + t + b) == t && Strip(t[|p|..]) == x && Strip(x) == x;
  }

  lemma StripIs(t: Text, u: Text)
    ensures Trim(t, IsSpace) == u ==> Strip(t) == u
  {
  }

  lemma PrefixBare(p: Text, gap: Text, x: Text)
    requires IsDiyPrefix(p) && x != [] && Bare(x, IsSpace)
    ensures Bare(p + gap + x, IsSpace)
  {
    var t := p + gap + x;
    assert t[0] == p[0] && t[|t| - 1] == x[|x| - 1];
  }

  lemma PrefixSeen(p: Text, t: Text)
    requires IsDiyPrefix(p) && |p| <= |t| && p == t[..|p|]
    ensures |p| == 5 ==> StartsWithLower(t, "/diy ")
    ensures |p| == 4 ==> !StartsWithLower(t, "/diy ") && StartsWithLower(t, "diy ")
  {
    assert forall i | 0 <= i < |p| :: t[i] == p[i];
    if |p| == 5 {
      assert p[1..][0] == p[1] && p[1..][1] == p[2] && p[1..][2] == p[3] && p[1..][3] == p[4];
    } else {
      assert t[0] == p[0] && t[0] != '/' as int;
    }
  }

  // A prompt without the prefix only loses the white space around it.
  lemma KeepsPrompt(a: Text, x: Text, b: Text)
    requires Blank(a) && Blank(b) && x != [] && Bare(x, IsSpace)
    requires forall k | 0 <= k <= |x| :: !IsDiyPrefix(x[..k])
    ensures CleanPrompt(a + x + b) == x
  {
    hide Strip, IsSpace, Trim;
    TrimAround(a, x, b, IsSpace);
    StripIs(a + x + b, x);
    TrimOfBare(x, IsSpace);
    StripIs(x, x);
    SeenPrefix(x);
  }

  lemma SeenPrefix(x: Text)
    ensures StartsWithLower(x, "/diy ") ==> |x| >= 5 && IsDiyPrefix(x[..5])
    ensures StartsWithLower(x, "diy ") ==> |x| >= 4 && IsDiyPrefix(x[..4])
  {
    if StartsWithLower(x, "/diy ") {
      var p := x[..5];
      assert x[0] == '/' as int && p[1..][0] == x[1] && p[1..][1] == x[2] && p[1..][2] == x[3] && p[1..][3] == x[4];
      assert IsDiyPrefix(p[1..]);
    }
  }

  // ---- scans of the log ----

  // The backward scans stop at the last message they look for, and at nothing before it.
  lemma {:induction false} LastUserBefore(messages: seq<Message>, i: nat)
    requires i < |messages| && messages[i].User? && !Blank(messages[i].content)
    requires forall k | i < k < |messages| && messages[k].User? :: Blank(messages[k].content)
    ensures UserBefore(messages) == Some(Strip(messages[i].content))
  {
    BlankStrips(messages[|messages| - 1].content);
    hide Strip, Blank;
    if i < |messages| - 1 {
      LastUserBefore(messages[..|messages| - 1], i);
    }
  }

  lemma {:induction false} NoUserBefore(messages: seq<Message>)
    requires forall k | 0 <= k < |messages| && messages[k].User? :: Blank(messages[k].content)
    ensures UserBefore(messages) == None
  {
    if messages != [] {
      BlankStrips(messages[|messages| - 1].content);
      hide Strip, Blank;
      NoUserBefore(messages[..|messages| - 1]);
    }
  }

  lemma BlankStrips(t: Text)
    ensures Strip(t) == [] <==> Blank(t)
  {
    var i, j := TrimParts(t, IsSpace);
    if i < j {
      assert t[i..j][0] == t[i];
    }
  }

  lemma {:induction false} LastAssistantAt(messages: seq<Message>, n: nat)
    requires n <= |messages| && (n > 0 ==> messages[n - 1].Assistant?)
    requires forall k | n <= k < |messages| :: messages[k].User?
    ensures LastAssistant(messages) == n
  {
    if n < |messages| {
      LastAssistantAt(messages[..|messages| - 1], n);
    }
  }
  // ---- the handoff of any log ----

  predicate Finished(p: Payload) {
    !p.needsReply && p.hasItinerary && !Blank(p.answer)
  }

  // A handoff is of the last assistant message: its answer, the last request before it that is not
  // blank, and the session its payload names, or else the one that is stored.
  lemma HandoffOfLog(s: State, n: nat, u: nat)
    requires !s.needsReply && u < n < |s.messages| && s.messages[n].Assistant?
    requires forall k | n < k < |s.messages| :: s.messages[k].User?
    requires s.messages[n].payload.Some? && Finished(s.messages[n].payload.value)
    requires s.messages[u].User? && !Blank(s.messages[u].content)
    requires forall k | u < k < n && s.messages[k].User? :: Blank(s.messages[k].content)
    ensures var p := s.messages[n].payload.value;
            HandoffOf(s)
            == Some(Handoff(Strip(s.messages[u].content), Strip(p.answer),
                            if p.sessionId.Some? && p.sessionId.value != [] then p.sessionId
                            else if s.sessionId.Some? && s.sessionId.value != [] then s.sessionId
                            else None))
  {
    LastAssistantAt(s.messages, n + 1);
    LastUserBefore(s.messages[..n], u);
    BlankStrips(s.messages[n].payload.value.answer);
    hide Strip, Blank, LastAssistant, UserBefore;
  }

  // There is none while a reply is waited for, without an assistant message, when the last one holds no
  // finished answer, and when no request stands before it.
  lemma NoHandoff(s: State, n: nat)
    requires n <= |s.messages| && (n > 0 ==> s.messages[n - 1].Assistant?)
    requires forall k | n <= k < |s.messages| :: s.messages[k].User?
    requires s.needsReply || n == 0 || s.messages[n - 1].payload.None?
             || !Finished(s.messages[n - 1].payload.value)
             || forall k | 0 <= k < n && s.messages[k].User? :: Blank(s.messages[k].content)
    ensures HandoffOf(s) == None
  {
    LastAssistantAt(s.messages, n);
    hide Strip, Blank, LastAssistant, UserBefore;
    if n > 0 && s.messages[n - 1].payload.Some? {
      BlankStrips(s.messages[n - 1].payload.value.answer);
    }
    if n > 0 && forall k | 0 <= k < n && s.messages[k].User? :: Blank(s.messages[k].content) {
      NoUserBefore(s.messages[..n - 1]);
    }
  }

  // ---- the text of a recovered prompt ----

  // What a message says: the answer of its payload, unless that is empty.
  function Says(m: Message): Text {
    match m
    case User(content) => content
    case Assistant(content, payload) =>
      if payload.Some? && payload.value.answer != [] then payload.value.answer else content
  }

  // A message is quoted under the name of who said it, by at most 600 characters and without the white
  // space around them.
  lemma LineOf(m: Message, a: Text, x: Text, b: Text)
    requires Says(m) == a + x + b && Blank(a) && Blank(b) && x != [] && Bare(x, IsSpace)
    ensures ContextLine(m) == Points(if m.User? then "用户：" else "夏夏：") + (if |x| > 600 then x[..600] else x)
    ensures Quoted(m) == x
  {
    hide IsSpace;
    TrimAround(a, x, b, IsSpace);
    hide Trim;
  }

  lemma LineOfBlank(m: Message)
    ensures Quoted(m) == [] <==> Blank(Says(m))
  {
    BlankStrips(Says(m));
    hide Strip;
  }

  lemma {:induction false} FourLines(m1: Message, m2: Message, m3: Message, m4: Message)
    requires Quoted(m1) != [] && Quoted(m2) != [] && Quoted(m3) != [] && Quoted(m4) != []
    ensures ContextLines([m1, m2, m3, m4]) == [ContextLine(m1), ContextLine(m2), ContextLine(m3), ContextLine(m4)]
  {
    hide Quoted, ContextLine;
    var ms := [m1, m2, m3, m4];
    assert ms[..3] == [m1, m2, m3] && ms[..3][..2] == [m1, m2] && ms[..3][..2][..1] == [m1];
    assert [m1][..0] == [] && [m1, m2][..1] == [m1] && [m1, m2, m3][..2] == [m1, m2];
    assert ContextLines([m1]) == [ContextLine(m1)];
    assert ContextLines([m1, m2]) == [ContextLine(m1), ContextLine(m2)];
  }

  lemma {:induction false} JoinFour(a: Text, b: Text, c: Text, d: Text)
    ensures JoinTexts(0x0A, [a, b, c, d]) == a + [0x0A] + b + [0x0A] + c + [0x0A] + d
  {
    var ts := [a, b, c, d];
    assert ts[1..] == [b, c, d] && [b, c, d][1..] == [c, d] && [c, d][1..] == [d];
    assert JoinTexts(0x0A, [c, d]) == c + [0x0A] + d;
    assert JoinTexts(0x0A, [b, c, d]) == b + [0x0A] + (c + [0x0A] + d);
  }

  // Behind any log, four messages that are not blank and the prompt make a recovered prompt of the
  // introduction, one line for each of the four in order, and the prompt as the new request.
  lemma {:induction false} RecoveryText(log: seq<Message>, m1: Message, m2: Message, m3: Message, m4: Message,
                                        prompt: Text)
    requires !Blank(Says(m1)) && !Blank(Says(m2)) && !Blank(Says(m3)) && !Blank(Says(m4))
    ensures RecoveryPrompt(log + [m1, m2, m3, m4, User(prompt)], prompt)
         == Points("以下是本地界面保留的上文，后端会话已失效，请基于这些上下文继续处理用户的新请求。\n")
            + (ContextLine(m1) + [0x0A] + ContextLine(m2) + [0x0A] + ContextLine(m3) + [0x0A] + ContextLine(m4))
            + Points("\n\n用户的新请求：") + prompt
  {
    hide Quoted, ContextLine, Points, Blank, ContextLines, JoinTexts;
    LineOfBlank(m1);
    LineOfBlank(m2);
    LineOfBlank(m3);
    LineOfBlank(m4);
    assert Recent(log + [m1, m2, m3, m4, User(prompt)]) == [m1, m2, m3, m4];
    FourLines(m1, m2, m3, m4);
    JoinFour(ContextLine(m1), ContextLine(m2), ContextLine(m3), ContextLine(m4));
  }
}
