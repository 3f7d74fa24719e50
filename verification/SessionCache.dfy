// The command line's cached pending session, and the chat that routes messages by it.
module SessionCache {
  import opened Wrappers

  // The cache file as loading sees it: absent, not readable as JSON, or an object whose
  // session_id is a string or something else.
  datatype CacheFile = Missing | Unreadable | Stored(sessionId: Option<string>)

  // The parts of a response that matter here; a session_id that is not a string is None.
  datatype Payload = Payload(sessionId: Option<string>, needsReply: bool)

  datatype Change = Response(payload: Payload) | Cleared

  function Cached(f: CacheFile): Option<string> {
    if f.Stored? && f.sessionId.Some? && f.sessionId.value != "" then f.sessionId else None
  }

  predicate Valid(p: Payload) {
    p.sessionId.Some? && p.sessionId.value != ""
  }

  function Sync(f: CacheFile, p: Payload): CacheFile {
    if !Valid(p) then f
    else if p.needsReply then Stored(p.sessionId)
    else if Cached(f) == p.sessionId then Missing
    else f
  }

  function Apply(f: CacheFile, c: Change): CacheFile {
    match c
    case Response(p) => Sync(f, p)
    case Cleared => Missing
  }

  function After(f: CacheFile, history: seq<Change>): CacheFile {
    if history == [] then f else Apply(After(f, history[..|history| - 1]), history[|history| - 1])
  }

  class Cache {
    var file: CacheFile

    method SaveCachedSessionId(sessionId: string)
      modifies this
      ensures file == Stored(Some(sessionId))
    {
      file := Stored(Some(sessionId));
    }

    method LoadCachedSessionId() returns (sessionId: Option<string>)
      ensures sessionId == Cached(file)
    {
      match file {
        case Missing => sessionId := None;
        case Unreadable => sessionId := None;
        case Stored(id) => sessionId := if id.Some? && id.value != "" then id else None;
      }
    }

    method ClearCachedSessionId()
      modifies this
      ensures file == Missing
    {
      file := Missing;
    }

    method SyncSessionCache(payload: Payload)
      modifies this
      ensures file == Sync(old(file), payload)
    {
      if payload.sessionId.None? || payload.sessionId.value == "" {
        return;
      }
      if payload.needsReply {
        SaveCachedSessionId(payload.sessionId.value);
        return;
      }
      var cached := LoadCachedSessionId();
      if cached == payload.sessionId {
        ClearCachedSessionId();
      }
    }

    // One round per message typed; `answers[i]` is what the server returns if message i is sent,
    // None an HTTP failure, which ends the program.
    method Chat(inputs: seq<Input>, answers: seq<Option<Payload>>) returns (sent: seq<Option<Request>>)
      requires |answers| == |inputs|
      modifies this
      ensures var end := ChatAfter(old(file), inputs, answers, |inputs|);
              file == end.file && sent == end.sent
    {
      sent := [];
      var i := 0;
      while i < |inputs|
        invariant 0 <= i <= |inputs|
        invariant var now := ChatAfter(old(file), inputs, answers, i);
                  file == now.file && sent == now.sent && !now.over
      {
        ghost var now := ChatAfter(old(file), inputs, answers, i);
        var request: Option<Request> := None;
        match inputs[i] {
          case Exit =>
            OverStays(old(file), inputs, answers, i + 1, |inputs|);
            return;
          case Blank =>
          case Help =>
          case New => ClearCachedSessionId();
          case Continue =>
            var _ := LoadCachedSessionId();
          case Health => request := Some(ToHealth);
          case Free(diy) =>
            var session := LoadCachedSessionId();
            request := Some(if session.Some? then ToReply(session.value)
                            else if diy then ToDiy else ToQuestions);
        }
        if request.Some? {
          sent := sent + [request];
          if answers[i].None? {
            OverStays(old(file), inputs, answers, i + 1, |inputs|);
            return;
          }
          SyncSessionCache(answers[i].value);
        } else {
          sent := sent + [None];
        }
        i := i + 1;
      }
    }
  }

  // ---- the history that explains the cache ----

  predicate Asks(c: Change, s: string) {
    c.Response? && c.payload.needsReply && c.payload.sessionId == Some(s) && s != ""
  }

  // Another reply request with a valid id, a finished response for s, or a clear.
  predicate Supersedes(c: Change, s: string) {
    || c.Cleared?
    || (c.payload.sessionId.Some? && c.payload.sessionId.value != ""
        && (c.payload.needsReply || c.payload.sessionId == Some(s)))
  }

  // Some response asked for a reply with id s and nothing since superseded it.
  ghost predicate Asked(history: seq<Change>, s: string) {
    exists i | 0 <= i < |history| ::
      Asks(history[i], s) && forall k | i < k < |history| :: !Supersedes(history[k], s)
  }

  // The same, counting an id that was already cached at the start.
  ghost predicate Owed(f: CacheFile, history: seq<Change>, s: string) {
    || Asked(history, s)
    || (Cached(f) == Some(s) && forall k | 0 <= k < |history| :: !Supersedes(history[k], s))
  }

  lemma OwedNext(f: CacheFile, history: seq<Change>, s: string)
    requires history != []
    ensures var front, last := history[..|history| - 1], history[|history| - 1];
            Owed(f, history, s) <==> Asks(last, s) || (Owed(f, front, s) && !Supersedes(last, s))
  {
    var front, n := history[..|history| - 1], |history| - 1;
    assert forall k | 0 <= k < n :: front[k] == history[k];
    if Asks(history[n], s) {
      assert Asked(history, s);
    }
    if Asked(front, s) && !Supersedes(history[n], s) {
      var i :| 0 <= i < n && Asks(front[i], s) && forall k | i < k < n :: !Supersedes(front[k], s);
      assert Asks(history[i], s);
    }
    if Asked(history, s) && !Asks(history[n], s) {
      var i :| 0 <= i < |history| && Asks(history[i], s) && forall k | i < k < |history| :: !Supersedes(history[k], s);
      assert Asks(front[i], s) && !Supersedes(history[n], s);
    }
  }

  // After any history the cached id is s exactly when s is owed a reply.
  lemma {:induction false} CacheRefinesHistory(f: CacheFile, history: seq<Change>, s: string)
    ensures Cached(After(f, history)) == Some(s) <==> Owed(f, history, s)
  {
    if history != [] {
      CacheRefinesHistory(f, history[..|history| - 1], s);
      OwedNext(f, history, s);
      hide Owed;
    }
  }

  // ---- the chat ----

  // Messages by the branch they take; only the last kind is sent to a travel endpoint.
  datatype Input = Blank | Exit | Help | New | Continue | Health | Free(diy: bool)

  datatype Request = ToReply(sessionId: string) | ToDiy | ToQuestions | ToHealth

  datatype Chatting = Chatting(file: CacheFile, sent: seq<Option<Request>>, over: bool)

  function Routed(c: Chatting, input: Input): Option<Request> {
    match input
    case Free(diy) =>
      Some(if Cached(c.file).Some? then ToReply(Cached(c.file).value) else if diy then ToDiy else ToQuestions)
    case Health => Some(ToHealth)
    case _ => None
  }

  function Round(c: Chatting, input: Input, answer: Option<Payload>): Chatting {
    if c.over then c
    else if input.Exit? then c.(over := true)
    else
      var request := Routed(c, input);
      var noted := c.(sent := c.sent + [request]);
      if input.New? then noted.(file := Missing)
      else if request.None? then noted
      else if answer.None? then noted.(over := true)
      else noted.(file := Sync(c.file, answer.value))
  }

  function ChatAfter(f: CacheFile, inputs: seq<Input>, answers: seq<Option<Payload>>, n: nat): Chatting
    requires n <= |inputs| == |answers|
  {
    if n == 0 then Chatting(f, [], false)
    else Round(ChatAfter(f, inputs, answers, n - 1), inputs[n - 1], answers[n - 1])
  }

  lemma {:induction false} OverStays(f: CacheFile, inputs: seq<Input>, answers: seq<Option<Payload>>, m: nat, n: nat)
    requires m <= n <= |inputs| == |answers| && ChatAfter(f, inputs, answers, m).over
    ensures ChatAfter(f, inputs, answers, n) == ChatAfter(f, inputs, answers, m)
  {
    if m < n {
      OverStays(f, inputs, answers, m, n - 1);
    }
  }

  // ---- what the messages and the answers alone say ----

  // A health check and a free message are sent; each is answered or fails.
  predicate IsSent(input: Input) {
    input.Health? || input.Free?
  }

  // What one message changes: `new` clears, and an answer counts as a response.
  function ChangeOf(input: Input, answer: Option<Payload>): seq<Change> {
    if input.New? then [Cleared]
    else if IsSent(input) && answer.Some? then [Response(answer.value)]
    else []
  }

  function History(inputs: seq<Input>, answers: seq<Option<Payload>>, n: nat): seq<Change>
    requires n <= |inputs| == |answers|
  {
    if n == 0 then [] else History(inputs, answers, n - 1) + ChangeOf(inputs[n - 1], answers[n - 1])
  }

  // An exit and a failure stop the chat.
  ghost predicate Running(inputs: seq<Input>, answers: seq<Option<Payload>>, n: nat)
    requires n <= |inputs| == |answers|
  {
    forall i | 0 <= i < n :: !inputs[i].Exit? && (IsSent(inputs[i]) ==> answers[i].Some?)
  }

  // While it runs every message is one round, and the file is what the history makes of it.
  lemma {:induction false} ChatHistory(f: CacheFile, inputs: seq<Input>, answers: seq<Option<Payload>>, n: nat)
    requires n <= |inputs| == |answers|
    ensures var c := ChatAfter(f, inputs, answers, n);
            && (c.over <==> !Running(inputs, answers, n))
            && (Running(inputs, answers, n) ==>
                  |c.sent| == n && c.file == After(f, History(inputs, answers, n)))
  {
    hide Round, After, Running, IsSent;
    if n == 0 {
      NothingYet(f, inputs, answers);
    } else {
      var input, answer := inputs[n - 1], answers[n - 1];
      ChatHistory(f, inputs, answers, n - 1);
      RunningNext(inputs, answers, n);
      RoundOf(ChatAfter(f, inputs, answers, n - 1), input, answer);
      AfterOne(f, History(inputs, answers, n - 1), input, answer);
    }
  }

  lemma NothingYet(f: CacheFile, inputs: seq<Input>, answers: seq<Option<Payload>>)
    requires |inputs| == |answers|
    ensures Running(inputs, answers, 0) && After(f, []) == f
  {
  }

  lemma RunningNext(inputs: seq<Input>, answers: seq<Option<Payload>>, n: nat)
    requires 0 < n <= |inputs| == |answers|
    ensures Running(inputs, answers, n) <==>
              Running(inputs, answers, n - 1) && !inputs[n - 1].Exit?
              && (IsSent(inputs[n - 1]) ==> answers[n - 1].Some?)
  {
  }

  lemma RoundOf(c: Chatting, input: Input, answer: Option<Payload>)
    ensures var d := Round(c, input, answer);
            && (d.over <==> c.over || input.Exit? || (IsSent(input) && answer.None?))
            && (!d.over ==>
                  && |d.sent| == |c.sent| + 1
                  && d.file == (if input.New? then Missing
                                else if IsSent(input) && answer.Some? then Sync(c.file, answer.value)
                                else c.file))
  {
    hide Sync, Cached;
  }

  lemma AfterOne(f: CacheFile, history: seq<Change>, input: Input, answer: Option<Payload>)
    ensures After(f, history + ChangeOf(input, answer))
         == if input.New? then Missing
            else if IsSent(input) && answer.Some? then Sync(After(f, history), answer.value)
            else After(f, history)
  {
    hide Sync;
    var change := ChangeOf(input, answer);
    if change == [] {
      assert history + change == history;
    } else {
      assert (history + change)[..|history|] == history;
    }
  }

  // The request of the last of n + 1 messages of a chat that runs.
  function SentFor(f: CacheFile, inputs: seq<Input>, answers: seq<Option<Payload>>, n: nat): (r: Option<Request>)
    requires n < |inputs| == |answers|
  {
    var sent := ChatAfter(f, inputs, answers, n + 1).sent;
    if n < |sent| then sent[n] else None
  }

  // A free message of a chat still running goes to the reply endpoint of s exactly when the
  // responses and resets so far owe s a reply, and to a planning endpoint when they owe none; a health
  // check goes to its own endpoint, and no other message is sent.
  lemma ChatRouting(f: CacheFile, inputs: seq<Input>, answers: seq<Option<Payload>>, n: nat, s: string)
    requires n < |inputs| == |answers| && Running(inputs, answers, n)
    ensures var request := SentFor(f, inputs, answers, n);
            match inputs[n]
            case Free(diy) =>
              && (request == Some(ToReply(s)) <==> Owed(f, History(inputs, answers, n), s))
              && ((forall t :: !Owed(f, History(inputs, answers, n), t)) ==>
                    request == Some(if diy then ToDiy else ToQuestions))
            case Health => request == Some(ToHealth)
            case _ => request == None
  {
    var c := ChatAfter(f, inputs, answers, n);
    ChatHistory(f, inputs, answers, n);
    CacheRefinesHistory(f, History(inputs, answers, n), s);
    if Cached(c.file).Some? {
      CacheRefinesHistory(f, History(inputs, answers, n), Cached(c.file).value);
    }
    hide Owed, After, Sync, Running, History;
  }

  // An exit and a failed message end the chat: what comes after them is not sent, and the file stays
  // as the history before them made it.
  lemma {:induction false} ChatStops(f: CacheFile, inputs: seq<Input>, answers: seq<Option<Payload>>, m: nat, n: nat)
    requires m < n <= |inputs| == |answers| && Running(inputs, answers, m)
    requires inputs[m].Exit? || (IsSent(inputs[m]) && answers[m].None?)
    ensures var c := ChatAfter(f, inputs, answers, n);
            && c.file == After(f, History(inputs, answers, m))
            && |c.sent| == if inputs[m].Exit? then m else m + 1
  {
    hide After, Running, Cached;
    ChatHistory(f, inputs, answers, m);
    OverStays(f, inputs, answers, m + 1, n);
    hide ChatAfter;
    assert ChatAfter(f, inputs, answers, m + 1) == Round(ChatAfter(f, inputs, answers, m), inputs[m], answers[m]) by {
      NextRound(f, inputs, answers, m);
    }
  }

  lemma NextRound(f: CacheFile, inputs: seq<Input>, answers: seq<Option<Payload>>, m: nat)
    requires m < |inputs| == |answers|
    ensures ChatAfter(f, inputs, answers, m + 1) == Round(ChatAfter(f, inputs, answers, m), inputs[m], answers[m])
  {
    hide Round;
  }

  // A cached id is a string with something in it, as it was stored.
  lemma CachedId(f: CacheFile, s: string)
    ensures Cached(f) == Some(s) <==> f == Stored(Some(s)) && s != ""
  {
  }

  // After `new`, and no message sent since, a free message is a new plan, whatever was cached.
  lemma {:induction false} NewForgets(f: CacheFile, inputs: seq<Input>, answers: seq<Option<Payload>>, m: nat, n: nat)
    requires m < n < |inputs| == |answers| && Running(inputs, answers, n)
    requires inputs[m].New? && (forall k | m < k < n :: !IsSent(inputs[k])) && inputs[n].Free?
    ensures SentFor(f, inputs, answers, n) == Some(if inputs[n].diy then ToDiy else ToQuestions)
  {
    ChatHistory(f, inputs, answers, n);
    ClearedSince(f, inputs, answers, m, n);
    hide Running, After, History;
  }

  lemma {:induction false} ClearedSince(f: CacheFile, inputs: seq<Input>, answers: seq<Option<Payload>>, m: nat, n: nat)
    requires m < n <= |inputs| == |answers| && inputs[m].New? && forall k | m < k < n :: !IsSent(inputs[k])
    ensures After(f, History(inputs, answers, n)) == Missing
  {
    AfterOne(f, History(inputs, answers, n - 1), inputs[n - 1], answers[n - 1]);
    if m < n - 1 {
      ClearedSince(f, inputs, answers, m, n - 1);
    }
  }
}
