// How the React page follows a background job over two channels: server-sent events and, when
// they are missing or broken, polling.  A handler, the render it causes and the effects of that
// render are one atomic step.
module JobView {
  import opened Wrappers

  type JobId = nat

  datatype Answer = Answer(body: string, sessionId: Option<string>)

  datatype Status = Running | Completed | Failed

  datatype Snapshot = Snapshot(jobId: JobId, status: Status, partial: Option<Answer>, answer: Option<Answer>)

  // An EventSource; a closed one delivers nothing (HTML Living Standard, section 9.2).
  datatype Source = Source(job: JobId, open: bool)

  datatype View = View(
    active: Option<JobId>,
    latestAnswer: Option<Answer>,
    completedJob: Option<JobId>,
    session: Option<string>,
    sseFailed: Option<JobId>,
    streamed: Option<Snapshot>,   // the snapshot that came last over a source
    cache: map<JobId, Snapshot>,
    seen: Option<Snapshot>,       // the query data the result effect last ran on
    effectJob: Option<JobId>,     // the job the source effect last ran for
    effectSource: Option<nat>,    // the source it opened then
    sources: seq<Source>
  )

  const INITIAL := View(None, None, None, None, None, None, map[], None, None, None, [])

  predicate IsFinal(s: Snapshot) {
    s.status.Completed? && s.answer.Some?
  }

  // What the query hook returns: cached data under the active job's key.
  function QueryData(v: View): Option<Snapshot> {
    if v.active.Some? && v.active.value in v.cache then Some(v.cache[v.active.value]) else None
  }

  // Is the polling query enabled?
  predicate Polling(v: View, supported: bool) {
    v.active.Some? && (!supported || v.sseFailed == v.active)
  }

  // The job the page displays: the streamed snapshot when it is the active job's, or else the
  // query data.
  function CurrentJob(v: View): Option<Snapshot> {
    if v.streamed.Some? && v.active == Some(v.streamed.value.jobId) then v.streamed else QueryData(v)
  }

  // The cleanup of an effect closes the source that effect opened.
  function Close(sources: seq<Source>, i: Option<nat>): (closed: seq<Source>)
    ensures |closed| == |sources|
  {
    if i.Some? && i.value < |sources| then sources[i.value := sources[i.value].(open := false)] else sources
  }

  function Show(v: View, a: Answer): View {
    v.(latestAnswer := Some(a), session := a.sessionId)
  }

  function Finish(v: View, s: Snapshot): View
    requires IsFinal(s)
  {
    Show(v, s.answer.value).(completedJob := Some(s.jobId), active := None)
  }

  // ---- one render with its effects ----

  // The source effect: when the active job changed, clean up and open a new source.
  function SourceEffect(v: View, supported: bool): View {
    if v.active == v.effectJob then v
    else
      var closed := Close(v.sources, v.effectSource);
      if v.active.Some? && supported
      then v.(effectJob := v.active, effectSource := Some(|closed|), sources := closed + [Source(v.active.value, true)])
      else v.(effectJob := v.active, effectSource := None, sources := closed)
  }

  // The result effect: runs when the query data changed.
  function ResultEffect(v: View): View {
    var data := QueryData(v);
    if data == v.seen then v
    else
      var w := v.(seen := data);
      if data.None? then w
      else if IsFinal(data.value) then Finish(w, data.value)
      else if data.value.partial.Some? then Show(w, data.value.partial.value)
      else w
  }

  function Render(v: View, supported: bool): View {
    ResultEffect(SourceEffect(v, supported))
  }

  // An effect may end the active job, which renders once more; nothing changes after that.
  function Commit(v: View, supported: bool): View {
    Render(Render(v, supported), supported)
  }

  // ---- steps ----

  // A job is started elsewhere in the page; a source delivers a snapshot or an error; a fetch,
  // polled or prefetched, lands in the cache.
  datatype Event =
    | Start(job: JobId)
    | Message(source: nat, snapshot: Snapshot)
    | Error(source: nat)
    | Fetched(job: JobId, snapshot: Snapshot)

  predicate Delivers(v: View, source: nat) {
    source < |v.sources| && v.sources[source].open
  }

  function HandleMessage(v: View, source: nat, s: Snapshot): View
    requires Delivers(v, source)
  {
    var w := v.(streamed := Some(s), cache := v.cache[v.sources[source].job := s]);
    var shown := if s.partial.Some? then Show(w, s.partial.value) else w;
    var done := if IsFinal(s) then Finish(shown, s) else shown;
    if IsFinal(s) || s.status.Failed?
    then done.(sources := done.sources[source := done.sources[source].(open := false)])
    else done
  }

  function HandleError(v: View, source: nat): View
    requires Delivers(v, source)
  {
    v.(sources := v.sources[source := v.sources[source].(open := false)],
       sseFailed := Some(v.sources[source].job))
  }

  function Step(v: View, e: Event, supported: bool): View {
    match e
    case Start(job) => Commit(v.(active := Some(job), latestAnswer := None), supported)
    case Message(i, s) => if Delivers(v, i) then Commit(HandleMessage(v, i, s), supported) else v
    case Error(i) => if Delivers(v, i) then Commit(HandleError(v, i), supported) else v
    case Fetched(job, s) => Commit(v.(cache := v.cache[job := s]), supported)
  }

  function Run(events: seq<Event>, supported: bool): View {
    if events == [] then INITIAL
    else Step(Run(events[..|events| - 1], supported), events[|events| - 1], supported)
  }

  // ---- the component ----

  class App {
    const supported: bool
    var active: Option<JobId>
    var latestAnswer: Option<Answer>
    var completedJob: Option<JobId>
    var session: Option<string>
    var sseFailed: Option<JobId>
    var streamed: Option<Snapshot>
    var cache: map<JobId, Snapshot>
    var seen: Option<Snapshot>
    var effectJob: Option<JobId>
    var effectSource: Option<nat>
    var sources: seq<Source>

    ghost function Now(): View
      reads this
    {
      View(active, latestAnswer, completedJob, session, sseFailed, streamed, cache, seen, effectJob, effectSource,
           sources)
    }

    constructor (supportsEventSource: bool)
      ensures Now() == INITIAL && supported == supportsEventSource
    {
      supported := supportsEventSource;
      active, latestAnswer, completedJob, session, sseFailed, streamed := None, None, None, None, None, None;
      cache, seen, effectJob, effectSource, sources := map[], None, None, None, [];
    }

    method SetAnswer(a: Answer)
      modifies this`latestAnswer, this`session
      ensures latestAnswer == Some(a) && session == a.sessionId
    {
      latestAnswer := Some(a);
      session := a.sessionId;
    }

    method RunEffects()
      modifies this
      ensures Now() == Render(old(Now()), supported)
    {
      if active != effectJob {
        sources := Close(sources, effectSource);
        effectSource := None;
        if active.Some? && supported {
          effectSource := Some(|sources|);
          sources := sources + [Source(active.value, true)];
        }
        effectJob := active;
      }
      var data := if active.Some? && active.value in cache then Some(cache[active.value]) else None;
      if data != seen {
        seen := data;
        if data.Some? {
          if data.value.status.Completed? && data.value.answer.Some? {
            SetAnswer(data.value.answer.value);
            completedJob := Some(data.value.jobId);
            active := None;
            return;
          }
          if data.value.partial.Some? {
            SetAnswer(data.value.partial.value);
          }
        }
      }
    }

    method StartJob(job: JobId)
      modifies this
      ensures Now() == Step(old(Now()), Start(job), supported)
    {
      active := Some(job);
      latestAnswer := None;
      RunEffects();
      RunEffects();
    }

    method HandleJobEvent(source: nat, job: Snapshot)
      requires Delivers(Now(), source)
      modifies this
      ensures Now() == Step(old(Now()), Message(source, job), supported)
    {
      hide Render;
      streamed := Some(job);
      cache := cache[sources[source].job := job];
      if job.partial.Some? {
        SetAnswer(job.partial.value);
      }
      if job.status.Completed? && job.answer.Some? {
        SetAnswer(job.answer.value);
        completedJob := Some(job.jobId);
        active := None;
        sources := sources[source := sources[source].(open := false)];
      }
      if job.status.Failed? {
        sources := sources[source := sources[source].(open := false)];
      }
      RunEffects();
      RunEffects();
    }

    method HandleSourceError(source: nat)
      requires Delivers(Now(), source)
      modifies this
      ensures Now() == Step(old(Now()), Error(source), supported)
    {
      sources := sources[source := sources[source].(open := false)];
      sseFailed := Some(sources[source].job);
      RunEffects();
      RunEffects();
    }

    method StoreFetched(job: JobId, snapshot: Snapshot)
      modifies this
      ensures Now() == Step(old(Now()), Fetched(job, snapshot), supported)
    {
      cache := cache[job := snapshot];
      RunEffects();
      RunEffects();
    }
  }

  // ---- what holds in every reachable view ----

  // Only the newest source can be open, and only for the active job; the effects have settled.
  ghost predicate Settled(v: View) {
    && v.effectJob == v.active
    && v.seen == QueryData(v)
    && (v.seen.Some? ==> !IsFinal(v.seen.value))
    && forall i | 0 <= i < |v.sources| && v.sources[i].open ::
         i == |v.sources| - 1 && v.effectSource == Some(i) && v.active == Some(v.sources[i].job)
  }

  // The same before the effects of a step have run.
  ghost predicate Pending(v: View) {
    && forall i | 0 <= i < |v.sources| && v.sources[i].open ::
         i == |v.sources| - 1 && v.effectSource == Some(i) && v.effectJob == Some(v.sources[i].job)
  }

  lemma SourceEffectKeeps(v: View, supported: bool)
    requires Pending(v)
    ensures var w := SourceEffect(v, supported);
            Pending(w) && w.effectJob == w.active && w.active == v.active && QueryData(w) == QueryData(v)
  {
  }

  lemma CommitSettles(v: View, supported: bool)
    requires Pending(v)
    requires v.seen.Some? ==> !IsFinal(v.seen.value)
    ensures Settled(Commit(v, supported))
  {
    hide Render, Settled, Pending, IsFinal;
    RenderSettles(v, supported);
    var w := Render(v, supported);
    if w.active.None? {
      RenderIdle(w, supported);
    } else {
      RenderAgain(w, supported);
    }
  }

  lemma RenderSettles(v: View, supported: bool)
    requires Pending(v)
    requires v.seen.Some? ==> !IsFinal(v.seen.value)
    ensures var w := Render(v, supported); Pending(w) && (w.active.Some? ==> Settled(w))
  {
    hide SourceEffect;
    SourceEffectKeeps(v, supported);
    assert SourceEffect(v, supported).seen == v.seen by { SourceEffectSeen(v, supported); }
  }

  lemma SourceEffectSeen(v: View, supported: bool)
    ensures SourceEffect(v, supported).seen == v.seen
  {
  }

  lemma RenderIdle(v: View, supported: bool)
    requires Pending(v) && v.active.None?
    ensures Settled(Render(v, supported))
  {
    hide SourceEffect;
    SourceEffectKeeps(v, supported);
  }

  lemma RenderAgain(v: View, supported: bool)
    requires Settled(v)
    ensures Render(v, supported) == v
  {
  }

  lemma StepSettles(v: View, e: Event, supported: bool)
    requires Settled(v)
    ensures Settled(Step(v, e, supported))
  {
    hide Commit;
    match e
    case Start(job) => CommitSettles(v.(active := Some(job), latestAnswer := None), supported);
    case Message(i, s) =>
      if Delivers(v, i) {
        CommitSettles(HandleMessage(v, i, s), supported);
      }
    case Error(i) =>
      if Delivers(v, i) {
        CommitSettles(HandleError(v, i), supported);
      }
    case Fetched(job, s) => CommitSettles(v.(cache := v.cache[job := s]), supported);
  }

  // In every interleaving at most one source is open, and it belongs to the active job.
  lemma {:induction false} RunSettled(events: seq<Event>, supported: bool)
    ensures Settled(Run(events, supported))
  {
    if events != [] {
      RunSettled(events[..|events| - 1], supported);
      hide Step, Settled;
      StepSettles(Run(events[..|events| - 1], supported), events[|events| - 1], supported);
    }
  }

  // ---- where answers come from, and how a job ends ----

  // The job active while a step runs.
  function ActiveIn(v: View, e: Event): Option<JobId> {
    if e.Start? then Some(e.job) else v.active
  }

  predicate ShowsFinal(v: View, job: JobId) {
    && job in v.cache && IsFinal(v.cache[job])
    && v.latestAnswer == v.cache[job].answer
    && v.completedJob == Some(v.cache[job].jobId)
  }

  predicate ShowsFrom(v: View, job: JobId) {
    job in v.cache && (v.latestAnswer == v.cache[job].partial || v.latestAnswer == v.cache[job].answer)
  }

  // A view on its way through the effects of a step in which `job` is the active one.
  ghost predicate Tracks(v: View, start: View, job: Option<JobId>) {
    && (v.active.Some? ==> v.active == job)
    && (v.active.None? && job.Some? ==> ShowsFinal(v, job.value))
    && (v.latestAnswer != start.latestAnswer && v.latestAnswer.Some? ==> job.Some? && ShowsFrom(v, job.value))
    && (job.None? ==> v.latestAnswer == start.latestAnswer && v.completedJob == start.completedJob)
  }

  lemma RenderTracks(v: View, start: View, job: Option<JobId>, supported: bool)
    requires Tracks(v, start, job)
    ensures Tracks(Render(v, supported), start, job)
  {
    var w := SourceEffect(v, supported);
    assert w == v.(sources := w.sources, effectJob := w.effectJob, effectSource := w.effectSource);
    hide SourceEffect;
  }

  lemma CommitTracks(v: View, start: View, job: Option<JobId>, supported: bool)
    requires Tracks(v, start, job)
    ensures Tracks(Commit(v, supported), start, job)
  {
    hide Tracks, Render;
    RenderTracks(v, start, job, supported);
    RenderTracks(Render(v, supported), start, job, supported);
  }

  // What a handler leaves to the effects is tracked.
  lemma StartsTracked(v: View, e: Event)
    requires Settled(v)
    ensures Tracks(v, v, v.active)
    ensures match e
            case Start(job) => Tracks(v.(active := Some(job), latestAnswer := None), v, Some(job))
            case Message(i, s) => Delivers(v, i) ==> Tracks(HandleMessage(v, i, s), v, v.active)
            case Error(i) => Delivers(v, i) ==> Tracks(HandleError(v, i), v, v.active)
            case Fetched(job, s) => Tracks(v.(cache := v.cache[job := s]), v, v.active)
  {
  }

  // Every answer a step shows is the partial or the final one of a snapshot of the job active in
  // that step, and only a final answer ends the job: the step that clears the active job leaves
  // that answer shown and the snapshot's job recorded as completed, even beside a partial answer.
  lemma StepTracks(v: View, e: Event, supported: bool)
    requires Settled(v)
    ensures Tracks(Step(v, e, supported), v, ActiveIn(v, e))
  {
    hide Commit, Tracks, HandleMessage, HandleError;
    StartsTracked(v, e);
    match e
    case Start(job) => CommitTracks(v.(active := Some(job), latestAnswer := None), v, Some(job), supported);
    case Message(i, s) =>
      if Delivers(v, i) {
        CommitTracks(HandleMessage(v, i, s), v, v.active, supported);
      }
    case Error(i) =>
      if Delivers(v, i) {
        CommitTracks(HandleError(v, i), v, v.active, supported);
      }
    case Fetched(job, s) => CommitTracks(v.(cache := v.cache[job := s]), v, v.active, supported);
  }

  // The job service answers about the job it was asked for.
  predicate Honest(v: View, e: Event) {
    match e
    case Message(i, s) => i < |v.sources| ==> s.jobId == v.sources[i].job
    case Fetched(job, s) => s.jobId == job
    case _ => true
  }

  ghost predicate TrueCache(v: View) {
    forall j | j in v.cache :: v.cache[j].jobId == j
  }

  predicate AllHonest(events: seq<Event>, supported: bool) {
    forall i | 0 <= i < |events| :: Honest(Run(events[..i], supported), events[i])
  }

  lemma RenderKeepsCache(v: View, supported: bool)
    ensures Render(v, supported).cache == v.cache
  {
  }

  lemma StepTrueCache(v: View, e: Event, supported: bool)
    requires TrueCache(v) && Honest(v, e)
    ensures TrueCache(Step(v, e, supported))
  {
    hide Render;
    var w := match e
      case Start(job) => v.(active := Some(job), latestAnswer := None)
      case Message(i, s) => if Delivers(v, i) then HandleMessage(v, i, s) else v
      case Error(i) => if Delivers(v, i) then HandleError(v, i) else v
      case Fetched(job, s) => v.(cache := v.cache[job := s]);
    RenderKeepsCache(w, supported);
    RenderKeepsCache(Render(w, supported), supported);
  }

  lemma HonestFront(events: seq<Event>, supported: bool)
    requires AllHonest(events, supported) && events != []
    ensures AllHonest(events[..|events| - 1], supported)
    ensures Honest(Run(events[..|events| - 1], supported), events[|events| - 1])
  {
    hide Run, Honest;
    var front := events[..|events| - 1];
    assert forall i | 0 <= i < |front| :: front[..i] == events[..i];
  }

  lemma {:induction false} RunTrueCache(events: seq<Event>, supported: bool)
    requires AllHonest(events, supported)
    ensures TrueCache(Run(events, supported))
  {
    hide *;
    if events == [] {
      EmptyTrueCache(supported);
    } else {
      var front := events[..|events| - 1];
      HonestFront(events, supported);
      RunTrueCache(front, supported);
      StepTrueCache(Run(front, supported), events[|front|], supported);
      RunLast(events, supported);
    }
  }

  lemma EmptyTrueCache(supported: bool)
    ensures TrueCache(Run([], supported))
  {
  }

  lemma RunLast(events: seq<Event>, supported: bool)
    requires events != []
    ensures Run(events, supported)
         == Step(Run(events[..|events| - 1], supported), events[|events| - 1], supported)
  {
    hide Step;
  }

  // In every run of an honest service, a step that takes the page from a job to no job shows that
  // job's final answer and records that very job.
  lemma JobEndsWithItsAnswer(events: seq<Event>, e: Event, supported: bool)
    requires AllHonest(events + [e], supported)
    requires ActiveIn(Run(events, supported), e).Some?
    requires Run(events + [e], supported).active.None?
    ensures var w, job := Run(events + [e], supported), ActiveIn(Run(events, supported), e).value;
            && job in w.cache && IsFinal(w.cache[job]) && w.cache[job].jobId == job
            && w.latestAnswer == w.cache[job].answer && w.completedJob == Some(job)
  {
    assert (events + [e])[..|events|] == events;
    RunSettled(events, supported);
    RunTrueCache(events + [e], supported);
    hide Step, Settled;
    StepTracks(Run(events, supported), e, supported);
  }

  // The active session is always the one of the answer on display.
  predicate SessionMatches(v: View) {
    v.latestAnswer.Some? ==> v.session == v.latestAnswer.value.sessionId
  }

  lemma CommitSession(v: View, supported: bool)
    requires SessionMatches(v)
    ensures SessionMatches(Commit(v, supported))
  {
    RenderSession(v, supported);
    RenderSession(Render(v, supported), supported);
    hide Render;
  }

  lemma RenderSession(v: View, supported: bool)
    requires SessionMatches(v)
    ensures SessionMatches(Render(v, supported))
  {
  }

  lemma {:induction false} RunSession(events: seq<Event>, supported: bool)
    ensures SessionMatches(Run(events, supported))
  {
    if events != [] {
      var v, e := Run(events[..|events| - 1], supported), events[|events| - 1];
      RunSession(events[..|events| - 1], supported);
      hide Commit;
      match e
      case Start(job) => CommitSession(v.(active := Some(job), latestAnswer := None), supported);
      case Message(i, s) =>
        if Delivers(v, i) {
          CommitSession(HandleMessage(v, i, s), supported);
        }
      case Error(i) =>
        if Delivers(v, i) {
          CommitSession(HandleError(v, i), supported);
        }
      case Fetched(job, s) => CommitSession(v.(cache := v.cache[job := s]), supported);
    }
  }

  // ---- a final answer stays ----

  function RunFrom(v: View, events: seq<Event>, supported: bool): View {
    if events == [] then v
    else Step(RunFrom(v, events[..|events| - 1], supported), events[|events| - 1], supported)
  }

  // With no active job, nothing that arrives late changes the answer, the completed job or the
  // session before a new job is started.
  lemma {:induction false} FinalAnswerStays(v: View, events: seq<Event>, supported: bool)
    requires Settled(v) && v.active.None?
    requires forall i | 0 <= i < |events| :: !events[i].Start?
    ensures var w := RunFrom(v, events, supported);
            && Settled(w) && w.active.None? && w.latestAnswer == v.latestAnswer
            && w.completedJob == v.completedJob && w.session == v.session
  {
    if events != [] {
      var front, e := events[..|events| - 1], events[|events| - 1];
      FinalAnswerStays(v, front, supported);
      var w := RunFrom(v, front, supported);
      StepSettles(w, e, supported);
      assert !e.Start?;
      hide Settled;
      IdleStep(w, e, supported);
    }
  }

  lemma IdleStep(v: View, e: Event, supported: bool)
    requires Settled(v) && v.active.None? && !e.Start?
    ensures var w := Step(v, e, supported);
            w.active.None? && w.latestAnswer == v.latestAnswer && w.completedJob == v.completedJob
            && w.session == v.session
  {
  }

  // ---- one channel at a time ----

  ghost predicate SourceOpen(v: View) {
    exists i | 0 <= i < |v.sources| :: v.sources[i].open
  }

  ghost predicate OneChannel(v: View, supported: bool) {
    !(SourceOpen(v) && Polling(v, supported))
  }

  // Starting again the very job whose source failed last, from another job or none, and without
  // its final snapshot at hand.
  predicate Reopens(v: View, e: Event, supported: bool) {
    && e.Start? && supported && v.sseFailed == Some(e.job) && v.active != Some(e.job)
    && !(e.job in v.cache && IsFinal(v.cache[e.job]))
  }

  // Effects open no source unless another job has become active.
  lemma CommitQuiet(u: View, supported: bool)
    requires u.active.None? || u.active == u.effectJob
    ensures var w := Commit(u, supported);
            w.sseFailed == u.sseFailed && (w.active.Some? ==> w.active == u.active && w.sources == u.sources)
  {
    QuietRender(u, supported);
    hide Render;
    QuietRender(Render(u, supported), supported);
  }

  lemma QuietRender(u: View, supported: bool)
    requires u.active.None? || u.active == u.effectJob
    ensures var w := Render(u, supported);
            && w.sseFailed == u.sseFailed && (w.active.None? || w.active == w.effectJob)
            && (w.active.Some? ==> w.active == u.active && w.sources == u.sources)
  {
  }

  // Effects after a job was started: its source opens when events are supported.
  lemma CommitStart(u: View, job: JobId, supported: bool)
    requires u.active == Some(job) && u.effectJob != Some(job)
    ensures var w := Commit(u, supported);
            && w.sseFailed == u.sseFailed
            && (w.active.Some? ==> w.active == Some(job) && (supported ==> SourceOpen(w)))
            && (w.active.None? ==> job in u.cache && IsFinal(u.cache[job]))
            && (job in u.cache && IsFinal(u.cache[job]) && u.seen != QueryData(u) ==> w.active.None?)
  {
    var r := Render(u, supported);
    assert r.effectJob == u.active;
    assert supported ==> r.sources[|u.sources|].open && r.sources != [];
    hide SourceEffect, ResultEffect;
    CommitStartAgain(r, supported);
  }

  lemma CommitStartAgain(r: View, supported: bool)
    ensures var w := Render(r, supported);
            && w.sseFailed == r.sseFailed
            && (r.active.None? ==> w.active.None?)
            && (r.active == r.effectJob ==> w.sources == r.sources)
            && (r.active == r.effectJob && r.seen == QueryData(r) ==> w == r)
  {
  }

  lemma NoSourceOpen(v: View)
    requires Settled(v) && v.active.None?
    ensures !SourceOpen(v)
  {
  }

  // One channel at a time: a step leads from a single live channel to two exactly when it reopens
  // a job whose source failed last.
  lemma StepOneChannel(v: View, e: Event, supported: bool)
    requires Settled(v) && OneChannel(v, supported)
    ensures OneChannel(Step(v, e, supported), supported) <==> !Reopens(v, e, supported)
  {
    var w := Step(v, e, supported);
    StepSettles(v, e, supported);
    hide Commit;
    if w.active.None? {
      NoSourceOpen(w);
    }
    match e
    case Start(job) =>
      var u := v.(active := Some(job), latestAnswer := None);
      if v.active == Some(job) {
        CommitQuiet(u, supported);
      } else {
        CommitStart(u, job, supported);
      }
    case Message(i, s) =>
      if Delivers(v, i) {
        CommitQuiet(HandleMessage(v, i, s), supported);
      }
    case Error(i) =>
      if Delivers(v, i) {
        CommitQuiet(HandleError(v, i), supported);
      }
    case Fetched(job, s) => CommitQuiet(v.(cache := v.cache[job := s]), supported);
  }

  // So polling never runs beside an open source in a run that reopens no such job.
  lemma {:induction false} RunOneChannel(events: seq<Event>, supported: bool)
    requires forall i | 0 <= i < |events| :: !Reopens(Run(events[..i], supported), events[i], supported)
    ensures OneChannel(Run(events, supported), supported)
  {
    if events != [] {
      var front := events[..|events| - 1];
      assert forall i | 0 <= i < |front| :: front[..i] == events[..i];
      RunOneChannel(front, supported);
      RunSettled(front, supported);
      hide Step, Settled, OneChannel, Reopens;
      StepOneChannel(Run(front, supported), events[|front|], supported);
    }
  }

  // ---- every job is started once ----

  // The service names every new job anew.
  ghost predicate FreshJobs(events: seq<Event>) {
    forall i, j | 0 <= i < j < |events| && events[i].Start? && events[j].Start? :: events[i].job != events[j].job
  }

  function Started(events: seq<Event>): set<JobId> {
    set i | 0 <= i < |events| && events[i].Start? :: events[i].job
  }

  // A view knows only of jobs that were started.
  ghost predicate Knows(v: View, jobs: set<JobId>) {
    && (v.active.Some? ==> v.active.value in jobs)
    && (v.sseFailed.Some? ==> v.sseFailed.value in jobs)
    && forall i | 0 <= i < |v.sources| :: v.sources[i].job in jobs
  }

  lemma RenderKnows(v: View, supported: bool, jobs: set<JobId>)
    requires Knows(v, jobs)
    ensures Knows(Render(v, supported), jobs)
  {
  }

  lemma CommitKnows(v: View, supported: bool, jobs: set<JobId>)
    requires Knows(v, jobs)
    ensures Knows(Commit(v, supported), jobs)
  {
    hide Render, Knows;
    RenderKnows(v, supported, jobs);
    RenderKnows(Render(v, supported), supported, jobs);
  }

  lemma StepKnows(v: View, e: Event, supported: bool, jobs: set<JobId>)
    requires Knows(v, jobs)
    ensures Knows(Step(v, e, supported), if e.Start? then jobs + {e.job} else jobs)
  {
    hide Commit;
    match e
    case Start(job) => CommitKnows(v.(active := Some(job), latestAnswer := None), supported, jobs + {job});
    case Message(i, s) =>
      if Delivers(v, i) {
        CommitKnows(HandleMessage(v, i, s), supported, jobs);
      }
    case Error(i) =>
      if Delivers(v, i) {
        CommitKnows(HandleError(v, i), supported, jobs);
      }
    case Fetched(job, s) => CommitKnows(v.(cache := v.cache[job := s]), supported, jobs);
  }

  lemma StartedNext(events: seq<Event>)
    requires events != []
    ensures var e := events[|events| - 1];
            Started(events) == Started(events[..|events| - 1]) + if e.Start? then {e.job} else {}
  {
    var front, e := events[..|events| - 1], events[|events| - 1];
    assert events == front + [e];
    assert forall i | 0 <= i < |front| :: events[i] == front[i];
  }

  lemma {:induction false} RunKnows(events: seq<Event>, supported: bool)
    ensures Knows(Run(events, supported), Started(events))
  {
    hide *;
    if events == [] {
      EmptyKnows(supported);
    } else {
      var front, e := events[..|events| - 1], events[|events| - 1];
      RunKnows(front, supported);
      RunLast(events, supported);
      StartedNext(events);
      StepKnows(Run(front, supported), e, supported, Started(front));
      assert Started(front) + {} == Started(front);
    }
  }

  lemma EmptyKnows(supported: bool)
    ensures Knows(Run([], supported), Started([]))
  {
  }

  // Main result on the channels.  As long as no job id is started twice, in every interleaving of
  // starts, messages, errors and fetches polling never runs beside an open source.
  lemma {:induction false} FreshJobsOneChannel(events: seq<Event>, supported: bool)
    requires FreshJobs(events)
    ensures OneChannel(Run(events, supported), supported)
  {
    hide Run, Step, OneChannel;
    forall i | 0 <= i < |events| ensures !Reopens(Run(events[..i], supported), events[i], supported) {
      RunKnows(events[..i], supported);
      assert forall k | 0 <= k < i :: events[..i][k] == events[k];
    }
    RunOneChannel(events, supported);
  }

  // What a reused id would cause: its source fails, another job is started, then the id again, and
  // both channels are live for it.
  lemma TwoChannels()
    ensures !OneChannel(Run([Start(1), Error(0), Start(2), Start(1)], true), true)
  {
    hide Run, Step, Settled, OneChannel, Reopens;
    var events := [Start(1), Error(0), Start(2)];
    var v3 := ThreeSteps();
    assert (events + [Start(1)])[..3] == events;
    RunStep(events + [Start(1)], 3, true);
    assert events + [Start(1)] == [Start(1), Error(0), Start(2), Start(1)];
    assert (events + [Start(1)])[..4] == events + [Start(1)];
    RunSettled(events, true);
    BackToFirst(v3);
    StepOneChannel(v3, Start(1), true);
  }

  const AFTER_START := INITIAL.(active := Some(1), effectJob := Some(1), effectSource := Some(0),
                                sources := [Source(1, true)])

  const AFTER_ERROR := AFTER_START.(sources := [Source(1, false)], sseFailed := Some(1))

  const AFTER_SECOND := AFTER_ERROR.(active := Some(2), effectJob := Some(2), effectSource := Some(1),
                                     sources := [Source(1, false), Source(2, true)])

  lemma BackToFirst(v: View)
    requires v == AFTER_SECOND
    ensures Reopens(v, Start(1), true) && OneChannel(v, true)
  {
  }

  lemma ThreeSteps() returns (v: View)
    ensures v == AFTER_SECOND && Run([Start(1), Error(0), Start(2)], true) == v
  {
    var events := [Start(1), Error(0), Start(2)];
    v := AFTER_SECOND;
    FirstSteps();
    hide Step, AFTER_START, AFTER_ERROR, AFTER_SECOND;
    assert events[..3] == events && events[..0] == [];
    assert Run(events[..0], true) == INITIAL;
    hide Run;
    RunStep(events, 0, true);
    RunStep(events, 1, true);
    RunStep(events, 2, true);
  }

  lemma FirstSteps()
    ensures Step(INITIAL, Start(1), true) == AFTER_START
    ensures Step(AFTER_START, Error(0), true) == AFTER_ERROR
    ensures Step(AFTER_ERROR, Start(2), true) == AFTER_SECOND
  {
    OpenFirst(INITIAL, 1);
    OpenFirst(AFTER_ERROR, 2);
  }

  // Starting a job nothing is cached for.
  lemma OpenFirst(v: View, job: JobId)
    requires v.cache == map[] && v.seen.None? && v.effectJob == v.active && v.active != Some(job)
    ensures Step(v, Start(job), true)
            == v.(active := Some(job), latestAnswer := None, effectJob := Some(job),
                  effectSource := Some(|v.sources|),
                  sources := Close(v.sources, v.effectSource) + [Source(job, true)])
  {
    hide Close;
  }

  lemma RunStep(events: seq<Event>, i: nat, supported: bool)
    requires i < |events|
    ensures Run(events[..i + 1], supported) == Step(Run(events[..i], supported), events[i], supported)
  {
    assert events[..i + 1][..i] == events[..i];
  }
}
