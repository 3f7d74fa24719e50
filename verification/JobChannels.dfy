// When the sources of the React page open and close, and why an active job is always followed.
module JobChannels {
  import opened Wrappers
  import opened JobView
  import opened JobDisplay

  // ---- what a delivered snapshot does ----

  // The page ends a job on a completed snapshot with an answer, and gives up its source on a failed one.
  predicate Ends(s: Snapshot) {
    s.status.Completed? && s.answer.Some?
  }

  // After a delivered snapshot its source is open exactly when the snapshot neither failed nor ended the
  // job; an ended job leaves its answer, its session and its id behind.
  lemma SourceAfterMessage(v: View, i: nat, s: Snapshot, supported: bool)
    requires Settled(v) && Delivers(v, i)
    ensures var w := Step(v, Message(i, s), supported);
            && |w.sources| == |v.sources|
            && (w.sources[i].open <==> !s.status.Failed? && !Ends(s))
            && (w.active.None? <==> Ends(s))
            && (Ends(s) ==> w.latestAnswer == s.answer && w.completedJob == Some(s.jobId)
                            && w.session == s.answer.value.sessionId)
  {
    hide Commit;
    if IsFinal(s) {
      CommitEnded(HandleMessage(v, i, s), supported);
    } else {
      CommitUnfinished(HandleMessage(v, i, s), s, supported);
    }
  }

  // The effects behind a finished job close its source and change nothing shown.
  lemma CommitEnded(u: View, supported: bool)
    requires u.active.None?
    ensures var w := Commit(u, supported);
            && w.active.None? && |w.sources| == |u.sources|
            && w.latestAnswer == u.latestAnswer && w.completedJob == u.completedJob && w.session == u.session
            && forall i | 0 <= i < |u.sources| && !u.sources[i].open :: !w.sources[i].open
  {
    hide Render;
    RenderEnded(u, supported);
    RenderEnded(Render(u, supported), supported);
  }

  lemma RenderEnded(u: View, supported: bool)
    requires u.active.None?
    ensures var w := Render(u, supported);
            && w.active.None? && |w.sources| == |u.sources|
            && w.latestAnswer == u.latestAnswer && w.completedJob == u.completedJob && w.session == u.session
            && forall i | 0 <= i < |u.sources| && !u.sources[i].open :: !w.sources[i].open
  {
  }

  // ---- a closed source stays closed ----

  ghost predicate StayClosed(v: View, w: View) {
    |v.sources| <= |w.sources| && forall i | 0 <= i < |v.sources| && !v.sources[i].open :: !w.sources[i].open
  }

  lemma RenderStays(v: View, supported: bool)
    ensures StayClosed(v, Render(v, supported))
  {
  }

  lemma StepStays(v: View, e: Event, supported: bool)
    ensures StayClosed(v, Step(v, e, supported))
  {
    hide Render;
    var u := match e
      case Start(job) => v.(active := Some(job), latestAnswer := None)
      case Message(i, s) => if Delivers(v, i) then HandleMessage(v, i, s) else v
      case Error(i) => if Delivers(v, i) then HandleError(v, i) else v
      case Fetched(job, s) => v.(cache := v.cache[job := s]);
    RenderStays(u, supported);
    RenderStays(Render(u, supported), supported);
  }

  lemma {:induction false} ClosedRun(events: seq<Event>, k: nat, i: nat, supported: bool)
    requires k <= |events| && i < |Run(events[..k], supported).sources|
    requires !Run(events[..k], supported).sources[i].open
    ensures !Delivers(Run(events, supported), i)
  {
    hide Step;
    if k == |events| {
      assert events[..k] == events;
    } else {
      var front := events[..|events| - 1];
      assert front[..k] == events[..k];
      SourcesStay(front, k, supported);
      ClosedRun(front, k, i, supported);
      StepStays(Run(front, supported), events[|front|], supported);
    }
  }

  lemma {:induction false} SourcesStay(events: seq<Event>, k: nat, supported: bool)
    requires k <= |events|
    ensures |Run(events[..k], supported).sources| <= |Run(events, supported).sources|
  {
    hide Step;
    if k == |events| {
      assert events[..k] == events;
    } else {
      var front := events[..|events| - 1];
      assert front[..k] == events[..k];
      SourcesStay(front, k, supported);
      StepStays(Run(front, supported), events[|front|], supported);
    }
  }

  // Over every run, a source that has delivered a failed snapshot, the last one of its job or an error
  // delivers nothing afterwards.
  lemma {:induction false} SilentAfterEnd(events: seq<Event>, k: nat, i: nat, supported: bool)
    requires k < |events| && Delivers(Run(events[..k], supported), i)
    requires match events[k]
             case Message(j, s) => j == i && (s.status.Failed? || Ends(s))
             case Error(j) => j == i
             case _ => false
    ensures !Delivers(Run(events, supported), i)
  {
    var v := Run(events[..k], supported);
    RunSettled(events[..k], supported);
    RunStep(events, k, supported);
    match events[k] {
      case Message(j, s) => SourceAfterMessage(v, i, s, supported);
      case Error(j) => SourceAfterError(v, i, supported);
    }
    hide Run, Step, Settled;
    ClosedRun(events, k + 1, i, supported);
  }

  // An error closes its source; if that was the active job's, polling takes over.
  lemma SourceAfterError(v: View, i: nat, supported: bool)
    requires Settled(v) && Delivers(v, i)
    ensures var w := Step(v, Error(i), supported);
            && |w.sources| == |v.sources| && !w.sources[i].open && w.active == v.active
            && w.sseFailed == v.active && Polling(w, supported) && !SourceOpen(w)
  {
    CommitStill(HandleError(v, i), supported);
  }

  // ---- starting a job ----

  // A started job clears the answer, unless a snapshot of it is already at hand: one that ends it is
  // shown as its end, and an unfinished one shows its partial answer.
  lemma StepStart(v: View, job: JobId, supported: bool)
    requires Settled(v) && v.active != Some(job)
    ensures var w := Step(v, Start(job), supported);
            if job in v.cache && v.seen != Some(v.cache[job]) && Ends(v.cache[job]) then
              w.active.None? && w.latestAnswer == v.cache[job].answer && w.completedJob == Some(v.cache[job].jobId)
            else
              && w.active == Some(job)
              && (supported ==> w.sources == Close(v.sources, v.effectSource) + [Source(job, true)])
              && w.latestAnswer == if job in v.cache && v.seen != Some(v.cache[job]) then v.cache[job].partial else None
  {
    var u := v.(active := Some(job), latestAnswer := None);
    var t := SourceEffect(u, supported);
    assert t == u.(effectJob := u.active, effectSource := t.effectSource, sources := t.sources);
    assert v.seen.Some? && job in v.cache && v.seen == Some(v.cache[job]) ==> !Ends(v.cache[job]);
    hide SourceEffect, Settled;
    var r := ResultEffect(t);
    assert Render(u, supported) == r;
    if r.active.Some? {
      CommitStill(r, supported);
      SourceStill(r, supported);
    } else {
      RenderEnded(r, supported);
    }
  }

  lemma SourceStill(r: View, supported: bool)
    requires r.active == r.effectJob && r.seen == QueryData(r)
    ensures Render(r, supported) == r
  {
  }

  // Starting the active job again only clears the answer.
  lemma StepRestart(v: View, job: JobId, supported: bool)
    requires Settled(v) && v.active == Some(job)
    ensures Step(v, Start(job), supported) == v.(latestAnswer := None)
  {
    CommitStill(v.(active := Some(job), latestAnswer := None), supported);
  }

  // ---- the cache ----

  // Every snapshot delivered or fetched is cached under its job, and nothing else is.
  lemma StepCache(v: View, e: Event, supported: bool)
    ensures Step(v, e, supported).cache
         == match e
            case Message(i, s) => if Delivers(v, i) then v.cache[v.sources[i].job := s] else v.cache
            case Fetched(job, s) => v.cache[job := s]
            case _ => v.cache
  {
    hide Render;
    var u := match e
      case Start(job) => v.(active := Some(job), latestAnswer := None)
      case Message(i, s) => if Delivers(v, i) then HandleMessage(v, i, s) else v
      case Error(i) => if Delivers(v, i) then HandleError(v, i) else v
      case Fetched(job, s) => v.(cache := v.cache[job := s]);
    RenderKeepsCache(u, supported);
    RenderKeepsCache(Render(u, supported), supported);
  }

  // ---- no active job is left alone ----

  // Without event support no source is ever opened, and every active job is polled.
  lemma {:induction false} PolledWithoutEvents(events: seq<Event>)
    ensures Run(events, false).sources == []
    ensures Run(events, false).active.Some? ==> Polling(Run(events, false), false)
  {
    if events != [] {
      hide Render;
      PolledWithoutEvents(events[..|events| - 1]);
      forall u: View | u.sources == [] ensures Render(u, false).sources == [] {
        NoSources(u);
      }
    }
  }

  lemma NoSources(u: View)
    requires u.sources == []
    ensures Render(u, false).sources == []
  {
  }

  // An active job has a live channel, or else its source delivered a failed snapshot last.
  ghost predicate Followed(v: View) {
    v.active.Some? ==> SourceOpen(v) || Polling(v, true) || (v.streamed.Some? && v.streamed.value.status.Failed?)
  }

  // Main result on abandoned jobs.  With event support, over every run, a job that is active is followed
  // over an open source or by polling, unless a failed snapshot was the last that came over a source.
  lemma {:induction false} NeverAbandoned(events: seq<Event>)
    ensures Followed(Run(events, true))
  {
    if events != [] {
      var front, e := events[..|events| - 1], events[|events| - 1];
      NeverAbandoned(front);
      RunSettled(front, true);
      hide Step, Settled, Followed;
      StepFollowed(Run(front, true), e);
    }
  }

  lemma StepFollowed(v: View, e: Event)
    requires Settled(v) && Followed(v)
    ensures Followed(Step(v, e, true))
  {
    match e
    case Start(job) =>
      if v.active == Some(job) {
        StepRestart(v, job, true);
      } else {
        StepStart(v, job, true);
        hide Step;
        var w := Step(v, e, true);
        if w.active.Some? {
          assert w.sources[|v.sources|].open;
        }
      }
    case Message(i, s) =>
      if Delivers(v, i) {
        SourceAfterMessage(v, i, s, true);
        if !Ends(s) {
          StepMessage(v, i, s, true);
        }
        hide Step;
      }
    case Error(i) =>
      if Delivers(v, i) {
        SourceAfterError(v, i, true);
        hide Step;
      }
    case Fetched(job, s) => FetchFollowed(v, job, s);
  }

  lemma FetchFollowed(v: View, job: JobId, s: Snapshot)
    requires Settled(v) && Followed(v)
    ensures Followed(Step(v, Fetched(job, s), true))
  {
    StepPartialOrIdle(v, job, s);
  }

  lemma StepPartialOrIdle(v: View, job: JobId, s: Snapshot)
    requires Settled(v)
    ensures var w := Step(v, Fetched(job, s), true);
            w.active.None? || (w.active == v.active && w.sources == v.sources && w.sseFailed == v.sseFailed
                               && w.streamed == v.streamed)
  {
    hide Commit;
    var u := v.(cache := v.cache[job := s]);
    if v.active != Some(job) {
      CommitStill(u, true);
    } else if !IsFinal(s) {
      CommitUnfinished(u, s, true);
    } else {
      FinalEnds(v, Fetched(job, s), true);
    }
  }
}
