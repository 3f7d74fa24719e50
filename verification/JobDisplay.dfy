// What the React page displays of a job: its status, its partial answers and why it is polled.
module JobDisplay {
  import opened Wrappers
  import opened JobView

  // ---- what a step does to an unfinished job ----

  lemma CommitStill(u: View, supported: bool)
    requires u.active == u.effectJob && u.seen == QueryData(u)
    requires u.seen.Some? ==> !IsFinal(u.seen.value)
    ensures Commit(u, supported) == u
  {
  }

  // The effects behind a snapshot in the cache that does not finish the active job.
  lemma CommitUnfinished(u: View, s: Snapshot, supported: bool)
    requires u.active == u.effectJob && QueryData(u) == Some(s) && !IsFinal(s)
    ensures var w := Commit(u, supported);
            && w == u.(seen := Some(s), latestAnswer := w.latestAnswer, session := w.session)
            && w.latestAnswer == if u.seen != Some(s) && s.partial.Some? then s.partial else u.latestAnswer
  {
    RenderUnfinished(u, s, supported);
    RenderUnfinished(Render(u, supported), s, supported);
    hide Render;
  }

  lemma RenderUnfinished(u: View, s: Snapshot, supported: bool)
    requires u.active == u.effectJob && QueryData(u) == Some(s) && !IsFinal(s)
    ensures var w := Render(u, supported);
            && w == u.(seen := Some(s), latestAnswer := w.latestAnswer, session := w.session)
            && w.latestAnswer == if u.seen != Some(s) && s.partial.Some? then s.partial else u.latestAnswer
  {
  }

  lemma StepMessage(v: View, i: nat, s: Snapshot, supported: bool)
    requires Settled(v) && Delivers(v, i) && !IsFinal(s)
    ensures var w := Step(v, Message(i, s), supported);
            && w.active == v.active && w.streamed == Some(s) && w.sseFailed == v.sseFailed
            && w.latestAnswer == (if s.partial.Some? then s.partial else v.latestAnswer)
            && (!s.status.Failed? ==> w.sources == v.sources)
  {
    hide Commit;
    CommitUnfinished(HandleMessage(v, i, s), s, supported);
  }

  lemma StepFetched(v: View, job: JobId, s: Snapshot, supported: bool)
    requires Settled(v) && v.active == Some(job) && !IsFinal(s)
    ensures var w := Step(v, Fetched(job, s), supported);
            && w.active == v.active && w.streamed == v.streamed && QueryData(w) == Some(s)
            && w.latestAnswer == if QueryData(v) != Some(s) && s.partial.Some? then s.partial else v.latestAnswer
  {
    hide Commit;
    CommitUnfinished(v.(cache := v.cache[job := s]), s, supported);
  }

  // Errors and snapshots of other jobs leave the display alone.
  lemma StepBeside(v: View, e: Event, supported: bool)
    requires Settled(v) && (e.Error? || (e.Fetched? && v.active != Some(e.job)))
    ensures var w := Step(v, e, supported);
            && w.active == v.active && w.latestAnswer == v.latestAnswer && w.streamed == v.streamed
  {
    hide Commit;
    match e
    case Error(i) =>
      if Delivers(v, i) {
        CommitStill(HandleError(v, i), supported);
      }
    case Fetched(job, s) => CommitStill(v.(cache := v.cache[job := s]), supported);
  }

  // ---- the job on display ----

  // With a truthful service the job on display is the active one.
  lemma {:induction false} DisplaysActive(events: seq<Event>, supported: bool)
    requires AllHonest(events, supported)
    ensures var v := Run(events, supported);
            v.active.Some? && CurrentJob(v).Some? ==> Some(CurrentJob(v).value.jobId) == v.active
  {
    hide Run;
    RunTrueCache(events, supported);
  }

  // But a snapshot that polling brings for it is displayed exactly when no different one of the
  // same job came over a source before.
  lemma PolledDisplay(v: View, job: JobId, s: Snapshot, supported: bool)
    requires Settled(v) && v.active == Some(job) && !IsFinal(s)
    ensures CurrentJob(Step(v, Fetched(job, s), supported)) == Some(s)
       <==> (v.streamed.None? || v.streamed.value.jobId != job || v.streamed == Some(s))
  {
    hide Step, Settled;
    StepFetched(v, job, s, supported);
  }

  lemma RunSnoc(events: seq<Event>, e: Event, supported: bool)
    ensures Run(events + [e], supported) == Step(Run(events, supported), e, supported)
  {
    hide Step;
    assert (events + [e])[..|events|] == events;
  }

  // A job is started on the empty page and its source delivers a running snapshot.
  lemma FirstMessage(job: JobId, s: Snapshot) returns (v: View)
    requires s.status.Running?
    ensures v == Run([Start(job), Message(0, s)], true) && Settled(v) && v.active == Some(job) && Delivers(v, 0)
    ensures v.streamed == Some(s) && (s.partial.Some? ==> v.latestAnswer == s.partial)
    ensures QueryData(v) == Some(s)
  {
    v := Run([Start(job), Message(0, s)], true);
    assert [] + [Start(job)] == [Start(job)] && [Start(job)] + [Message(0, s)] == [Start(job), Message(0, s)];
    RunSnoc([], Start(job), true);
    RunSnoc([Start(job)], Message(0, s), true);
    OpenFirst(INITIAL, job);
    var u := Run([Start(job)], true);
    RunSettled([Start(job)], true);
    RunSettled([Start(job), Message(0, s)], true);
    assert Run([], true) == INITIAL;
    hide Run;
    StepMessage(u, 0, s, true);
  }

  // Two different running snapshots of a job, one streamed and the other polled after its source
  // failed: the streamed one stays on display.
  lemma StaleDisplay(job: JobId, a: Snapshot, b: Snapshot)
    requires a.jobId == job && a.status.Running? && b.status.Running? && a != b
    ensures CurrentJob(Run([Start(job), Message(0, a), Error(0), Fetched(job, b)], true)) == Some(a)
  {
    hide Run, Step, Settled;
    var events := [Start(job), Message(0, a)];
    var v := FirstMessage(job, a);
    assert events + [Error(0)] == [Start(job), Message(0, a), Error(0)];
    assert events + [Error(0)] + [Fetched(job, b)] == [Start(job), Message(0, a), Error(0), Fetched(job, b)];
    RunSnoc(events, Error(0), true);
    RunSnoc(events + [Error(0)], Fetched(job, b), true);
    RunSettled(events + [Error(0)], true);
    StepBeside(v, Error(0), true);
    StepFetched(Run(events + [Error(0)], true), job, b, true);
  }

  // ---- why a job is polled ----

  lemma StepFailed(v: View, e: Event, supported: bool)
    ensures Step(v, e, supported).sseFailed
         == if e.Error? && Delivers(v, e.source) then Some(v.sources[e.source].job) else v.sseFailed
  {
    hide Render;
    forall u: View ensures Render(u, supported).sseFailed == u.sseFailed {
      RenderFailed(u, supported);
    }
  }

  lemma RenderFailed(u: View, supported: bool)
    ensures Render(u, supported).sseFailed == u.sseFailed
  {
  }

  // Event i is an error of an open source of the job.
  ghost predicate SourceFails(events: seq<Event>, i: nat, job: JobId, supported: bool)
    requires i < |events|
  {
    var v := Run(events[..i], supported);
    events[i].Error? && Delivers(v, events[i].source) && v.sources[events[i].source].job == job
  }

  lemma {:induction false} FailedSource(events: seq<Event>, job: JobId, supported: bool)
    requires Run(events, supported).sseFailed == Some(job)
    ensures exists i | 0 <= i < |events| :: SourceFails(events, i, job, supported)
  {
    if events != [] {
      hide Step;
      var front, e := events[..|events| - 1], events[|events| - 1];
      var v := Run(front, supported);
      StepFailed(v, e, supported);
      if e.Error? && Delivers(v, e.source) {
        assert SourceFails(events, |front|, job, supported);
      } else {
        FailedSource(front, job, supported);
        var i :| 0 <= i < |front| && SourceFails(front, i, job, supported);
        assert front[..i] == events[..i];
        assert SourceFails(events, i, job, supported);
      }
    }
  }

  // Where events are supported, a job is polled only after one of its own sources failed.
  lemma {:induction false} PolledAfterFailure(events: seq<Event>)
    ensures Polling(Run(events, true), true) ==>
              exists i | 0 <= i < |events| :: SourceFails(events, i, Run(events, true).active.value, true)
  {
    hide Run, SourceFails;
    if Polling(Run(events, true), true) {
      FailedSource(events, Run(events, true).active.value, true);
    }
  }

  // ---- the order of partial answers ----

  // The snapshot a step brings to the active job, unless it is the one already cached by a fetch.
  function Brings(v: View, e: Event): Option<Snapshot> {
    match e
    case Message(i, s) => if Delivers(v, i) then Some(s) else None
    case Fetched(job, s) => if v.active == Some(job) && QueryData(v) != Some(s) then Some(s) else None
    case _ => None
  }

  // While a job is active the answer on display is replaced by every partial answer that arrives,
  // whatever its age, and the job ends with a final snapshot alone.
  lemma StepPartial(v: View, e: Event, supported: bool)
    requires Settled(v) && v.active.Some? && !e.Start?
    ensures var w, b := Step(v, e, supported), Brings(v, e);
            && (w.active.None? <==> b.Some? && IsFinal(b.value))
            && (w.active.Some? ==>
                  && w.active == v.active
                  && w.latestAnswer == if b.Some? && b.value.partial.Some? then b.value.partial else v.latestAnswer)
  {
    match e
    case Message(i, s) =>
      if Delivers(v, i) {
        if IsFinal(s) {
          FinalEnds(v, e, supported);
        } else {
          StepMessage(v, i, s, supported);
        }
      }
    case Error(i) => StepBeside(v, e, supported);
    case Fetched(job, s) =>
      if v.active != Some(job) {
        StepBeside(v, e, supported);
      } else if IsFinal(s) {
        FinalEnds(v, e, supported);
      } else {
        StepFetched(v, job, s, supported);
      }
  }

  lemma FinalEnds(v: View, e: Event, supported: bool)
    requires Settled(v) && v.active.Some? && (e.Message? || e.Fetched?) && IsFinal(e.snapshot)
    requires if e.Message? then Delivers(v, e.source) else v.active == Some(e.job)
    ensures Step(v, e, supported).active.None?
  {
  }

  // So a step puts an older answer on display exactly when it brings an older partial one.
  lemma StepRegresses(v: View, e: Event, supported: bool, age: Answer -> int)
    requires Settled(v) && v.active.Some? && v.latestAnswer.Some? && !e.Start?
    ensures var w, b := Step(v, e, supported), Brings(v, e);
            && w.active.Some? && w.latestAnswer.Some? && age(w.latestAnswer.value) < age(v.latestAnswer.value)
               <==> b.Some? && !IsFinal(b.value) && b.value.partial.Some?
                    && age(b.value.partial.value) < age(v.latestAnswer.value)
  {
    hide Settled, Step;
    StepPartial(v, e, supported);
  }

  // The partial answer an event carries for a job.
  function PartialOf(e: Event, job: JobId): Option<Answer> {
    if e.Message? && e.snapshot.jobId == job then e.snapshot.partial
    else if e.Fetched? && e.job == job then e.snapshot.partial
    else None
  }

  // The partial answers for a job arrive in the order of their age.
  ghost predicate InOrder(events: seq<Event>, job: JobId, age: Answer -> int) {
    forall i, k | 0 <= i < k < |events| && PartialOf(events[i], job).Some? && PartialOf(events[k], job).Some? ::
      age(PartialOf(events[i], job).value) <= age(PartialOf(events[k], job).value)
  }

  // A job just started, and events that start no other from a truthful service.
  ghost predicate Follows(v: View, job: JobId, events: seq<Event>, supported: bool) {
    && Settled(v) && v.active == Some(job) && v.latestAnswer.None?
    && forall i | 0 <= i < |events| :: !events[i].Start? && Honest(RunFrom(v, events[..i], supported), events[i])
  }

  lemma FollowsFront(v: View, job: JobId, events: seq<Event>, supported: bool)
    requires Follows(v, job, events, supported) && events != []
    ensures var front, e := events[..|events| - 1], events[|events| - 1];
            Follows(v, job, front, supported) && !e.Start? && Honest(RunFrom(v, front, supported), e)
  {
    hide RunFrom, Settled, Honest;
    var front := events[..|events| - 1];
    assert forall i | 0 <= i < |front| :: front[..i] == events[..i];
  }

  // What is on display of an active job came with one of the events.
  ghost predicate Carried(w: View, job: JobId, events: seq<Event>) {
    && Settled(w)
    && (w.active.Some? ==> w.active == Some(job))
    && (w.active.Some? && w.latestAnswer.Some? ==>
          exists i | 0 <= i < |events| :: PartialOf(events[i], job) == w.latestAnswer)
  }

  lemma {:induction false} RunCarries(v: View, job: JobId, events: seq<Event>, supported: bool)
    requires Follows(v, job, events, supported)
    ensures Carried(RunFrom(v, events, supported), job, events)
  {
    if events != [] {
      hide Step, Settled, Follows;
      var front, e := events[..|events| - 1], events[|events| - 1];
      FollowsFront(v, job, events, supported);
      RunCarries(v, job, front, supported);
      CarriedNext(RunFrom(v, front, supported), job, front, e, supported);
      assert front + [e] == events;
    } else {
      hide PartialOf;
    }
  }

  lemma CarriedNext(w: View, job: JobId, events: seq<Event>, e: Event, supported: bool)
    requires Carried(w, job, events) && !e.Start? && Honest(w, e)
    ensures Carried(Step(w, e, supported), job, events + [e])
  {
    StepSettles(w, e, supported);
    if w.active.Some? {
      BringsPartial(w, job, e);
      StepPartial(w, e, supported);
    } else {
      IdleStep(w, e, supported);
    }
    hide Step, Settled, Brings, PartialOf, Honest;
    var t := Step(w, e, supported);
    if t.active.Some? && t.latestAnswer.Some? {
      if t.latestAnswer == w.latestAnswer {
        var i :| 0 <= i < |events| && PartialOf(events[i], job) == w.latestAnswer;
        assert PartialOf((events + [e])[i], job) == t.latestAnswer;
      } else {
        assert PartialOf((events + [e])[|events|], job) == t.latestAnswer;
      }
    }
  }

  // Main result on partial answers.  When those of a job arrive in the order of their age, the one on
  // display never gets older while the job is active, whichever channel each came over.
  lemma {:induction false} PartialsAdvance(v: View, job: JobId, events: seq<Event>, i: nat, supported: bool,
                                           age: Answer -> int)
    requires Follows(v, job, events, supported) && InOrder(events, job, age) && i <= |events|
    ensures var x, w := RunFrom(v, events[..i], supported), RunFrom(v, events, supported);
            w.active.Some? && x.latestAnswer.Some? ==>
              w.latestAnswer.Some? && age(x.latestAnswer.value) <= age(w.latestAnswer.value)
  {
    hide Step, Settled, Follows, PartialOf, InOrder, Honest;
    if i == |events| {
      assert events[..i] == events;
    } else {
      var front, e := events[..|events| - 1], events[|events| - 1];
      assert front[..i] == events[..i] && front + [e] == events;
      FollowsFront(v, job, events, supported);
      InOrderFront(front, e, job, age);
      PartialsAdvance(v, job, front, i, supported, age);
      RunCarries(v, job, front, supported);
      AgeNext(RunFrom(v, front, supported), job, front, e, supported, age);
    }
  }

  lemma InOrderFront(events: seq<Event>, e: Event, job: JobId, age: Answer -> int)
    requires InOrder(events + [e], job, age)
    ensures InOrder(events, job, age)
  {
    hide PartialOf;
    assert forall i | 0 <= i < |events| :: (events + [e])[i] == events[i];
  }

  lemma AgeNext(w: View, job: JobId, events: seq<Event>, e: Event, supported: bool, age: Answer -> int)
    requires Carried(w, job, events) && !e.Start? && Honest(w, e) && InOrder(events + [e], job, age)
    ensures var t := Step(w, e, supported);
            && (t.active.Some? ==> w.active.Some?)
            && (t.active.Some? && w.latestAnswer.Some? ==>
                  t.latestAnswer.Some? && age(w.latestAnswer.value) <= age(t.latestAnswer.value))
  {
    if w.active.None? {
      IdleStep(w, e, supported);
    } else {
      BringsPartial(w, job, e);
      StepPartial(w, e, supported);
      hide Step, Settled, Brings, PartialOf, Honest;
      var t := Step(w, e, supported);
      if t.active.Some? && w.latestAnswer.Some? && t.latestAnswer != w.latestAnswer {
        var i :| 0 <= i < |events| && PartialOf(events[i], job) == w.latestAnswer;
        assert (events + [e])[i] == events[i] && (events + [e])[|events|] == e;
      }
    }
  }

  // Out of order they are not sorted: an older snapshot fetched after a newer one was streamed, as
  // the prefetch of a new job may be, puts the older partial answer back on display.
  lemma OlderPartial(job: JobId, newer: Snapshot, older: Snapshot)
    requires newer.status.Running? && older.status.Running? && older.partial.Some? && newer != older
    ensures Run([Start(job), Message(0, newer), Fetched(job, older)], true).latestAnswer == older.partial
  {
    hide Run, Step, Settled;
    var events := [Start(job), Message(0, newer)];
    var v := FirstMessage(job, newer);
    assert events + [Fetched(job, older)] == [Start(job), Message(0, newer), Fetched(job, older)];
    RunSnoc(events, Fetched(job, older), true);
    StepFetched(v, job, older, true);
  }

  // A truthful service brings to the active job only what is its own.
  lemma BringsPartial(w: View, job: JobId, e: Event)
    requires Settled(w) && w.active == Some(job) && Honest(w, e)
    ensures Brings(w, e).Some? ==> PartialOf(e, job) == Brings(w, e).value.partial
  {
  }
}
