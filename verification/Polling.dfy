// The two loops that poll a background job until it completes, fails or runs out of time.
module Polling {
  import opened Wrappers
  import opened Text

  // The waiting-room feed of a status, when it is a dictionary at all.
  type Feed = map<string, string>

  // `answer` is present only when it is not empty.
  datatype JobStatus = JobStatus(state: string, answer: Option<Text>, error: Option<Text>, feed: Option<Feed>)

  datatype PollResult =
    | Finished(answer: Text, feed: Option<Feed>)
    | JobFailed(error: Text)
    | TimedOut

  predicate Completed(s: JobStatus) {
    s.state == "completed" && s.answer.Some?
  }

  predicate Terminal(s: JobStatus) {
    Completed(s) || s.state == "failed"
  }

  // The last dictionary seen among the first n feeds; an empty one replaces an earlier one.
  function LastFeed(statuses: nat -> JobStatus, n: nat): Option<Feed> {
    if n == 0 then None
    else if statuses(n - 1).feed.Some? then statuses(n - 1).feed
    else LastFeed(statuses, n - 1)
  }

  function Attached(feed: Option<Feed>): Option<Feed> {
    if feed.Some? && feed.value != map[] then feed else None
  }

  // What the k-th status means for a job polled to that point without a result.
  function Verdict(statuses: nat -> JobStatus, k: nat): PollResult
    requires Terminal(statuses(k))
  {
    var s := statuses(k);
    if Completed(s) then Finished(s.answer.value, Attached(LastFeed(statuses, k + 1)))
    else JobFailed(if s.error.Some? && s.error.value != [] then s.error.value else Points("job failed"))
  }

  // Reading 0 of the clock is the start; reading k + 1 precedes status call k.  Every turn of the
  // loop that goes on sleeps for two seconds.
  ghost predicate Ticks(clock: nat -> real) {
    clock(0) <= clock(1) && forall k: nat | k >= 1 :: clock(k) + 2.0 <= clock(k + 1)
  }

  predicate InTime(clock: nat -> real, timeout: real, k: nat) {
    clock(k + 1) - clock(0) < timeout
  }

  lemma {:induction false} ElapsedAtLeast(clock: nat -> real, k: nat)
    requires Ticks(clock)
    ensures clock(k + 1) - clock(0) >= 2.0 * k as real
  {
    if k > 0 {
      ElapsedAtLeast(clock, k - 1);
    }
  }

  lemma {:induction false} InTimeEarlier(clock: nat -> real, timeout: real, j: nat, k: nat)
    requires Ticks(clock) && j <= k && InTime(clock, timeout, k)
    ensures InTime(clock, timeout, j)
  {
    if j < k {
      InTimeEarlier(clock, timeout, j, k - 1);
    }
  }

  // The result is the verdict on the first terminal status called in time, and a time-out exactly
  // when there is none; no more than one call is made for every two seconds of the limit, plus one.
  method SubmitAndPoll(statuses: nat -> JobStatus, clock: nat -> real, timeout: real)
    returns (result: PollResult, calls: nat)
    requires Ticks(clock)
    ensures calls > 0 ==> 2.0 * (calls - 1) as real < timeout
    ensures result.TimedOut? <==> forall k: nat | InTime(clock, timeout, k) :: !Terminal(statuses(k))
    ensures !result.TimedOut? ==>
              && calls > 0 && InTime(clock, timeout, calls - 1)
              && Terminal(statuses(calls - 1)) && (forall k: nat | k < calls - 1 :: !Terminal(statuses(k)))
              && result == Verdict(statuses, calls - 1)
  {
    calls := 0;
    var lastFeed: Option<Feed> := None;
    while clock(calls + 1) - clock(0) < timeout
      invariant forall k: nat | k < calls :: !Terminal(statuses(k))
      invariant calls > 0 ==> InTime(clock, timeout, calls - 1)
      invariant lastFeed == LastFeed(statuses, calls)
      decreases timeout - 2.0 * calls as real
    {
      ElapsedAtLeast(clock, calls);
      var status := statuses(calls);
      calls := calls + 1;
      if status.feed.Some? {
        lastFeed := status.feed;
      }
      if status.state == "completed" && status.answer.Some? {
        return Finished(status.answer.value, Attached(lastFeed)), calls;
      }
      if status.state == "failed" {
        return JobFailed(if status.error.Some? && status.error.value != [] then status.error.value
                         else Points("job failed")), calls;
      }
    }
    if calls > 0 {
      ElapsedAtLeast(clock, calls - 1);
    }
    forall k: nat | InTime(clock, timeout, k) ensures !Terminal(statuses(k)) {
      if k >= calls {
        InTimeEarlier(clock, timeout, calls, k);
      }
    }
    result := TimedOut;
  }
  // ---- what the verdict is ----

  // The feed attached to the answer that the k-th status brings is the last dictionary seen up to it: at
  // position i when none follows, and only if it has entries.
  lemma {:induction false} FeedAttached(statuses: nat -> JobStatus, k: nat, i: nat)
    requires statuses(k).state == "completed" && statuses(k).answer.Some?
    requires i <= k && statuses(i).feed.Some? && forall j | i < j <= k :: statuses(j).feed.None?
    ensures Verdict(statuses, k)
         == Finished(statuses(k).answer.value, if statuses(i).feed.value == map[] then None else statuses(i).feed)
  {
    LastFeedAt(statuses, k + 1, i);
  }

  lemma {:induction false} LastFeedAt(statuses: nat -> JobStatus, n: nat, i: nat)
    requires i < n && statuses(i).feed.Some? && forall j | i < j < n :: statuses(j).feed.None?
    ensures LastFeed(statuses, n) == statuses(i).feed
  {
    if i < n - 1 {
      LastFeedAt(statuses, n - 1, i);
    }
  }

  // Without any dictionary nothing is attached.
  lemma {:induction false} NoFeedAttached(statuses: nat -> JobStatus, k: nat)
    requires statuses(k).state == "completed" && statuses(k).answer.Some?
    requires forall j | 0 <= j <= k :: statuses(j).feed.None?
    ensures Verdict(statuses, k) == Finished(statuses(k).answer.value, None)
  {
    NoFeedYet(statuses, k + 1);
  }

  lemma {:induction false} NoFeedYet(statuses: nat -> JobStatus, n: nat)
    requires forall j | 0 <= j < n :: statuses(j).feed.None?
    ensures LastFeed(statuses, n) == None
  {
    if n > 0 {
      NoFeedYet(statuses, n - 1);
    }
  }

  // A status ends the polling exactly when it is completed with an answer or failed; a failed one gives
  // its own error, or a standard one when that is missing or empty.
  lemma FailureReported(statuses: nat -> JobStatus, k: nat)
    ensures Terminal(statuses(k)) <==>
              (statuses(k).state == "completed" && statuses(k).answer.Some?) || statuses(k).state == "failed"
    ensures statuses(k).state == "failed" ==>
              Verdict(statuses, k) == JobFailed(if statuses(k).error.Some? && statuses(k).error.value != []
                                                then statuses(k).error.value else Points("job failed"))
  {
  }
}
