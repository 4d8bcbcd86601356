/** The bot's timer registry as data, and the schedule the adaptive queue
    scheduler (main.py:219-253) computes for the queue. */
module Jobs {
  import opened Wrappers
  import opened Clock
  import opened Posts

  /** The name tag of the per-post timers, the only ones a recompute cancels. */
  const QUEUE_JOB_PREFIX: string := "normal_post_job_"

  /** The standing timers registered by main.py:681-706.  The announcer gets
      no explicit name and is registered under its callback's name. */
  const INITIAL_RECALCULATOR: string := "initial_recalculator"
  const GOOD_MORNING_JOB: string := "good_morning_job"
  const GOOD_NIGHT_JOB: string := "good_night_job"
  const DAILY_GREETING_JOB: string := "daily_greeting_job"
  const DAILY_RECALCULATOR: string := "daily_recalculator"
  const ANNOUNCER_JOB: string := "send_and_reschedule_random_message"

  /** The callback a timer runs. */
  datatype Task =
    | PostQueued(post: Post)
    | PostSpecial(slot: Slot)
    | DailyGreeting
    | RecalculateQueue
    | Announce

  /** `run_once(when=at)` or `run_daily(time=timeOfDay)`. */
  datatype Trigger = Once(at: int) | Daily(timeOfDay: int)

  datatype Job = Job(name: string, trigger: Trigger, task: Task)

  predicate IsQueueJob(j: Job)
  {
    QUEUE_JOB_PREFIX <= j.name
  }

  /** The jobs whose being a queue job is `queueJobs`, in registry order. */
  function Select(js: seq<Job>, queueJobs: bool): seq<Job>
  {
    if js == [] then []
    else
      var rest := Select(js[..|js| - 1], queueJobs);
      if IsQueueJob(js[|js| - 1]) == queueJobs then rest + [js[|js| - 1]] else rest
  }

  /** The jobs a recompute leaves alone. */
  function Standing(js: seq<Job>): seq<Job>
  {
    Select(js, false)
  }

  /** The live per-post timers. */
  function QueueTimers(js: seq<Job>): seq<Job>
  {
    Select(js, true)
  }

  /** The timer that publishes `p` at `at`. */
  function QueueJob(p: Post, at: int): Job
  {
    Job(QUEUE_JOB_PREFIX + p.id, Once(at), PostQueued(p))
  }

  /** Item `i` of the queue fires `i + 1` intervals after the start. */
  function Plan(queue: seq<Post>, start: int, interval: int): (r: seq<Job>)
    ensures |r| == |queue|
  {
    seq(|queue|, i requires 0 <= i < |queue| => QueueJob(queue[i], start + interval * (i + 1)))
  }

  /** The per-post timers a recompute installs at `now`: none for an empty
      queue or a closed window; otherwise the window from the effective start
      to 23:00 split into N+1 intervals (rounded as `timedelta / int`
      rounds). */
  function Schedule(queue: seq<Post>, now: int, startup: int, lastPost: Option<int>): seq<Job>
  {
    if queue == [] then []
    else
      var start := EffectiveStart(now, startup, lastPost);
      var end := WindowEnd(now);
      if start >= end then []
      else Plan(queue, start, Interval(end - start, |queue| + 1))
  }

  // ---------------------------------------------------------------------
  // The filter a recompute applies to the registry

  /** Selecting from a concatenation selects from each part. */
  lemma {:induction false} SelectAppend(a: seq<Job>, b: seq<Job>, queueJobs: bool)
    ensures Select(a + b, queueJobs) == Select(a, queueJobs) + Select(b, queueJobs)
    decreases |b|
  {
    if b != [] {
      var b' := b[..|b| - 1];
      assert (a + b)[..|a + b| - 1] == a + b';
      SelectAppend(a, b', queueJobs);
    } else {
      assert a + b == a;
    }
  }

  /** A job survives the filter exactly when it is in the registry and its
      kind matches. */
  lemma {:induction false} SelectMembers(js: seq<Job>, queueJobs: bool)
    ensures forall j :: j in Select(js, queueJobs) <==> j in js && IsQueueJob(j) == queueJobs
  {
    if js != [] {
      var p := js[..|js| - 1];
      SelectMembers(p, queueJobs);
      assert js == p + [js[|js| - 1]];
    }
  }

  /** A registry all of one kind passes the filter for that kind unchanged and
      nothing of it passes the other. */
  lemma {:induction false} SelectUniform(js: seq<Job>, queueJobs: bool)
    requires forall j | j in js :: IsQueueJob(j) == queueJobs
    ensures Select(js, queueJobs) == js
    ensures Select(js, !queueJobs) == []
  {
    if js != [] {
      var p, last := js[..|js| - 1], js[|js| - 1];
      assert js == p + [last];
      assert IsQueueJob(last) == queueJobs;
      SelectUniform(p, queueJobs);
      assert Select(js, queueJobs) == Select(p, queueJobs) + [last];
      assert Select(js, !queueJobs) == Select(p, !queueJobs);
    }
  }

  /** Recompute removes exactly the jobs named `normal_post_job_...` and keeps
      the others, in their order. */
  lemma StandingExactly(js: seq<Job>)
    ensures forall j :: j in Standing(js) <==> j in js && !(QUEUE_JOB_PREFIX <= j.name)
    ensures forall j | j in QueueTimers(js) :: QUEUE_JOB_PREFIX <= j.name
  {
    SelectMembers(js, false);
    SelectMembers(js, true);
  }

  /** Every job of a schedule is a per-post timer. */
  lemma ScheduleIsQueueJobs(queue: seq<Post>, now: int, startup: int, lastPost: Option<int>)
    ensures forall j | j in Schedule(queue, now, startup, lastPost) :: IsQueueJob(j)
  {
    forall j | j in Schedule(queue, now, startup, lastPost) ensures IsQueueJob(j) {
      var s := Schedule(queue, now, startup, lastPost);
      var i :| 0 <= i < |s| && s[i] == j;
      assert j.name == QUEUE_JOB_PREFIX + queue[i].id;
      assert j.name[..|QUEUE_JOB_PREFIX|] == QUEUE_JOB_PREFIX;
    }
  }

  /** After a recompute the live per-post timers are exactly the new schedule
      and the standing timers are those from before. */
  lemma RecalculatedRegistry(js: seq<Job>, queue: seq<Post>, now: int, startup: int, lastPost: Option<int>)
    ensures var after := Standing(js) + Schedule(queue, now, startup, lastPost);
      && QueueTimers(after) == Schedule(queue, now, startup, lastPost)
      && Standing(after) == Standing(js)
  {
    var s := Schedule(queue, now, startup, lastPost);
    ScheduleIsQueueJobs(queue, now, startup, lastPost);
    SelectMembers(js, false);
    SelectUniform(Standing(js), false);
    SelectUniform(s, true);
    SelectAppend(Standing(js), s, true);
    SelectAppend(Standing(js), s, false);
  }

  /** Recomputing twice at the same instant with no queue change in between
      leaves the registry as one recompute does. */
  lemma RecalculateIdempotent(js: seq<Job>, queue: seq<Post>, now: int, startup: int, lastPost: Option<int>)
    ensures var once := Standing(js) + Schedule(queue, now, startup, lastPost);
      Standing(once) + Schedule(queue, now, startup, lastPost) == once
  {
    RecalculatedRegistry(js, queue, now, startup, lastPost);
  }

  // ---------------------------------------------------------------------
  // The schedule

  /** A schedule is empty exactly when the queue is empty or the window is
      closed; otherwise it has one timer per queued item. */
  lemma ScheduleSize(queue: seq<Post>, now: int, startup: int, lastPost: Option<int>)
    ensures var open := EffectiveStart(now, startup, lastPost) < WindowEnd(now);
      |Schedule(queue, now, startup, lastPost)| == if queue != [] && open then |queue| else 0
  {
  }

  /** With an open window, item `i` gets the timer `normal_post_job_<id>` that
      publishes it `i + 1` intervals after the start, where the interval is
      the window's length over N+1. */
  lemma ScheduleMatchesQueue(queue: seq<Post>, now: int, startup: int, lastPost: Option<int>, i: nat)
    requires i < |queue|
    requires EffectiveStart(now, startup, lastPost) < WindowEnd(now)
    ensures var s := Schedule(queue, now, startup, lastPost);
      var start := EffectiveStart(now, startup, lastPost);
      var q := Interval(WindowEnd(now) - start, |queue| + 1);
      && |s| == |queue|
      && s[i].name == QUEUE_JOB_PREFIX + queue[i].id
      && s[i].task == PostQueued(queue[i])
      && s[i].trigger == Once(start + q * (i + 1))
  {
  }

  /** The instant a one-shot timer fires. */
  function FireTime(j: Job): int
    requires j.trigger.Once?
  {
    j.trigger.at
  }

  lemma MulMonotone(q: int, a: int, b: int)
    requires q >= 0 && a <= b
    ensures q * a <= q * b
  {
  }

  lemma MulStrict(q: int, a: int, b: int)
    requires q > 0 && a < b
    ensures q * a < q * b
  {
  }

  /** Fire times follow queue order, none before the start, each one interval
      after the previous one. */
  lemma ScheduleOrdered(queue: seq<Post>, now: int, startup: int, lastPost: Option<int>)
    ensures var s := Schedule(queue, now, startup, lastPost);
      var start := EffectiveStart(now, startup, lastPost);
      var q := Interval(WindowEnd(now) - start, |queue| + 1);
      && (forall i | 0 <= i < |s| :: s[i].trigger.Once?)
      && (forall i, j | 0 <= i <= j < |s| :: start <= FireTime(s[i]) <= FireTime(s[j]))
      && (forall i | 0 < i < |s| :: FireTime(s[i]) - FireTime(s[i - 1]) == q)
  {
    var s := Schedule(queue, now, startup, lastPost);
    if s != [] {
      var start := EffectiveStart(now, startup, lastPost);
      var q := Interval(WindowEnd(now) - start, |queue| + 1);
      assert q >= 0;
      forall i, j | 0 <= i <= j < |s| ensures start <= FireTime(s[i]) <= FireTime(s[j]) {
        MulMonotone(q, 0, i + 1);
        MulMonotone(q, i + 1, j + 1);
      }
      forall i | 0 < i < |s| ensures FireTime(s[i]) - FireTime(s[i - 1]) == q {
        assert q * (i + 1) == q * i + q;
      }
    }
  }

  /** The last slot is `N` intervals after the start; it stays before the end
      when the window has more than N*(N+1)/2 microseconds. */
  lemma {:induction false} LastSlotBeforeEnd(q: int, n: int, d: int)
    requires n >= 1
    requires 2 * (q * (n + 1)) <= 2 * d + n + 1
    requires n * (n + 1) < 2 * d
    ensures q * n < d
  {
    if q * n >= d {
      assert q * (n + 1) == q * n + q;
      assert 2 * q <= n + 1;
      MulMonotone(n, 2 * q, n + 1);
      assert false;
    }
  }

  /** With that much room the interval is at least one microsecond. */
  lemma {:induction false} FirstSlotAfterStart(q: int, n: int, d: int)
    requires n >= 1
    requires 2 * d - n - 1 <= 2 * (q * (n + 1))
    requires n * (n + 1) < 2 * d
    ensures q > 0
  {
    MulMonotone(n + 1, 1, n);
    if q <= 0 {
      MulMonotone(n + 1, q, 0);
      assert false;
    }
  }

  /** When the window holds more than N*(N+1)/2 microseconds, every timer fires
      strictly inside it, strictly later than the previous one. */
  lemma ScheduleInsideWindow(queue: seq<Post>, now: int, startup: int, lastPost: Option<int>)
    requires var d := WindowEnd(now) - EffectiveStart(now, startup, lastPost);
      |queue| * (|queue| + 1) < 2 * d
    ensures var s := Schedule(queue, now, startup, lastPost);
      && |s| == |queue|
      && (forall i | 0 <= i < |s| :: s[i].trigger.Once?)
      && (forall i | 0 <= i < |s| :: EffectiveStart(now, startup, lastPost) < FireTime(s[i]) < WindowEnd(now))
      && (forall i, j | 0 <= i < j < |s| :: FireTime(s[i]) < FireTime(s[j]))
  {
    var s := Schedule(queue, now, startup, lastPost);
    var n := |queue|;
    if n > 0 {
      var start := EffectiveStart(now, startup, lastPost);
      var d := WindowEnd(now) - start;
      assert d > 0;
      var q := Interval(d, n + 1);
      LastSlotBeforeEnd(q, n, d);
      FirstSlotAfterStart(q, n, d);
      forall i | 0 <= i < n ensures start < FireTime(s[i]) < WindowEnd(now) {
        MulMonotone(q, i + 1, n);
        MulStrict(q, 0, i + 1);
      }
      forall i, j | 0 <= i < j < n ensures FireTime(s[i]) < FireTime(s[j]) {
        MulStrict(q, i + 1, j + 1);
      }
    }
  }

  /** Every timer respects the three cooldowns: not before the window opens,
      not within an hour of start-up, not within an hour of the last
      publication. */
  lemma ScheduleRespectsCooldowns(queue: seq<Post>, now: int, startup: int, lastPost: Option<int>)
    ensures forall j | j in Schedule(queue, now, startup, lastPost) ::
      && j.trigger.Once?
      && FireTime(j) >= now
      && FireTime(j) >= DayStart(now) + WINDOW_OPEN_HOUR * HOUR
      && FireTime(j) >= startup + HOUR
      && (lastPost.Some? ==> FireTime(j) >= lastPost.value + HOUR)
  {
    EffectiveStartIsMaximum(now, startup, lastPost);
    ScheduleOrdered(queue, now, startup, lastPost);
  }

  /** Distinct ids give distinct timer names, one per queued item. */
  lemma ScheduleNamesDistinct(queue: seq<Post>, now: int, startup: int, lastPost: Option<int>)
    requires UniqueIds(queue)
    ensures var s := Schedule(queue, now, startup, lastPost);
      forall i, j | 0 <= i < j < |s| :: s[i].name != s[j].name
  {
    var s := Schedule(queue, now, startup, lastPost);
    forall i, j | 0 <= i < j < |s| ensures s[i].name != s[j].name {
      var a := QUEUE_JOB_PREFIX + queue[i].id;
      var b := QUEUE_JOB_PREFIX + queue[j].id;
      assert a[|QUEUE_JOB_PREFIX|..] == queue[i].id;
      assert b[|QUEUE_JOB_PREFIX|..] == queue[j].id;
    }
  }

  /** Because `timedelta / int` rounds to the nearest microsecond, a window of
      2 microseconds split for 2 posts puts the second exactly at 23:00, and
      a 3-microsecond window for 4 posts puts the last one past it. */
  lemma TinyWindowOverruns(p1: Post, p2: Post, p3: Post, p4: Post)
    ensures var now := 23 * HOUR - 2;
      var s := Schedule([p1, p2], now, 0, None);
      |s| == 2 && s[1].trigger == Once(WindowEnd(now))
    ensures var now := 23 * HOUR - 3;
      var s := Schedule([p1, p2, p3, p4], now, 0, None);
      |s| == 4 && s[3].trigger == Once(WindowEnd(now) + 1)
  {
    assert DayStart(23 * HOUR - 2) == 0;
    assert DayStart(23 * HOUR - 3) == 0;
    assert Interval(2, 3) == 1;
    assert Interval(3, 5) == 1;
  }

  /** A recompute is a function of the instant as well as the queue: while
      `now` is the binding lower bound of the window, a later recompute on an
      unchanged queue can move every slot. One post, recomputed at 11:00, is
      set for 17:00; recomputed at 12:00, for 17:30. */
  lemma LaterRecomputeMoves(p: Post)
    ensures Schedule([p], 11 * HOUR, 0, None) == [QueueJob(p, 17 * HOUR)]
    ensures Schedule([p], 12 * HOUR, 0, None) == [QueueJob(p, 17 * HOUR + 30 * MINUTE)]
  {
    assert DayStart(11 * HOUR) == 0;
    assert DayStart(12 * HOUR) == 0;
    assert Interval(12 * HOUR, 2) == 6 * HOUR;
    assert Interval(11 * HOUR, 2) == 5 * HOUR + 30 * MINUTE;
  }

  // ---------------------------------------------------------------------
  // The timers registered at start-up

  function AnnouncerJob(at: int): Job
  {
    Job(ANNOUNCER_JOB, Once(at), Announce)
  }

  /** The registry main() builds (main.py:681-706): a recompute two seconds
      after start, the two special slots at 10:00 and 23:00, the morning
      greeting at 10:00, the daily recompute at 00:01, and the announcer at
      its first drawn instant. */
  function StartupJobs(now: int, hour: int, minute: int): seq<Job>
  {
    [ Job(INITIAL_RECALCULATOR, Once(now + 2 * SECOND), RecalculateQueue),
      Job(GOOD_MORNING_JOB, Daily(10 * HOUR), PostSpecial(GoodMorning)),
      Job(GOOD_NIGHT_JOB, Daily(23 * HOUR), PostSpecial(GoodNight)),
      Job(DAILY_GREETING_JOB, Daily(10 * HOUR), DailyGreeting),
      Job(DAILY_RECALCULATOR, Daily(1 * MINUTE), RecalculateQueue),
      AnnouncerJob(FirstAnnouncement(now, hour, minute)) ]
  }

  /** No start-up timer is a per-post timer, so a recompute never cancels one;
      the one-shot ones all lie in the future. */
  lemma StartupJobsAreStanding(now: int, hour: int, minute: int)
    requires IsDrawnTime(hour, minute)
    ensures Standing(StartupJobs(now, hour, minute)) == StartupJobs(now, hour, minute)
    ensures forall j | j in StartupJobs(now, hour, minute) && j.trigger.Once? :: j.trigger.at > now
  {
    var js := StartupJobs(now, hour, minute);
    forall j | j in js ensures !IsQueueJob(j) {
      assert j.name[0] != QUEUE_JOB_PREFIX[0];
    }
    SelectUniform(js, false);
    FirstAnnouncementIsAhead(now, hour, minute);
  }

  // ---------------------------------------------------------------------
  // Worked examples

  /** 10:00 to 23:00 with 3 posts: 780 minutes over 4 intervals of 195 minutes
      puts the posts at 13:15, 16:30 and 19:45. */
  lemma ThreePostsExample(queue: seq<Post>)
    requires |queue| == 3
    ensures var s := Schedule(queue, 9 * HOUR, 0, None);
      && |s| == 3
      && s[0].trigger == Once(13 * HOUR + 15 * MINUTE)
      && s[1].trigger == Once(16 * HOUR + 30 * MINUTE)
      && s[2].trigger == Once(19 * HOUR + 45 * MINUTE)
  {
    assert DayStart(9 * HOUR) == 0;
    assert EffectiveStart(9 * HOUR, 0, None) == 10 * HOUR;
    assert Interval(13 * HOUR, 4) == 195 * MINUTE;
  }

  /** Started at 09:30, no earlier publication, asked at 09:00: the window
      opens at 10:30. */
  lemma StartupCooldownExample()
    ensures EffectiveStart(9 * HOUR, 9 * HOUR + 30 * MINUTE, None) == 10 * HOUR + 30 * MINUTE
  {
    assert DayStart(9 * HOUR) == 0;
  }

  /** At 23:30 the window is closed: one queued post gets no timer. */
  lemma ClosedWindowExample(p: Post)
    ensures Schedule([p], 23 * HOUR + 30 * MINUTE, 0, None) == []
  {
    assert DayStart(23 * HOUR + 30 * MINUTE) == 0;
  }
}
