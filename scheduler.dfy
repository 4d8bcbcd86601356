/** The bot's mutable state and the operations that change it: start-up
    (main.py:669-707), the queue recompute (main.py:219-253), the three
    publishers (main.py:418-484), the announcer (main.py:397-414) and the
    queue changes that trigger a recompute (main.py:564-587, 654-666). */
module Scheduler {
  import opened Wrappers
  import opened Clock
  import opened Posts
  import opened Jobs
  import opened QueueView

  class Bot {
    /** The `meme_queue` table, oldest first. */
    var queue: seq<Post>
    /** The `special_posts` table. */
    var special: map<Slot, Media>
    /** The `last_post_time` row of the `bot_state` table. */
    var savedLastPost: Option<int>
    /** The global `last_post_time`. */
    var lastPost: Option<int>
    /** The global `bot_startup_time`. */
    var startup: int
    /** The job queue's registered timers. */
    var jobs: seq<Job>

    /** Queue ids are a primary key, and the in-memory last publication is
        always the persisted one. */
    ghost predicate Valid()
      reads this`queue, this`lastPost, this`savedLastPost
    {
      UniqueIds(queue) && lastPost == savedLastPost
    }

    /** main(): record the start instant, restore the last publication from
        the state table and register the standing timers. */
    constructor Start(storedQueue: seq<Post>, storedSpecial: map<Slot, Media>, storedLastPost: Option<int>,
                      now: int, hour: int, minute: int)
      requires UniqueIds(storedQueue)
      requires IsDrawnTime(hour, minute)
      ensures Valid()
      ensures queue == storedQueue && special == storedSpecial && savedLastPost == storedLastPost
      ensures startup == now && lastPost == storedLastPost
      ensures jobs == StartupJobs(now, hour, minute)
    {
      queue := storedQueue;
      special := storedSpecial;
      savedLastPost := storedLastPost;
      startup := now;
      lastPost := storedLastPost;
      jobs := StartupJobs(now, hour, minute);
    }

    /** recalculate_and_schedule_all_posts: cancel every per-post timer, then,
        if the queue is not empty and today's window is still open, install
        one timer per queued item, spread evenly over the window. */
    method Recalculate(now: int)
      requires Valid()
      modifies this`jobs
      ensures Valid()
      ensures jobs == Standing(old(jobs)) + Schedule(queue, now, startup, lastPost)
    {
      var kept := CancelQueueTimers(jobs);
      jobs := kept;

      if queue == [] {
        return;
      }
      var start := EffectiveStart(now, startup, lastPost);
      var end := WindowEnd(now);
      if start >= end {
        return;
      }
      var n := |queue|;
      var interval := Interval(end - start, n + 1);
      ghost var plan := Plan(queue, start, interval);
      var i := 0;
      while i < n
        invariant 0 <= i <= n
        invariant jobs == kept + plan[..i]
      {
        assert plan[..i + 1] == plan[..i] + [QueueJob(queue[i], start + interval * (i + 1))];
        jobs := jobs + [QueueJob(queue[i], start + interval * (i + 1))];
        i := i + 1;
      }
      assert plan[..n] == plan;
    }

    /** post_normal_meme: send the post carried by the timer; if the send did
        not raise, delete its row and record and persist the publication
        instant; if it raised, change nothing.  An unrecognised `type` sends
        nothing and counts as published. */
    method PostQueued(p: Post, sendOk: bool, now: int) returns (delivery: Option<Delivery>)
      requires Valid()
      modifies this`queue, this`lastPost, this`savedLastPost
      ensures Valid()
      ensures delivery == Dispatch(p.media)
      ensures Published(delivery, sendOk) ==>
        queue == RemoveId(old(queue), p.id) && lastPost == Some(now) && savedLastPost == Some(now)
      ensures !Published(delivery, sendOk) ==>
        queue == old(queue) && lastPost == old(lastPost) && savedLastPost == old(savedLastPost)
    {
      delivery := Dispatch(p.media);
      if !Published(delivery, sendOk) {
        return;
      }
      RemoveIdKeepsUnique(queue, p.id);
      queue := RemoveId(queue, p.id);
      lastPost := Some(now);
      savedLastPost := Some(now);
    }

    /** post_good_morning and post_good_night: with no pending post for the
        slot, nothing is sent and nothing changes; otherwise send it and, if
        the send did not raise, record and persist the publication instant and
        delete that slot's post only. */
    method PostSpecial(slot: Slot, sendOk: bool, now: int) returns (delivery: Option<Delivery>)
      requires Valid()
      modifies this`special, this`lastPost, this`savedLastPost
      ensures Valid()
      ensures slot !in old(special) ==> delivery == None
      ensures slot in old(special) ==> delivery == Dispatch(old(special)[slot])
      ensures slot in old(special) && Published(delivery, sendOk) ==>
        special == old(special) - {slot} && lastPost == Some(now) && savedLastPost == Some(now)
      ensures !(slot in old(special) && Published(delivery, sendOk)) ==>
        special == old(special) && lastPost == old(lastPost) && savedLastPost == old(savedLastPost)
    {
      if slot !in special {
        delivery := None;
        return;
      }
      delivery := Dispatch(special[slot]);
      if !Published(delivery, sendOk) {
        return;
      }
      lastPost := Some(now);
      savedLastPost := Some(now);
      special := special - {slot};
    }

    /** send_and_reschedule_random_message: with no configured messages it
        stops, and the chain ends; otherwise it sends the drawn message and,
        whether or not the send raised, registers its next run on the next
        day at the drawn hour and minute. */
    method Announce(messages: seq<string>, pick: nat, now: int, hour: int, minute: int)
      returns (sent: Option<string>)
      requires messages != [] ==> pick < |messages|
      requires IsDrawnTime(hour, minute)
      requires Valid()
      modifies this`jobs
      ensures Valid()
      ensures messages == [] ==> sent == None && jobs == old(jobs)
      ensures messages != [] ==>
        sent == Some(messages[pick]) && jobs == old(jobs) + [AnnouncerJob(NextAnnouncement(now, hour, minute))]
    {
      if messages == [] {
        return None;
      }
      sent := Some(messages[pick]);
      jobs := jobs + [AnnouncerJob(NextAnnouncement(now, hour, minute))];
    }

    /** handle_media for a special slot: store the media with the user's
        caption and the slot's greeting, replacing any pending post. */
    method SubmitSpecial(slot: Slot, kind: string, fileId: string, userCaption: Option<string>)
      requires Valid()
      modifies this`special
      ensures Valid()
      ensures special == old(special)[slot := Media(kind, fileId, Some(SpecialCaption(userCaption, Greeting(slot))))]
    {
      special := special[slot := Media(kind, fileId, Some(SpecialCaption(userCaption, Greeting(slot))))];
    }

    /** handle_media for the queue: append the post under a fresh id, reply
        to the user, then recompute the schedule. `replyOk` says whether the
        reply went out; when it raised, the handler stops after the insert
        and the new post waits without a timer for the next recompute. */
    method SubmitQueued(id: string, kind: string, fileId: string, userCaption: Option<string>,
                        replyOk: bool, now: int)
      requires Valid()
      requires !HasId(queue, id)
      modifies this`queue, this`jobs
      ensures Valid()
      ensures queue == old(queue) + [Post(id, Media(kind, fileId, userCaption))]
      ensures replyOk ==> jobs == Standing(old(jobs)) + Schedule(queue, now, startup, lastPost)
      ensures !replyOk ==> jobs == old(jobs)
    {
      queue := queue + [Post(id, Media(kind, fileId, userCaption))];
      if replyOk {
        Recalculate(now);
      }
    }

    /** delete_queue_item: read the button data; if it is malformed, change
        nothing; otherwise delete the row, recompute the schedule and show the
        queue at the same position. */
    method DeleteQueued(data: string, now: int) returns (view: Option<View>)
      requires Valid()
      modifies this`queue, this`jobs
      ensures Valid()
      ensures ParseDelete(data).None? ==> queue == old(queue) && jobs == old(jobs) && view == None
      ensures ParseDelete(data).Some? ==>
        && queue == RemoveId(old(queue), ParseDelete(data).value.id)
        && jobs == Standing(old(jobs)) + Schedule(queue, now, startup, lastPost)
        && view == ShowQueueItem(queue, ParseDelete(data).value.index)
    {
      var request := ParseDelete(data);
      if request.None? {
        return None;
      }
      RemoveIdKeepsUnique(queue, request.value.id);
      queue := RemoveId(queue, request.value.id);
      Recalculate(now);
      view := ShowQueueItem(queue, request.value.index);
    }
  }

  /** The first half of a recompute (main.py:220-222): walk the registry and
      drop every timer whose name starts with `normal_post_job_`. */
  method CancelQueueTimers(js: seq<Job>) returns (kept: seq<Job>)
    ensures kept == Standing(js)
  {
    kept := [];
    var k := 0;
    while k < |js|
      invariant 0 <= k <= |js|
      invariant kept == Standing(js[..k])
    {
      assert js[..k + 1][..k] == js[..k];
      if !IsQueueJob(js[k]) {
        kept := kept + [js[k]];
      }
      k := k + 1;
    }
    assert js[..|js|] == js;
  }

  /** A publication followed by a recompute: a successful one pushes every
      new per-post timer at least an hour past the publication, and a failed
      one leaves the post queued. */
  method PublishThenRecalculate(bot: Bot, p: Post, sendOk: bool, now: int, later: int)
    requires bot.Valid()
    requires p in bot.queue
    modifies bot
    ensures bot.Valid()
    ensures Published(Dispatch(p.media), sendOk) ==>
      forall j | j in QueueTimers(bot.jobs) :: j.trigger.Once? && FireTime(j) >= now + HOUR
    ensures !Published(Dispatch(p.media), sendOk) ==> p in bot.queue
  {
    var _ := bot.PostQueued(p, sendOk, now);
    bot.Recalculate(later);
    RecalculatedRegistry(old(bot.jobs), bot.queue, later, bot.startup, bot.lastPost);
    ScheduleRespectsCooldowns(bot.queue, later, bot.startup, bot.lastPost);
  }
}
