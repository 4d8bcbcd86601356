# Adaptive post scheduler of a Telegram channel bot — Dafny model

The bot keeps a queue of memes to publish in a channel. It spreads them evenly over a daily window, 10:00 to 23:00 Moscow time. This project models that scheduler and the state around it, and proves what they promise:

- **Recompute.** `recalculate_and_schedule_all_posts` cancels every timer named `normal_post_job_…`. It then finds the window start as the latest of four bounds: now, 10:00 today, start-up + 1 h, and last publication + 1 h. If the window is still open, it splits the window into N+1 equal intervals and installs one timer per queued post. Modelled by `Scheduler.Bot.Recalculate`, which is proved against `Jobs.Schedule` and `Jobs.Standing`.
- **Publishers.** `post_normal_meme`, `post_good_morning` and `post_good_night` are modelled by `Scheduler.Bot.PostQueued` and `Scheduler.Bot.PostSpecial`. On a send that does not raise, they delete the post and record and persist the publication instant. On a send that raises, they change nothing.
- **Announcer.** The self-rescheduling announcer computes its first run (`Clock.FirstAnnouncement`) and its next run (`Clock.NextAnnouncement`), and re-registers itself through `Scheduler.Bot.Announce`.
- **Start-up.** The timers `main()` registers are modelled by `Jobs.StartupJobs` and `Scheduler.Bot.Start`.
- **Smaller pieces:**
  - the queue viewer's index clamping, navigation buttons and button data (`QueueView`);
  - the special-post captions (`Posts.SpecialCaption`);
  - the configuration strings (`Config`), built on models of Python's `str.split`, `str.strip` and `int()` (`Text`).

Time is an integer number of microseconds on the local clock (`Clock`). The SQLite tables become fields of the `Bot` class:

| table | field |
|---|---|
| `meme_queue` | a `seq<Post>` |
| `special_posts` | a `map<Slot, Media>` |
| the `last_post_time` row | `savedLastPost` |

The job queue is a `seq<Job>`. The clock, the random draws and the send outcome are parameters.

Some behaviours of the code are easy to miss. The model keeps them as written:

- **Slots can reach the window's end.** One would expect every slot to fall strictly between the start and 23:00. The code computes `interval = available_duration / (num_posts + 1)`, and Python's `timedelta / int` rounds to the nearest microsecond, ties to even. The model does the same (`Clock.DivRoundHalfEven`). So every slot falls before 23:00 when N(N+1) < 2·window, the window measured in microseconds (`Jobs.ScheduleInsideWindow`). That condition is sufficient, not necessary. `Jobs.TinyWindowOverruns` shows two schedules where a slot does not fall before 23:00:
  - a 2 µs window with 2 posts puts the last one exactly at 23:00;
  - a 3 µs window with 4 posts puts the last one 1 µs after it.
- **A recompute is idempotent only at a fixed instant.** Recomputing again at the same `now` on an unchanged queue reproduces the registry (`Jobs.RecalculateIdempotent`). While `now` is the latest of the window's lower bounds, a later recompute can move every slot, even if the queue is unchanged. One post recomputed at 11:00 is set for 17:00, and recomputed at 12:00 for 17:30 (`Jobs.LaterRecomputeMoves`). This happens, for instance, when a delete button names an id that is no longer queued: nothing is deleted, but the schedule is still recomputed (main.py:663-665).
- **The announcer chain can stop.** The announcer re-registers itself only when the message list is non-empty. With no messages it returns before rescheduling, and the chain ends.
- **A fired timer sends its stored copy.** It publishes the post record stored in the timer when the timer was created, not the current row. Its delete then removes whatever row still carries that id.

## Model

| member | source | states |
|---|---|---|
| Clock.EffectiveStart | main.py:230-235 | definition of the window start; its properties are in `Clock.EffectiveStartIsMaximum` |
| Clock.WindowEnd | main.py:236 | definition of the window end, 23:00 on the day of `now`; used by `Jobs.ScheduleInsideWindow` |
| Clock.NextAnnouncement | main.py:408-412 | definition of the announcer's next run; its properties are in `Clock.NextAnnouncementIsTomorrow` |
| Clock.FirstAnnouncement | main.py:700-704 | definition of the announcer's first run; its properties are in `Clock.FirstAnnouncementIsAhead` |
| Jobs.Standing | main.py:220-222 | definition of the timers a recompute keeps; its properties are in `Jobs.StandingExactly` and `Jobs.RecalculatedRegistry` |
| Jobs.Plan | main.py:242-252 | one timer per queued post, as many as there are posts; the slots are described in `Jobs.ScheduleMatchesQueue` |
| Jobs.Schedule | main.py:225-252 | definition of the timers a recompute installs; its properties are in `Jobs.ScheduleSize`, `Jobs.ScheduleMatchesQueue`, `Jobs.ScheduleOrdered`, `Jobs.ScheduleInsideWindow`, `Jobs.ScheduleRespectsCooldowns` and `Jobs.ScheduleNamesDistinct` |
| Jobs.StartupJobs | main.py:681-706 | definition of the six start-up timers; its properties are in `Jobs.StartupJobsAreStanding` |
| Posts.RemoveId | main.py:166-171 | definition of deleting the rows of an id; its properties are in `Posts.RemoveIdMembers`, `Posts.RemoveAbsentId`, `Posts.RemoveIdAt` and `Posts.RemoveIdKeepsUnique` |
| QueueView.Clamp | main.py:612 | definition of the index clamp; its properties are in `QueueView.ClampIntoRange` |
| QueueView.ShowQueueItem | main.py:591-651 | definition of the viewer's page; its properties are in `QueueView.Navigation` and `QueueView.DeleteButtonNamesShownPost` |
| QueueView.ParseViewIndex | main.py:597 | definition of reading a `view_queue_` button; its properties are in `QueueView.ViewCallbackRoundTrip`, `QueueView.ViewDataParts` and `QueueView.SeparatorInViewRefused` |
| QueueView.ParseDelete | main.py:658-659 | definition of reading a `delete_` button; its properties are in `QueueView.DeleteCallbackRoundTrip`, `QueueView.DeleteDataParts` and `QueueView.SeparatorInDeleteRefused` |
| Config.ParseIds | main.py:41 | definition of the per-piece integer conversion; its property is in `Config.ParseIdsOk` |
| Config.ParseUserIds | main.py:41 | definition of the allowed-user list; its properties are in `Config.ParseIdsOk` and `Config.UserIdsRoundTrip` |
| Config.Messages | main.py:45 | definition of the per-piece strip and filter; its properties are in `Config.MessagesAreStripped` |
| Config.ParseMessages | main.py:45 | definition of the announcer message list; its properties are in `Config.MessagesAreStripped` and `Config.MessagesRoundTrip` |
| Config.Communities | main.py:54-58 | definition of the community table over the items; its properties are in `Config.CommunitiesOk`, `Config.CommunitiesKeys`, `Config.CommunitiesLastWins` and `Config.CommunitiesErrorSticks` |
| Config.CommunitiesOf | main.py:52-58 | definition of the community table of the whole setting, empty for an empty setting; `Config.ParseCommunities` computes it |
| Text.Strip | main.py:41 | definition of `str.strip`; its properties are in `Text.StripLeftShape`, `Text.StripRightShape`, `Text.StripEnds`, `Text.StripBlank` and `Text.StripIdempotent` |
| Text.Split | main.py:55 | `str.split(sep)` gives at least one piece; its properties are in `Text.SplitPiecesAvoidSeparator`, `Text.JoinSplit` and `Text.SplitJoin` |
| Text.PyInt | main.py:659 | definition of `int()` on text, skipping only the whitespace CPython skips (not U+001C–U+001F); its properties are in `Text.PyIntOfNatToString` and `Text.IntKeepsSeparators` |
| Text.NatToString | main.py:618 | definition of `str(n)`; its properties are in `Text.NatToStringDigits` and `Text.NatToStringHasNoSeparator` |
| Clock.EffectiveStartIsMaximum | main.py:230-235 | the window start is at least now, 10:00 today, start-up + 1 h and (if any) last publication + 1 h, and equals one of them |
| Clock.DivRoundHalfEven | main.py:244 | `timedelta / int`: the quotient is within half a microsecond of the exact one, ties go to the even neighbour, and it is non-negative for a non-negative duration |
| Clock.NextAnnouncementIsTomorrow | main.py:408-412 | the next announcement is on the next local day at exactly the drawn hour and minute, between 10:00 and 23:00, and strictly after now |
| Clock.FirstAnnouncementIsAhead | main.py:700-704 | the first announcement is strictly after now and at most a day ahead, today or tomorrow at the drawn time, and is today's instant exactly when that instant is still ahead |
| Jobs.StandingExactly | main.py:220-222 | recompute keeps exactly the jobs whose name does not start with `normal_post_job_`, and every live queue timer carries that prefix |
| Jobs.SelectAppend | main.py:220-222 | filtering the registry distributes over concatenation |
| Jobs.SelectMembers | main.py:220-222 | a job survives the name filter iff it is registered and of the selected kind |
| Jobs.SelectUniform | main.py:220-222 | a registry of one kind passes that kind's filter unchanged and is emptied by the other |
| Jobs.ScheduleIsQueueJobs | main.py:248 | every installed timer's name starts with `normal_post_job_`, so the next recompute cancels it (the full name is in `Jobs.ScheduleMatchesQueue`) |
| Jobs.RecalculatedRegistry | main.py:219-252 | after a recompute the live queue timers are exactly the new schedule and the standing timers are exactly the earlier ones |
| Jobs.RecalculateIdempotent | main.py:219-252 | recomputing again at the same instant with an unchanged queue leaves the registry as it was |
| Jobs.ScheduleSize | main.py:225-240 | no timer for an empty queue or a closed window (start at or after 23:00), otherwise exactly one per queued post |
| Jobs.ScheduleMatchesQueue | main.py:242-252 | item i gets the timer `normal_post_job_<id_i>` that publishes it at start + interval·(i+1), interval being the window over N+1 |
| Jobs.ScheduleOrdered | main.py:246-247 | every timer is one-shot; fire times are at or after the start, non-decreasing in queue order, and consecutive ones are exactly one interval apart |
| Jobs.LastSlotBeforeEnd | main.py:244-247 | with the rounding bound and more than N(N+1)/2 µs of room, N intervals fit strictly inside the window |
| Jobs.FirstSlotAfterStart | main.py:244-247 | with that much room the rounded interval is positive |
| Jobs.ScheduleInsideWindow | main.py:242-247 | with more than N(N+1)/2 µs of room every timer fires strictly inside (start, 23:00), strictly after the previous one |
| Jobs.ScheduleRespectsCooldowns | main.py:230-247 | no queue timer fires before now, before 10:00, within an hour of start-up or within an hour of the last publication |
| Jobs.ScheduleNamesDistinct | main.py:248 | with unique post ids, the installed timer names are pairwise distinct (one timer per post) |
| Jobs.TinyWindowOverruns | main.py:242-247 | the schedule itself puts the last timer exactly at 23:00 for a 2 µs window and 2 posts, and 1 µs after 23:00 for a 3 µs window and 4 posts |
| Jobs.LaterRecomputeMoves | main.py:230-247 | with `now` the binding bound, one post recomputed at 11:00 is set for 17:00 and recomputed at 12:00 for 17:30, so a recompute is not idempotent across instants |
| Jobs.StartupJobsAreStanding | main.py:681-706 | no start-up timer is cancelled by a recompute, and each one-shot start-up timer lies strictly in the future |
| Jobs.ThreePostsExample | main.py:242-247 | 10:00–23:00 with three posts schedules them at 13:15, 16:30 and 19:45 |
| Jobs.StartupCooldownExample | main.py:230-235 | started at 09:30 with no earlier publication, a recompute at 09:00 opens the window at 10:30 |
| Jobs.ClosedWindowExample | main.py:236-240 | at 23:30 a queued post gets no timer |
| Scheduler.CancelQueueTimers | main.py:220-222 | the loop over the registry keeps exactly the timers `Jobs.Standing` keeps, in order, so by `Jobs.StandingExactly` every `normal_post_job_` timer is cancelled and every other one survives |
| Scheduler.Bot.Recalculate | main.py:219-253 | the new registry is the old one without its per-post timers, followed by the schedule for the current queue; the queue and all other state are untouched; the class invariant is kept |
| Scheduler.Bot.PostQueued | main.py:466-484 | sends with the call its `type` selects; on success removes the rows with that id and sets and persists the last publication to now; on a raised send changes nothing; an unknown `type` sends nothing and succeeds |
| Scheduler.Bot.PostSpecial | main.py:418-463 | no pending post: nothing sent, nothing changed; on success deletes that slot's post only and sets and persists the last publication to now; on a raised send changes nothing |
| Scheduler.Bot.Announce | main.py:397-414 | with no messages sends nothing and schedules nothing; otherwise sends the drawn message and appends one announcer timer for tomorrow at the drawn time, whatever the send outcome; the class invariant is kept |
| Scheduler.Bot.Start | main.py:669-707 | records the start instant, restores the persisted last publication and registers the six start-up timers |
| Scheduler.Bot.SubmitSpecial | main.py:564-576 | stores the media for the slot with its composed caption, replacing any pending post of that slot only; the class invariant is kept |
| Scheduler.Bot.SubmitQueued | main.py:578-587 | appends the post under its fresh id; when the reply to the user goes out, recomputes the registry for the new queue, and when it raises, leaves the registry as it was |
| Scheduler.Bot.DeleteQueued | main.py:654-666 | malformed button data changes nothing; otherwise the id's rows are deleted, the registry is recomputed and the viewer shows the requested position |
| Scheduler.PublishThenRecalculate | main.py:478-481 | after a successful publication the next recompute puts every queue timer at least an hour later; after a failed one the post is still queued |
| Posts.Dispatch | main.py:472-477 | a send call is made exactly for `photo`, `video` and `animation`, with the matching call, file id and caption |
| Posts.SpecialCaption | main.py:564-566 | the caption is the greeting alone for a missing or empty user caption, otherwise the user caption, a blank line, then the greeting |
| Posts.SpecialCaptionEndsWithGreeting | main.py:572-573 | every special caption ends with the slot's greeting |
| Posts.RemoveIdMembers | main.py:478 | deleting by id keeps exactly the rows with another id |
| Posts.RemoveAbsentId | main.py:663 | deleting an id that is not queued leaves the queue unchanged |
| Posts.RemoveIdAt | main.py:478 | with unique ids, deleting the id of row k removes that row alone and keeps the others in order |
| Posts.RemoveIdKeepsUnique | main.py:77-81 | deleting rows preserves the primary-key uniqueness of ids |
| QueueView.ClampIntoRange | main.py:612 | the shown index is within the queue, equals the request when in range, and is the nearer end otherwise |
| QueueView.Navigation | main.py:612-621 | "back" appears iff index > 0 and "forward" iff index < len−1; their data read back as index∓1, which needs no clamping |
| QueueView.ViewCallbackRoundTrip | main.py:618 | `view_queue_<i>` is read back as i |
| QueueView.DeleteDataParts | main.py:658-659 | delete data `delete_<id>_<t>` with underscore-free id and t is read as (id, `int(t)`), and refused exactly when `int(t)` raises |
| QueueView.ViewDataParts | main.py:597 | view data `view_queue_<t>` with underscore-free t is read as `int(t)`, refused exactly when it raises |
| QueueView.SeparatorInDeleteRefused | main.py:658-662 | `delete_a_\x1f3` is refused (no deletion), as `int()` raises on it |
| QueueView.SeparatorInViewRefused | main.py:596-600 | `view_queue_\x1f3` is refused, as `int()` raises on it |
| QueueView.DeleteCallbackRoundTrip | main.py:658-659 | `delete_<id>_<i>` is read back as (id, i) for an underscore-free id |
| QueueView.DeleteButtonNamesShownPost | main.py:619 | the delete button's data names the shown post's id and its position |
| Config.ParseIdsOk | main.py:41 | the allowed ids are read iff every non-blank comma-separated piece is an integer |
| Config.UserIdsRoundTrip | main.py:41 | a comma-joined list of decimal ids is read back as those ids |
| Config.MessagesAreStripped | main.py:45 | every announcer message is non-blank, already stripped and the strip of one piece; there are no more messages than pieces |
| Config.MessagesRoundTrip | main.py:45 | `|`-joined stripped non-empty messages are read back as written |
| Config.ParseCommunities | main.py:52-58 | the loop builds exactly the community table `CommunitiesOf` defines |
| Config.CommunitiesErrorSticks | main.py:55-58 | a non-integer id in some item aborts the whole table |
| Config.CommunitiesOk | main.py:54-58 | the table is built iff every `name:id` item has an integer id |
| Config.CommunitiesKeys | main.py:54-58 | the table's names are exactly the stripped names of the `name:id` items |
| Config.CommunitiesLastWins | main.py:58 | a name keeps the id of the last `name:id` item carrying it |
| Text.StripLeftShape | main.py:41 | `lstrip` removes exactly a whitespace prefix and keeps text not starting with whitespace |
| Text.StripRightShape | main.py:41 | `rstrip` removes exactly a whitespace suffix and keeps text not ending with whitespace |
| Text.StripEnds | main.py:45 | stripped text neither starts nor ends with whitespace |
| Text.StripBlank | main.py:45 | text strips to nothing iff it is all whitespace |
| Text.StripIdempotent | main.py:58 | stripping twice equals stripping once |
| Text.SplitPiecesAvoidSeparator | main.py:55 | no piece of `split(sep)` contains the separator |
| Text.JoinSplit | main.py:55 | joining the pieces of `split(sep)` with the separator gives back the text |
| Text.SplitJoin | main.py:56 | splitting a join of separator-free pieces gives back the pieces |
| Text.SplitAfterHead | main.py:658 | a separator-free head and the separator split off as one piece |
| Text.SplitWithoutSeparator | main.py:597 | separator-free text splits into itself alone |
| Text.NatToStringDigits | main.py:618 | the decimal form of a number is a non-empty digit string with that value |
| Text.PyIntOfNatToString | main.py:659 | `int(str(n)) == n` |
| Text.IntKeepsSeparators | main.py:659 | `strip()` removes a leading U+001F but `int()` does not skip it and raises, while `int()` does skip a space and a newline |
| Text.NatToStringHasNoSeparator | main.py:619 | decimal forms contain no underscore or other non-digit |

## Left out

- **Databases.** The SQLite schema and access functions (main.py:72-180) become fields. A read or write is exact, and so is the round trip of `last_post_time` through `isoformat`/`fromisoformat`.
- **Queue order ties.** The queue is read `ORDER BY created_at`, whose resolution is one second. Rows created in the same second are taken in insertion order.
- **Telegram transport and UI.** The transport becomes the `sendOk` parameter (the send call did not raise) and the `Delivery` a publisher hands over. These handlers are not modelled:
  - `start`, `button`, `show_jobs`, `rate_message`, `morning_command`, `vk_command`, `vk_community_selected`;
  - the reply texts and keyboards;
  - the `edit_message_media` fallback in `show_queue_item`;
  - the per-user `post_type` session in `handle_media`, and its choice of media kind from the message.
- **Network and morning greeting.** `fetch_vk_photos`, `get_weather_text` (HTTP, float rounding) and the text of `send_daily_greeting` are external or text-only.
- **Randomness.** `random.randint` and `random.choice` become parameters constrained to their ranges. `random.choices` in `rate_message` is not modelled.
- **Time zone.** The local clock is Europe/Moscow at a fixed +03:00 (no daylight saving). `datetime.combine(...).astimezone(MOSCOW_TZ)` at main.py:412 is assumed to run on a host whose local zone is Moscow.
- **Timer execution.** Asynchronous execution, `misfire_grace_time`, `run_polling` and the firing of timers are not modelled. Neither is the timer subsystem's removal of a one-shot timer once it has fired. The registry is data, and the publishers do not touch it.
- Text.PyInt: `int()` also accepts non-ASCII Unicode decimal digits. The model of `int()` accepts ASCII digits only.
- Text.PyInt: `int()` raises `ValueError` for more than 4300 digits (the default `sys.int_max_str_digits`). The model accepts any number of digits. The bot's own button data and any realistic user id are far below that limit.
- Scheduler.Bot.Start: the code reads the clock twice, at main.py:672 and main.py:700, microseconds apart. The model uses one reading for both, and places the initial recompute two seconds after it.
- Scheduler.Bot.PostQueued: exceptions from the database calls after a send are not modelled. Only a raised send counts as failure.
- Scheduler.Bot.PostSpecial: exceptions from `save_bot_state` or `delete_special_post` after a send (main.py:433-436, 457-460) are not modelled. An exception in `save_bot_state` would leave `last_post_time` set but not persisted, which breaks `lastPost == savedLastPost`. An exception in `delete_special_post` would leave the published post pending. Only a raised send counts as failure.
