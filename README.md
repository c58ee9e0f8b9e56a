# GroooWith challenge bot: the participant state machine

This project models the core of a Telegram bot that runs paid daily
"challenges" (training, quitting smoking, reading). Each participant has a
record in the bot's user store: the challenge they joined, whether they are
currently in it (`paid`), whether they reported today, and their streak. The
model covers how those records change:

- the static catalog of challenges and their group chats (`Catalog`);
- the record store, an insertion-ordered dictionary from user id to record,
  with lazy creation of records (`Participants`);
- the handlers: joining a challenge's group, the `/report` command, the
  `/stats` command, and the nightly sweep that evicts participants who did not
  report, each as a pure transition of the store (`Rules`) and as a method of
  the `Bot` class that updates the store in place (`Handlers`);
- the morning reminder job and its day-of-challenge window (`Scheduler`).

Every outbound call of the bot (a direct message, a reply in a chat, a ban, an
unban) is recorded as an `Event` appended to a log; texts are represented by
their meaning (`Notice`), not their wording. Dates are day numbers (the
proleptic Gregorian ordinal, so 2024-06-23 is 739060), and "today" is a
parameter.

The model follows what the code does, including where it differs from what
the bot's texts say or a reader might expect:

- The sweep does not reset the streak of an evicted participant; only a later
  re-enrollment sets it to 0 (the "missed" text says the streak is reset).
- `/report` has no same-day guard: every valid report adds one to the streak.
- The statistics count every record bound to the challenge, whether the
  participant is still in it or not.
- The sweep is not idempotent: a participant kept by one sweep has lost the
  report flag, so an immediate second sweep evicts them (lemma
  `Rules.SweepTwice`).
- A membership change enrolls the user who caused it (the update's sender),
  which is the joining user when they join themselves.
- `/report` looks the sender up before checking that they are in a challenge,
  so a report from an unknown user adds a fresh record for them.

## Model

| member | source | states |
|---|---|---|
| Catalog.GroupOf | growhabit_bot.py:68-72 | every challenge's group id is a Telegram supergroup id (the `-100` prefix followed by ten digits) |
| Catalog.StartDay | growhabit_bot.py:75-94 | all three challenges start on 2024-06-23 (day number 739060) |
| Catalog.DurationDays | growhabit_bot.py:75-94 | every challenge lasts at least one day (7, 21 and 7 days) |
| Catalog.FirstWithGroup | growhabit_bot.py:146 | the linear search over the group table finds a key whose group is the chat, and finds none exactly when no listed key has that group |
| Catalog.KeyOfGroup | growhabit_bot.py:68-72 | the chat-to-challenge lookup gives a challenge whose group is the chat, and nothing exactly when no challenge has that group |
| Catalog.GroupsDistinct | growhabit_bot.py:68-72 | no two challenges share a group chat |
| Catalog.KeyOfGroupOf | growhabit_bot.py:146 | looking up a challenge's own group finds that challenge |
| Participants.Touch | growhabit_bot.py:114-123 | looking up an unknown id adds exactly one record, a default one (no challenge, not paid, not reported, streak 0), at the end of the order; a known id leaves the store unchanged; the store stays well formed and consistent |
| Handlers.Bot.constructor | growhabit_bot.py:104-107 | without a saved store the bot starts with no users |
| Handlers.Bot.GetUser | growhabit_bot.py:114-123 | the in-place lookup returns the stored record, or the fresh one it has just added, and performs exactly the transition `Touch` |
| Rules.Join | growhabit_bot.py:138-152 | a membership change sends at most one message and adds at most the actor to the store |
| Rules.JoinEnrollsActor | growhabit_bot.py:138-152 | a change to a status other than member/administrator, or in a chat that is no challenge's group, changes nothing and sends nothing; a join to a challenge's group leaves the actor bound to that challenge, paid, unreported, streak 0, whatever their prior record, sends them the rules, and leaves every other record unchanged; the order of ids is kept, with the actor appended when they were new |
| Handlers.Bot.NewMember | growhabit_bot.py:138-159 | the handler updates the store in place exactly as `Join` describes and logs the welcome message; the store invariant is kept |
| Rules.Report | growhabit_bot.py:162-177 | without a message nothing happens; a sender not in a challenge is ignored; a message with no photo, video or text gets the report prompt and changes no record; otherwise the sender's report flag is set and the streak grows by exactly 1, even when they had already reported, and the new streak is acknowledged; no other record changes; the order of ids is kept, with the sender appended when they were new |
| Handlers.Bot.CmdReport | growhabit_bot.py:162-177 | the handler updates the store in place exactly as `Report` describes and logs its reply |
| Rules.ReportTwice | growhabit_bot.py:173-174 | two valid reports from a participant on one day raise the streak by 2 |
| Rules.Count | growhabit_bot.py:187-188 | the count over a list of users is at most its length, and 0 when none of them is counted |
| Rules.CountIsCardinality | growhabit_bot.py:187-188 | summing over the users in order counts each distinct counted user once: the sum is the size of the set of counted users |
| Rules.ReportedAtMostTotal | growhabit_bot.py:187-188 | the number of users of a challenge who reported is at most the number of users of that challenge |
| Rules.Stats | growhabit_bot.py:183-188 | for a chat that is no challenge's group there are no statistics; for a challenge's group, `total` is the number of users bound to that challenge (paid or not), `reported` the number of those who reported today, and `reported <= total` |
| Rules.StatsReply | growhabit_bot.py:180-189 | the stats command replies at most once, exactly when there is a message from a challenge's group, with that group's counts |
| Handlers.Bot.CmdStats | growhabit_bot.py:180-189 | the handler changes no record and logs exactly the reply of `StatsReply` |
| Rules.Swept | growhabit_bot.py:208-226 | the sweep of one record keeps its streak and challenge, clears the report flag of a paid user, keeps them paid exactly when they were paid and had reported, and leaves a record that is not paid unchanged |
| Rules.MissEvents | growhabit_bot.py:213-225 | a paid user who did not report gets three calls, in this order: the missed notice, a ban from the group of their challenge, then an unban from the same group; anyone else gets none; none of them goes to a chat, and all name that user |
| Rules.SweepEvents | growhabit_bot.py:207-227 | the sweep issues at most three calls per user and none of them is a chat message |
| Rules.Sweep | growhabit_bot.py:206-228 | after the sweep every user who was paid has no report flag and is still paid exactly when they had reported; streaks and challenges never change; users who were not paid are unchanged; the set of users and their order are kept |
| Rules.SweepNotifiesExactlyMisses | growhabit_bot.py:213-225 | the missed notice, the ban and the unban go exactly to the paid users who had not reported, and every ban and unban of the sweep names the group of that user's challenge |
| Rules.UnbanFollowsBan | growhabit_bot.py:219-222 | in the calls of the sweep over any list of users, every ban is immediately followed by the unban of the same user from the same group |
| Rules.SweepUnbansAfterBan | growhabit_bot.py:206-228 | each ban the nightly sweep issues is immediately followed by the matching unban, so the evicted user can join again |
| Rules.SweepBansNameGroups | growhabit_bot.py:210-211 | in a reachable store every ban and unban of the sweep names an existing group |
| Rules.SweepTwice | growhabit_bot.py:206-228 | two sweeps in a row leave nobody paid and nobody flagged; the second evicts exactly those who had reported before the first, and nobody evicted by the first is evicted again |
| Rules.EvictedCanRejoin | growhabit_bot.py:219-225 | a participant evicted by the sweep who joins a group again is back in that challenge with streak 0 |
| Handlers.SweepUsers | growhabit_bot.py:207-227 | the sweep loop over the users in order produces exactly the records and calls of `Sweep` |
| Handlers.Bot.NightlyCheck | growhabit_bot.py:206-228 | the nightly job updates the store in place exactly as `Sweep` describes and logs its calls; the store invariant is kept |
| Scheduler.DayIndex | growhabit_bot.py:199 | the start date is day 1, and the days from the start date on are exactly those with a positive index |
| Scheduler.DayIndexNext | growhabit_bot.py:199 | the day after any day has the next index |
| Scheduler.DayIndexCounts | growhabit_bot.py:199 | the day `n` days after the start date is day `n + 1` of the challenge |
| Scheduler.ReminderFor | growhabit_bot.py:198-203 | the reminder goes to the challenge's group chat and names the day `DayIndex(today, k)` of the challenge; on a running day that day is between 1 and the challenge's length, which is its total |
| Scheduler.Running | growhabit_bot.py:199-200 | a challenge runs on the days from its start date on, as many as it lasts |
| Scheduler.RunningBounds | growhabit_bot.py:199-200 | the start date is day 1 of a challenge, its last day is the day its length names, and the days before it and after it are outside the window |
| Scheduler.DailyReminder | growhabit_bot.py:195-203 | the reminder job sends exactly one reminder to the group of each running challenge and none to the others, each naming a day between 1 and the challenge's length; no reminder is sent twice |

## Left out

- Telegram calls are recorded as log events and never fail; the swallowed
  exceptions of the welcome message, the missed notice and the ban/unban pair
  (where a failed ban skips the unban) are not modelled.
- Persistence: reading data.json at start-up and `save_data` after each change
  are file I/O and are not modelled; a saved store of another shape is not
  modelled either.
- The scheduler's cron wiring, its time zone and `dt.date.today()`: the
  reminder job takes today's day number as a parameter.
- `cmd_start`, its keyboard, the payment links and the wording of the texts
  are user interface; texts appear as `Notice` values.
- Environment loading, `main` and the handler registration are bootstrap code.
- Handlers.Bot.NightlyCheck: the loop (`Handlers.SweepUsers`) updates a copy
  of the user map that replaces the store when the loop ends, rather than each
  record in place.
- Concurrency: the scheduled jobs run on a background scheduler thread
  (growhabit_bot.py:243-246) while the polling loop (growhabit_bot.py:249)
  runs the handlers. The model treats each handler and each job as one atomic
  step on the store; interleavings between the scheduler thread and the
  handlers (a report arriving in the middle of the sweep, say) are not
  modelled.
- The jobs are plain functions that call the bot's coroutine methods
  (`send_message`, `ban_chat_member`, `unban_chat_member`,
  growhabit_bot.py:203, 216, 221-222) without awaiting them, so as written the
  calls produce coroutine objects that are never run and the surrounding
  `try`/`except` blocks never see a Telegram error. The logged
  `Reminder`, `Missed`, `Ban` and `Unban` events stand for calls issued, not
  for messages delivered.
- User ids are integers; the conversion between string keys and integers in
  the store is not modelled.
- The order in which the store is iterated is the order in which ids were
  first added, as in the dictionary the bot uses.
