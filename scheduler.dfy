/** The morning reminder job: which day of which challenge today is, and the
    reminders sent to the groups of the challenges that are running. */
module Scheduler {
  import opened Catalog
  import opened Messages

  /** The day of challenge `k` that day number `today` is; the first day is 1. */
  function DayIndex(today: int, k: ChallengeKey): (d: int)
    ensures d == 1 <==> today == StartDay(k)
    ensures d >= 1 <==> today >= StartDay(k)
  {
    today - StartDay(k) + 1
  }

  /** Whether challenge `k` runs on `today`: the days from its start date on,
      as many as it lasts. */
  predicate Running(today: int, k: ChallengeKey)
    ensures Running(today, k) <==> StartDay(k) <= today < StartDay(k) + DurationDays(k)
  {
    !(DayIndex(today, k) <= 0 || DayIndex(today, k) > DurationDays(k))
  }

  /** The reminder for challenge `k` on `today`, sent to its group. */
  function ReminderFor(today: int, k: ChallengeKey): (e: Event)
    ensures e.ToChat? && e.chat == GroupOf(k) && e.notice.Reminder?
    ensures Running(today, k) ==> 1 <= e.notice.day <= e.notice.total == DurationDays(k)
    ensures e.notice.day == DayIndex(today, k)
  {
    ToChat(GroupOf(k), Reminder(DayIndex(today, k), DurationDays(k)))
  }

  /** Each day after another is the next day of the challenge. */
  lemma DayIndexNext(today: int, k: ChallengeKey)
    ensures DayIndex(today + 1, k) == DayIndex(today, k) + 1
  {
  }

  /** Counting from the start date, the `n`-th day after it is day `n + 1`. */
  lemma {:induction false} DayIndexCounts(k: ChallengeKey, n: nat)
    ensures DayIndex(StartDay(k) + n, k) == n + 1
  {
    if n > 0 {
      DayIndexCounts(k, n - 1);
      DayIndexNext(StartDay(k) + n - 1, k);
    }
  }

  /** A challenge's first day is day 1 of it, its last day is the day its
      length names, and the day after it no reminder is due. */
  lemma RunningBounds(k: ChallengeKey)
    ensures DayIndex(StartDay(k), k) == 1 && Running(StartDay(k), k)
    ensures DayIndex(StartDay(k) + DurationDays(k) - 1, k) == DurationDays(k)
    ensures Running(StartDay(k) + DurationDays(k) - 1, k)
    ensures !Running(StartDay(k) - 1, k) && !Running(StartDay(k) + DurationDays(k), k)
  {
  }

  /** The reminders of day number `today`, in catalog order: exactly one for
      each running challenge, none for the others, each naming a day between 1
      and the challenge's length. */
  method DailyReminder(today: int) returns (sent: seq<Event>)
    ensures |sent| <= |Keys|
    ensures forall k :: Running(today, k) <==> ReminderFor(today, k) in sent
    ensures forall e :: e in sent ==> exists k :: Running(today, k) && e == ReminderFor(today, k)
    ensures forall e :: e in sent ==> e.ToChat? && e.notice.Reminder? && 1 <= e.notice.day <= e.notice.total
    ensures forall i, j :: 0 <= i < j < |sent| ==> sent[i] != sent[j]
  {
    sent := [];
    for i := 0 to |Keys|
      invariant |sent| <= i
      invariant forall j :: 0 <= j < i ==> (Running(today, Keys[j]) <==> ReminderFor(today, Keys[j]) in sent)
      invariant forall e :: e in sent ==> exists j :: 0 <= j < i && Running(today, Keys[j]) && e == ReminderFor(today, Keys[j])
      invariant forall a, b :: 0 <= a < b < |sent| ==> sent[a] != sent[b]
    {
      var key := Keys[i];
      var dayIdx := DayIndex(today, key);
      if dayIdx <= 0 || dayIdx > DurationDays(key) {
        continue;
      }
      // the groups of earlier keys differ from this key's group
      forall e | e in sent
        ensures e.chat != GroupOf(key)
      {
        var j :| 0 <= j < i && Running(today, Keys[j]) && e == ReminderFor(today, Keys[j]);
        GroupsDistinct(Keys[j], key);
      }
      sent := sent + [ToChat(GroupOf(key), Reminder(dayIdx, DurationDays(key)))];
    }
    forall k ensures Running(today, k) <==> ReminderFor(today, k) in sent {
      EveryKeyListed(k);
      var j :| 0 <= j < |Keys| && Keys[j] == k;
    }
  }
}
