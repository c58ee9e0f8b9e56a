/** The bot's handlers as transitions of the user store: each takes the store
    and an input and gives the new store and the calls the handler makes. */
module Rules {
  import opened Wrappers
  import opened Catalog
  import opened Messages
  import opened Participants

  datatype Step = Step(store: Store, events: seq<Event>)

  /** The record of a participant who has just joined challenge `k`. */
  function Enrolled(k: ChallengeKey): Participant
  {
    Participant(Some(k), true, false, 0)
  }

  // ---------------------------------------------------------------- joining

  /** A membership change: when someone becomes a member or administrator of a
      challenge's group, the user who caused the change is looked up and
      (re)enrolled in that challenge, and is sent the rules; any other change,
      and any change in another chat, is ignored. */
  function Join(s: Store, ev: MemberUpdate): (r: Step)
    requires WellFormed(s)
    ensures |r.events| <= 1
    ensures r.store.users.Keys <= s.users.Keys + {ev.actor}
  {
    if !IsJoin(ev.newStatus) then Step(s, [])
    else match KeyOfGroup(ev.chat)
      case None => Step(s, [])
      case Some(k) =>
        var t := Touch(s, ev.actor);
        Step(Store(t.users[ev.actor := Enrolled(k)], t.order), [ToUser(ev.actor, Welcome(k))])
  }

  /** What a membership change does: nothing unless it is a join to a
      challenge's group; then the actor's record, whatever it was, is bound to
      the challenge of that group, in it, unreported and with a zero streak,
      the actor is sent the rules, and no other record changes. */
  lemma JoinEnrollsActor(s: Store, ev: MemberUpdate)
    requires WellFormed(s)
    ensures WellFormed(Join(s, ev).store)
    ensures Consistent(s) ==> Consistent(Join(s, ev).store)
    ensures !IsJoin(ev.newStatus) ==> Join(s, ev) == Step(s, [])
    ensures (forall k :: GroupOf(k) != ev.chat) ==> Join(s, ev) == Step(s, [])
    ensures forall k :: IsJoin(ev.newStatus) && GroupOf(k) == ev.chat ==>
      && Join(s, ev).store.users.Keys == s.users.Keys + {ev.actor}
      && Join(s, ev).store.users[ev.actor] == Participant(Some(k), true, false, 0)
      && Join(s, ev).events == [ToUser(ev.actor, Welcome(k))]
    ensures forall u :: u in s.users && u != ev.actor ==>
      u in Join(s, ev).store.users && Join(s, ev).store.users[u] == s.users[u]
    ensures Join(s, ev).store.order == if Join(s, ev).events == [] then s.order else Touch(s, ev.actor).order
  {
    if IsJoin(ev.newStatus) && KeyOfGroup(ev.chat).Some? {
      var k := KeyOfGroup(ev.chat).value;
      forall k' | GroupOf(k') == ev.chat ensures k' == k { GroupsDistinct(k, k'); }
    }
  }

  // -------------------------------------------------------------- reporting

  /** A report command. With no message nothing happens. Otherwise the sender
      is looked up (which may add a fresh record); a sender who is not in a
      challenge is ignored; a message without a photo, video or text gets a
      prompt and changes nothing; any other message marks the sender as having
      reported and adds one to their streak, even if they had reported today
      already, and the new streak is acknowledged. */
  function Report(s: Store, msg: Option<Message>): (r: Step)
    requires WellFormed(s)
    ensures WellFormed(r.store)
    ensures Consistent(s) ==> Consistent(r.store)
    ensures msg.None? ==> r == Step(s, [])
    ensures msg.Some? ==> r.store.users.Keys == s.users.Keys + {msg.value.sender}
    ensures msg.Some? ==> r.store.order == Touch(s, msg.value.sender).order
    ensures msg.Some? ==>
      var uid := msg.value.sender;
      var p := RecordOf(s, uid);
      var q := r.store.users[uid];
      && (forall u :: u in s.users && u != uid ==> r.store.users[u] == s.users[u])
      && (!p.paid ==> q == p && r.events == [])
      && (p.paid && !CarriesReport(msg.value) ==> q == p && r.events == [ToChat(msg.value.chat, AskReport)])
      && (p.paid && CarriesReport(msg.value) ==>
            && q.reportedToday && q.streak == p.streak + 1
            && q.paid && q.challenge == p.challenge
            && r.events == [ToChat(msg.value.chat, ReportSaved(q.streak))])
  {
    match msg
    case None => Step(s, [])
    case Some(m) =>
      var t := Touch(s, m.sender);
      var p := t.users[m.sender];
      if !p.paid then Step(t, [])
      else if !CarriesReport(m) then Step(t, [ToChat(m.chat, AskReport)])
      else
        var q := p.(reportedToday := true, streak := p.streak + 1);
        Step(Store(t.users[m.sender := q], t.order), [ToChat(m.chat, ReportSaved(q.streak))])
  }

  // ------------------------------------------------------------- statistics

  /** Whether a record is counted by the statistics of challenge `k`: every
      record bound to `k`, in the challenge or not; with `reportedOnly`, only
      those that also reported today. */
  predicate Counted(p: Participant, k: ChallengeKey, reportedOnly: bool)
  {
    p.challenge == Some(k) && (!reportedOnly || p.reportedToday)
  }

  /** The number of counted records, going through `ids` in order. */
  function Count(ids: seq<int>, users: map<int, Participant>, k: ChallengeKey, reportedOnly: bool): (n: nat)
    requires forall i :: 0 <= i < |ids| ==> ids[i] in users
    ensures n <= |ids|
    ensures n == 0 <== forall i :: 0 <= i < |ids| ==> !Counted(users[ids[i]], k, reportedOnly)
  {
    if ids == [] then 0
    else
      (if Counted(users[ids[0]], k, reportedOnly) then 1 else 0) + Count(ids[1..], users, k, reportedOnly)
  }

  /** The set of users that the statistics of `k` count. */
  ghost function Tallied(users: map<int, Participant>, k: ChallengeKey, reportedOnly: bool): set<int>
  {
    set u | u in users && Counted(users[u], k, reportedOnly)
  }

  /** The ids of `ids` that the statistics of `k` count. */
  ghost function TalliedIn(ids: seq<int>, users: map<int, Participant>, k: ChallengeKey, reportedOnly: bool): set<int>
  {
    set u | u in ids && u in users && Counted(users[u], k, reportedOnly)
  }

  lemma TalliedInCons(ids: seq<int>, users: map<int, Participant>, k: ChallengeKey, reportedOnly: bool)
    requires ids != [] && ids[0] in users
    ensures TalliedIn(ids, users, k, reportedOnly) ==
      TalliedIn(ids[1..], users, k, reportedOnly) + (if Counted(users[ids[0]], k, reportedOnly) then {ids[0]} else {})
  {
    assert ids == [ids[0]] + ids[1..];
  }

  lemma DistinctCons(ids: seq<int>)
    requires ids != [] && Distinct(ids)
    ensures Distinct(ids[1..]) && ids[0] !in ids[1..]
  {
    var rest := ids[1..];
    forall j | 0 <= j < |rest| ensures rest[j] != ids[0] { assert rest[j] == ids[j + 1]; }
  }

  /** Counting through a list of distinct ids gives the size of the set of
      counted ids. */
  lemma {:induction false} CountIsCardinality(ids: seq<int>, users: map<int, Participant>, k: ChallengeKey, reportedOnly: bool)
    requires Distinct(ids)
    requires forall i :: 0 <= i < |ids| ==> ids[i] in users
    ensures Count(ids, users, k, reportedOnly) == |TalliedIn(ids, users, k, reportedOnly)|
  {
    if ids != [] {
      DistinctCons(ids);
      CountIsCardinality(ids[1..], users, k, reportedOnly);
      TalliedInCons(ids, users, k, reportedOnly);
    }
  }

  /** Those who reported are among those counted. */
  lemma {:induction false} ReportedAtMostTotal(ids: seq<int>, users: map<int, Participant>, k: ChallengeKey)
    requires forall i :: 0 <= i < |ids| ==> ids[i] in users
    ensures Count(ids, users, k, true) <= Count(ids, users, k, false)
  {
    if ids != [] {
      ReportedAtMostTotal(ids[1..], users, k);
    }
  }

  lemma TalliedOverOrder(s: Store, k: ChallengeKey, reportedOnly: bool)
    requires WellFormed(s)
    ensures Tallied(s.users, k, reportedOnly) == TalliedIn(s.order, s.users, k, reportedOnly)
  {
    var a := Tallied(s.users, k, reportedOnly);
    var b := TalliedIn(s.order, s.users, k, reportedOnly);
    forall u ensures u in a <==> u in b {
      assert u in s.users <==> u in s.order;
    }
  }

  datatype Tally = Tally(reported: nat, total: nat)

  /** The statistics of the group with chat id `chat`: None for a chat that is
      no challenge's group; otherwise the number of records bound to that
      challenge and how many of them reported today. */
  function Stats(s: Store, chat: int): (r: Option<Tally>)
    requires WellFormed(s)
    ensures r.None? <==> forall k :: GroupOf(k) != chat
    ensures forall k :: GroupOf(k) == chat ==>
      && r.Some?
      && r.value.total == |Tallied(s.users, k, false)|
      && r.value.reported == |Tallied(s.users, k, true)|
      && r.value.reported <= r.value.total
  {
    match KeyOfGroup(chat)
    case None => None
    case Some(k) =>
      forall k' | GroupOf(k') == chat ensures k' == k { GroupsDistinct(k, k'); }
      CountIsCardinality(s.order, s.users, k, false);
      CountIsCardinality(s.order, s.users, k, true);
      TalliedOverOrder(s, k, false);
      TalliedOverOrder(s, k, true);
      ReportedAtMostTotal(s.order, s.users, k);
      Some(Tally(Count(s.order, s.users, k, true), Count(s.order, s.users, k, false)))
  }

  /** The reply to a stats command: nothing without a message or outside a
      challenge's group, otherwise one line in that chat. */
  function StatsReply(s: Store, msg: Option<Message>): (r: seq<Event>)
    requires WellFormed(s)
    ensures |r| <= 1
    ensures r != [] <==> msg.Some? && exists k :: GroupOf(k) == msg.value.chat
    ensures forall k :: msg.Some? && GroupOf(k) == msg.value.chat ==>
      r == [ToChat(msg.value.chat, StatsLine(|Tallied(s.users, k, true)|, |Tallied(s.users, k, false)|))]
  {
    match msg
    case None => []
    case Some(m) =>
      match Stats(s, m.chat)
      case None => []
      case Some(t) => [ToChat(m.chat, StatsLine(t.reported, t.total))]
  }

  // ------------------------------------------------------------------ sweep

  /** The record of one user after the nightly sweep. */
  function Swept(p: Participant): (q: Participant)
    ensures q.streak == p.streak && q.challenge == p.challenge
    ensures q.paid <==> p.paid && p.reportedToday
    ensures p.paid ==> !q.reportedToday
    ensures !p.paid ==> q == p
  {
    if !p.paid then p
    else Participant(p.challenge, p.reportedToday, false, p.streak)
  }

  /** The group a ban of this participant is aimed at. */
  function GroupFor(p: Participant): Option<int>
  {
    match p.challenge
    case None => None
    case Some(k) => Some(GroupOf(k))
  }

  /** A participant the sweep evicts: in a challenge, without a report. */
  predicate Misses(p: Participant)
  {
    p.paid && !p.reportedToday
  }

  /** The calls the sweep makes for one user: a notice and a ban and unban
      from the group for a user who missed, nothing for anyone else. */
  function MissEvents(uid: int, p: Participant): (r: seq<Event>)
    ensures |r| == if Misses(p) then 3 else 0
    ensures forall e :: e in r ==> !e.ToChat? && e.user == uid
    ensures Misses(p) ==>
      && r[0].ToUser? && r[0].notice == Missed
      && r[1].Ban? && r[2].Unban? && r[1].group == r[2].group == GroupFor(p)
  {
    if Misses(p) then [ToUser(uid, Missed), Ban(GroupFor(p), uid), Unban(GroupFor(p), uid)]
    else []
  }

  /** The calls the sweep makes, going through `ids` in order. */
  function SweepEvents(ids: seq<int>, users: map<int, Participant>): (r: seq<Event>)
    requires forall i :: 0 <= i < |ids| ==> ids[i] in users
    ensures |r| <= 3 * |ids|
    ensures forall e :: e in r ==> !e.ToChat?
  {
    if ids == [] then []
    else SweepEvents(ids[..|ids| - 1], users) + MissEvents(ids[|ids| - 1], users[ids[|ids| - 1]])
  }

  /** The nightly sweep. Every participant in a challenge loses the day's
      report flag and stays in the challenge exactly when they had reported;
      streaks and challenges never change; users not in a challenge are left
      alone. */
  function Sweep(s: Store): (r: Step)
    requires WellFormed(s)
    ensures WellFormed(r.store)
    ensures Consistent(s) ==> Consistent(r.store)
    ensures r.store.order == s.order && r.store.users.Keys == s.users.Keys
    ensures forall u :: u in s.users ==>
      var p := s.users[u];
      var q := r.store.users[u];
      && q.streak == p.streak && q.challenge == p.challenge
      && (p.paid ==> !q.reportedToday && (q.paid <==> p.reportedToday))
      && (!p.paid ==> q == p)
  {
    Step(Store(map u | u in s.users :: Swept(s.users[u]), s.order), SweepEvents(s.order, s.users))
  }

  /** Going one user further adds that user's calls at the end. */
  lemma SweepEventsExtend(ids: seq<int>, users: map<int, Participant>, i: int)
    requires 0 <= i < |ids|
    requires forall j :: 0 <= j < |ids| ==> ids[j] in users
    ensures SweepEvents(ids[..i + 1], users) == SweepEvents(ids[..i], users) + MissEvents(ids[i], users[ids[i]])
  {
    assert ids[..i + 1][..i] == ids[..i];
  }

  /** A map that holds the swept record of every user in the order is the
      store the sweep produces. */
  lemma SweptStore(s: Store, swept: map<int, Participant>)
    requires WellFormed(s)
    requires swept.Keys == s.users.Keys
    requires forall j :: 0 <= j < |s.order| ==> swept[s.order[j]] == Swept(s.users[s.order[j]])
    ensures Sweep(s).store == Store(swept, s.order)
  {
    forall u | u in s.users ensures swept[u] == Swept(s.users[u]) {
      var j :| 0 <= j < |s.order| && s.order[j] == u;
    }
  }

  lemma {:induction false} SweepEventsOf(ids: seq<int>, users: map<int, Participant>)
    requires forall i :: 0 <= i < |ids| ==> ids[i] in users
    ensures forall u :: u in ids && Misses(users[u]) ==>
      && ToUser(u, Missed) in SweepEvents(ids, users)
      && Ban(GroupFor(users[u]), u) in SweepEvents(ids, users)
      && Unban(GroupFor(users[u]), u) in SweepEvents(ids, users)
    ensures forall e :: e in SweepEvents(ids, users) ==>
      && !e.ToChat? && e.user in ids && Misses(users[e.user])
      && (e.ToUser? ==> e.notice == Missed)
      && (e.Ban? || e.Unban? ==> e.group == GroupFor(users[e.user]))
  {
    if ids != [] {
      var init, last := ids[..|ids| - 1], ids[|ids| - 1];
      assert forall u :: u in init ==> u in ids;
      SweepEventsOf(init, users);
      assert forall u :: u in ids ==> u in init || u == last;
    }
  }

  /** The sweep notifies and bans exactly the participants who missed the day,
      and each ban names the group of the participant's challenge. */
  lemma SweepNotifiesExactlyMisses(s: Store)
    requires WellFormed(s)
    ensures forall u :: ToUser(u, Missed) in Sweep(s).events <==> u in s.users && Misses(s.users[u])
    ensures forall u :: u in s.users && Misses(s.users[u]) ==>
      Ban(GroupFor(s.users[u]), u) in Sweep(s).events && Unban(GroupFor(s.users[u]), u) in Sweep(s).events
    ensures forall e :: e in Sweep(s).events ==> !e.ToChat? && e.user in s.users && Misses(s.users[e.user])
    ensures forall e :: e in Sweep(s).events && (e.Ban? || e.Unban?) ==> e.group == GroupFor(s.users[e.user])
  {
    SweepEventsOf(s.order, s.users);
  }

  /** Every ban in `r` is immediately followed by the unban of the same user
      from the same group. */
  predicate UnbanFollows(r: seq<Event>)
  {
    forall i :: 0 <= i < |r| && r[i].Ban? ==> i + 1 < |r| && r[i + 1] == Unban(r[i].group, r[i].user)
  }

  /** Every ban the sweep issues is immediately followed by the unban of the
      same user from the same group, so the evicted user can join again. */
  lemma {:induction false} UnbanFollowsBan(ids: seq<int>, users: map<int, Participant>)
    requires forall i :: 0 <= i < |ids| ==> ids[i] in users
    ensures UnbanFollows(SweepEvents(ids, users))
  {
    if ids != [] {
      var init := ids[..|ids| - 1];
      UnbanFollowsBan(init, users);
      var front, back := SweepEvents(init, users), MissEvents(ids[|ids| - 1], users[ids[|ids| - 1]]);
      var r := front + back;
      assert SweepEvents(ids, users) == r;
      forall i | 0 <= i < |r| && r[i].Ban?
        ensures i + 1 < |r| && r[i + 1] == Unban(r[i].group, r[i].user)
      {
        if i < |front| {
          assert front[i] == r[i] && front[i].Ban?;
          assert front[i + 1] == r[i + 1];
        } else {
          var j := i - |front|;
          assert back[j] == r[i];
          assert j == 1 && back[2] == r[i + 1];
        }
      }
    }
  }

  /** In the calls of the sweep, a ban is always followed by its unban. */
  lemma SweepUnbansAfterBan(s: Store)
    requires WellFormed(s)
    ensures UnbanFollows(Sweep(s).events)
  {
    assert Sweep(s).events == SweepEvents(s.order, s.users);
    UnbanFollowsBan(s.order, s.users);
  }

  /** In a reachable store every ban and unban of the sweep names a group. */
  lemma SweepBansNameGroups(s: Store)
    requires WellFormed(s) && Consistent(s)
    ensures forall e :: e in Sweep(s).events && (e.Ban? || e.Unban?) ==> e.group.Some?
  {
    SweepEventsOf(s.order, s.users);
  }

  /** Two sweeps in a row: the second evicts exactly those the first kept
      (they reported before the first but not since), so nobody is left in a
      challenge, nobody has a report flag, and nobody is evicted twice. */
  lemma SweepTwice(s: Store)
    requires WellFormed(s) && Consistent(s)
    ensures
      var first := Sweep(s);
      var second := Sweep(first.store);
      && (forall u :: u in second.store.users ==> !second.store.users[u].paid && !second.store.users[u].reportedToday)
      && (forall u :: ToUser(u, Missed) in second.events <==>
            u in s.users && s.users[u].paid && s.users[u].reportedToday)
      && (forall u :: ToUser(u, Missed) in first.events ==> ToUser(u, Missed) !in second.events)
  {
    var first := Sweep(s);
    SweepNotifiesExactlyMisses(s);
    SweepNotifiesExactlyMisses(first.store);
  }

  /** A second valid report on the same day adds to the streak again. */
  lemma ReportTwice(s: Store, m: Message)
    requires WellFormed(s)
    requires RecordOf(s, m.sender).paid && CarriesReport(m)
    ensures
      var second := Report(Report(s, Some(m)).store, Some(m));
      && second.store.users[m.sender].streak == RecordOf(s, m.sender).streak + 2
      && second.store.users[m.sender].reportedToday
  {
    var first := Report(s, Some(m));
    assert RecordOf(first.store, m.sender) == first.store.users[m.sender];
  }

  /** A participant evicted by the sweep can join the group again, and is then
      back in the challenge with a streak of zero. */
  lemma EvictedCanRejoin(s: Store, uid: int, k: ChallengeKey)
    requires WellFormed(s) && uid in s.users && Misses(s.users[uid])
    ensures
      var evicted := Sweep(s).store;
      var back := Join(evicted, MemberUpdate(uid, GroupOf(k), Member)).store;
      && !evicted.users[uid].paid
      && back.users[uid].paid && back.users[uid].streak == 0
      && back.users[uid].challenge == Some(k) && !back.users[uid].reportedToday
  {
  }
}
