/** The bot's handlers over its in-memory user store. Each handler updates the
    store held in the bot's fields; every outbound call is appended to `log`. */
module Handlers {
  import opened Wrappers
  import opened Catalog
  import opened Messages
  import opened Participants
  import opened Rules

  /** The first `i` users of `ids` have their swept record, the others their
      record from before the sweep. */
  ghost predicate SweptUpTo(users: map<int, Participant>, before: map<int, Participant>, ids: seq<int>, i: int)
    requires forall j :: 0 <= j < |ids| ==> ids[j] in before
  {
    && users.Keys == before.Keys
    && forall j :: 0 <= j < |ids| ==> users[ids[j]] == if j < i then Swept(before[ids[j]]) else before[ids[j]]
  }

  /** Sweeping the record of the next user in order extends the swept prefix
      by one; distinct ids keep every other record where it was. */
  lemma SweptOneMore(users: map<int, Participant>, before: map<int, Participant>, ids: seq<int>, i: int)
    requires Distinct(ids) && 0 <= i < |ids|
    requires forall j :: 0 <= j < |ids| ==> ids[j] in before
    requires SweptUpTo(users, before, ids, i)
    ensures users[ids[i]] == before[ids[i]]
    ensures SweptUpTo(users[ids[i] := Swept(before[ids[i]])], before, ids, i + 1)
  {
  }

  /** The loop of the nightly sweep over a snapshot of the store: goes through
      the users in order and gives the updated records and the calls made. */
  method SweepUsers(s: Store) returns (swept: map<int, Participant>, sent: seq<Event>)
    requires WellFormed(s)
    ensures Sweep(s) == Step(Store(swept, s.order), sent)
  {
    var ids := s.order;
    swept, sent := s.users, [];
    for i := 0 to |ids|
      invariant SweptUpTo(swept, s.users, ids, i)
      invariant sent == SweepEvents(ids[..i], s.users)
    {
      var uid := ids[i];
      var user := swept[uid];
      SweepEventsExtend(ids, s.users, i);
      SweptOneMore(swept, s.users, ids, i);
      if user.paid {
        if !user.reportedToday {
          var gid := GroupFor(user);
          sent := sent + [ToUser(uid, Missed), Ban(gid, uid), Unban(gid, uid)];
          user := user.(paid := false);
        }
        user := user.(reportedToday := false);
        swept := swept[uid := user];
      }
    }
    assert ids[..|ids|] == ids;
    SweptStore(s, swept);
  }

  class Bot {
    /** DATA["users"]: the record of every user id seen so far. */
    var users: map<int, Participant>
    /** The ids of `users` in the order they were added. */
    var order: seq<int>
    /** Every outbound call made so far, oldest first. */
    var log: seq<Event>

    function Data(): Store
      reads this
    {
      Store(users, order)
    }

    ghost predicate Valid()
      reads this
    {
      WellFormed(Data()) && Consistent(Data())
    }

    /** A bot that starts without a saved store. */
    constructor ()
      ensures Valid()
      ensures users == map[] && order == [] && log == []
    {
      users := map[];
      order := [];
      log := [];
    }

    /** Looks up the record of `uid`, adding a fresh one if the id is new. */
    method GetUser(uid: int) returns (p: Participant)
      requires Valid()
      modifies this
      ensures Valid()
      ensures Data() == Touch(old(Data()), uid) && log == old(log)
      ensures uid in users && p == users[uid] && p == RecordOf(old(Data()), uid)
    {
      if uid !in users {
        users := users[uid := Fresh];
        order := order + [uid];
      }
      p := users[uid];
    }

    /** The membership-change handler. */
    method NewMember(ev: MemberUpdate)
      requires Valid()
      modifies this
      ensures Valid()
      ensures Data() == Join(old(Data()), ev).store
      ensures log == old(log) + Join(old(Data()), ev).events
    {
      JoinEnrollsActor(Data(), ev);
      if !IsJoin(ev.newStatus) {
        return;
      }
      var key := KeyOfGroup(ev.chat);
      if key.None? {
        return;
      }
      var user := GetUser(ev.actor);
      users := users[ev.actor := user.(challenge := Some(key.value), paid := true, streak := 0, reportedToday := false)];
      log := log + [ToUser(ev.actor, Welcome(key.value))];
    }

    /** The report command handler; `msg` is None for an update without a
        message. */
    method CmdReport(msg: Option<Message>)
      requires Valid()
      modifies this
      ensures Valid()
      ensures Data() == Report(old(Data()), msg).store
      ensures log == old(log) + Report(old(Data()), msg).events
    {
      if msg.None? {
        return;
      }
      var m := msg.value;
      var user := GetUser(m.sender);
      if !user.paid {
        return;
      }
      if !CarriesReport(m) {
        log := log + [ToChat(m.chat, AskReport)];
        return;
      }
      user := user.(reportedToday := true);
      user := user.(streak := user.streak + 1);
      users := users[m.sender := user];
      log := log + [ToChat(m.chat, ReportSaved(user.streak))];
    }

    /** The stats command handler: replies in a challenge's group with how many
        of its members reported today; changes no record. */
    method CmdStats(msg: Option<Message>)
      requires Valid()
      modifies this
      ensures Valid()
      ensures users == old(users) && order == old(order)
      ensures log == old(log) + StatsReply(old(Data()), msg)
    {
      if msg.None? {
        return;
      }
      var m := msg.value;
      var tally := Stats(Data(), m.chat);
      if tally.None? {
        return;
      }
      log := log + [ToChat(m.chat, StatsLine(tally.value.reported, tally.value.total))];
    }

    /** The nightly sweep: goes through the users in order; each one in a
        challenge who did not report is notified, banned and unbanned, and
        leaves the challenge; everyone in a challenge loses the report flag. */
    method NightlyCheck()
      requires Valid()
      modifies this
      ensures Valid()
      ensures Data() == Sweep(old(Data())).store
      ensures log == old(log) + Sweep(old(Data())).events
    {
      var swept, sent := SweepUsers(Data());
      users, log := swept, log + sent;
    }
  }
}
