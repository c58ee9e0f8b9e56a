/** The participant records and the store that holds them: DATA["users"], an
    insertion-ordered dictionary from user id to record. */
module Participants {
  import opened Wrappers
  import opened Catalog

  /** One participant: the challenge they joined last, whether they are
      currently in it, whether they reported today, and their streak. */
  datatype Participant = Participant(challenge: Option<ChallengeKey>, paid: bool, reportedToday: bool, streak: nat)

  /** The record a user id gets the first time the bot looks it up. */
  const Fresh: Participant := Participant(None, false, false, 0)

  /** The user records, with the ids in the order they were first added. */
  datatype Store = Store(users: map<int, Participant>, order: seq<int>)

  ghost predicate Distinct(ids: seq<int>)
  {
    forall i, j :: 0 <= i < j < |ids| ==> ids[i] != ids[j]
  }

  /** `order` lists every id of `users` exactly once. */
  ghost predicate WellFormed(s: Store)
  {
    && Distinct(s.order)
    && (forall i :: 0 <= i < |s.order| ==> s.order[i] in s.users)
    && (forall u :: u in s.users ==> u in s.order)
  }

  /** What every store the bot can reach satisfies: a participant in a
      challenge has a challenge, and only participants have reported today. */
  ghost predicate Consistent(s: Store)
  {
    forall u :: u in s.users ==>
      && (s.users[u].paid ==> s.users[u].challenge.Some?)
      && (!s.users[u].paid ==> !s.users[u].reportedToday)
  }

  /** The record the bot finds for `uid`: the stored one, or a fresh one. */
  function RecordOf(s: Store, uid: int): Participant
  {
    if uid in s.users then s.users[uid] else Fresh
  }

  /** The store after the bot has looked up `uid`: an unknown id gets exactly
      one new record, a fresh one, at the end of the order; a known id leaves
      the store as it was. */
  function Touch(s: Store, uid: int): (r: Store)
    requires WellFormed(s)
    ensures WellFormed(r)
    ensures Consistent(s) ==> Consistent(r)
    ensures r.users.Keys == s.users.Keys + {uid}
    ensures |r.users| == if uid in s.users then |s.users| else |s.users| + 1
    ensures r.users[uid] == RecordOf(s, uid)
    ensures forall u :: u in s.users ==> r.users[u] == s.users[u]
    ensures uid in s.users ==> r == s
    ensures uid !in s.users ==> r.users[uid] == Fresh && r.order == s.order + [uid]
  {
    if uid in s.users then s
    else
      var r := Store(s.users[uid := Fresh], s.order + [uid]);
      assert forall i :: 0 <= i < |s.order| ==> r.order[i] == s.order[i];
      r
  }
}
