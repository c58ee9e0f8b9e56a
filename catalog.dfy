/** The static challenge catalog: the GROUPS and CHALLENGES tables of the bot,
    both keyed by the same three challenge names. Calendar dates are day
    numbers (day 1 is 0001-01-01 of the proleptic Gregorian calendar), so the
    difference of two dates in days is a subtraction. */
module Catalog {
  import opened Wrappers

  datatype ChallengeKey = Training | Quit | Reading

  /** The keys in the order the tables declare them, which is the order in
      which the bot iterates over them. */
  const Keys: seq<ChallengeKey> := [Training, Quit, Reading]

  /** Day number of 2024-06-23, the start date of every challenge. */
  const June23Of2024: int := 739060

  /** The chat id of the private group of a challenge (the GROUPS table);
      like every supergroup id it is the prefix -100 followed by ten digits. */
  function GroupOf(k: ChallengeKey): (g: int)
    ensures -1009999999999 <= g <= -1000000000000
  {
    match k
    case Training => -1002341382779
    case Quit => -1004698246015
    case Reading => -1004647511991
  }

  /** The length of a challenge in days; every challenge lasts at least a day. */
  function DurationDays(k: ChallengeKey): (d: nat)
    ensures d >= 1
  {
    match k
    case Training => 7
    case Quit => 21
    case Reading => 7
  }

  /** The day number of a challenge's first day: every current challenge
      starts on 2024-06-23. */
  function StartDay(k: ChallengeKey): (d: int)
    ensures d == June23Of2024
  {
    match k
    case Training => June23Of2024
    case Quit => June23Of2024
    case Reading => June23Of2024
  }

  lemma EveryKeyListed(k: ChallengeKey)
    ensures k in Keys
  {
    match k
    case Training => assert Keys[0] == k;
    case Quit => assert Keys[1] == k;
    case Reading => assert Keys[2] == k;
  }

  /** The first key of `keys` whose group is `chat`, or None when there is none:
      the bot's linear search over the GROUPS table. */
  function FirstWithGroup(keys: seq<ChallengeKey>, chat: int): (r: Option<ChallengeKey>)
    ensures r.Some? ==> r.value in keys && GroupOf(r.value) == chat
    ensures r.None? <==> forall k :: k in keys ==> GroupOf(k) != chat
  {
    if keys == [] then None
    else if GroupOf(keys[0]) == chat then Some(keys[0])
    else FirstWithGroup(keys[1..], chat)
  }

  /** The challenge whose group has chat id `chat`; None for any other chat. */
  function KeyOfGroup(chat: int): (r: Option<ChallengeKey>)
    ensures r.Some? ==> GroupOf(r.value) == chat
    ensures r.None? <==> forall k :: GroupOf(k) != chat
  {
    forall k ensures k in Keys { EveryKeyListed(k); }
    FirstWithGroup(Keys, chat)
  }

  /** No two challenges share a group, so a group names its challenge. */
  lemma GroupsDistinct(k1: ChallengeKey, k2: ChallengeKey)
    ensures GroupOf(k1) == GroupOf(k2) ==> k1 == k2
  {
  }

  /** Looking up a challenge's own group finds that challenge. */
  lemma KeyOfGroupOf(k: ChallengeKey)
    ensures KeyOfGroup(GroupOf(k)) == Some(k)
  {
    GroupsDistinct(k, KeyOfGroup(GroupOf(k)).value);
  }
}
