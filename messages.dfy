/** What the bot receives from the chat service and what it sends back. Every
    outbound call (a direct message, a reply in a chat, a ban, an unban) is
    recorded as an Event in an output log instead of being performed. */
module Messages {
  import opened Wrappers
  import opened Catalog

  /** The status a chat member has after a membership change. */
  datatype MemberStatus = Owner | Administrator | Member | Restricted | Left | Banned

  /** A membership change in a chat: `actor` is the user who caused it (the
      update's sender), `chat` the chat it happened in. */
  datatype MemberUpdate = MemberUpdate(actor: int, chat: int, newStatus: MemberStatus)

  /** Only a change to member or administrator counts as joining. */
  predicate IsJoin(status: MemberStatus)
  {
    status == Member || status == Administrator
  }

  /** A chat message: its sender, its chat and its possible report content
      (an attached photo, an attached video, a text that may be missing). */
  datatype Message = Message(sender: int, chat: int, hasPhoto: bool, hasVideo: bool, text: Option<string>)

  /** A message proves a day's activity when it has a photo, a video or a
      non-empty text (an empty text counts as no text). */
  predicate CarriesReport(m: Message)
  {
    m.hasPhoto || m.hasVideo || (m.text.Some? && m.text.value != "")
  }

  /** The texts the bot sends, by meaning rather than by wording. */
  datatype Notice =
    | Welcome(challenge: ChallengeKey)
    | AskReport
    | ReportSaved(streak: nat)
    | Reminder(day: int, total: nat)
    | Missed
    | StatsLine(reported: nat, total: nat)

  /** One outbound call. `group` is None when the user's challenge names no
      group, and such a ban names no chat; `Rules.SweepBansNameGroups` shows this
      cannot happen in a consistent store. */
  datatype Event =
    | ToUser(user: int, notice: Notice)
    | ToChat(chat: int, notice: Notice)
    | Ban(group: Option<int>, user: int)
    | Unban(group: Option<int>, user: int)
}
