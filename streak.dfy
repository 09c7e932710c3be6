/** The posting-streak counters of one channel: src/modules/streak.rs counts posts
    with attachments ("streak"), src/modules/poststrike.rs counts every post
    ("strike"). A post 18 to 36 hours after the previous one extends the count,
    a later one resets it to 1, an earlier one changes nothing. */
module Streak {
  import opened Wrappers
  import Text

  const CHANNEL: nat := 1232829261279264829
  const MIN_TRESH: int := 18 * 60 * 60
  const MAX_TRESH: int := 36 * 60 * 60

  /** The four characters both handlers put around their replies: the UTF-8
      bytes of U+1F525 (fire) as Windows-1252 shows them. */
  const FIRE: string := "\U{00F0}\U{0178}\U{201D}\U{00A5}"

  datatype Counter = PostStreak | PostStrike

  function Noun(c: Counter): string { if c == PostStreak then "streak" else "strike" }

  datatype Message = Message(channel: nat, bot: bool, attachments: nat, author: int, ts: int)

  /** A stored row: the time of the counted post and the count. */
  datatype Record = Record(ts: int, count: int)

  datatype Decision = TooEarly | Extend | Reset

  /** The three branches on the time since the stored post. */
  function Decide(prevTs: int, newTs: int): (d: Decision)
    ensures d == TooEarly <==> newTs - prevTs < MIN_TRESH
    ensures d == Extend <==> MIN_TRESH <= newTs - prevTs < MAX_TRESH
    ensures d == Reset <==> newTs - prevTs >= MAX_TRESH
  {
    var diff := newTs - prevTs;
    if diff < MIN_TRESH then TooEarly
    else if diff >= MIN_TRESH && diff < MAX_TRESH then Extend
    else Reset
  }

  /** Whether the handler looks at a message at all. */
  predicate Counted(c: Counter, m: Message)
  {
    m.channel == CHANNEL && !m.bot && (c == PostStrike || m.attachments != 0)
  }

  /** What the handler writes (the upsert) and replies for a counted message. */
  datatype Reaction = Reaction(write: Option<Record>, reply: string)

  function React(c: Counter, stored: Option<Record>, newTs: int): Reaction
  {
    var r := if stored.Some? then stored.value else Record(0, 0);
    match Decide(r.ts, newTs)
    case TooEarly =>
      Reaction(None, FIRE + " **You posted again too early, " + Noun(c) + " is still at " + Text.IntToStr(r.count) + "** " + FIRE)
    case Extend =>
      Reaction(Some(Record(newTs, r.count + 1)), FIRE + " **Your " + Noun(c) + " is now at " + Text.IntToStr(r.count + 1) + "** " + FIRE)
    case Reset =>
      Reaction(Some(Record(newTs, 1)), FIRE + " **Your " + Noun(c) + " has been reset to 1** " + FIRE)
  }

  /** A missing row counts as a post at time 0 with count 0. */
  lemma MissingRecordIsZero(c: Counter, newTs: int)
    ensures React(c, None, newTs) == React(c, Some(Record(0, 0)), newTs)
  {
  }

  /** Every write stamps the new post's time and a count of at least 1, given
      a stored count that is not negative; a post that comes too early writes nothing. */
  lemma WritesAreFresh(c: Counter, stored: Option<Record>, newTs: int)
    requires stored.Some? ==> stored.value.count >= 0
    ensures var w := React(c, stored, newTs).write;
      (w.Some? ==> w.value.ts == newTs && w.value.count >= 1) &&
      (w.None? <==> Decide(if stored.Some? then stored.value.ts else 0, newTs) == TooEarly)
  {
  }

  /** The table of stored rows, updated in place by the handler. */
  class Posts {
    var rows: map<int, Record>

    /** Every stored count is positive: only the handler writes rows, and it writes counts from 1. */
    ghost predicate Valid()
      reads this
    {
      forall u :: u in rows ==> rows[u].count >= 1
    }

    constructor()
      ensures rows == map[] && Valid()
    {
      rows := map[];
    }

    /** The message event handler: ignored messages change nothing and get no
        reply; otherwise the row is read, upserted when the decision writes,
        and the reply is sent. */
    method OnMessage(c: Counter, m: Message) returns (reply: Option<string>)
      requires Valid()
      modifies this
      ensures Valid()
      ensures !Counted(c, m) ==> rows == old(rows) && reply.None?
      ensures Counted(c, m) ==>
        var re := React(c, if m.author in old(rows) then Some(old(rows)[m.author]) else None, m.ts);
        reply == Some(re.reply) &&
        rows == (if re.write.Some? then old(rows)[m.author := re.write.value] else old(rows))
    {
      if m.channel != CHANNEL || m.bot {
        return None;
      }
      if c == PostStreak && m.attachments == 0 {
        return None;
      }
      var stored := if m.author in rows then Some(rows[m.author]) else None;
      var re := React(c, stored, m.ts);
      WritesAreFresh(c, stored, m.ts);
      if re.write.Some? {
        rows := rows[m.author := re.write.value];
      }
      reply := Some(re.reply);
    }
  }

  /** Replaying posts of one author through the decision. */
  function Replay(c: Counter, stored: Option<Record>, times: seq<int>): Option<Record>
    decreases |times|
  {
    if |times| == 0 then stored
    else
      var w := React(c, stored, times[0]).write;
      Replay(c, if w.Some? then w else stored, times[1..])
  }

  /** A first post at least 36 hours after the epoch followed by posts each 18 to
      36 hours after the previous one builds a count equal to the number of posts. */
  lemma {:induction false} OnTimePostsCount(c: Counter, times: seq<int>)
    requires |times| >= 1 && times[0] >= MAX_TRESH
    requires forall i :: 0 <= i < |times| - 1 ==> MIN_TRESH <= times[i + 1] - times[i] < MAX_TRESH
    ensures Replay(c, None, times) == Some(Record(times[|times| - 1], |times|))
  {
    OnTimeFrom(c, Record(times[0], 1), times[1..], 1);
    assert React(c, None, times[0]).write == Some(Record(times[0], 1));
  }

  lemma {:induction false} OnTimeFrom(c: Counter, r: Record, rest: seq<int>, n: nat)
    requires r.count == n
    requires |rest| >= 1 ==> MIN_TRESH <= rest[0] - r.ts < MAX_TRESH
    requires forall i :: 0 <= i < |rest| - 1 ==> MIN_TRESH <= rest[i + 1] - rest[i] < MAX_TRESH
    ensures Replay(c, Some(r), rest) == Some(Record(if |rest| == 0 then r.ts else rest[|rest| - 1], n + |rest|))
    decreases |rest|
  {
    if |rest| > 0 {
      var next := Record(rest[0], n + 1);
      assert React(c, Some(r), rest[0]).write == Some(next);
      OnTimeFrom(c, next, rest[1..], n + 1);
    }
  }
}
