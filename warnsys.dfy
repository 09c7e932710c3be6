/** The temporary moderation commands `warns`, `rm_warn` and `warn` and their
    escalation table `match_warn`, in the two versions the repository carries:
    src/modules/warnsys.rs (Legacy) and src/plugins/warnsys/plugin.rs (Current). */
module WarnSys {
  import opened Wrappers
  import Text

  datatype Version = Legacy | Current

  /** The permitted guild and the moderator role of each version. */
  function Guild(v: Version): nat
  {
    if v == Legacy then 1038789193113014333 else 1232659990993702943
  }

  function ModRole(v: Version): nat
  {
    if v == Legacy then 1040686138878341231 else 1232821172983562333
  }

  const MINUTE: nat := 60
  const HOUR: nat := 3600
  const DAY: nat := 86400

  /** `match_warn(warns)`: the timeout in seconds and the words the reply uses for it. */
  function MatchWarn(v: Version, warns: nat): (r: (nat, string))
  {
    match v
    case Legacy =>
      if warns == 0 then (1 * MINUTE, "1 minute")
      else if warns == 1 then (5 * MINUTE, "5 minutes")
      else if warns == 2 then (30 * MINUTE, "30 minutes")
      else if warns == 3 then (6 * HOUR, "6 hours")
      else if warns == 4 then (1 * DAY, "1 day")
      else if warns == 5 then (3 * DAY, "3 days")
      else if warns == 6 then (6 * DAY, "6 days")
      else (24 * DAY, "24 days")
    case Current =>
      if warns == 0 then (1 * MINUTE, "1 minute")
      else if warns == 1 then (1 * DAY, "1 day")
      else if warns == 2 then (7 * DAY, "1 week")
      else (24 * DAY, "24 days")
  }

  /** A further warning never shortens the timeout. */
  lemma MatchWarnMonotone(v: Version, a: nat, b: nat)
    requires a <= b
    ensures MatchWarn(v, a).0 <= MatchWarn(v, b).0
  {
  }

  /** From the top of the table on, every count gets the longest timeout. */
  lemma MatchWarnSaturates(v: Version, warns: nat)
    requires warns >= (if v == Legacy then 7 else 3)
    ensures MatchWarn(v, warns) == (24 * DAY, "24 days")
  {
  }

  // ---------------------------------------------------------------------------
  // Reading a label back

  /** The unit words a label may use, their length in seconds, and whether the word is singular. */
  function UnitSeconds(word: string): Option<(nat, bool)>
  {
    if word == "minute" then Some((MINUTE, true)) else if word == "minutes" then Some((MINUTE, false))
    else if word == "hour" then Some((HOUR, true)) else if word == "hours" then Some((HOUR, false))
    else if word == "day" then Some((DAY, true)) else if word == "days" then Some((DAY, false))
    else if word == "week" then Some((7 * DAY, true)) else if word == "weeks" then Some((7 * DAY, false))
    else None
  }

  /** An independent reading of a label "N unit": N times the unit, with the
      singular word used exactly when N is 1. */
  function LabelSpan(words: string): Option<nat>
  {
    var parts := Text.Split(words, ' ');
    if |parts| != 2 then None
    else match Text.ParseU64(parts[0])
      case None => None
      case Some(n) =>
        match UnitSeconds(parts[1])
        case None => None
        case Some(u) => if u.1 == (n == 1) then Some(n * u.0) else None
  }

  lemma LabelSpanOf(n: nat, word: string)
    requires n <= Text.U64_MAX && ' ' !in word && UnitSeconds(word).Some?
    requires UnitSeconds(word).value.1 == (n == 1)
    ensures LabelSpan(Text.NatToStr(n) + " " + word) == Some(n * UnitSeconds(word).value.0)
  {
    var d := Text.NatToStr(n);
    assert ' ' !in d by {
      assert Text.AllDigits(d);
    }
    assert d + " " + word == d + [' '] + word;
    Text.SplitAfterSep(d, ' ', word);
    Text.SplitNoSep(word, ' ');
    Text.ParseU64OfNatToStr(n);
  }

  /** Each label names the same span as the timeout it stands beside. */
  lemma LabelsMatchDurations(v: Version, warns: nat)
    ensures LabelSpan(MatchWarn(v, warns).1) == Some(MatchWarn(v, warns).0)
  {
    match v {
      case Legacy => LegacyLabels(warns);
      case Current => CurrentLabels(warns);
    }
  }

  lemma LegacyLabels(warns: nat)
    ensures LabelSpan(MatchWarn(Legacy, warns).1) == Some(MatchWarn(Legacy, warns).0)
  {
    if warns == 0 { assert Text.NatToStr(1) == "1"; assert "1 minute" == Text.NatToStr(1) + " " + "minute"; LabelSpanOf(1, "minute"); }
    else if warns == 1 { assert Text.NatToStr(5) == "5"; assert "5 minutes" == Text.NatToStr(5) + " " + "minutes"; LabelSpanOf(5, "minutes"); }
    else if warns == 2 { assert Text.NatToStr(30) == "30"; assert "30 minutes" == Text.NatToStr(30) + " " + "minutes"; LabelSpanOf(30, "minutes"); }
    else if warns == 3 { assert Text.NatToStr(6) == "6"; assert "6 hours" == Text.NatToStr(6) + " " + "hours"; LabelSpanOf(6, "hours"); }
    else if warns == 4 { assert Text.NatToStr(1) == "1"; assert "1 day" == Text.NatToStr(1) + " " + "day"; LabelSpanOf(1, "day"); }
    else if warns == 5 { assert Text.NatToStr(3) == "3"; assert "3 days" == Text.NatToStr(3) + " " + "days"; LabelSpanOf(3, "days"); }
    else if warns == 6 { assert Text.NatToStr(6) == "6"; assert "6 days" == Text.NatToStr(6) + " " + "days"; LabelSpanOf(6, "days"); }
    else { assert Text.NatToStr(24) == "24"; assert "24 days" == Text.NatToStr(24) + " " + "days"; LabelSpanOf(24, "days"); }
  }

  lemma CurrentLabels(warns: nat)
    ensures LabelSpan(MatchWarn(Current, warns).1) == Some(MatchWarn(Current, warns).0)
  {
    if warns == 0 { assert Text.NatToStr(1) == "1"; assert "1 minute" == Text.NatToStr(1) + " " + "minute"; LabelSpanOf(1, "minute"); }
    else if warns == 1 { assert Text.NatToStr(1) == "1"; assert "1 day" == Text.NatToStr(1) + " " + "day"; LabelSpanOf(1, "day"); }
    else if warns == 2 { assert Text.NatToStr(1) == "1"; assert "1 week" == Text.NatToStr(1) + " " + "week"; LabelSpanOf(1, "week"); }
    else { assert Text.NatToStr(24) == "24"; assert "24 days" == Text.NatToStr(24) + " " + "days"; LabelSpanOf(24, "days"); }
  }

  // ---------------------------------------------------------------------------
  // The commands

  /** What a command does to the outside world, in order. */
  datatype Effect =
    | Reply(text: string)
    | AddWarning(user: nat, reason: string)
    | RemoveWarning(id: int)
    | TimeoutUntil(user: nat, until: int)

  /** Why a command stopped with an error: a failed call, or an id that is not an i64. */
  datatype Failure = CallFailed(msg: string) | BadId

  /** The effects a command had, and the error it returned with, if any. */
  datatype Run = Run(effects: seq<Effect>, failure: Option<Failure>)

  const NOT_HERE: string := "This command is only permitted in femboy.tv"
  const NOT_MOD: string := "You are not a moderator"

  /** The gate `warn` and `rm_warn` open with: the guild, then the author's
      membership (absent: nothing happens), then the author's roles looked up
      afresh (that lookup can fail), then the moderator role. */
  datatype Access = OutsideGuild | NoAuthor | LookupFailed(msg: string) | NotModerator | Moderator

  function Gate(v: Version, guild: Option<nat>, author: Option<Result<seq<nat>, string>>): (a: Access)
    ensures a == Moderator <==> guild == Some(Guild(v)) && author.Some? && author.value.Ok? && ModRole(v) in author.value.value
  {
    if guild != Some(Guild(v)) then OutsideGuild
    else if author.None? then NoAuthor
    else if author.value.Err? then LookupFailed(author.value.error)
    else if ModRole(v) !in author.value.value then NotModerator
    else Moderator
  }

  /** The run of a command stopped at the gate, or None when the gate opens. */
  function Refusal(a: Access): Option<Run>
  {
    match a
    case OutsideGuild => Some(Run([Reply(NOT_HERE)], None))
    case NoAuthor => Some(Run([], None))
    case LookupFailed(msg) => Some(Run([], Some(CallFailed(msg))))
    case NotModerator => Some(Run([Reply(NOT_MOD)], None))
    case Moderator => None
  }

  /** The answers of the calls `warn` makes after the gate: adding the warning,
      counting the active warnings, and looking up the warned member. */
  datatype WarnIo = WarnIo(added: Outcome<string>, active: Result<nat, string>, target: Outcome<string>)

  function WarnText(user: nat, reason: string, warns: nat, ts: int, future: string): string
  {
    "**Warned** <@" + Text.NatToStr(user) + "> with `" + reason + "`\nThey are now at **" + Text.NatToStr(warns) +
    " warnings**, and timed out until <t:" + Text.IntToStr(ts) + ">\nA future timeout will last for **" + future +
    "**\nThey will be able to speak again <t:" + Text.IntToStr(ts) + ":R>"
  }

  /** `warn user reason`, with `now` the current unix time in seconds. */
  function Warn(v: Version, guild: Option<nat>, author: Option<Result<seq<nat>, string>>,
                user: nat, reason: string, io: WarnIo, now: int): Run
  {
    var gate := Refusal(Gate(v, guild, author));
    if gate.Some? then gate.value
    else
      var add := AddWarning(user, reason);
      if io.added.Fail? then Run([add], Some(CallFailed(io.added.error)))
      else if io.active.Err? then Run([add], Some(CallFailed(io.active.error)))
      else
        var warns := io.active.value;
        var ts := now + MatchWarn(v, warns).0;
        var reply := Reply(WarnText(user, reason, warns, ts, MatchWarn(v, warns + 1).1));
        if io.target.Fail? then Run([add, reply], Some(CallFailed(io.target.error)))
        else Run([add, reply, TimeoutUntil(user, ts)], None)
  }

  /** `rm_warn id`: the id is parsed as an i64 after the gate. */
  function RmWarn(v: Version, guild: Option<nat>, author: Option<Result<seq<nat>, string>>,
                  id: string, removed: Outcome<string>): Run
  {
    var gate := Refusal(Gate(v, guild, author));
    if gate.Some? then gate.value
    else match Text.ParseI64(id)
      case None => Run([], Some(BadId))
      case Some(n) =>
        if removed.Fail? then Run([RemoveWarning(n)], Some(CallFailed(removed.error)))
        else Run([RemoveWarning(n), Reply("Removed warn with id " + id)], None)
  }

  predicate Changes(e: Effect) { !e.Reply? }

  /** Outside the guild every command only replies; the warning table and the
      member are touched only by a moderator. */
  lemma OnlyModeratorsChangeThings(v: Version, guild: Option<nat>, author: Option<Result<seq<nat>, string>>,
                                   user: nat, reason: string, io: WarnIo, now: int, id: string, removed: Outcome<string>)
    ensures guild != Some(Guild(v)) ==>
      Warn(v, guild, author, user, reason, io, now) == Run([Reply(NOT_HERE)], None) &&
      RmWarn(v, guild, author, id, removed) == Run([Reply(NOT_HERE)], None)
    ensures (exists i :: 0 <= i < |Warn(v, guild, author, user, reason, io, now).effects| &&
               Changes(Warn(v, guild, author, user, reason, io, now).effects[i])) ==>
      Gate(v, guild, author) == Moderator
    ensures (exists i :: 0 <= i < |RmWarn(v, guild, author, id, removed).effects| &&
               Changes(RmWarn(v, guild, author, id, removed).effects[i])) ==>
      Gate(v, guild, author) == Moderator
  {
  }

  /** A completed `warn` times the member out for the length its post-insert
      count earns, announces the length the next warning will earn, and that
      next length is never shorter. */
  lemma WarnEscalates(v: Version, guild: Option<nat>, author: Option<Result<seq<nat>, string>>,
                      user: nat, reason: string, io: WarnIo, now: int)
    requires Warn(v, guild, author, user, reason, io, now).failure.None?
    requires Gate(v, guild, author) == Moderator
    ensures io.active.Ok?
    ensures var r := Warn(v, guild, author, user, reason, io, now);
      |r.effects| == 3 && r.effects[0] == AddWarning(user, reason) &&
      r.effects[2] == TimeoutUntil(user, now + MatchWarn(v, io.active.value).0) &&
      r.effects[1] == Reply(WarnText(user, reason, io.active.value, now + MatchWarn(v, io.active.value).0, MatchWarn(v, io.active.value + 1).1))
    ensures MatchWarn(v, io.active.value).0 <= MatchWarn(v, io.active.value + 1).0
  {
    MatchWarnMonotone(v, io.active.value, io.active.value + 1);
  }

  // ---------------------------------------------------------------------------
  // warns

  /** One fetched warning, the `(i64, i64, String)` tuple that `warns` sorts and
      prints as `{id} | {ts} | {res}`. The tuple is decoded by column position,
      so `ts` is the second selected column: `DiscordId` in src/query/warnsys.rs
      (see `ActiveUserWarnings`), the issue time only in `IntendedUserWarnings`. */
  datatype WarnRow = WarnRow(id: int, ts: int, reason: string)

  /** Insert after every row with an equal or smaller second field, as a stable sort does. */
  function InsertByTs(w: WarnRow, s: seq<WarnRow>): (r: seq<WarnRow>)
    ensures multiset(r) == multiset(s) + multiset{w}
    ensures |r| == |s| + 1
  {
    if |s| == 0 then [w]
    else if w.ts < s[0].ts then [w] + s
    else
      assert s == [s[0]] + s[1..];
      [s[0]] + InsertByTs(w, s[1..])
  }

  /** `warns.sort_by_key(|(_, ts, _)| ts)`. */
  function SortByTs(s: seq<WarnRow>): (r: seq<WarnRow>)
    ensures multiset(r) == multiset(s)
  {
    if |s| == 0 then []
    else
      assert s == s[..|s| - 1] + [s[|s| - 1]];
      InsertByTs(s[|s| - 1], SortByTs(s[..|s| - 1]))
  }

  predicate SortedByTs(s: seq<WarnRow>)
  {
    forall i, j :: 0 <= i < j < |s| ==> s[i].ts <= s[j].ts
  }

  lemma {:induction false} InsertKeepsSorted(w: WarnRow, s: seq<WarnRow>)
    requires SortedByTs(s)
    ensures SortedByTs(InsertByTs(w, s))
  {
    if |s| > 0 && w.ts >= s[0].ts {
      InsertKeepsSorted(w, s[1..]);
      InsertBounded(w, s[1..], s[0].ts);
      var t := InsertByTs(w, s[1..]);
      assert InsertByTs(w, s) == [s[0]] + t;
    }
  }

  /** A lower bound of the row and of the list bounds the insertion too. */
  lemma {:induction false} InsertBounded(w: WarnRow, s: seq<WarnRow>, b: int)
    requires b <= w.ts
    requires forall k :: 0 <= k < |s| ==> b <= s[k].ts
    ensures forall k :: 0 <= k < |InsertByTs(w, s)| ==> b <= InsertByTs(w, s)[k].ts
  {
    if |s| > 0 && w.ts >= s[0].ts {
      InsertBounded(w, s[1..], b);
      assert InsertByTs(w, s) == [s[0]] + InsertByTs(w, s[1..]);
    }
  }

  /** The rows whose second field is t, in list order. */
  function AtTs(s: seq<WarnRow>, t: int): seq<WarnRow>
  {
    if |s| == 0 then [] else (if s[0].ts == t then [s[0]] else []) + AtTs(s[1..], t)
  }

  lemma {:induction false} AtTsAppend(a: seq<WarnRow>, b: seq<WarnRow>, t: int)
    ensures AtTs(a + b, t) == AtTs(a, t) + AtTs(b, t)
    decreases |a|
  {
    if |a| == 0 {
      assert a + b == b;
    } else {
      var h := if a[0].ts == t then [a[0]] else [];
      assert (a + b)[0] == a[0];
      assert (a + b)[1..] == a[1..] + b;
      assert AtTs(a + b, t) == h + AtTs(a[1..] + b, t);
      AtTsAppend(a[1..], b, t);
      assert AtTs(a, t) == h + AtTs(a[1..], t);
    }
  }

  lemma {:induction false} AtTsLater(s: seq<WarnRow>, t: int)
    requires forall k :: 0 <= k < |s| ==> t < s[k].ts
    ensures AtTs(s, t) == []
    decreases |s|
  {
    if |s| > 0 {
      AtTsLater(s[1..], t);
    }
  }

  function Own(w: WarnRow, t: int): seq<WarnRow>
  {
    if w.ts == t then [w] else []
  }

  lemma AtTsCons(h: WarnRow, s: seq<WarnRow>, t: int)
    ensures AtTs([h] + s, t) == Own(h, t) + AtTs(s, t)
  {
    assert ([h] + s)[1..] == s;
  }

  lemma AtTsSnoc(p: seq<WarnRow>, x: WarnRow, t: int)
    ensures AtTs(p + [x], t) == AtTs(p, t) + Own(x, t)
  {
    AtTsAppend(p, [x], t);
    AtTsCons(x, [], t);
    assert [x] + [] == [x];
  }

  /** A row no earlier than the head goes somewhere after it. */
  lemma InsertAfterHead(w: WarnRow, s: seq<WarnRow>)
    requires |s| > 0 && s[0].ts <= w.ts
    ensures InsertByTs(w, s) == [s[0]] + InsertByTs(w, s[1..])
  {
  }

  lemma AtTsConsBoth(h: WarnRow, a: seq<WarnRow>, b: seq<WarnRow>, y: seq<WarnRow>, t: int)
    requires AtTs(a, t) == AtTs(b, t) + y
    ensures AtTs([h] + a, t) == AtTs([h] + b, t) + y
  {
    AtTsCons(h, a, t);
    AtTsCons(h, b, t);
  }

  /** A row keyed below a sorted list's head is the first of its key. */
  lemma InsertBeforeHeadStable(w: WarnRow, s: seq<WarnRow>, t: int)
    requires SortedByTs(s) && |s| > 0 && w.ts < s[0].ts
    ensures AtTs(InsertByTs(w, s), t) == AtTs(s, t) + Own(w, t)
  {
    AtTsCons(w, s, t);
    if w.ts == t {
      AtTsLater(s, t);
    }
  }

  /** Inserting into a sorted list puts the row after the rows of its own key. */
  lemma {:induction false} InsertStable(w: WarnRow, s: seq<WarnRow>, t: int)
    requires SortedByTs(s)
    ensures AtTs(InsertByTs(w, s), t) == AtTs(s, t) + Own(w, t)
    decreases |s|
  {
    if |s| == 0 {
      AtTsCons(w, [], t);
      assert [w] + [] == [w];
    } else if w.ts < s[0].ts {
      InsertBeforeHeadStable(w, s, t);
    } else {
      InsertStable(w, s[1..], t);
      InsertAfterHead(w, s);
      AtTsConsBoth(s[0], InsertByTs(w, s[1..]), s[1..], Own(w, t), t);
      assert [s[0]] + s[1..] == s;
    }
  }

  /** Sorting a list sorts its prefix and inserts the last row. */
  lemma SortByTsSnoc(s: seq<WarnRow>)
    requires |s| > 0
    ensures SortByTs(s) == InsertByTs(s[|s| - 1], SortByTs(s[..|s| - 1]))
  {
  }

  lemma StableStep(p: seq<WarnRow>, x: WarnRow, sp: seq<WarnRow>, r: seq<WarnRow>, t: int)
    requires AtTs(sp, t) == AtTs(p, t)
    requires AtTs(r, t) == AtTs(sp, t) + Own(x, t)
    ensures AtTs(r, t) == AtTs(p + [x], t)
  {
    AtTsSnoc(p, x, t);
  }

  /** The sorted list is in order of the second field. */
  lemma {:induction false} SortByTsOrdered(s: seq<WarnRow>)
    ensures SortedByTs(SortByTs(s))
    decreases |s|
  {
    if |s| > 0 {
      SortByTsOrdered(s[..|s| - 1]);
      InsertKeepsSorted(s[|s| - 1], SortByTs(s[..|s| - 1]));
    }
  }

  /** `sort_by_key` is stable: the rows of each key keep their fetched order. */
  lemma {:induction false} SortStable(s: seq<WarnRow>, t: int)
    ensures AtTs(SortByTs(s), t) == AtTs(s, t)
    decreases |s|
  {
    if |s| > 0 {
      var p, x := s[..|s| - 1], s[|s| - 1];
      assert s == p + [x];
      SortByTsSnoc(s);
      SortStable(p, t);
      SortByTsOrdered(p);
      InsertStable(x, SortByTs(p), t);
      StableStep(p, x, SortByTs(p), SortByTs(s), t);
    }
  }

  /** The list is in order of the second field, holds exactly the fetched
      warnings, and rows with equal second fields stay in fetched order. */
  lemma SortByTsSorted(s: seq<WarnRow>)
    ensures SortedByTs(SortByTs(s)) && multiset(SortByTs(s)) == multiset(s)
    ensures forall t :: AtTs(SortByTs(s), t) == AtTs(s, t)
  {
    SortByTsOrdered(s);
    forall t ensures AtTs(SortByTs(s), t) == AtTs(s, t) {
      SortStable(s, t);
    }
  }

  // ---------------------------------------------------------------------------
  // active_user_warnings (src/query/warnsys.rs)

  /** A row of the Warnings table. */
  datatype WarningRecord = WarningRecord(warningId: int, discordId: int, reason: string, issuedAt: int)

  /** A warning counts as active for a week. */
  const OFFSET: int := 60 * 60 * 24 * 7

  predicate IsActive(rec: WarningRecord, user: int, now: int)
  {
    rec.discordId == user && rec.issuedAt > now - OFFSET
  }

  /** The records the two `and_where` conditions select, in table order. */
  function Active(table: seq<WarningRecord>, user: int, now: int): (r: seq<WarningRecord>)
    ensures forall rec :: rec in r <==> rec in table && IsActive(rec, user, now)
    ensures forall k :: 0 <= k < |r| ==> IsActive(r[k], user, now)
  {
    if |table| == 0 then []
    else (if IsActive(table[0], user, now) then [table[0]] else []) + Active(table[1..], user, now)
  }

  /** `active_user_warnings` as written: it selects `[WarningId, DiscordId, Reason,
      IssuedAt]` and decodes each row by position as `(i64, i64, String)`, so the
      second field is the warned user's id and `IssuedAt` is dropped. */
  function ActiveUserWarnings(table: seq<WarningRecord>, user: int, now: int): (r: seq<WarnRow>)
    ensures var a := Active(table, user, now);
      |r| == |a| &&
      forall k :: 0 <= k < |r| ==> r[k].id == a[k].warningId && r[k].reason == a[k].reason && r[k].ts == user
  {
    var a := Active(table, user, now);
    seq(|a|, k requires 0 <= k < |a| => WarnRow(a[k].warningId, a[k].discordId, a[k].reason))
  }

  /** The evidently intended decoding, with the issue time as the second field. */
  function IntendedUserWarnings(table: seq<WarningRecord>, user: int, now: int): (r: seq<WarnRow>)
    ensures var a := Active(table, user, now);
      |r| == |a| &&
      forall k :: 0 <= k < |r| ==>
        r[k].id == a[k].warningId && r[k].reason == a[k].reason && r[k].ts == a[k].issuedAt && r[k].ts > now - OFFSET
  {
    var a := Active(table, user, now);
    seq(|a|, k requires 0 <= k < |a| => WarnRow(a[k].warningId, a[k].issuedAt, a[k].reason))
  }

  lemma {:induction false} AtTsAll(s: seq<WarnRow>, t: int)
    requires forall k :: 0 <= k < |s| ==> s[k].ts == t
    ensures AtTs(s, t) == s
    decreases |s|
  {
    if |s| > 0 {
      AtTsAll(s[1..], t);
      AtTsCons(s[0], s[1..], t);
      assert [s[0]] + s[1..] == s;
    }
  }

  /** A stable sort of rows that all share one key changes nothing. */
  lemma SameKeySortIdentity(s: seq<WarnRow>, t: int)
    requires forall k :: 0 <= k < |s| ==> s[k].ts == t
    ensures SortByTs(s) == s
  {
    SortByTsSorted(s);
    var r := SortByTs(s);
    forall k | 0 <= k < |r| ensures r[k].ts == t {
      assert r[k] in multiset(r);
      var j :| 0 <= j < |s| && s[j] == r[k];
    }
    AtTsAll(s, t);
    AtTsAll(r, t);
  }

  /** As written, every listed row shows the warned user's id in its middle column,
      and the sort leaves the fetched order as it is, whatever the issue times. */
  lemma QueriedSortIsIdentity(table: seq<WarningRecord>, user: int, now: int)
    ensures var r := ActiveUserWarnings(table, user, now);
      SortByTs(r) == r && forall k :: 0 <= k < |r| ==> r[k].ts == user
  {
    SameKeySortIdentity(ActiveUserWarnings(table, user, now), user);
  }

  /** Two active warnings fetched newest first are listed newest first. */
  lemma NewestFirstStaysFirst()
    ensures var table := [WarningRecord(1, 5, "a", 200), WarningRecord(2, 5, "b", 100)];
      var r := SortByTs(ActiveUserWarnings(table, 5, 300));
      |r| == 2 && r[0].id == 1 && r[1].id == 2 && table[0].issuedAt > table[1].issuedAt
  {
    var table := [WarningRecord(1, 5, "a", 200), WarningRecord(2, 5, "b", 100)];
    var a := Active(table, 5, 300);
    assert table[1..][1..] == [];
    assert a == table;
    QueriedSortIsIdentity(table, 5, 300);
  }

  /** The count `warn` reads right after inserting a warning includes that warning,
      so the zero row of `match_warn` is never reached from `warn`. */
  lemma InsertedWarningCounted(table: seq<WarningRecord>, id: int, user: int, reason: string, now: int)
    ensures |ActiveUserWarnings(table + [WarningRecord(id, user, reason, now)], user, now)| >= 1
  {
    var rec := WarningRecord(id, user, reason, now);
    assert rec in table + [rec];
    assert rec in Active(table + [rec], user, now);
  }

  /** With the intended decoding the list is in issue-time order, holds exactly
      the active warnings, and every listed time lies within the last week. */
  lemma IntendedListInIssueOrder(table: seq<WarningRecord>, user: int, now: int)
    ensures var w := IntendedUserWarnings(table, user, now); var r := SortByTs(w);
      SortedByTs(r) && multiset(r) == multiset(w) && forall k :: 0 <= k < |r| ==> r[k].ts > now - OFFSET
  {
    var w := IntendedUserWarnings(table, user, now);
    var r := SortByTs(w);
    SortByTsSorted(w);
    forall k | 0 <= k < |r| ensures r[k].ts > now - OFFSET {
      assert r[k] in multiset(r);
      var j :| 0 <= j < |w| && w[j] == r[k];
    }
  }

  function WarnLine(w: WarnRow): string
  {
    Text.IntToStr(w.id) + " | " + Text.IntToStr(w.ts) + " | " + w.reason
  }

  function WarnLines(s: seq<WarnRow>): (r: seq<string>)
    ensures |r| == |s| && forall i :: 0 <= i < |s| ==> r[i] == WarnLine(s[i])
  {
    seq(|s|, i requires 0 <= i < |s| => WarnLine(s[i]))
  }

  function ListText(s: seq<WarnRow>): string
  {
    "```\n" + Text.Join(WarnLines(SortByTs(s)), "\n") + "\n```"
  }

  /** `warns user`: outside the guild only the refusal; otherwise the fetched
      active warnings (the fetch can fail), sorted, one per line in a code block. */
  function Warns(v: Version, guild: Option<nat>, fetched: Result<seq<WarnRow>, string>): (r: Run)
    ensures guild != Some(Guild(v)) ==> r == Run([Reply(NOT_HERE)], None)
    ensures forall i :: 0 <= i < |r.effects| ==> r.effects[i].Reply?
  {
    if guild != Some(Guild(v)) then Run([Reply(NOT_HERE)], None)
    else if fetched.Err? then Run([], Some(CallFailed(fetched.error)))
    else Run([Reply(ListText(fetched.value))], None)
  }

  lemma WarnLineOneLine(w: WarnRow)
    requires '\n' !in w.reason
    ensures '\n' !in WarnLine(w)
  {
    Text.SeparatorNotInDecimal(w.id, '\n');
    Text.SeparatorNotInDecimal(w.ts, '\n');
  }

  /** When no reason spans lines, the lines of the list are the sorted warnings,
      one each. */
  lemma ListLines(s: seq<WarnRow>)
    requires |s| >= 1
    requires forall i :: 0 <= i < |s| ==> '\n' !in s[i].reason
    ensures Text.Split(Text.Join(WarnLines(SortByTs(s)), "\n"), '\n') == WarnLines(SortByTs(s))
  {
    var t := SortByTs(s);
    var ls := WarnLines(t);
    forall k | 0 <= k < |t| ensures '\n' !in ls[k] {
      assert t[k] in multiset(s);
      WarnLineOneLine(t[k]);
    }
    assert |t| == |s| by { assert |multiset(t)| == |multiset(s)|; }
    Text.SplitJoin(ls, '\n');
  }
}
