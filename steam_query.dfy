/** The Steam top-list query builder and the database refresh loops
    (src/plugins/steam/query.rs, and the older src/query/steam.rs, which differs
    in column names and the rate limit). A `SelectStatement` is
    modelled by the clauses it collects; SQL text generation is not modelled. */
module SteamQuery {
  import opened Wrappers
  import Text
  import Seqs
  import Macros

  // ---------------------------------------------------------------------------
  // Statements

  datatype Table = Playdata | Apps | UsersSteam | UsersDiscord | Members | Guilds | Users
  datatype Field = Id | Name | AppId | AppName | UserId | GuildId | DiscordId | NekoId | SteamId | Playtime
  datatype Col = Col(table: Table, field: Field)
  datatype Cond = Equals(left: Col, right: Col) | EqValue(col: Col, value: int)
  datatype Agg = Sum(of: Col) | Count(of: Col)

  /** The clauses of a select: tables, conditions, grouping, plain columns,
      aliased aggregates, `ROW_NUMBER() OVER (ORDER BY agg DESC)` windows and the
      aliases ordered descending. */
  datatype Stmt = Stmt(from: seq<Table>, wheres: seq<Cond>, groupBy: seq<Col>, columns: seq<Col>,
                       exprs: seq<(Agg, string)>, windows: seq<(Agg, string)>, orderBy: seq<string>)

  /** The two schema generations: the older one names the app table's key and
      name columns `Id`/`Name`, the current one `AppId`/`AppName`. */
  datatype Schema = Legacy | Current

  datatype By = ByPlaytime | ByOwnership
  datatype At = AtUser(user: int) | AtGuild(guild: int) | AtApp(app: int) | AtNone
  datatype Of = OfApps | OfGuilds | OfUsers

  function AppKey(schema: Schema): Col { Col(Apps, if schema == Legacy then Id else AppId) }
  function AppLabel(schema: Schema): Col { Col(Apps, if schema == Legacy then Name else AppName) }

  /** A select statement builder, updated in place like `sea_query`'s. */
  class Select {
    var from: seq<Table>
    var wheres: seq<Cond>
    var groupBy: seq<Col>
    var columns: seq<Col>
    var exprs: seq<(Agg, string)>
    var windows: seq<(Agg, string)>
    var orderBy: seq<string>

    function Snapshot(): Stmt
      reads this
    {
      Stmt(from, wheres, groupBy, columns, exprs, windows, orderBy)
    }

    /** `Query::select()`. */
    constructor()
      ensures Snapshot() == Stmt([], [], [], [], [], [], [])
    {
      from, wheres, groupBy, columns, exprs, windows, orderBy := [], [], [], [], [], [], [];
    }

    method From(t: Table)
      modifies this
      ensures Snapshot() == old(Snapshot()).(from := old(from) + [t])
    {
      from := from + [t];
    }

    method AndWhere(c: Cond)
      modifies this
      ensures Snapshot() == old(Snapshot()).(wheres := old(wheres) + [c])
    {
      wheres := wheres + [c];
    }

    method GroupByCol(c: Col)
      modifies this
      ensures Snapshot() == old(Snapshot()).(groupBy := old(groupBy) + [c])
    {
      groupBy := groupBy + [c];
    }

    method Columns(cs: seq<Col>)
      modifies this
      ensures Snapshot() == old(Snapshot()).(columns := old(columns) + cs)
    {
      columns := columns + cs;
    }

    method ExprAs(a: Agg, alias: string)
      modifies this
      ensures Snapshot() == old(Snapshot()).(exprs := old(exprs) + [(a, alias)])
    {
      exprs := exprs + [(a, alias)];
    }

    method ExprWindowAs(a: Agg, alias: string)
      modifies this
      ensures Snapshot() == old(Snapshot()).(windows := old(windows) + [(a, alias)])
    {
      windows := windows + [(a, alias)];
    }

    method OrderByDesc(alias: string)
      modifies this
      ensures Snapshot() == old(Snapshot()).(orderBy := old(orderBy) + [alias])
    {
      orderBy := orderBy + [alias];
    }
  }

  // ---------------------------------------------------------------------------
  // The specification of `build_top_query`

  predicate NeedsNeko(of: Of, at: At) { of == OfGuilds || of == OfUsers || at.AtGuild? || at.AtUser? }
  predicate NeedsMembers(of: Of, at: At) { of == OfGuilds || at.AtGuild? }

  function NekoJoin(s: Stmt): Stmt
  {
    s.(from := s.from + [UsersSteam, UsersDiscord],
       wheres := s.wheres + [Equals(Col(UsersSteam, NekoId), Col(UsersDiscord, NekoId)),
                             Equals(Col(UsersSteam, SteamId), Col(Playdata, UserId))])
  }

  function MemberJoin(s: Stmt): Stmt
  {
    s.(from := s.from + [Members], wheres := s.wheres + [Equals(Col(Members, UserId), Col(UsersDiscord, DiscordId))])
  }

  /** `nekoid_eq`: the early return sits inside two nested `not_match!`s. */
  function NekoidEqSpec(s: Stmt, of: Of, at: At): Stmt
  {
    Macros.NotMatch(of == OfGuilds || of == OfUsers, Macros.NotMatch(at.AtGuild? || at.AtUser?, s, NekoJoin(s)), NekoJoin(s))
  }

  /** The nested `not_match!`s of `nekoid_eq` fall through to the join exactly
      when the entity or the scope involves Discord users. */
  lemma NekoidEqChoice(s: Stmt, of: Of, at: At)
    ensures NekoidEqSpec(s, of, at) == if NeedsNeko(of, at) then NekoJoin(s) else s
  {
    Macros.NestedNotMatch(of == OfGuilds || of == OfUsers, at.AtGuild? || at.AtUser?, s, NekoJoin(s));
  }

  /** Likewise for `member_eq` and guild lists or a guild scope. */
  lemma MemberEqChoice(s: Stmt, of: Of, at: At)
    ensures MemberEqSpec(s, of, at) == if NeedsMembers(of, at) then MemberJoin(s) else s
  {
    Macros.NestedNotMatch(of == OfGuilds, at.AtGuild?, s, MemberJoin(s));
  }

  /** `member_eq`. */
  function MemberEqSpec(s: Stmt, of: Of, at: At): Stmt
  {
    Macros.NotMatch(of == OfGuilds, Macros.NotMatch(at.AtGuild?, s, MemberJoin(s)), MemberJoin(s))
  }

  /** The grouped entity: its table, its join, its key and its two columns. */
  function OfPart(schema: Schema, s: Stmt, of: Of): Stmt
  {
    match of
    case OfApps =>
      s.(from := s.from + [Apps], wheres := s.wheres + [Equals(AppKey(schema), Col(Playdata, AppId))],
         groupBy := s.groupBy + [AppKey(schema)], columns := s.columns + [AppKey(schema), AppLabel(schema)])
    case OfGuilds =>
      s.(from := s.from + [Guilds], wheres := s.wheres + [Equals(Col(Guilds, Id), Col(Members, GuildId))],
         groupBy := s.groupBy + [Col(Guilds, Id)], columns := s.columns + [Col(Guilds, Id), Col(Guilds, Name)])
    case OfUsers =>
      s.(from := s.from + [Users], wheres := s.wheres + [Equals(Col(Users, Id), Col(UsersDiscord, DiscordId))],
         groupBy := s.groupBy + [Col(Users, Id)], columns := s.columns + [Col(Users, Id), Col(Users, Name)])
  }

  /** SUM(playtime) for playtime, COUNT(app_id) for ownership. */
  function Aggregate(metric: By): Agg
  {
    if metric == ByPlaytime then Sum(Col(Playdata, Playtime)) else Count(Col(Playdata, AppId))
  }

  function AtFilter(s: Stmt, at: At): Stmt
  {
    match at
    case AtUser(id) => s.(wheres := s.wheres + [EqValue(Col(UsersDiscord, DiscordId), id)])
    case AtGuild(id) => s.(wheres := s.wheres + [EqValue(Col(Members, GuildId), id)])
    case AtApp(id) => s.(wheres := s.wheres + [EqValue(Col(Playdata, AppId), id)])
    case AtNone => s
  }

  /** The statement `build_top_query(of, by, at)` builds, clause by clause. */
  function TopQuery(schema: Schema, of: Of, metric: By, at: At): Stmt
  {
    var s0 := Stmt([Playdata], [], [], [], [], [], []);
    var s1 := OfPart(schema, MemberEqSpec(NekoidEqSpec(s0, of, at), of, at), of);
    var s2 := s1.(exprs := s1.exprs + [(Aggregate(metric), "sum_count")], windows := s1.windows + [(Aggregate(metric), "row_num")]);
    var s3 := AtFilter(s2, at);
    s3.(orderBy := s3.orderBy + ["sum_count"])
  }

  // ---------------------------------------------------------------------------
  // The builder code

  method NekoidEq(qb: Select, of: Of, at: At)
    modifies qb
    ensures qb.Snapshot() == NekoidEqSpec(old(qb.Snapshot()), of, at)
  {
    if !(of == OfGuilds || of == OfUsers) {
      if !(at.AtGuild? || at.AtUser?) {
        return;
      }
    }
    qb.From(UsersSteam);
    qb.From(UsersDiscord);
    qb.AndWhere(Equals(Col(UsersSteam, NekoId), Col(UsersDiscord, NekoId)));
    qb.AndWhere(Equals(Col(UsersSteam, SteamId), Col(Playdata, UserId)));
  }

  method MemberEq(qb: Select, of: Of, at: At)
    modifies qb
    ensures qb.Snapshot() == MemberEqSpec(old(qb.Snapshot()), of, at)
  {
    if of != OfGuilds {
      if !at.AtGuild? {
        return;
      }
    }
    qb.From(Members);
    qb.AndWhere(Equals(Col(Members, UserId), Col(UsersDiscord, DiscordId)));
  }

  method BuildTopQuery(schema: Schema, of: Of, metric: By, at: At) returns (qb: Select)
    ensures fresh(qb)
    ensures qb.Snapshot() == TopQuery(schema, of, metric, at)
  {
    qb := new Select();
    qb.From(Playdata);
    ghost var s0 := qb.Snapshot();
    assert s0 == Stmt([Playdata], [], [], [], [], [], []);
    NekoidEq(qb, of, at);
    MemberEq(qb, of, at);
    OfClauses(qb, schema, of);
    ghost var s1 := qb.Snapshot();
    assert s1 == OfPart(schema, MemberEqSpec(NekoidEqSpec(s0, of, at), of, at), of);
    qb.ExprAs(Aggregate(metric), "sum_count");
    qb.ExprWindowAs(Aggregate(metric), "row_num");
    ghost var s2 := qb.Snapshot();
    assert s2 == s1.(exprs := s1.exprs + [(Aggregate(metric), "sum_count")], windows := s1.windows + [(Aggregate(metric), "row_num")]);
    AtClause(qb, at);
    qb.OrderByDesc("sum_count");
    TopQueryUnfold(schema, of, metric, at, s1, s2);
  }

  lemma TopQueryUnfold(schema: Schema, of: Of, metric: By, at: At, s1: Stmt, s2: Stmt)
    requires s1 == OfPart(schema, MemberEqSpec(NekoidEqSpec(Stmt([Playdata], [], [], [], [], [], []), of, at), of, at), of)
    requires s2 == s1.(exprs := s1.exprs + [(Aggregate(metric), "sum_count")], windows := s1.windows + [(Aggregate(metric), "row_num")])
    ensures TopQuery(schema, of, metric, at) == AtFilter(s2, at).(orderBy := AtFilter(s2, at).orderBy + ["sum_count"])
  {
  }

  /** The `match of` block of `build_top_query`. */
  method OfClauses(qb: Select, schema: Schema, of: Of)
    modifies qb
    ensures qb.Snapshot() == OfPart(schema, old(qb.Snapshot()), of)
  {
    match of {
      case OfApps =>
        qb.From(Apps);
        qb.AndWhere(Equals(AppKey(schema), Col(Playdata, AppId)));
        qb.GroupByCol(AppKey(schema));
        qb.Columns([AppKey(schema), AppLabel(schema)]);
      case OfGuilds =>
        qb.From(Guilds);
        qb.AndWhere(Equals(Col(Guilds, Id), Col(Members, GuildId)));
        qb.GroupByCol(Col(Guilds, Id));
        qb.Columns([Col(Guilds, Id), Col(Guilds, Name)]);
      case OfUsers =>
        qb.From(Users);
        qb.AndWhere(Equals(Col(Users, Id), Col(UsersDiscord, DiscordId)));
        qb.GroupByCol(Col(Users, Id));
        qb.Columns([Col(Users, Id), Col(Users, Name)]);
    }
  }

  /** The `match at` block of `build_top_query`. */
  method AtClause(qb: Select, at: At)
    modifies qb
    ensures qb.Snapshot() == AtFilter(old(qb.Snapshot()), at)
  {
    match at {
      case AtUser(id) => qb.AndWhere(EqValue(Col(UsersDiscord, DiscordId), id));
      case AtGuild(id) => qb.AndWhere(EqValue(Col(Members, GuildId), id));
      case AtApp(id) => qb.AndWhere(EqValue(Col(Playdata, AppId), id));
      case AtNone =>
    }
  }

  // ---------------------------------------------------------------------------
  // What the query promises

  predicate CondIn(c: Cond, from: seq<Table>)
  {
    match c
    case Equals(l, r) => l.table in from && r.table in from
    case EqValue(col, _) => col.table in from
  }

  function AggCol(a: Agg): Col { match a case Sum(c) => c case Count(c) => c }

  /** Every table a condition, a grouping, a column or an aggregate reads is in FROM. */
  predicate Closed(s: Stmt)
  {
    (forall i :: 0 <= i < |s.wheres| ==> CondIn(s.wheres[i], s.from)) &&
    (forall i :: 0 <= i < |s.groupBy| ==> s.groupBy[i].table in s.from) &&
    (forall i :: 0 <= i < |s.columns| ==> s.columns[i].table in s.from) &&
    (forall i :: 0 <= i < |s.exprs| ==> AggCol(s.exprs[i].0).table in s.from) &&
    (forall i :: 0 <= i < |s.windows| ==> AggCol(s.windows[i].0).table in s.from)
  }

  function ValueFilters(ws: seq<Cond>): nat
  {
    if |ws| == 0 then 0 else (if ws[0].EqValue? then 1 else 0) + ValueFilters(ws[1..])
  }

  lemma {:induction false} ValueFiltersAppend(a: seq<Cond>, b: seq<Cond>)
    ensures ValueFilters(a + b) == ValueFilters(a) + ValueFilters(b)
  {
    if |a| == 0 {
      assert a + b == b;
    } else {
      assert (a + b)[1..] == a[1..] + b;
      ValueFiltersAppend(a[1..], b);
    }
  }

  lemma NekoJoinClosed(s: Stmt)
    requires Closed(s) && Playdata in s.from
    ensures Closed(NekoJoin(s)) && s.from <= NekoJoin(s).from
  {
    var t := NekoJoin(s);
    assert forall i :: 0 <= i < |s.wheres| ==> t.wheres[i] == s.wheres[i];
    assert forall c :: c in s.from ==> c in t.from;
  }

  lemma MemberJoinClosed(s: Stmt)
    requires Closed(s) && UsersDiscord in s.from
    ensures Closed(MemberJoin(s)) && s.from <= MemberJoin(s).from
  {
    var t := MemberJoin(s);
    assert forall i :: 0 <= i < |s.wheres| ==> t.wheres[i] == s.wheres[i];
    assert forall c :: c in s.from ==> c in t.from;
  }

  lemma OfPartClosed(schema: Schema, s: Stmt, of: Of)
    requires Closed(s) && Playdata in s.from
    requires of == OfGuilds ==> Members in s.from
    requires of == OfUsers ==> UsersDiscord in s.from
    ensures Closed(OfPart(schema, s, of)) && s.from <= OfPart(schema, s, of).from
  {
    var t := OfPart(schema, s, of);
    assert forall i :: 0 <= i < |s.wheres| ==> t.wheres[i] == s.wheres[i];
    assert forall i :: 0 <= i < |s.groupBy| ==> t.groupBy[i] == s.groupBy[i];
    assert forall i :: 0 <= i < |s.columns| ==> t.columns[i] == s.columns[i];
    assert forall c :: c in s.from ==> c in t.from;
  }

  lemma AtFilterClosed(s: Stmt, at: At)
    requires Closed(s) && Playdata in s.from
    requires at.AtGuild? ==> Members in s.from
    requires at.AtUser? ==> UsersDiscord in s.from
    ensures Closed(AtFilter(s, at))
  {
    var t := AtFilter(s, at);
    assert forall i :: 0 <= i < |s.wheres| ==> t.wheres[i] == s.wheres[i];
  }

  /** For every (of, metric, at) the statement reads only tables it selects from;
      the join-only entities are pulled in by `nekoid_eq`/`member_eq` exactly
      when something needs them. */
  lemma TopQueryClosed(schema: Schema, of: Of, metric: By, at: At)
    ensures Closed(TopQuery(schema, of, metric, at))
  {
    var b := MemberEqSpec(NekoidEqSpec(Stmt([Playdata], [], [], [], [], [], []), of, at), of, at);
    JoinsClosed(of, at);
    OfPartClosed(schema, b, of);
    var s1 := OfPart(schema, b, of);
    var s2 := s1.(exprs := s1.exprs + [(Aggregate(metric), "sum_count")], windows := s1.windows + [(Aggregate(metric), "row_num")]);
    AggregatesClosed(s1, metric);
    AtFilterClosed(s2, at);
    TopQueryUnfold(schema, of, metric, at, s1, s2);
  }

  /** After both joins every read table is present, and so is every table the
      entity and the scope rely on. */
  lemma JoinsClosed(of: Of, at: At)
    ensures var b := MemberEqSpec(NekoidEqSpec(Stmt([Playdata], [], [], [], [], [], []), of, at), of, at);
      Closed(b) && Playdata in b.from &&
      (NeedsNeko(of, at) ==> UsersDiscord in b.from) && (NeedsMembers(of, at) ==> Members in b.from)
  {
    var s0 := Stmt([Playdata], [], [], [], [], [], []);
    var a := NekoidEqSpec(s0, of, at);
    NekoidEqChoice(s0, of, at);
    if NeedsNeko(of, at) { NekoJoinClosed(s0); }
    var b := MemberEqSpec(a, of, at);
    MemberEqChoice(a, of, at);
    if NeedsMembers(of, at) {
      assert UsersDiscord in a.from;
      MemberJoinClosed(a);
    }
  }

  /** The two aggregates read only Playdata. */
  lemma AggregatesClosed(s1: Stmt, metric: By)
    requires Closed(s1) && Playdata in s1.from
    ensures var s2 := s1.(exprs := s1.exprs + [(Aggregate(metric), "sum_count")], windows := s1.windows + [(Aggregate(metric), "row_num")]);
      Closed(s2) && Playdata in s2.from && s1.from == s2.from
  {
    assert AggCol(Aggregate(metric)).table == Playdata;
  }

  /** Playdata is always the first table. */
  lemma TopQueryFromPlaydata(schema: Schema, of: Of, metric: By, at: At)
    ensures |TopQuery(schema, of, metric, at).from| >= 2 && TopQuery(schema, of, metric, at).from[0] == Playdata
  {
  }

  /** `nekoid_eq` adds UsersSteam, UsersDiscord and both join conditions exactly
      when the entity or the scope involves Discord users. */
  lemma NekoJoinIff(schema: Schema, of: Of, metric: By, at: At)
    ensures var q := TopQuery(schema, of, metric, at);
      (UsersSteam in q.from <==> NeedsNeko(of, at)) &&
      (Equals(Col(UsersSteam, SteamId), Col(Playdata, UserId)) in q.wheres <==> NeedsNeko(of, at)) &&
      (Equals(Col(UsersSteam, NekoId), Col(UsersDiscord, NekoId)) in q.wheres <==> NeedsNeko(of, at))
  {
    var q := TopQuery(schema, of, metric, at);
    var s0 := Stmt([Playdata], [], [], [], [], [], []);
    NekoidEqChoice(s0, of, at);
    MemberEqChoice(NekoidEqSpec(s0, of, at), of, at);
    if !NeedsNeko(of, at) {
      assert of == OfApps;
      assert UsersSteam !in q.from;
      assert Equals(Col(UsersSteam, SteamId), Col(Playdata, UserId)) !in q.wheres;
      assert Equals(Col(UsersSteam, NekoId), Col(UsersDiscord, NekoId)) !in q.wheres;
    }
  }

  /** `member_eq` adds Members and its join exactly for guild lists or a guild scope. */
  lemma MemberJoinIff(schema: Schema, of: Of, metric: By, at: At)
    ensures var q := TopQuery(schema, of, metric, at);
      (Members in q.from <==> NeedsMembers(of, at)) &&
      (Equals(Col(Members, UserId), Col(UsersDiscord, DiscordId)) in q.wheres <==> NeedsMembers(of, at))
  {
    var q := TopQuery(schema, of, metric, at);
    var s0 := Stmt([Playdata], [], [], [], [], [], []);
    NekoidEqChoice(s0, of, at);
    MemberEqChoice(NekoidEqSpec(s0, of, at), of, at);
    if !NeedsMembers(of, at) {
      assert Members !in q.from;
      assert Equals(Col(Members, UserId), Col(UsersDiscord, DiscordId)) !in q.wheres;
    }
  }

  /** The aggregate and the row-number ordering follow `metric`; rows are ordered by
      that aggregate, and the scope adds one value filter unless it is global. */
  lemma TopQueryAggregateAndScope(schema: Schema, of: Of, metric: By, at: At)
    ensures var q := TopQuery(schema, of, metric, at);
      q.exprs == [(Aggregate(metric), "sum_count")] && q.windows == [(Aggregate(metric), "row_num")] &&
      q.orderBy == ["sum_count"] &&
      ValueFilters(q.wheres) == (if at.AtNone? then 0 else 1)
  {
    var s0 := Stmt([Playdata], [], [], [], [], [], []);
    var s1 := OfPart(schema, MemberEqSpec(NekoidEqSpec(s0, of, at), of, at), of);
    JoinsFilterNothing(schema, of, at);
    match at {
      case AtNone =>
      case _ =>
        ValueFiltersAppend(s1.wheres, [AtFilter(s1, at).wheres[|s1.wheres|]]);
        assert AtFilter(s1, at).wheres == s1.wheres + [AtFilter(s1, at).wheres[|s1.wheres|]];
    }
  }

  /** The joins and the entity clauses carry no value filter. */
  lemma JoinsFilterNothing(schema: Schema, of: Of, at: At)
    ensures var s1 := OfPart(schema, MemberEqSpec(NekoidEqSpec(Stmt([Playdata], [], [], [], [], [], []), of, at), of, at), of);
      ValueFilters(s1.wheres) == 0 && s1.exprs == [] && s1.windows == [] && s1.orderBy == []
  {
    var s1 := OfPart(schema, MemberEqSpec(NekoidEqSpec(Stmt([Playdata], [], [], [], [], [], []), of, at), of, at), of);
    assert forall i :: 0 <= i < |s1.wheres| ==> s1.wheres[i].Equals?;
    NoValueFilters(s1.wheres);
  }

  lemma {:induction false} NoValueFilters(ws: seq<Cond>)
    requires forall i :: 0 <= i < |ws| ==> ws[i].Equals?
    ensures ValueFilters(ws) == 0
  {
    if |ws| > 0 {
      NoValueFilters(ws[1..]);
    }
  }

  // ---------------------------------------------------------------------------
  // update_users

  /** A profile summary as the Steam API returns it: the id is a decimal string. */
  datatype Player = Player(steamId: string, name: string)

  /** The request parameter for one batch: the ids in decimal, comma-joined. */
  function IdList(batch: seq<int>): string
  {
    Text.Join(IdStrings(batch), ",")
  }

  function IdStrings(batch: seq<int>): (r: seq<string>)
    ensures |r| == |batch| && forall k :: 0 <= k < |batch| ==> r[k] == Text.IntToStr(batch[k])
  {
    seq(|batch|, k requires 0 <= k < |batch| => Text.IntToStr(batch[k]))
  }

  /** At most 100 ids go into one request, and the comma-joined parameter splits
      back into exactly the batch's ids. */
  lemma RequestBatches(users: seq<int>, i: nat)
    requires i < |Seqs.Chunks(users, 100)|
    ensures var b := Seqs.Chunks(users, 100)[i];
      1 <= |b| <= 100 && Text.Split(IdList(b), ',') == IdStrings(b)
  {
    var b := Seqs.Chunks(users, 100)[i];
    forall k | 0 <= k < |b| ensures ',' !in IdStrings(b)[k] { Text.SeparatorNotInDecimal(b[k], ','); }
    Text.SplitJoin(IdStrings(b), ',');
  }

  /** `user.id.parse::<i64>()?` over one reply; None stands for the parse error. */
  function ParsePlayers(ps: seq<Player>): (r: Option<seq<(int, string)>>)
    ensures r.Some? ==> |r.value| == |ps|
  {
    if |ps| == 0 then Some([])
    else
      var init := ParsePlayers(ps[..|ps| - 1]);
      var last := Text.ParseI64(ps[|ps| - 1].steamId);
      if init.None? || last.None? then None else Some(init.value + [(last.value, ps[|ps| - 1].name)])
  }

  /** The profiles gathered over the batches: a failed request contributes
      nothing, a malformed id aborts the whole update. */
  function Profiles(batches: seq<seq<int>>, api: string -> Option<seq<Player>>): Option<seq<(int, string)>>
  {
    if |batches| == 0 then Some([])
    else
      var init := Profiles(batches[..|batches| - 1], api);
      var reply := api(IdList(batches[|batches| - 1]));
      if init.None? then None
      else if reply.None? then init
      else
        var got := ParsePlayers(reply.value);
        if got.None? then None else Some(init.value + got.value)
  }

  lemma {:induction false} ParseFailureSticks(ps: seq<Player>, j: nat)
    requires j <= |ps| && ParsePlayers(ps[..j]).None?
    ensures ParsePlayers(ps).None?
    decreases |ps| - j
  {
    if j < |ps| {
      assert ps[..j + 1][..j] == ps[..j];
      ParseFailureSticks(ps, j + 1);
    } else {
      assert ps[..j] == ps;
    }
  }

  lemma {:induction false} ProfilesFailureSticks(bs: seq<seq<int>>, api: string -> Option<seq<Player>>, i: nat)
    requires i <= |bs| && Profiles(bs[..i], api).None?
    ensures Profiles(bs, api).None?
    decreases |bs| - i
  {
    if i < |bs| {
      assert bs[..i + 1][..i] == bs[..i];
      ProfilesFailureSticks(bs, api, i + 1);
    } else {
      assert bs[..i] == bs;
    }
  }

  /** A batch whose request fails is skipped. */
  lemma FailedBatchSkipped(bs: seq<seq<int>>, b: seq<int>, api: string -> Option<seq<Player>>)
    requires api(IdList(b)).None?
    ensures Profiles(bs + [b], api) == Profiles(bs, api)
  {
    assert (bs + [b])[..|bs|] == bs;
  }

  /** A batch whose players all parse adds them, in reply order, after the earlier ones. */
  lemma AnsweredBatchAppended(bs: seq<seq<int>>, b: seq<int>, api: string -> Option<seq<Player>>)
    requires Profiles(bs, api).Some? && api(IdList(b)).Some? && ParsePlayers(api(IdList(b)).value).Some?
    ensures Profiles(bs + [b], api) == Some(Profiles(bs, api).value + ParsePlayers(api(IdList(b)).value).value)
  {
    assert (bs + [b])[..|bs|] == bs;
  }

  /** `update_users`: the request loop over batches of 100, then the database
      writes in batches of 10000 (returned rather than executed). */
  /** The `for user in res.response.players` loop: the `?` on the id parse
      aborts at the first malformed id. */
  method ParseReply(ps: seq<Player>) returns (got: Option<seq<(int, string)>>)
    ensures got == ParsePlayers(ps)
  {
    var acc: seq<(int, string)> := [];
    var j := 0;
    while j < |ps|
      invariant 0 <= j <= |ps|
      invariant ParsePlayers(ps[..j]) == Some(acc)
      decreases |ps| - j
    {
      assert ps[..j + 1][..j] == ps[..j];
      var id := Text.ParseI64(ps[j].steamId);
      if id.None? {
        ParseFailureSticks(ps, j + 1);
        return None;
      }
      acc := acc + [(id.value, ps[j].name)];
      j := j + 1;
    }
    assert ps[..j] == ps;
    got := Some(acc);
  }

  method UpdateUsers(users: seq<int>, api: string -> Option<seq<Player>>) returns (writes: Option<seq<seq<(int, string)>>>)
    ensures writes.Some? <==> Profiles(Seqs.Chunks(users, 100), api).Some?
    ensures writes.Some? ==> writes.value == Seqs.Chunks(Profiles(Seqs.Chunks(users, 100), api).value, 10000)
  {
    var bs := Seqs.Chunks(users, 100);
    var profiles: seq<(int, string)> := [];
    var i := 0;
    while i < |bs|
      invariant 0 <= i <= |bs|
      invariant Profiles(bs[..i], api) == Some(profiles)
      decreases |bs| - i
    {
      assert bs[..i + 1][..i] == bs[..i];
      var reply := api(IdList(bs[i]));
      if reply.Some? {
        var got := ParseReply(reply.value);
        if got.None? {
          ProfilesFailureSticks(bs, api, i + 1);
          return None;
        }
        profiles := profiles + got.value;
      }
      i := i + 1;
    }
    assert bs[..i] == bs;
    writes := Some(Seqs.Chunks(profiles, 10000));
  }

  // ---------------------------------------------------------------------------
  // update_playdata

  datatype Game = Game(id: int, name: string, playtime: int)
  datatype Row = Row(user: int, app: int, playtime: int)

  /** `day = unix seconds / 86400` (truncating). */
  function UtcDay(now: int): (day: int)
    ensures now >= 0 ==> day * 86400 <= now < (day + 1) * 86400
  {
    Text.TruncatingDivision(now, 86400);
    Text.TDiv(now, 86400)
  }

  /** The rows of one reply: one per owned game. */
  function GameRows(user: int, gs: seq<Game>): (r: seq<Row>)
    ensures |r| == |gs|
    ensures forall k :: 0 <= k < |gs| ==> r[k] == Row(user, gs[k].id, gs[k].playtime)
  {
    seq(|gs|, k requires 0 <= k < |gs| => Row(user, gs[k].id, gs[k].playtime))
  }

  /** Every owned game seen, in request order; a failed request contributes none. */
  function SeenGames(users: seq<int>, api: int -> Option<seq<Game>>): seq<Game>
  {
    if |users| == 0 then []
    else
      var r := api(users[|users| - 1]);
      SeenGames(users[..|users| - 1], api) + (if r.Some? then r.value else [])
  }

  function PlayRows(users: seq<int>, api: int -> Option<seq<Game>>): seq<Row>
  {
    if |users| == 0 then []
    else
      var r := api(users[|users| - 1]);
      PlayRows(users[..|users| - 1], api) + (if r.Some? then GameRows(users[|users| - 1], r.value) else [])
  }

  /** The `games` map: inserting in order, so a later name for an id replaces an earlier one. */
  function NameMap(gs: seq<Game>): map<int, string>
  {
    if |gs| == 0 then map[] else NameMap(gs[..|gs| - 1])[gs[|gs| - 1].id := gs[|gs| - 1].name]
  }

  lemma {:induction false} NameMapKeys(gs: seq<Game>, id: int)
    ensures id in NameMap(gs) <==> exists k :: 0 <= k < |gs| && gs[k].id == id
  {
    if |gs| > 0 {
      var init := gs[..|gs| - 1];
      NameMapKeys(init, id);
      if id in NameMap(init) {
        var k :| 0 <= k < |init| && init[k].id == id;
        assert gs[k].id == id;
      }
      if exists k :: 0 <= k < |gs| && gs[k].id == id {
        var k :| 0 <= k < |gs| && gs[k].id == id;
        if k < |init| { assert init[k].id == id; }
      }
    }
  }

  /** The stored name of an app is the name at its last occurrence. */
  lemma {:induction false} LastNameWins(gs: seq<Game>, k: nat)
    requires k < |gs|
    requires forall j :: k < j < |gs| ==> gs[j].id != gs[k].id
    ensures gs[k].id in NameMap(gs) && NameMap(gs)[gs[k].id] == gs[k].name
  {
    if k < |gs| - 1 {
      var init := gs[..|gs| - 1];
      assert forall j :: k < j < |init| ==> init[j] == gs[j];
      LastNameWins(init, k);
    }
  }

  /** A user whose request fails adds no rows; otherwise one row per owned game. */
  lemma PlayRowsStep(users: seq<int>, u: int, api: int -> Option<seq<Game>>)
    ensures api(u).None? ==> PlayRows(users + [u], api) == PlayRows(users, api)
    ensures api(u).Some? ==> PlayRows(users + [u], api) == PlayRows(users, api) + GameRows(u, api(u).value)
  {
    assert (users + [u])[..|users|] == users;
  }

  lemma SeenGamesStep(users: seq<int>, u: int, api: int -> Option<seq<Game>>)
    ensures api(u).None? ==> SeenGames(users + [u], api) == SeenGames(users, api)
    ensures api(u).Some? ==> SeenGames(users + [u], api) == SeenGames(users, api) + api(u).value
  {
    assert (users + [u])[..|users|] == users;
  }

  lemma NameMapStep(gs: seq<Game>, g: Game)
    ensures NameMap(gs + [g]) == NameMap(gs)[g.id := g.name]
  {
    assert (gs + [g])[..|gs|] == gs;
  }

  /** `update_playdata`'s request loop and the write batches: the apps map,
      the playdata rows in batches of 10000, and the day stamped on history rows. */
  method UpdatePlaydata(users: seq<int>, api: int -> Option<seq<Game>>, now: int)
    returns (day: int, games: map<int, string>, batches: seq<seq<Row>>)
    ensures day == UtcDay(now)
    ensures games == NameMap(SeenGames(users, api))
    ensures batches == Seqs.Chunks(PlayRows(users, api), 10000)
  {
    day := Text.TDiv(now, 86400);
    games := map[];
    var playdata: seq<Row> := [];
    var i := 0;
    while i < |users|
      invariant 0 <= i <= |users|
      invariant games == NameMap(SeenGames(users[..i], api))
      invariant playdata == PlayRows(users[..i], api)
      decreases |users| - i
    {
      assert users[..i + 1] == users[..i] + [users[i]];
      SeenGamesStep(users[..i], users[i], api);
      PlayRowsStep(users[..i], users[i], api);
      var reply := api(users[i]);
      if reply.Some? {
        games, playdata := RecordGames(games, playdata, users[i], reply.value, SeenGames(users[..i], api));
      }
      i := i + 1;
    }
    assert users[..i] == users;
    batches := Seqs.Chunks(playdata, 10000);
  }

  lemma RecordStep(user: int, seen: seq<Game>, gs: seq<Game>, j: nat)
    requires j < |gs|
    ensures NameMap(seen + gs[..j + 1]) == NameMap(seen + gs[..j])[gs[j].id := gs[j].name]
    ensures GameRows(user, gs[..j + 1]) == GameRows(user, gs[..j]) + [Row(user, gs[j].id, gs[j].playtime)]
  {
    assert seen + gs[..j + 1] == (seen + gs[..j]) + [gs[j]];
    NameMapStep(seen + gs[..j], gs[j]);
  }

  /** The inner `for game in res.response.games` loop of one user. */
  method RecordGames(games0: map<int, string>, playdata0: seq<Row>, user: int, gs: seq<Game>, ghost seen: seq<Game>)
    returns (games: map<int, string>, playdata: seq<Row>)
    requires games0 == NameMap(seen)
    ensures games == NameMap(seen + gs)
    ensures playdata == playdata0 + GameRows(user, gs)
  {
    games, playdata := games0, playdata0;
    var j := 0;
    assert seen + gs[..0] == seen;
    while j < |gs|
      invariant 0 <= j <= |gs|
      invariant games == NameMap(seen + gs[..j])
      invariant playdata == playdata0 + GameRows(user, gs[..j])
      decreases |gs| - j
    {
      RecordStep(user, seen, gs, j);
      games := games[gs[j].id := gs[j].name];
      playdata := playdata + [Row(user, gs[j].id, gs[j].playtime)];
      j := j + 1;
    }
    assert gs[..j] == gs;
  }
}
