/** The join and leave notices: the per-server handlers of src/modules/ftv.rs and
    src/modules/nftv.rs, each posting into its own server's general channel, and
    src/modules/welcomer.rs, which does the same for a table of servers. */
module Greetings {
  import opened Wrappers
  import Text

  const FTV_GUILD: nat := 1038789193113014333
  const FTV_GENERAL: nat := 1178857392033759262
  const NFTV_GUILD: nat := 1232659990993702943
  const NFTV_GENERAL: nat := 1232666862148653147

  /** The welcomer's table of servers and the channel each is greeted in. */
  const GUILDS: seq<(nat, nat)> := [(FTV_GUILD, FTV_GENERAL), (NFTV_GUILD, NFTV_GENERAL)]

  /** A Discord user; the avatar URLs come from the API and are opaque here. */
  datatype User = User(id: nat, name: string, discriminator: nat, bot: bool,
                       avatar: Option<string>, defaultAvatar: string)

  datatype MemberEvent = Joined(guild: nat, user: User) | Left(guild: nat, user: User)

  datatype Colour = Rgb(r: nat, g: nat, b: nat)
  const WELCOME_COLOUR := Rgb(139, 195, 74)
  const LEAVE_COLOUR := Rgb(244, 67, 54)

  /** One embed posted into a channel. */
  datatype Notice = Notice(channel: nat, icon: string, author: string, url: string,
                           colour: Colour, description: string)

  /** `get_avatar`: the user's own avatar, otherwise the default one. */
  function Avatar(u: User): (r: string)
    ensures u.avatar.Some? ==> r == u.avatar.value
    ensures u.avatar.None? ==> r == u.defaultAvatar
  {
    match u.avatar case Some(a) => a case None => u.defaultAvatar
  }

  /** `get_name`: the legacy `name#0042` form while the user still has a
      discriminator, the bare name once it is zero. */
  function GetName(u: User): string
  {
    if u.discriminator != 0 then u.name + "#" + Text.PadLeft(Text.NatToStr(u.discriminator), 4, '0')
    else u.name
  }

  /** `{:0>4}` of a discriminator: four digits reading back as it. */
  lemma PaddedTag(d: nat)
    requires d < 10000
    ensures var p := Text.PadLeft(Text.NatToStr(d), 4, '0');
      |p| == 4 && Text.AllDigits(p) && Text.DigitsValue(p) == d
  {
    var s := Text.NatToStr(d);
    Text.NatToStrAtMostFour(d);
    assert Text.PadLeft(s, 4, '0') == Text.Repeat('0', 4 - |s|) + s;
    Text.DigitsValueLeadingZeros(4 - |s|, s);
    Text.DigitsValueOfNatToStr(d);
  }

  /** The tag after '#' is exactly four digits that read back as the discriminator. */
  lemma GetNameTag(u: User)
    requires 0 < u.discriminator < 10000
    ensures var r := GetName(u); var n := |u.name|;
      |r| == n + 5 && r[..n] == u.name && r[n] == '#' &&
      Text.AllDigits(r[n + 1..]) && Text.DigitsValue(r[n + 1..]) == u.discriminator
  {
    var p := Text.PadLeft(Text.NatToStr(u.discriminator), 4, '0');
    PaddedTag(u.discriminator);
    TagSplit(u.name, p);
  }

  lemma TagSplit(name: string, p: string)
    ensures var r := name + "#" + p; var n := |name|;
      |r| == n + 1 + |p| && r[..n] == name && r[n] == '#' && r[n + 1..] == p
  {
    var r := name + "#" + p;
    assert r[..|name|] == name;
    assert r[|name| + 1..] == p;
  }

  /** Without a discriminator the name is shown as it is. */
  lemma GetNameBare(u: User)
    requires u.discriminator == 0
    ensures GetName(u) == u.name
  {
  }

  function EventUser(ev: MemberEvent): User { match ev case Joined(_, u) => u case Left(_, u) => u }
  function EventGuild(ev: MemberEvent): nat { match ev case Joined(g, _) => g case Left(g, _) => g }

  /** The embed for an event, posted into `channel`. */
  function NoticeOf(channel: nat, ev: MemberEvent): (n: Notice)
    ensures n.channel == channel && n.author == GetName(EventUser(ev)) && n.icon == Avatar(EventUser(ev))
    ensures n.url == "https://discord.com/users/" + Text.NatToStr(EventUser(ev).id)
    ensures ev.Joined? ==> (n.colour == WELCOME_COLOUR &&
      n.description == "Welcome <@" + Text.NatToStr(ev.user.id) + "> to the server!")
    ensures ev.Left? ==> (n.colour == LEAVE_COLOUR &&
      n.description == "<@" + Text.NatToStr(ev.user.id) + "> has left the server!")
  {
    var u := EventUser(ev);
    var id := Text.NatToStr(u.id);
    Notice(channel, Avatar(u), GetName(u), "https://discord.com/users/" + id,
      if ev.Joined? then WELCOME_COLOUR else LEAVE_COLOUR,
      if ev.Joined? then "Welcome <@" + id + "> to the server!" else "<@" + id + "> has left the server!")
  }

  /** The per-server handler of ftv.rs (guild FTV_GUILD) and nftv.rs (guild NFTV_GUILD). */
  function ServerNotice(guild: nat, general: nat, ev: MemberEvent): (r: Option<Notice>)
    ensures r.Some? <==> !EventUser(ev).bot && EventGuild(ev) == guild
    ensures r.Some? ==> r.value == NoticeOf(general, ev)
  {
    if !EventUser(ev).bot && EventGuild(ev) == guild then Some(NoticeOf(general, ev)) else None
  }

  /** The welcomer's notices: one for every table entry of the event's server. */
  function TableNotices(table: seq<(nat, nat)>, ev: MemberEvent): seq<Notice>
  {
    if |table| == 0 || EventUser(ev).bot then []
    else
      var init := TableNotices(table[..|table| - 1], ev);
      var (g, ch) := table[|table| - 1];
      if EventGuild(ev) == g then init + [NoticeOf(ch, ev)] else init
  }

  /** The welcomer's loop; bots are skipped before the table is looked at. */
  method Welcome(ev: MemberEvent) returns (sent: seq<Notice>)
    ensures sent == TableNotices(GUILDS, ev)
  {
    sent := [];
    if EventUser(ev).bot {
      return;
    }
    var i := 0;
    while i < |GUILDS|
      invariant 0 <= i <= |GUILDS|
      invariant sent == TableNotices(GUILDS[..i], ev)
    {
      assert GUILDS[..i + 1][..i] == GUILDS[..i];
      if EventGuild(ev) == GUILDS[i].0 {
        sent := sent + [NoticeOf(GUILDS[i].1, ev)];
      }
      i := i + 1;
    }
    assert GUILDS[..i] == GUILDS;
  }

  function OptSeq<T>(o: Option<T>): (r: seq<T>)
    ensures |r| == if o.Some? then 1 else 0
    ensures o.Some? ==> r == [o.value]
  {
    match o case Some(v) => [v] case None => []
  }

  /** The welcomer posts exactly what the two per-server handlers it replaced posted. */
  lemma WelcomerReplacesServerHandlers(ev: MemberEvent)
    ensures TableNotices(GUILDS, ev) ==
      OptSeq(ServerNotice(FTV_GUILD, FTV_GENERAL, ev)) + OptSeq(ServerNotice(NFTV_GUILD, NFTV_GENERAL, ev))
  {
    if !EventUser(ev).bot {
      assert GUILDS[..1][..0] == [];
      assert TableNotices(GUILDS[..1], ev) == OptSeq(ServerNotice(FTV_GUILD, FTV_GENERAL, ev));
      assert GUILDS[..|GUILDS| - 1] == GUILDS[..1];
    }
  }

  /** Nothing is posted for bots, nor for servers outside the table. */
  lemma {:induction false} TableNoticesChannels(table: seq<(nat, nat)>, ev: MemberEvent, k: nat)
    requires k < |TableNotices(table, ev)|
    ensures !EventUser(ev).bot
    ensures exists j :: (0 <= j < |table| && table[j].0 == EventGuild(ev) &&
      TableNotices(table, ev)[k] == NoticeOf(table[j].1, ev))
  {
    var init := TableNotices(table[..|table| - 1], ev);
    if k < |init| {
      TableNoticesChannels(table[..|table| - 1], ev, k);
      var j :| 0 <= j < |table| - 1 && table[..|table| - 1][j].0 == EventGuild(ev) &&
        init[k] == NoticeOf(table[..|table| - 1][j].1, ev);
      assert table[j] == table[..|table| - 1][j];
    } else {
      assert table[|table| - 1].0 == EventGuild(ev);
    }
  }
}
