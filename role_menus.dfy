/** The self-service role menus: the select menus of src/modules/ftv.rs, which
    replace a member's roles within one menu, and the toggle buttons of
    src/modules/nftv.rs, src/modules/ftvroles.rs and src/plugins/ftvroles/plugin.rs,
    which flip one role each; and the messages that lay those menus out. */
module RoleMenus {
  import opened Wrappers
  import Text
  import Seqs

  /** A guild member's role list as the handlers change it through the API. */
  class Member {
    var roles: seq<nat>

    constructor(roles0: seq<nat>)
      ensures roles == roles0
    {
      roles := roles0;
    }

    /** `remove_roles`: every listed role is gone, the others stay in order. */
    method RemoveRoles(rs: seq<nat>)
      modifies this
      ensures roles == Seqs.Filter(old(roles), (x: nat) => x !in rs)
    {
      roles := Seqs.Filter(roles, (x: nat) => x !in rs);
    }

    /** `add_roles`: the listed roles not yet held are appended. */
    method AddRoles(rs: seq<nat>)
      modifies this
      ensures roles == old(roles) + Seqs.Filter(rs, (x: nat) => x !in old(roles))
    {
      var held := roles;
      roles := held + Seqs.Filter(rs, (x: nat) => x !in held);
    }

    method RemoveRole(r: nat)
      modifies this
      ensures roles == Seqs.Filter(old(roles), (x: nat) => x != r)
    {
      roles := Seqs.Filter(roles, (x: nat) => x != r);
    }

    method AddRole(r: nat)
      modifies this
      ensures roles == if r in old(roles) then old(roles) else old(roles) + [r]
    {
      if r !in roles {
        roles := roles + [r];
      }
    }
  }

  function Mention(r: nat): string { "<@&" + Text.NatToStr(r) + ">" }

  function Mentions(rs: seq<nat>): (r: seq<string>)
    ensures |r| == |rs| && forall i :: 0 <= i < |rs| ==> r[i] == Mention(rs[i])
  {
    seq(|rs|, i requires 0 <= i < |rs| => Mention(rs[i]))
  }

  // ---------------------------------------------------------------------------
  // src/modules/ftv.rs: select menus

  /** One select menu: its custom id and the role ids it offers. */
  datatype MenuRow = MenuRow(customId: string, roles: seq<nat>)

  /** The member's roles that belong to the menu. */
  function Current(held: seq<nat>, row: seq<nat>): seq<nat> { Seqs.Filter(held, (x: nat) => x in row) }

  /** The menu's roles whose decimal id is among the selected values. */
  function Target(row: seq<nat>, values: seq<string>): seq<nat> { Seqs.Filter(row, (x: nat) => Text.NatToStr(x) in values) }

  function Removed(cur: seq<nat>, tgt: seq<nat>): seq<nat> { Seqs.Filter(cur, (x: nat) => x !in tgt) }
  function Added(cur: seq<nat>, tgt: seq<nat>): seq<nat> { Seqs.Filter(tgt, (x: nat) => x !in cur) }

  /** The ephemeral reply: a line for the removed roles and one for the added
      roles, each only when there are any. */
  function SelectReply(rem: seq<nat>, add: seq<nat>): string
  {
    (if |rem| > 0 then "**Removed roles:** " + Text.Join(Mentions(rem), ", ") + "\n" else "") +
    (if |add| > 0 then "**Added roles:** " + Text.Join(Mentions(add), ", ") + "\n" else "")
  }

  /** The reply to one menu for a member holding `held`. */
  function MenuReply(held: seq<nat>, row: MenuRow, values: seq<string>): string
  {
    var cur := Current(held, row.roles);
    var tgt := Target(row.roles, values);
    SelectReply(Removed(cur, tgt), Added(cur, tgt))
  }

  /** The roles held once the removals and then the additions are applied. */
  function AfterSelect(held: seq<nat>, row: seq<nat>, values: seq<string>): seq<nat>
  {
    var cur := Current(held, row);
    var tgt := Target(row, values);
    var kept := Seqs.Filter(held, (x: nat) => x !in Removed(cur, tgt));
    kept + Seqs.Filter(Added(cur, tgt), (x: nat) => x !in kept)
  }

  /** The removals and additions are disjoint; afterwards the member holds,
      within the menu, exactly the selected roles, and outside it exactly what they
      held before. */
  lemma SelectReachesTarget(held: seq<nat>, row: seq<nat>, values: seq<string>, x: nat)
    ensures var cur := Current(held, row); var tgt := Target(row, values);
      !(x in Removed(cur, tgt) && x in Added(cur, tgt))
    ensures x in row ==> (x in AfterSelect(held, row, values) <==> x in Target(row, values))
    ensures x !in row ==> (x in AfterSelect(held, row, values) <==> x in held)
  {
    var cur := Current(held, row);
    var tgt := Target(row, values);
    var rem := Removed(cur, tgt);
    var add := Added(cur, tgt);
    var kept := Seqs.Filter(held, (y: nat) => y !in rem);
    Seqs.InFilter(held, (y: nat) => y in row, x);
    Seqs.InFilter(row, (y: nat) => Text.NatToStr(y) in values, x);
    Seqs.InFilter(cur, (y: nat) => y !in tgt, x);
    Seqs.InFilter(tgt, (y: nat) => y !in cur, x);
    Seqs.InFilter(held, (y: nat) => y !in rem, x);
    Seqs.InFilter(add, (y: nat) => y !in kept, x);
  }

  /** The reply has a removal line exactly when something was removed, and an
      addition line exactly when something was added. */
  lemma SelectReplyLines(rem: seq<nat>, add: seq<nat>)
    ensures |SelectReply(rem, add)| == 0 <==> |rem| == 0 && |add| == 0
    ensures |rem| > 0 ==> SelectReply(rem, add)[..20] == "**Removed roles:** <"
    ensures |rem| == 0 && |add| > 0 ==> SelectReply(rem, add)[..18] == "**Added roles:** <"
  {
    if |rem| > 0 {
      var parts := Mentions(rem);
      assert Text.Join(parts, ", ")[0] == '<' by { JoinStartsWith(parts, ", "); }
    } else if |add| > 0 {
      var parts := Mentions(add);
      assert Text.Join(parts, ", ")[0] == '<' by { JoinStartsWith(parts, ", "); }
    }
  }

  lemma JoinStartsWith(parts: seq<string>, sep: string)
    requires |parts| >= 1 && |parts[0]| >= 1
    ensures |Text.Join(parts, sep)| >= 1 && Text.Join(parts, sep)[0] == parts[0][0]
  {
  }

  /** The select-menu part of ftv's event handler for one menu: remove, add, reply. */
  method OnSelect(m: Member, row: MenuRow, values: seq<string>) returns (msg: string)
    modifies m
    ensures m.roles == AfterSelect(old(m.roles), row.roles, values)
    ensures msg == MenuReply(old(m.roles), row, values)
  {
    var current := Current(m.roles, row.roles);
    var target := Target(row.roles, values);
    var rem := Removed(current, target);
    m.RemoveRoles(rem);
    ghost var kept := m.roles;
    var add := Added(current, target);
    m.AddRoles(add);
    assert m.roles == kept + Seqs.Filter(add, (x: nat) => x !in kept);
    var remLine := "";
    if |rem| > 0 {
      remLine := "**Removed roles:** " + Text.Join(Mentions(rem), ", ") + "\n";
    }
    var addLine := "";
    if |add| > 0 {
      addLine := "**Added roles:** " + Text.Join(Mentions(add), ", ") + "\n";
    }
    msg := remLine + addLine;
  }

  /** Every menu whose custom id is the interaction's, applied in table order. */
  function SelectAll(held: seq<nat>, rows: seq<MenuRow>, customId: string, values: seq<string>): seq<nat>
  {
    if |rows| == 0 then held
    else
      var init := SelectAll(held, rows[..|rows| - 1], customId, values);
      var r := rows[|rows| - 1];
      if r.customId == customId then AfterSelect(init, r.roles, values) else init
  }

  /** The replies of `SelectAll`: one per menu with the interaction's custom id,
      in table order, each naming what that menu removed and added from the
      roles held when it was reached. */
  function SelectReplies(held: seq<nat>, rows: seq<MenuRow>, customId: string, values: seq<string>): seq<string>
  {
    if |rows| == 0 then []
    else
      var init := SelectAll(held, rows[..|rows| - 1], customId, values);
      var prev := SelectReplies(held, rows[..|rows| - 1], customId, values);
      var r := rows[|rows| - 1];
      if r.customId == customId then prev + [MenuReply(init, r, values)] else prev
  }

  /** One more row of the table: its menu is applied, and replied to, when it matches. */
  lemma SelectPrefixStep(held: seq<nat>, rows: seq<MenuRow>, i: nat, customId: string, values: seq<string>)
    requires i < |rows|
    ensures var init := SelectAll(held, rows[..i], customId, values);
      rows[i].customId == customId ==>
        SelectAll(held, rows[..i + 1], customId, values) == AfterSelect(init, rows[i].roles, values) &&
        SelectReplies(held, rows[..i + 1], customId, values) ==
          SelectReplies(held, rows[..i], customId, values) + [MenuReply(init, rows[i], values)]
    ensures rows[i].customId != customId ==>
      SelectAll(held, rows[..i + 1], customId, values) == SelectAll(held, rows[..i], customId, values) &&
      SelectReplies(held, rows[..i + 1], customId, values) == SelectReplies(held, rows[..i], customId, values)
  {
    assert rows[..i + 1][..i] == rows[..i];
    assert rows[..i + 1][i] == rows[i];
  }

  /** One reply per matching menu: as many replies as menus carry the custom id. */
  lemma {:induction false} SelectRepliesCount(held: seq<nat>, rows: seq<MenuRow>, customId: string, values: seq<string>)
    ensures |SelectReplies(held, rows, customId, values)| == |Seqs.Filter(rows, (r: MenuRow) => r.customId == customId)|
    decreases |rows|
  {
    if |rows| > 0 {
      var p := rows[..|rows| - 1];
      var x := rows[|rows| - 1];
      SelectRepliesCount(held, p, customId, values);
      assert rows == p + [x];
      Seqs.FilterSnoc(p, x, (r: MenuRow) => r.customId == customId);
    }
  }

  /** An interaction whose custom id names no menu changes no role and sends nothing. */
  lemma {:induction false} SelectOtherIdsIgnored(held: seq<nat>, rows: seq<MenuRow>, customId: string, values: seq<string>)
    requires forall i :: 0 <= i < |rows| ==> rows[i].customId != customId
    ensures SelectAll(held, rows, customId, values) == held
    ensures SelectReplies(held, rows, customId, values) == []
  {
    if |rows| > 0 {
      SelectOtherIdsIgnored(held, rows[..|rows| - 1], customId, values);
    }
  }

  /** The `for r in ROLES.iter().flat_map(..)` loop: only in a guild, only rows
      with the interaction's custom id, and only when the member lookup succeeds. */
  method OnSelectInteraction(m: Member, rows: seq<MenuRow>, guild: Option<nat>, found: bool,
                             customId: string, values: seq<string>) returns (replies: seq<string>)
    modifies m
    ensures guild.Some? && found ==> m.roles == SelectAll(old(m.roles), rows, customId, values)
    ensures guild.Some? && found ==> replies == SelectReplies(old(m.roles), rows, customId, values)
    ensures !(guild.Some? && found) ==> m.roles == old(m.roles) && replies == []
  {
    replies := [];
    if guild.None? || !found {
      return;
    }
    ghost var held := m.roles;
    var i := 0;
    while i < |rows|
      invariant 0 <= i <= |rows|
      invariant m.roles == SelectAll(held, rows[..i], customId, values)
      invariant replies == SelectReplies(held, rows[..i], customId, values)
      decreases |rows| - i
    {
      assert rows[..i + 1][..i] == rows[..i];
      SelectPrefixStep(held, rows, i, customId, values);
      if rows[i].customId == customId {
        ghost var before := m.roles;
        var msg := OnSelect(m, rows[i], values);
        assert m.roles == AfterSelect(before, rows[i].roles, values);
        replies := replies + [msg];
      }
      assert m.roles == SelectAll(held, rows[..i + 1], customId, values);
      i := i + 1;
    }
    assert rows[..i] == rows;
  }

  // ---------------------------------------------------------------------------
  // The toggle buttons

  /** The three generations of the toggle handler. */
  datatype Toggler = Nftv | FtvRolesModule | FtvRolesPlugin

  /** What one button press leads to. */
  datatype Press = Ignored | Panicked | MemberLookupFailed(msg: string) | Toggled(reply: string)

  /** The handler's decision: the id is read as a u64 (nftv and the module
      unwrap it and panic; the plugin returns quietly), unknown ids are ignored,
      a failed member lookup is ignored by nftv and an error elsewhere; then the
      role is removed if held and added otherwise. `held` is None when the lookup fails. */
  function ToggleSpec(t: Toggler, all: seq<nat>, guild: Option<nat>, customId: string, held: Option<seq<nat>>): (p: Press)
  {
    if guild.None? then Ignored
    else match Text.ParseU64(customId)
      case None => if t == FtvRolesPlugin then Ignored else Panicked
      case Some(id) =>
        if id !in all then Ignored
        else if held.None? then (if t == Nftv then Ignored else MemberLookupFailed("Failed to get member"))
        else if id in held.value then Toggled("**Removed role:** <@&" + Text.NatToStr(id) + ">")
        else Toggled("**Added role:** <@&" + Text.NatToStr(id) + ">")
  }

  /** The roles afterwards: the pressed role flipped, every other role as before. */
  function ToggleRoles(all: seq<nat>, customId: string, held: seq<nat>): seq<nat>
  {
    match Text.ParseU64(customId)
    case None => held
    case Some(id) =>
      if id !in all then held
      else if id in held then Seqs.Filter(held, (x: nat) => x != id)
      else held + [id]
  }

  method Toggle(t: Toggler, m: Member, all: seq<nat>, guild: Option<nat>, customId: string, found: bool)
    returns (p: Press)
    modifies m
    ensures p == ToggleSpec(t, all, guild, customId, if found then Some(old(m.roles)) else None)
    ensures m.roles == if p.Toggled? then ToggleRoles(all, customId, old(m.roles)) else old(m.roles)
  {
    if guild.None? {
      return Ignored;
    }
    var parsed := Text.ParseU64(customId);
    if parsed.None? {
      if t == FtvRolesPlugin {
        return Ignored;
      }
      return Panicked;
    }
    var id := parsed.value;
    if id !in all {
      return Ignored;
    }
    if !found {
      if t == Nftv {
        return Ignored;
      }
      return MemberLookupFailed("Failed to get member");
    }
    if id in m.roles {
      m.RemoveRole(id);
      p := Toggled("**Removed role:** <@&" + Text.NatToStr(id) + ">");
    } else {
      m.AddRole(id);
      p := Toggled("**Added role:** <@&" + Text.NatToStr(id) + ">");
    }
  }

  /** A press flips exactly the pressed role and leaves every other one. */
  lemma ToggleFlips(all: seq<nat>, id: nat, held: seq<nat>, x: nat)
    requires id in all && id <= Text.U64_MAX
    ensures var after := ToggleRoles(all, Text.NatToStr(id), held);
      (x == id ==> (x in after <==> x !in held)) && (x != id ==> (x in after <==> x in held))
  {
    Text.ParseU64OfNatToStr(id);
    Seqs.InFilter(held, (y: nat) => y != id, x);
  }

  /** The reply to a press on a known role says which way it was flipped. */
  lemma ToggleReply(t: Toggler, all: seq<nat>, guild: nat, id: nat, held: seq<nat>)
    requires id in all && id <= Text.U64_MAX
    ensures var p := ToggleSpec(t, all, Some(guild), Text.NatToStr(id), Some(held));
      p.Toggled? && (p.reply[..4] == "**Re" <==> id in held)
  {
    Text.ParseU64OfNatToStr(id);
    var digits := Text.NatToStr(id);
    assert ("**Removed role:** <@&" + digits + ">")[..4] == "**Re";
    assert ("**Added role:** <@&" + digits + ">")[..4] == "**Ad";
  }

  /** The custom id of a button that is not a role toggle (for instance the
      pagination buttons) makes the older handlers panic. */
  lemma NonNumericIdPanics(all: seq<nat>, held: Option<seq<nat>>)
    ensures ToggleSpec(Nftv, all, Some(0), "pg_next", held) == Panicked
    ensures ToggleSpec(FtvRolesModule, all, Some(0), "pg_next", held) == Panicked
  {
    Text.ParseU64RejectsNonDigit("pg_next", 0);
  }

  /** The plugin handler ignores any id that is not a u64. */
  lemma PluginIgnoresNonNumericIds(all: seq<nat>, guild: Option<nat>, customId: string, held: Option<seq<nat>>)
    requires Text.ParseU64(customId).None?
    ensures ToggleSpec(FtvRolesPlugin, all, guild, customId, held) == Ignored
    ensures ToggleRoles(all, customId, if held.Some? then held.value else []) == (if held.Some? then held.value else [])
  {
  }

  // ---------------------------------------------------------------------------
  // Button layout

  datatype Emoji = CustomEmoji(id: nat) | UnicodeEmoji(text: string)
  datatype Button = Button(customId: string, emoji: Emoji, caption: Option<string>)

  /** A table entry: role id, emoji text, whether the emoji is a custom one, label. */
  datatype Entry = Entry(id: nat, emoji: string, custom: bool, caption: string)

  /** A custom emoji's id is parsed from the text, falling back to a fixed emoji. */
  function EmojiOf(text: string, custom: bool, fallback: nat): (e: Emoji)
    ensures e.UnicodeEmoji? <==> !custom
    ensures custom && Text.ParseU64(text).None? ==> e == CustomEmoji(fallback)
  {
    if custom then CustomEmoji(match Text.ParseU64(text) case Some(n) => n case None => fallback)
    else UnicodeEmoji(text)
  }

  /** The label is set only when the table's text is not empty. */
  function ButtonOf(e: Entry, fallback: nat): (b: Button)
    ensures b.caption.Some? <==> e.caption != ""
    ensures b.customId == Text.NatToStr(e.id)
  {
    Button(Text.NatToStr(e.id), EmojiOf(e.emoji, e.custom, fallback), if e.caption != "" then Some(e.caption) else None)
  }

  const FTVROLES_FALLBACK: nat := 1233072462527332363
  const NFTV_FALLBACK: nat := 1049347516346400858

  function Buttons(es: seq<Entry>, fallback: nat): (r: seq<Button>)
    ensures |r| == |es| && forall i :: 0 <= i < |es| ==> r[i] == ButtonOf(es[i], fallback)
  {
    seq(|es|, i requires 0 <= i < |es| => ButtonOf(es[i], fallback))
  }

  /** One sent message: its text, if any, and its rows of buttons. */
  datatype Msg = Msg(content: Option<string>, rows: seq<seq<Button>>)

  function MessagesOf(heading: string, batches: seq<seq<seq<Button>>>, i: nat): (r: seq<Msg>)
    requires i <= |batches|
    ensures |r| == |batches| - i
    ensures forall k :: 0 <= k < |r| ==> r[k].rows == batches[i + k]
    ensures forall k :: 0 <= k < |r| ==> r[k].content == (if i + k == 0 then Some(heading) else None)
    decreases |batches| - i
  {
    if i == |batches| then [] else [Msg(if i == 0 then Some(heading) else None, batches[i])] + MessagesOf(heading, batches, i + 1)
  }

  /** `spawn_roles` for one group of src/modules/ftvroles.rs and
      src/plugins/ftvroles/plugin.rs: rows of five buttons, messages of five rows,
      the heading on the first message only, and a heading-only message for an
      empty group. */
  function GroupMessages(heading: string, es: seq<Entry>): seq<Msg>
  {
    var rows := Seqs.Chunks(Buttons(es, FTVROLES_FALLBACK), 5);
    if |rows| == 0 then [Msg(Some(heading), [])] else MessagesOf(heading, Seqs.Chunks(rows, 5), 0)
  }

  /** The layout keeps the limits Discord sets and the table's order, and
      headlines each group exactly once. */
  lemma GroupLayout(heading: string, es: seq<Entry>)
    ensures var ms := GroupMessages(heading, es);
      |ms| >= 1 && ms[0].content == Some(heading) &&
      (forall k :: 1 <= k < |ms| ==> ms[k].content.None?) &&
      (forall k, j :: 0 <= k < |ms| && 0 <= j < |ms[k].rows| ==> |ms[k].rows[j]| <= 5) &&
      (forall k :: 0 <= k < |ms| ==> |ms[k].rows| <= 5) &&
      Seqs.Flatten(Seqs.Flatten(RowsOf(ms))) == Buttons(es, FTVROLES_FALLBACK)
    ensures |es| == 0 ==> GroupMessages(heading, es) == [Msg(Some(heading), [])]
  {
    var bs := Buttons(es, FTVROLES_FALLBACK);
    var rows := Seqs.Chunks(bs, 5);
    var ms := GroupMessages(heading, es);
    if |rows| == 0 {
      assert Seqs.Flatten(rows) == bs;
      assert RowsOf(ms) == [[]];
      assert Seqs.Flatten(RowsOf(ms)) == [];
    } else {
      var batches := Seqs.Chunks(rows, 5);
      assert RowsOf(ms) == batches;
      forall k, j | 0 <= k < |ms| && 0 <= j < |ms[k].rows| ensures |ms[k].rows[j]| <= 5 {
        ChunkOfChunks(rows, 5, k, j);
      }
    }
    if |es| == 0 {
      assert |bs| == 0;
      if |rows| > 0 {
        FlattenNonEmpty(rows);
      }
    }
  }

  lemma ChunkOfChunks(rows: seq<seq<Button>>, n: nat, k: nat, j: nat)
    requires n > 0 && (forall i :: 0 <= i < |rows| ==> |rows[i]| <= 5)
    requires k < |Seqs.Chunks(rows, n)| && j < |Seqs.Chunks(rows, n)[k]|
    ensures |Seqs.Chunks(rows, n)[k][j]| <= 5
  {
    var cs := Seqs.Chunks(rows, n);
    FlattenMember(cs, k, j);
  }

  lemma {:induction false} FlattenMember<T>(cs: seq<seq<T>>, k: nat, j: nat)
    requires k < |cs| && j < |cs[k]|
    ensures cs[k][j] in Seqs.Flatten(cs)
  {
    if k > 0 {
      FlattenMember(cs[1..], k - 1, j);
    }
  }

  lemma FlattenNonEmpty<T>(cs: seq<seq<T>>)
    requires |cs| > 0 && |cs[0]| > 0
    ensures |Seqs.Flatten(cs)| > 0
  {
  }

  function RowsOf(ms: seq<Msg>): (r: seq<seq<seq<Button>>>)
    ensures |r| == |ms| && forall k :: 0 <= k < |ms| ==> r[k] == ms[k].rows
  {
    seq(|ms|, k requires 0 <= k < |ms| => ms[k].rows)
  }

  /** nftv's `new_spawn_roles` for one category: the rows are given by the table,
      one message with the heading. */
  function CategoryMessage(heading: string, rows: seq<seq<Entry>>): (m: Msg)
    ensures m.content == Some(heading) && |m.rows| == |rows|
    ensures forall j :: 0 <= j < |rows| ==> m.rows[j] == Buttons(rows[j], NFTV_FALLBACK)
  {
    Msg(Some(heading), seq(|rows|, j requires 0 <= j < |rows| => Buttons(rows[j], NFTV_FALLBACK)))
  }

  // ---------------------------------------------------------------------------
  // ftv's select-menu layout

  /** A table entry of src/modules/ftv.rs: role id, label, emoji text, custom flag. */
  datatype SelectEntry = SelectEntry(id: nat, caption: string, emoji: string, custom: bool)
  datatype SelectRow = SelectRow(customId: string, entries: seq<SelectEntry>)

  datatype MenuOption = MenuOption(emoji: Emoji, caption: string, value: string)
  datatype SelectMenu = SelectMenu(customId: string, minValues: nat, maxValues: nat, options: seq<MenuOption>)

  /** `spawn_roles` for one row: nothing has to be picked, at most all the
      row's roles (and never more than Discord's 25) may be, and each option's
      value is the role id in decimal. */
  function MenuOf(row: SelectRow): (m: SelectMenu)
    ensures m.customId == row.customId && m.minValues == 0
    ensures m.maxValues == if |row.entries| < 25 then |row.entries| else 25
    ensures |m.options| == |row.entries|
    ensures forall i :: 0 <= i < |row.entries| ==>
      m.options[i] == MenuOption(EmojiOf(row.entries[i].emoji, row.entries[i].custom, NFTV_FALLBACK),
                                 row.entries[i].caption, Text.NatToStr(row.entries[i].id))
  {
    SelectMenu(row.customId, 0, if |row.entries| < 25 then |row.entries| else 25,
      seq(|row.entries|, i requires 0 <= i < |row.entries| =>
        MenuOption(EmojiOf(row.entries[i].emoji, row.entries[i].custom, NFTV_FALLBACK),
                   row.entries[i].caption, Text.NatToStr(row.entries[i].id))))
  }

  /** The role ids a row offers, as the handler sees them. */
  function RowRoles(row: SelectRow): (r: MenuRow)
    ensures r.customId == row.customId && |r.roles| == |row.entries|
    ensures forall i :: 0 <= i < |row.entries| ==> r.roles[i] == row.entries[i].id
  {
    MenuRow(row.customId, seq(|row.entries|, i requires 0 <= i < |row.entries| => row.entries[i].id))
  }

  /** The menu the layout sends and the roles the handler manages agree: a role
      is targeted exactly when the value of one of its options was selected. */
  lemma SelectedOptionsAreTarget(row: SelectRow, values: seq<string>, x: nat)
    ensures x in Target(RowRoles(row).roles, values) <==>
      exists i :: 0 <= i < |row.entries| && row.entries[i].id == x && MenuOf(row).options[i].value in values
  {
    var ids := RowRoles(row).roles;
    Seqs.InFilter(ids, (y: nat) => Text.NatToStr(y) in values, x);
    if x in ids {
      var i :| 0 <= i < |ids| && ids[i] == x;
      assert MenuOf(row).options[i].value == Text.NatToStr(x);
    }
  }

  /** One message per category: its heading and one select menu per row. */
  function CategoryMenus(heading: string, rows: seq<SelectRow>): (r: (string, seq<SelectMenu>))
    ensures r.0 == heading && |r.1| == |rows|
    ensures forall j :: 0 <= j < |rows| ==> r.1[j] == MenuOf(rows[j])
  {
    (heading, seq(|rows|, j requires 0 <= j < |rows| => MenuOf(rows[j])))
  }
}
