/** Pure logic of the Steam plugin: the playtime formatter `divdec`/`fmt_sec`,
    `filter_roles` and the join-time role grant, and the text of a top-list page
    (src/plugins/steam/plugin.rs; the older src/plugins/steam/module.rs shares
    `filter_roles` and renders pages as images instead). */
module Steam {
  import opened Wrappers
  import Text
  import Seqs

  // ---------------------------------------------------------------------------
  // fmt_sec

  /** `divdec(f, s) = (f / s, f * 10 / s % 10)` with Rust's truncating i64 operators. */
  function DivDec(f: int, s: int): (r: (int, int))
    requires s > 0
  {
    (Text.TDiv(f, s), Text.TRem(Text.TDiv(f * 10, s), 10))
  }

  /** For a non-negative amount, `divdec` is the integer quotient and the first
      decimal digit of the quotient. */
  lemma DivDecDigit(f: int, s: int)
    requires f >= 0 && s > 0
    ensures DivDec(f, s).0 == f / s
    ensures DivDec(f, s).1 == (10 * (f % s)) / s
    ensures 0 <= DivDec(f, s).1 < 10
  {
    var q, r := f / s, f % s;
    var t, u := (10 * r) / s, (10 * r) % s;
    DigitBound(r, s, t, u);
    Tenfold(f, s, q, r, t, u);
    var n := 10 * q + t;
    TenfoldQuotient(f * 10, s, n, u);
    LastDigit(q, t);
    assert DivDec(f, s).1 == Text.TRem(n, 10);
  }

  /** The decimal shift of the quotient, read through Rust's `/`. */
  lemma TenfoldQuotient(x: int, s: int, n: int, u: int)
    requires x >= 0 && s > 0 && 0 <= u < s && x == n * s + u
    ensures Text.TDiv(x, s) == n
  {
    Seqs.DivUnique(x, s, n, u);
  }

  /** The last decimal digit, read through Rust's `%`. */
  lemma LastDigit(q: int, t: int)
    requires q >= 0 && 0 <= t < 10
    ensures Text.TRem(10 * q + t, 10) == t
  {
    Seqs.DivUnique(10 * q + t, 10, q, t);
  }

  lemma DigitBound(r: int, s: int, t: int, u: int)
    requires 0 <= r < s && 0 <= u < s && 10 * r == t * s + u
    ensures 0 <= t < 10
  {
    if t >= 10 {
      MulMono(t, 10, s);
    } else if t < 0 {
      MulMono(0, t + 1, s);
    }
  }

  lemma Tenfold(f: int, s: int, q: int, r: int, t: int, u: int)
    requires f == q * s + r && 10 * r == t * s + u
    ensures f * 10 == (10 * q + t) * s + u
  {
    assert (10 * q + t) * s == 10 * (q * s) + t * s;
  }

  lemma MulMono(a: int, b: int, s: int)
    requires a >= b && s > 0
    ensures a * s >= b * s
  {
    assert a * s - b * s == (a - b) * s;
  }

  function Unit(q: int, d: int, u: string): string
  {
    Text.IntToStr(q) + "." + Text.IntToStr(d) + u
  }

  /** `fmt_sec(num)`, branch for branch. */
  function FmtSec(num: int): (s: string)
  {
    var (mf, md) := DivDec(num, 60);
    var (hf, hd) := DivDec(num, 3600);
    var (df, dd) := DivDec(num, 86400);
    var (wf, wd) := DivDec(num, 604800);
    var (yf, yd) := DivDec(num, 31556926);
    if mf < 1 then Text.IntToStr(num) + "s"
    else if mf < 10 then Unit(mf, md, "m")
    else if hf < 1 then Text.IntToStr(mf) + "m"
    else if hf < 10 then Unit(hf, hd, "h")
    else if df < 1 then Text.IntToStr(hf) + "h"
    else if df < 10 then Unit(df, dd, "d")
    else if wf < 1 then Text.IntToStr(df) + "d"
    else if wf < 10 then Unit(wf, wd, "w")
    else if yf < 1 then Text.IntToStr(wf) + "w"
    else if yf < 10 then Unit(yf, yd, "y")
    else Text.IntToStr(yf) + "y"
  }

  /** The units in increasing size: minute, hour, day, week and a year of 365.2422 days. */
  const UNITS: seq<(string, nat)> := [("m", 60), ("h", 3600), ("d", 86400), ("w", 604800), ("y", 31556926)]

  /** Reference rendering: seconds below a minute; otherwise, going up the units,
      "q.d u" while the quotient q is 1..9, and "q u" from 10 until the next unit
      reaches 1 (years have no next unit). */
  function FmtRef(n: int): string
  {
    if n < 60 then Text.IntToStr(n) + "s" else FmtFrom(n, 0)
  }

  function FmtFrom(n: int, i: nat): string
    requires i < |UNITS| && n >= UNITS[i].1
    decreases |UNITS| - i
  {
    var (q, d) := DivDec(n, UNITS[i].1);
    if q < 10 then Unit(q, d, UNITS[i].0)
    else if i == |UNITS| - 1 || n < UNITS[i + 1].1 then Text.IntToStr(q) + UNITS[i].0
    else FmtFrom(n, i + 1)
  }

  lemma QuotientBounds(n: int, u: int)
    requires u > 0
    ensures Text.TDiv(n, u) < 1 <==> n < u
    ensures Text.TDiv(n, u) < 10 <==> n < 10 * u
  {
    if n >= 0 {
      var q := n / u;
      assert n == q * u + n % u;
      if q >= 1 { MulMono(q, 1, u); }
      if q >= 10 { MulMono(q, 10, u); }
      if q < 1 { assert q <= 0; MulMono(0, q, u); }
      if q < 10 { assert q <= 9; MulMono(9, q, u); }
    } else {
      Text.TruncatingDivision(n, u);
    }
  }

  /** `fmt_sec` agrees with the reference rendering everywhere. */
  lemma FmtSecMatchesReference(n: int)
    ensures FmtSec(n) == FmtRef(n)
  {
    QuotientBounds(n, 60);
    QuotientBounds(n, 3600);
    QuotientBounds(n, 86400);
    QuotientBounds(n, 604800);
    QuotientBounds(n, 31556926);
  }

  /** The "{df}d" branch is dead: ten days already exceed a week. */
  lemma WholeDaysUnreachable(n: int)
    ensures !(Text.TDiv(n, 86400) >= 10 && Text.TDiv(n, 604800) < 1)
  {
    QuotientBounds(n, 86400);
    QuotientBounds(n, 604800);
  }

  /** Below a minute the amount is printed in seconds, and only there. */
  lemma FmtSecSeconds(n: int)
    ensures n < 60 ==> FmtSec(n) == Text.IntToStr(n) + "s"
    ensures n >= 60 ==> FmtSec(n)[|FmtSec(n)| - 1] in "mhwy" + "d"
  {
    QuotientBounds(n, 60);
    QuotientBounds(n, 3600);
    QuotientBounds(n, 86400);
    QuotientBounds(n, 604800);
    QuotientBounds(n, 31556926);
  }

  /** From ten years on the output is whole years. */
  lemma FmtSecYears(n: int)
    requires n >= 10 * 31556926
    ensures FmtSec(n) == Text.IntToStr(n / 31556926) + "y"
  {
    QuotientBounds(n, 60);
    QuotientBounds(n, 3600);
    QuotientBounds(n, 86400);
    QuotientBounds(n, 604800);
    QuotientBounds(n, 31556926);
  }

  // ---------------------------------------------------------------------------
  // Roles

  /** `filter_roles(og, add)`: the requested roles the member does not hold, in order. */
  function FilterRoles(held: seq<nat>, add: seq<nat>): (r: seq<nat>)
    ensures forall i :: 0 <= i < |r| ==> r[i] in add && r[i] !in held
    ensures forall i :: 0 <= i < |add| && add[i] !in held ==> add[i] in r
    ensures Seqs.IsSubsequence(r, add)
  {
    Seqs.Filter(add, (x: nat) => x !in held)
  }

  /** `get_roles` asks the database for `distinct` role ids; filtering them keeps
      them free of repeats, so each role is requested once. */
  lemma FilterRolesNoDup(held: seq<nat>, add: seq<nat>)
    requires Seqs.NoDup(add)
    ensures Seqs.NoDup(FilterRoles(held, add))
  {
    Seqs.FilterNoDup(add, (x: nat) => x !in held);
  }

  /** The `roles` handler on a member joining: bots get nothing; others get the
      roles their games earn (from the database) that they do not already hold
      (an uncached role list counts as empty). None means no role request. */
  function JoinRoles(bot: bool, cached: Option<seq<nat>>, earned: seq<nat>): (r: Option<seq<nat>>)
    ensures bot <==> r.None?
    ensures r.Some? ==> r.value == FilterRoles(if cached.Some? then cached.value else [], earned)
  {
    if bot then None else Some(FilterRoles(if cached.Some? then cached.value else [], earned))
  }

  // ---------------------------------------------------------------------------
  // The text of a top-list page

  datatype TopRow = TopRow(sumCount: int, id: int, name: string)

  /** The amount column: playtime minutes as a duration, or the plain count. */
  function Amount(r: TopRow, playtime: bool): string
  {
    if playtime then FmtSec(r.sumCount * 60) else Text.IntToStr(r.sumCount)
  }

  /** The column width: the longest amount, or 5 for an empty page. */
  function Width(cs: seq<string>): (w: nat)
    ensures |cs| == 0 ==> w == 5
    ensures forall i :: 0 <= i < |cs| ==> |cs[i]| <= w
    ensures |cs| > 0 ==> exists i :: 0 <= i < |cs| && |cs[i]| == w
  {
    if |cs| == 0 then 5
    else if |cs| == 1 then |cs[0]|
    else
      var w := Width(cs[1..]);
      assert forall i :: 1 <= i < |cs| ==> cs[i] == cs[1..][i - 1];
      if |cs[0]| >= w then |cs[0]| else w
  }

  /** One line: a user mention for user lists, the name otherwise. */
  function TopLine(c: string, r: TopRow, width: nat, users: bool): string
  {
    if users then "`" + Text.PadLeft(c, width, ' ') + "` <@" + Text.IntToStr(r.id) + ">\n"
    else "`" + Text.PadLeft(c, width, ' ') + " | " + r.name + "` \n"
  }

  function Amounts(rows: seq<TopRow>, playtime: bool): (cs: seq<string>)
    ensures |cs| == |rows| && forall i :: 0 <= i < |rows| ==> cs[i] == Amount(rows[i], playtime)
  {
    seq(|rows|, i requires 0 <= i < |rows| => Amount(rows[i], playtime))
  }

  function Lines(rows: seq<TopRow>, cs: seq<string>, width: nat, users: bool): (s: string)
    requires |cs| == |rows|
  {
    if |rows| == 0 then ""
    else
      var n := |rows| - 1;
      Lines(rows[..n], cs[..n], width, users) + TopLine(cs[n], rows[n], width, users)
  }

  /** The page text `get_page` builds. */
  function TopText(rows: seq<TopRow>, playtime: bool, users: bool): string
  {
    var cs := Amounts(rows, playtime);
    Lines(rows, cs, Width(cs), users)
  }

  /** `get_page`: the amounts and their width, then the line loop. */
  method RenderTop(rows: seq<TopRow>, playtime: bool, users: bool) returns (output: string)
    ensures output == TopText(rows, playtime, users)
  {
    var cs := Amounts(rows, playtime);
    var width := Width(cs);
    output := AppendLines(rows, cs, width, users);
  }

  /** The `for (c, id, name) in data { output += ... }` loop. */
  method AppendLines(rows: seq<TopRow>, cs: seq<string>, width: nat, users: bool) returns (output: string)
    requires |cs| == |rows|
    ensures output == Lines(rows, cs, width, users)
  {
    output := "";
    var i := 0;
    while i < |rows|
      invariant 0 <= i <= |rows|
      invariant output == Lines(rows[..i], cs[..i], width, users)
      decreases |rows| - i
    {
      LinesStep(rows, cs, width, users, i);
      output := output + TopLine(cs[i], rows[i], width, users);
      i := i + 1;
    }
    assert rows[..i] == rows && cs[..i] == cs;
  }

  lemma LinesStep(rows: seq<TopRow>, cs: seq<string>, width: nat, users: bool, i: nat)
    requires |cs| == |rows| && i < |rows|
    ensures Lines(rows[..i + 1], cs[..i + 1], width, users)
         == Lines(rows[..i], cs[..i], width, users) + TopLine(cs[i], rows[i], width, users)
  {
    assert rows[..i + 1][..i] == rows[..i] && cs[..i + 1][..i] == cs[..i];
  }

  /** Every amount is right-aligned to the same width, so the column lines up, and
      every line starts with that padded amount inside backticks. */
  lemma TopColumnAligned(rows: seq<TopRow>, playtime: bool, users: bool, i: nat)
    requires i < |rows|
    ensures var cs := Amounts(rows, playtime);
      |Text.PadLeft(cs[i], Width(cs), ' ')| == Width(cs) &&
      TopLine(cs[i], rows[i], Width(cs), users)[..Width(cs) + 1] == "`" + Text.PadLeft(cs[i], Width(cs), ' ')
  {
    ColumnPrefix(rows, Amounts(rows, playtime), users, i);
  }

  lemma ColumnPrefix(rows: seq<TopRow>, cs: seq<string>, users: bool, i: nat)
    requires |cs| == |rows| && i < |rows|
    ensures |Text.PadLeft(cs[i], Width(cs), ' ')| == Width(cs)
    ensures TopLine(cs[i], rows[i], Width(cs), users)[..Width(cs) + 1] == "`" + Text.PadLeft(cs[i], Width(cs), ' ')
  {
    var w := Width(cs);
    assert |cs[i]| <= w;
    LinePrefix(cs[i], rows[i], w, users);
  }

  /** A line opens with a backtick and its amount padded to the width. */
  lemma LinePrefix(c: string, r: TopRow, width: nat, users: bool)
    requires |c| <= width
    ensures |Text.PadLeft(c, width, ' ')| == width
    ensures TopLine(c, r, width, users)[..width + 1] == "`" + Text.PadLeft(c, width, ' ')
  {
    var head := "`" + Text.PadLeft(c, width, ' ');
    var tail := if users then "` <@" + Text.IntToStr(r.id) + ">\n" else " | " + r.name + "` \n";
    assert TopLine(c, r, width, users) == head + tail;
    ConcatPrefix(head, tail);
  }

  lemma ConcatPrefix(x: string, y: string)
    ensures (x + y)[..|x|] == x
  {
  }
}
