/** Paged leaderboard messages shared by the Steam top commands
    (src/plugins/steam/plugin.rs, src/plugins/steam/module.rs) and the BeatLeader
    leaderboard (src/modules/beatleader.rs): the three pagination buttons, the
    page counter driven by button presses, and the row window each page reads. */
module Pagination {
  import opened Wrappers
  import Text

  // ---------------------------------------------------------------------------
  // Buttons

  /** What a button shows: a text label or the animated loading emoji. */
  datatype Face = Label(text: string) | Emoji(id: nat)

  datatype Button = Button(customId: string, face: Face, disabled: bool)

  /** The loading emoji of src/plugins/steam/plugin.rs (also used by the role menus). */
  const LOADING_EMOJI: nat := 1233072462527332363
  /** The loading emoji of src/plugins/steam/module.rs. */
  const LOADING_EMOJI_OLD: nat := 1110725977069326346

  /** Shows the loading emoji when this button caused the reload, its label otherwise. */
  function FaceOf(id: string, caption: string, loading: bool, event: string, emoji: nat): (f: Face)
    ensures f == Emoji(emoji) <==> loading && event == id
    ensures f != Emoji(emoji) ==> f == Label(caption)
  {
    if event == id && loading then Emoji(emoji) else Label(caption)
  }

  /** `pagination_buttons(b, page, pages, loading, event)`: "<", "page+1/pages", ">". */
  function PaginationButtons(page: nat, pages: nat, loading: bool, event: string, emoji: nat): (bs: seq<Button>)
    ensures |bs| == 3
    ensures bs[0].customId == "pg_prev" && bs[1].customId == "pg_disp" && bs[2].customId == "pg_next"
    ensures bs[0].disabled <==> loading || page == 0
    ensures bs[1].disabled
    ensures bs[2].disabled <==> loading || page + 1 == pages
    ensures forall i :: 0 <= i < 3 ==> (bs[i].face == Emoji(emoji) <==> loading && event == bs[i].customId)
    ensures !(loading && event == "pg_disp") ==>
      bs[1].face == Label(Text.NatToStr(page + 1) + "/" + Text.NatToStr(pages))
  {
    [ Button("pg_prev", FaceOf("pg_prev", "<", loading, event, emoji), loading || page == 0),
      Button("pg_disp", FaceOf("pg_disp", Text.NatToStr(page + 1) + "/" + Text.NatToStr(pages), loading, event, emoji), true),
      Button("pg_next", FaceOf("pg_next", ">", loading, event, emoji), loading || page + 1 == pages) ]
  }

  /** While a page loads, no button can be pressed. */
  lemma LoadingDisablesAll(page: nat, pages: nat, event: string, emoji: nat)
    ensures forall i :: 0 <= i < 3 ==> PaginationButtons(page, pages, true, event, emoji)[i].disabled
  {
  }

  /** A press with this id can come from the settled (not loading) buttons of `page`. */
  ghost predicate Pressable(page: nat, pages: nat, id: string)
  {
    var bs := PaginationButtons(page, pages, false, "", 0);
    exists i :: 0 <= i < 3 && bs[i].customId == id && !bs[i].disabled
  }

  // ---------------------------------------------------------------------------
  // The page counter

  /** `match custom_id { "pg_prev" => page -= 1, "pg_next" => page += 1, _ => {} }` on a
      u64: None when the step would leave the u64 range. */
  function StepPage(page: nat, id: string): (r: Option<nat>)
    requires page <= Text.U64_MAX
    ensures r.Some? ==> r.value <= Text.U64_MAX
    ensures id != "pg_prev" && id != "pg_next" ==> r == Some(page)
    ensures r.None? <==> (id == "pg_prev" && page == 0) || (id == "pg_next" && page == Text.U64_MAX)
  {
    if id == "pg_prev" then (if page == 0 then None else Some(page - 1))
    else if id == "pg_next" then (if page == Text.U64_MAX then None else Some(page + 1))
    else Some(page)
  }

  /** The buttons only let the page move inside 0..pages-1. */
  lemma PressStaysInRange(page: nat, pages: nat, id: string)
    requires page < pages <= Text.U64_MAX && Pressable(page, pages, id)
    ensures StepPage(page, id).Some? && StepPage(page, id).value < pages
  {
    var bs := PaginationButtons(page, pages, false, "", 0);
    var i :| 0 <= i < 3 && bs[i].customId == id && !bs[i].disabled;
    assert i != 1;
    if i == 0 {
      assert id == "pg_prev" && page > 0;
    } else {
      assert id == "pg_next" && page + 1 != pages;
      assert "pg_next" != "pg_prev";
    }
  }

  /** The pages shown after each press, starting from `page`; None once a step
      leaves the u64 range. */
  function Walk(page: nat, presses: seq<string>): (r: Option<seq<nat>>)
    requires page <= Text.U64_MAX
    ensures r.Some? ==> |r.value| == |presses|
    decreases |presses|
  {
    if |presses| == 0 then Some([])
    else match StepPage(page, presses[0])
      case None => None
      case Some(p) =>
        match Walk(p, presses[1..])
        case None => None
        case Some(rest) => Some([p] + rest)
  }

  /** Every press hits a button that was enabled when it was pressed. */
  ghost predicate PressesPressable(page: nat, pages: nat, presses: seq<string>)
    requires page <= Text.U64_MAX
    decreases |presses|
  {
    |presses| == 0 ||
    (Pressable(page, pages, presses[0]) &&
     StepPage(page, presses[0]).Some? &&
     PressesPressable(StepPage(page, presses[0]).value, pages, presses[1..]))
  }

  /** Pressing only enabled buttons never underflows and never leaves 0..pages-1. */
  lemma {:induction false} WalkStaysInRange(page: nat, pages: nat, presses: seq<string>)
    requires page < pages <= Text.U64_MAX && PressesPressable(page, pages, presses)
    ensures Walk(page, presses).Some?
    ensures forall i :: 0 <= i < |presses| ==> Walk(page, presses).value[i] < pages
    decreases |presses|
  {
    if |presses| > 0 {
      PressStaysInRange(page, pages, presses[0]);
      var p := StepPage(page, presses[0]).value;
      WalkStaysInRange(p, pages, presses[1..]);
    }
  }

  function Prepend(acc: seq<nat>, o: Option<seq<nat>>): Option<seq<nat>>
  {
    match o
    case None => None
    case Some(r) => Some(acc + r)
  }

  /** The `while let Some(press) = ...` loop of `handle`: update the page for each
      press and record the page that is then loaded. */
  method Browse(presses: seq<string>) returns (shown: Option<seq<nat>>)
    ensures shown == Walk(0, presses)
  {
    var page: nat := 0;
    var acc: seq<nat> := [];
    var i := 0;
    assert presses[0..] == presses;
    assert Prepend([], Walk(0, presses)) == Walk(0, presses) by {
      if Walk(0, presses).Some? {
        assert [] + Walk(0, presses).value == Walk(0, presses).value;
      }
    }
    while i < |presses|
      invariant 0 <= i <= |presses| && page <= Text.U64_MAX
      invariant Walk(0, presses) == Prepend(acc, Walk(page, presses[i..]))
      decreases |presses| - i
    {
      var rest := presses[i..];
      assert rest[1..] == presses[i + 1..];
      var next := StepPage(page, presses[i]);
      if next.None? {
        return None;
      }
      var p := next.value;
      var tail := Walk(p, presses[i + 1..]);
      assert Prepend(acc, Walk(page, rest)) == Prepend(acc + [p], tail) by {
        if tail.Some? {
          assert acc + ([p] + tail.value) == (acc + [p]) + tail.value;
        }
      }
      page := p;
      acc := acc + [page];
      i := i + 1;
    }
    assert presses[i..] == [];
    assert acc + [] == acc;
    shown := Some(acc);
  }

  // ---------------------------------------------------------------------------
  // Row windows

  datatype Window = Window(limit: nat, offset: nat)

  /** Row r of the ordered result is among the rows [offset, offset + limit) the window reads. */
  predicate Reads(w: Window, r: int)
  {
    w.offset <= r < w.offset + w.limit
  }

  /** `limit(SIZE).offset(page * SIZE)`: the plain window of src/plugins/steam/plugin.rs. */
  function PlainWindow(size: nat, page: nat): (w: Window)
    ensures w.limit == size && w.offset == page * size
  {
    Window(size, page * size)
  }

  /** Page 0 reads SIZE+1 rows; page p > 0 reads SIZE+2 rows from p*SIZE - 1
      (src/plugins/steam/module.rs:245-249, src/modules/beatleader.rs:78-83). */
  function OverlapWindow(size: nat, page: nat): (w: Window)
    requires size > 0
  {
    if page == 0 then Window(size + 1, 0) else Window(size + 2, page * size - 1)
  }

  /** Consecutive plain windows tile the result: page p+1 starts where page p ends. */
  lemma PlainWindowsTile(size: nat, page: nat)
    ensures PlainWindow(size, page).offset + PlainWindow(size, page).limit == PlainWindow(size, page + 1).offset
  {
    assert (page + 1) * size == page * size + size;
  }

  /** The overlapping window is the page's own rows, plus the last row of the previous
      page (when there is one) and the first row of the next page. */
  lemma OverlapWindowRows(size: nat, page: nat, r: int)
    requires size > 0
    ensures Reads(OverlapWindow(size, page), r) <==>
      Reads(PlainWindow(size, page), r) || r == (page + 1) * size || (page > 0 && r == page * size - 1)
  {
    assert (page + 1) * size == page * size + size;
    if page > 0 {
      Mul1(page, size);
    }
  }

  lemma Mul1(page: nat, size: nat)
    requires page >= 1
    ensures page * size >= size
  {
    assert page * size == (page - 1) * size + size;
  }
}
