/** The BeatLeader leaderboard: the overlapping page text with its two
    separators, and `get_scores`, which walks the API's score pages
    (src/modules/beatleader.rs). */
module BeatLeader {
  import opened Wrappers
  import Text
  import Seqs
  import Pagination

  const SIZE: nat := 15
  const SEPARATOR: string := "-------------------\n"

  /** One leaderboard row; `pp` is the f32 as `Display` prints it, which is not modelled. */
  datatype LbRow = LbRow(rowNum: int, pp: string, name: string)

  function RowLine(d: LbRow): string
  {
    Text.IntToStr(d.rowNum) + " | " + d.pp + " | " + d.name + "\n"
  }

  /** A separator goes before row index SIZE on page 0 and SIZE + 1 on other pages. */
  predicate SepBefore(page: nat, i: nat)
  {
    (i == SIZE && page == 0) || (i == SIZE + 1 && page != 0)
  }

  /** A separator goes after the first row of every page but page 0. */
  predicate SepAfter(page: nat, i: nat)
  {
    i == 0 && page != 0
  }

  function Piece(page: nat, i: nat, d: LbRow): string
  {
    (if SepBefore(page, i) then SEPARATOR else "") + RowLine(d) + (if SepAfter(page, i) then SEPARATOR else "")
  }

  /** The text of the first n rows of a page. */
  function PageText(page: nat, data: seq<LbRow>, n: nat): string
    requires n <= |data|
  {
    if n == 0 then "" else PageText(page, data, n - 1) + Piece(page, n - 1, data[n - 1])
  }

  /** `get_page`'s `for (i, d) in data.iter().enumerate()` loop. */
  method RenderPage(page: nat, data: seq<LbRow>) returns (output: string)
    ensures output == PageText(page, data, |data|)
  {
    output := "";
    var i := 0;
    while i < |data|
      invariant 0 <= i <= |data|
      invariant output == PageText(page, data, i)
      decreases |data| - i
    {
      PageTextStep(page, data, i);
      output := AppendRow(output, page, i, data[i]);
      i := i + 1;
    }
  }

  lemma PageTextStep(page: nat, data: seq<LbRow>, i: nat)
    requires i < |data|
    ensures PageText(page, data, i + 1) == PageText(page, data, i) + Piece(page, i, data[i])
  {
  }

  /** One iteration: the separator before, the row, the separator after. */
  method AppendRow(output0: string, page: nat, i: nat, d: LbRow) returns (output: string)
    ensures output == output0 + Piece(page, i, d)
  {
    output := output0;
    ghost var pre := if SepBefore(page, i) then SEPARATOR else "";
    ghost var post := if SepAfter(page, i) then SEPARATOR else "";
    if SepBefore(page, i) {
      output := output + SEPARATOR;
    }
    output := output + RowLine(d);
    if SepAfter(page, i) {
      output := output + SEPARATOR;
    }
    assert output == output0 + pre + RowLine(d) + post;
    ConcatAssoc(output0, pre, RowLine(d), post);
  }

  /** `get_page`'s window: page 0 reads SIZE + 1 rows, other pages SIZE + 2 from page * SIZE - 1. */
  function PageWindow(page: nat): (w: Pagination.Window)
    ensures page == 0 ==> w.limit == SIZE + 1 && w.offset == 0
    ensures page > 0 ==> w.limit == SIZE + 2 && w.offset == page * SIZE - 1
  {
    Pagination.OverlapWindow(SIZE, page)
  }

  /** Read against the absolute row numbers: the separator before a row marks the
      first row of the next page, the separator after a row marks the last row of
      the previous page, and the rows between them are exactly the page's own. */
  lemma SeparatorsMarkPageEdges(page: nat, i: nat)
    requires i < PageWindow(page).limit
    ensures var r := PageWindow(page).offset + i;
      (SepBefore(page, i) <==> r == (page + 1) * SIZE) &&
      (SepAfter(page, i) <==> page > 0 && r == page * SIZE - 1) &&
      (Pagination.Reads(Pagination.PlainWindow(SIZE, page), r) <==>
        r != (page + 1) * SIZE && !(page > 0 && r == page * SIZE - 1))
  {
    var w := PageWindow(page);
    var r := w.offset + i;
    assert (page + 1) * SIZE == page * SIZE + SIZE;
    Pagination.OverlapWindowRows(SIZE, page, r);
    if page > 0 {
      Pagination.Mul1(page, SIZE);
    }
  }

  lemma ConcatAssoc(a: string, b: string, c: string, d: string)
    ensures a + b + c + d == a + (b + c + d)
  {
  }

  // ---------------------------------------------------------------------------
  // get_scores

  datatype Score = Score(pp: string)
  datatype ScorePage = ScorePage(total: int, data: seq<Score>)

  /** The last page to fetch: the f64 `ceil(total / 100)` as integer ceiling division. */
  function LastPage(total: nat): (n: nat)
    ensures total > 0 ==> (n - 1) * 100 < total <= n * 100
  {
    var n := (total + 99) / 100;
    assert n * 100 <= total + 99 < n * 100 + 100;
    n
  }

  /** Pages lo .. hi-1 fetched in order and appended; the first failure is the result. */
  function Fetched(fetch: nat -> Result<ScorePage, string>, lo: nat, hi: nat): Result<seq<Score>, string>
    decreases hi - lo
  {
    if hi <= lo then Ok([])
    else
      var init := Fetched(fetch, lo, hi - 1);
      if init.Err? then init
      else if fetch(hi - 1).Err? then Err(fetch(hi - 1).error)
      else Ok(init.value + fetch(hi - 1).value.data)
  }

  /** What `get_scores` returns given the API's answer for each page number. */
  function Scores(fetch: nat -> Result<ScorePage, string>): Result<seq<Score>, string>
  {
    match fetch(1)
    case Err(e) => Err(e)
    case Ok(first) =>
      if first.total > 100 then
        var rest := Fetched(fetch, 2, LastPage(first.total) + 1);
        if rest.Err? then Err(rest.error) else Ok(first.data + rest.value)
      else Ok(first.data)
  }

  method GetScores(fetch: nat -> Result<ScorePage, string>) returns (r: Result<seq<Score>, string>)
    ensures r == Scores(fetch)
  {
    var first := fetch(1);
    if first.Err? {
      return Err(first.error);
    }
    var data := first.value.data;
    if first.value.total > 100 {
      var last := LastPage(first.value.total);
      var rest: seq<Score> := [];
      var i := 2;
      while i <= last
        invariant 2 <= i <= last + 1
        invariant Fetched(fetch, 2, i) == Ok(rest)
        invariant data == first.value.data + rest
        decreases last + 1 - i
      {
        var page := fetch(i);
        if page.Err? {
          FetchedStopsAtError(fetch, 2, i + 1, last + 1);
          return Err(page.error);
        }
        data := data + page.value.data;
        rest := rest + page.value.data;
        i := i + 1;
      }
    }
    r := Ok(data);
  }

  lemma {:induction false} FetchedStopsAtError(fetch: nat -> Result<ScorePage, string>, lo: nat, k: nat, hi: nat)
    requires lo <= k <= hi && Fetched(fetch, lo, k).Err?
    ensures Fetched(fetch, lo, hi) == Fetched(fetch, lo, k)
    decreases hi - k
  {
    if k < hi {
      FetchedStopsAtError(fetch, lo, k + 1, hi);
    }
  }

  /** When every page answers, the scores are the pages' data in page order. */
  lemma {:induction false} FetchedAllPages(fetch: nat -> Result<ScorePage, string>, lo: nat, hi: nat)
    requires lo <= hi
    requires forall k :: lo <= k < hi ==> fetch(k).Ok?
    ensures Fetched(fetch, lo, hi) == Ok(Seqs.Flatten(PageData(fetch, lo, hi)))
    decreases hi - lo
  {
    if lo < hi {
      FetchedAllPages(fetch, lo, hi - 1);
      var init := Fetched(fetch, lo, hi - 1);
      assert init == Ok(Seqs.Flatten(PageData(fetch, lo, hi - 1)));
      assert Fetched(fetch, lo, hi) == Ok(init.value + fetch(hi - 1).value.data);
      assert PageData(fetch, lo, hi) == PageData(fetch, lo, hi - 1) + [fetch(hi - 1).value.data];
      Seqs.FlattenAppend(PageData(fetch, lo, hi - 1), [fetch(hi - 1).value.data]);
      var d := fetch(hi - 1).value.data;
      assert [d][1..] == [];
      assert Seqs.Flatten([d]) == d + Seqs.Flatten([]);
      assert Seqs.Flatten<Score>([]) == [];
      calc {
        Seqs.Flatten(PageData(fetch, lo, hi));
        Seqs.Flatten(PageData(fetch, lo, hi - 1) + [d]);
        Seqs.Flatten(PageData(fetch, lo, hi - 1)) + Seqs.Flatten([d]);
        init.value + d;
      }
    }
  }

  function PageData(fetch: nat -> Result<ScorePage, string>, lo: nat, hi: nat): (r: seq<seq<Score>>)
    requires lo <= hi
    requires forall k :: lo <= k < hi ==> fetch(k).Ok?
    ensures |r| == hi - lo && forall j :: 0 <= j < hi - lo ==> r[j] == fetch(lo + j).value.data
  {
    seq(hi - lo, j requires 0 <= j < hi - lo => fetch(lo + j).value.data)
  }

  /** The first failing page, when every earlier one answered, decides the error. */
  lemma {:induction false} FetchedFirstError(fetch: nat -> Result<ScorePage, string>, lo: nat, k: nat, hi: nat)
    requires lo <= k < hi
    requires forall j :: lo <= j < k ==> fetch(j).Ok?
    requires fetch(k).Err?
    ensures Fetched(fetch, lo, hi) == Err(fetch(k).error)
  {
    FetchedAllPages(fetch, lo, k);
    assert Fetched(fetch, lo, k + 1) == Err(fetch(k).error);
    FetchedStopsAtError(fetch, lo, k + 1, hi);
  }

  /** Up to 100 scores only page 1 is fetched; beyond that, pages 2 ..= ceil(total / 100)
      follow, and a failure anywhere is the result. */
  lemma ScoresPages(fetch: nat -> Result<ScorePage, string>)
    ensures fetch(1).Err? ==> Scores(fetch) == Err(fetch(1).error)
    ensures fetch(1).Ok? && fetch(1).value.total <= 100 ==> Scores(fetch) == Ok(fetch(1).value.data)
    ensures fetch(1).Ok? && fetch(1).value.total > 100 &&
            (forall k :: 2 <= k <= LastPage(fetch(1).value.total) ==> fetch(k).Ok?) ==>
            Scores(fetch) == Ok(fetch(1).value.data + Seqs.Flatten(PageData(fetch, 2, LastPage(fetch(1).value.total) + 1)))
  {
    if fetch(1).Ok? && fetch(1).value.total > 100 &&
       (forall k :: 2 <= k <= LastPage(fetch(1).value.total) ==> fetch(k).Ok?) {
      FetchedAllPages(fetch, 2, LastPage(fetch(1).value.total) + 1);
    }
  }
}
