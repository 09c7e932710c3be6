/** The small macros of src/macros.rs: `env!`, `once_cell!`, the URL built by
    `api!`, `not_match!` and `rt!`. The process environment is a parameter. */
module Macros {
  import opened Wrappers
  import opened CoreTypes
  import Text

  // ---------------------------------------------------------------------------
  // env!

  /** `env!("NAME")`: the variable's value; an unset variable panics with
      "NAME is not present" (here the Err case). */
  function EnvRequired(env: map<string, string>, name: string): (r: Result<string, string>)
    ensures name in env ==> r == Ok(env[name])
    ensures name !in env ==> r == Err(name + " is not present")
  {
    if name in env then Ok(env[name]) else Err(name + " is not present")
  }

  /** `env!("NAME", "default")`. */
  function EnvOr(env: map<string, string>, name: string, default: string): (r: string)
    ensures name in env ==> r == env[name]
    ensures name !in env ==> r == default
  {
    if name in env then env[name] else default
  }

  /** The two forms agree: the defaulting form yields the default exactly where the
      required form fails, and the same value elsewhere. */
  lemma EnvFormsAgree(env: map<string, string>, name: string, default: string)
    ensures EnvRequired(env, name).Ok? ==> EnvOr(env, name, default) == EnvRequired(env, name).value
    ensures EnvRequired(env, name).Err? <==> (name !in env)
    ensures EnvRequired(env, name).Err? ==> EnvOr(env, name, default) == default
  {
  }

  // ---------------------------------------------------------------------------
  // once_cell!

  datatype SetError = AlreadyInitialized

  /** The `static` tokio `OnceCell` that `once_cell!` declares, with its getter. */
  class OnceCell<T> {
    var value: Option<T>
    /** How many times a value has been written: never more than once. */
    ghost var writes: nat

    ghost predicate Valid()
      reads this
    {
      writes <= 1 && (value.Some? <==> writes == 1)
    }

    /** `OnceCell::const_new()`: empty. */
    constructor()
      ensures Valid() && value == None && writes == 0
    {
      value := None;
      writes := 0;
    }

    /** `CELL.set(v)`: succeeds only on an empty cell; call sites propagate the error. */
    method Set(v: T) returns (r: Outcome<SetError>)
      requires Valid()
      modifies this
      ensures Valid()
      ensures old(value).None? ==> value == Some(v) && r == Pass
      ensures old(value).Some? ==> value == old(value) && writes == old(writes) && r == Fail(AlreadyInitialized)
    {
      if value.None? {
        value := Some(v);
        writes := writes + 1;
        r := Pass;
      } else {
        r := Fail(AlreadyInitialized);
      }
    }

    /** The plain getter `fun()`: fails (panics) with "fun has not yet been initialized"
        before the cell is set, and returns the stored value after. */
    method Get(fun: string) returns (r: Result<T, string>)
      ensures value.Some? ==> r == Ok(value.value)
      ensures value.None? ==> r == Err(fun + " has not yet been initialized")
    {
      if value.Some? {
        r := Ok(value.value);
      } else {
        r := Err(fun + " has not yet been initialized");
      }
    }

    /** The lazy getter `fun().await`: `get_or_init` stores the initialiser's result on
        first use only; every call returns the one stored value. */
    method GetOrInit(init: T) returns (r: T)
      requires Valid()
      modifies this
      ensures Valid() && value == Some(r)
      ensures old(value).Some? ==> r == old(value).value && writes == old(writes)
      ensures old(value).None? ==> r == init
    {
      if value.None? {
        value := Some(init);
        writes := writes + 1;
      }
      r := value.value;
    }
  }

  // ---------------------------------------------------------------------------
  // api!

  datatype Param = Param(name: string, value: string)

  /** The query part: "name=value&" per parameter, in declaration order. */
  function QueryString(ps: seq<Param>): (q: string)
  {
    if |ps| == 0 then "" else ps[0].name + "=" + ps[0].value + "&" + QueryString(ps[1..])
  }

  /** The request URL of an `api!` endpoint: base, then endpoint, then "?" and the
      query when the endpoint declares a parameter block. Values are inserted as
      they are, without percent-encoding. */
  function ApiUrl(base: string, endpoint: string, params: Option<seq<Param>>): (url: string)
    ensures |url| >= |base + endpoint| && url[..|base + endpoint|] == base + endpoint
    ensures params.None? ==> url == base + endpoint
    ensures params.Some? ==>
      (|url| > |base + endpoint| && url[|base + endpoint|] == '?' &&
       url[|base + endpoint| + 1..] == QueryString(params.value))
  {
    var head := base + endpoint;
    if params.None? then head else head + "?" + QueryString(params.value)
  }

  /** Reading a query string back: split on '&', drop the piece after the trailing
      '&', split each piece at its '='. */
  function ParseQuery(q: string): (ps: seq<Param>)
  {
    var pieces := Text.Split(q, '&');
    seq(|pieces| - 1, i requires 0 <= i < |pieces| - 1 => PairOf(pieces[i]))
  }

  function PairOf(piece: string): (p: Param)
  {
    var xs := Text.Split(piece, '=');
    Param(xs[0], if |xs| > 1 then xs[1] else "")
  }

  function Pieces(ps: seq<Param>): (r: seq<string>)
    ensures |r| == |ps|
    ensures forall i :: 0 <= i < |ps| ==> r[i] == ps[i].name + "=" + ps[i].value
  {
    if |ps| == 0 then [] else [ps[0].name + "=" + ps[0].value] + Pieces(ps[1..])
  }

  predicate Plain(s: string)
  {
    '&' !in s && '=' !in s
  }

  lemma {:induction false} QueryStringIsJoin(ps: seq<Param>)
    ensures QueryString(ps) == Text.Join(Pieces(ps) + [""], "&")
  {
    if |ps| > 0 {
      QueryStringIsJoin(ps[1..]);
      assert (Pieces(ps) + [""])[1..] == Pieces(ps[1..]) + [""];
    }
  }

  lemma SplitQuery(ps: seq<Param>)
    requires forall i :: 0 <= i < |ps| ==> Plain(ps[i].name) && Plain(ps[i].value)
    ensures Text.Split(QueryString(ps), '&') == Pieces(ps) + [""]
  {
    QueryStringIsJoin(ps);
    PlainPieces(ps);
    Text.SplitJoin(Pieces(ps) + [""], '&');
  }

  lemma PlainPieces(ps: seq<Param>)
    requires forall i :: 0 <= i < |ps| ==> Plain(ps[i].name) && Plain(ps[i].value)
    ensures forall i :: 0 <= i < |Pieces(ps) + [""]| ==> '&' !in (Pieces(ps) + [""])[i]
  {
    var parts := Pieces(ps) + [""];
    forall i | 0 <= i < |parts|
      ensures '&' !in parts[i]
    {
      if i < |ps| {
        PlainPiece(ps[i].name, ps[i].value);
      }
    }
  }

  lemma PlainPiece(n: string, v: string)
    requires Plain(n) && Plain(v)
    ensures '&' !in n + "=" + v
  {
  }

  lemma PairOfPiece(n: string, v: string)
    requires Plain(n) && Plain(v)
    ensures PairOf(n + "=" + v) == Param(n, v)
  {
    assert Text.Join([n, v], ['=']) == n + "=" + v;
    Text.SplitJoin([n, v], '=');
  }

  /** Query strings round-trip when no name or value contains '&' or '='; nothing
      escapes those characters, so a value holding one would be misread. */
  lemma ParseQueryString(ps: seq<Param>)
    requires forall i :: 0 <= i < |ps| ==> Plain(ps[i].name) && Plain(ps[i].value)
    ensures ParseQuery(QueryString(ps)) == ps
  {
    SplitQuery(ps);
    var pieces := Pieces(ps) + [""];
    var r := ParseQuery(QueryString(ps));
    assert |r| == |ps|;
    forall i | 0 <= i < |ps|
      ensures r[i] == ps[i]
    {
      assert r[i] == PairOf(pieces[i]);
      PairOfPiece(ps[i].name, ps[i].value);
    }
  }

  /** A value containing '&' does not survive: the URL is ambiguous. */
  lemma UnescapedValueMisread()
    ensures ParseQuery(QueryString([Param("q", "a&b")])) != [Param("q", "a&b")]
  {
    var q := QueryString([Param("q", "a&b")]);
    assert q == "q=a&b&";
    var pieces := Text.Split(q, '&');
    assert |pieces| == 3 by {
      assert q == "q=a" + ['&'] + ("b" + ['&'] + "");
      Text.SplitAfterSep("q=a", '&', "b&");
      assert "b&" == "b" + ['&'] + "";
      Text.SplitAfterSep("b", '&', "");
    }
  }

  // ---------------------------------------------------------------------------
  // not_match!

  /** `not_match!(v, pat, block)`: block's result when v does not match pat, else
      the enclosing code carries on (`otherwise`). */
  function NotMatch<T>(matches: bool, block: T, otherwise: T): (r: T)
    ensures !matches ==> r == block
    ensures matches ==> r == otherwise
  {
    if matches then otherwise else block
  }

  /** Two nested `not_match!` around an early `return` skip the rest exactly when
      neither pattern matches: the code after them runs iff a || b. */
  lemma NestedNotMatch<T>(a: bool, b: bool, stop: T, go: T)
    ensures NotMatch(a, NotMatch(b, stop, go), go) == if a || b then go else stop
  {
  }

  // ---------------------------------------------------------------------------
  // rt!

  /** `rt!(fw, |m| block)`: the closure pushed is owned by the module whose hook runs. */
  function Rt(queue: seq<Task>, self: Kind, prep: Prep): (r: seq<Task>)
    ensures |r| == |queue| + 1 && r[..|queue|] == queue
    ensures r[|queue|].owner == self && r[|queue|].prep == prep
  {
    queue + [Task(self, prep)]
  }
}
