/**
 * The process environment as `console_init` and `main` see it: choosing the
 * console device path and negotiating the TERM variable.
 */
module Env {
  import opened Wrappers

  type Environment = map<string, string>

  /** getenv: the value of `name`, or NULL when it is unset. */
  function Getenv(env: Environment, name: string): (v: Option<string>)
    ensures v.Some? <==> name in env
    ensures v.Some? ==> v.value == env[name]
  {
    if name in env then Some(env[name]) else None
  }

  /** The console device the BSD kernels leave unopened. */
  const DefaultConsole: string := "/dev/console"

  /** The first candidate that is present, if any. */
  function FirstPresent(candidates: seq<Option<string>>): (r: Option<string>)
    ensures r.Some? <==> exists i :: 0 <= i < |candidates| && candidates[i].Some?
    ensures r.Some? ==> exists i :: 0 <= i < |candidates| && candidates[i] == r &&
                                    forall j :: 0 <= j < i ==> candidates[j].None?
  {
    if candidates == [] then None
    else if candidates[0].Some? then candidates[0]
    else
      var r := FirstPresent(candidates[1..]);
      assert forall k :: 0 <= k < |candidates| - 1 ==> candidates[1..][k] == candidates[k + 1];
      r
  }

  /**
   * The device path `console_init` opens: the explicit argument, else $CONSOLE,
   * else $console, else (on FreeBSD only) /dev/console, else none.
   */
  function ConsolePath(tty: Option<string>, env: Environment, freeBsd: bool): (s: Option<string>)
    ensures s.None? <==> tty.None? && "CONSOLE" !in env && "console" !in env && !freeBsd
  {
    if tty.Some? then tty
    else
      var s := Getenv(env, "CONSOLE");
      var s := if s.None? then Getenv(env, "console") else s;
      if s.None? && freeBsd then Some(DefaultConsole) else s
  }

  /** The resolution order is a priority list: the first candidate present wins. */
  lemma ConsolePathIsFirstPresent(tty: Option<string>, env: Environment, freeBsd: bool)
    ensures ConsolePath(tty, env, freeBsd)
         == FirstPresent([tty, Getenv(env, "CONSOLE"), Getenv(env, "console"),
                          if freeBsd then Some(DefaultConsole) else None])
  {
    var c := [tty, Getenv(env, "CONSOLE"), Getenv(env, "console"),
              if freeBsd then Some(DefaultConsole) else None];
    assert c[1..][1..] == c[2..] && c[2..][1..] == c[3..] && c[3..][1..] == [];
    assert FirstPresent(c[3..]) == c[3];
    assert FirstPresent(c[2..]) == if c[2].Some? then c[2] else c[3];
    assert FirstPresent(c[1..]) == if c[1].Some? then c[1] else FirstPresent(c[2..]);
  }

  /** The outcome of asking whether standard input is a virtual console (VT_OPENQRY). */
  datatype VtQuery =
    | NoVtQuery      // the platform has no such query: the branch is compiled out
    | VtQueryOk      // the query succeeded: a Linux virtual console
    | VtQueryFails   // the query failed: probably a serial line

  const DefaultTerm: string := "linux"
  const SerialTerm: string := "vt102"

  /** The value TERM has after negotiation, given its value before. */
  function TermAfter(term: Option<string>, vt: VtQuery): (r: Option<string>)
    ensures r.Some?
    ensures term.Some? && term.value != DefaultTerm ==> r == term
    ensures term.None? || term == Some(DefaultTerm) ==>
              r == Some(if vt == VtQueryFails then SerialTerm else DefaultTerm)
  {
    match vt
    case VtQueryFails =>
      if term.None? || term == Some(DefaultTerm) then Some(SerialTerm) else term
    case _ =>
      if term.None? then Some(DefaultTerm) else term
  }

  /** Negotiating a second time changes nothing. */
  lemma TermAfterIdempotent(term: Option<string>, vt: VtQuery)
    ensures TermAfter(TermAfter(term, vt), vt) == TermAfter(term, vt)
  {
  }

  /** The environment after negotiation: only TERM may change, and it always ends up set. */
  function WithTerm(env: Environment, vt: VtQuery): (r: Environment)
    ensures "TERM" in r && Some(r["TERM"]) == TermAfter(Getenv(env, "TERM"), vt)
    ensures r.Keys == env.Keys + {"TERM"}
    ensures forall name :: name in env && name != "TERM" ==> r[name] == env[name]
  {
    env["TERM" := TermAfter(Getenv(env, "TERM"), vt).value]
  }

  /**
   * The environment a program receives through `main`'s `envp` after the
   * environment was changed with setenv: setenv replaces an existing entry in
   * the array `envp` points to, but adds a new entry to a fresh array that
   * `envp` does not see.
   */
  function EnvpView(initial: Environment, current: Environment): (r: Environment)
    ensures r.Keys == initial.Keys * current.Keys
    ensures forall name :: name in r ==> r[name] == current[name]
  {
    map name | name in initial && name in current :: current[name]
  }

  /** Seen through `envp`, a TERM that negotiation added is lost. */
  lemma EnvpViewDropsNewTerm(initial: Environment, vt: VtQuery)
    requires "TERM" !in initial
    ensures "TERM" in WithTerm(initial, vt)
    ensures "TERM" !in EnvpView(initial, WithTerm(initial, vt))
    ensures EnvpView(initial, WithTerm(initial, vt)) == initial
  {
    var e := EnvpView(initial, WithTerm(initial, vt));
    assert e.Keys == initial.Keys;
  }
}
