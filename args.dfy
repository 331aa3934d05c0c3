/**
 * shift_args of include/example.h: take the next command-line argument by
 * advancing the caller's argv pointer and decrementing argc.
 */
module Args {
  import opened Wrappers

  /** argc and the position *argv points at within the argument array. */
  datatype Cursor = Cursor(argc: int, pos: nat)

  /** How many arguments are left to shift. */
  function Remaining(c: Cursor): nat
  {
    if c.argc > 0 then c.argc else 0
  }

  /** The position just past the last argument left. */
  function End(c: Cursor): nat
  {
    c.pos + Remaining(c)
  }

  /**
   * shift_args on values: NULL and no change when argc <= 0, otherwise the
   * argument at the cursor, with the cursor one further and argc one less.
   */
  function Shift(vec: seq<string>, c: Cursor): (r: (Option<string>, Cursor))
    requires c.argc <= 0 || c.pos < |vec|
    ensures r.0.Some? <==> c.argc > 0
    ensures r.0.Some? ==> r.0.value == vec[c.pos]
    ensures Remaining(r.1) == if c.argc > 0 then Remaining(c) - 1 else Remaining(c)
    ensures End(r.1) == End(c)
  {
    if c.argc <= 0 then (None, c)
    else (Some(vec[c.pos]), Cursor(c.argc - 1, c.pos + 1))
  }

  /** The arguments returned by n successive calls. */
  function ShiftN(vec: seq<string>, c: Cursor, n: nat): (r: (seq<Option<string>>, Cursor))
    requires c.pos + (if c.argc > 0 then c.argc else 0) <= |vec|
    decreases n
  {
    if n == 0 then ([], c)
    else
      var (x, c') := Shift(vec, c);
      var (xs, c'') := ShiftN(vec, c', n - 1);
      ([x] + xs, c'')
  }

  /**
   * Starting from argc = n with the cursor at pos, n calls return the n
   * arguments from pos on, in order, and leave argc at 0; every further call
   * returns NULL.
   */
  lemma {:induction false} ShiftDrains(vec: seq<string>, pos: nat, n: nat, extra: nat)
    requires pos + n <= |vec|
    ensures var (xs, c) := ShiftN(vec, Cursor(n, pos), n + extra);
            && |xs| == n + extra
            && (forall k :: 0 <= k < n ==> xs[k] == Some(vec[pos + k]))
            && (forall k :: n <= k < n + extra ==> xs[k] == None)
            && c == Cursor(0, pos + n)
    decreases n + extra
  {
    if n > 0 {
      ShiftDrains(vec, pos + 1, n - 1, extra);
    } else if extra > 0 {
      ShiftDrains(vec, pos, 0, extra - 1);
    }
  }

  /** The argument vector seen through `int *argc` and `char ***argv`. */
  class ArgCursor {
    /** The argument array itself, which shift_args never writes. */
    const vec: seq<string>
    var argc: int
    /** The index into vec that *argv points at. */
    var pos: nat

    ghost predicate Valid()
      reads this
    {
      pos + (if argc > 0 then argc else 0) <= |vec|
    }

    function State(): Cursor
      reads this
    {
      Cursor(argc, pos)
    }

    /** The arguments of main: argv[0..argc). */
    constructor (argv: seq<string>)
      ensures Valid() && vec == argv && State() == Cursor(|argv|, 0)
    {
      vec := argv;
      argc := |argv|;
      pos := 0;
    }

    /** shift_args(&argc, &argv). */
    method ShiftArgs() returns (out: Option<string>)
      requires Valid()
      modifies this
      ensures Valid()
      ensures (out, State()) == Shift(vec, old(State()))
      ensures old(argc) <= 0 ==> out == None && argc == old(argc) && pos == old(pos)
      ensures old(argc) > 0 ==> out == Some(vec[old(pos)]) && pos == old(pos) + 1 && argc == old(argc) - 1
    {
      if argc <= 0 {
        return None;
      }
      out := Some(vec[pos]);
      pos := pos + 1;
      argc := argc - 1;
    }
  }
}
