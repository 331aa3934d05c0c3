/**
 * ape_cmd_render: the one-line form of a command written to the log before it
 * is spawned. Arguments are separated by single spaces, an argument holding a
 * space is wrapped in single quotes, and rendering stops at the first NULL
 * item. The text is appended to the caller's string builder, which is not
 * cleared first.
 */
module Render {
  import opened Wrappers
  import opened DynArray

  /** An argument as it is written: quoted when it contains a space. */
  function Word(a: string): (w: string)
    ensures ' ' in a ==> |w| == |a| + 2 && w[0] == '\'' && w[|w| - 1] == '\'' && w[1..|w| - 1] == a
    ensures ' ' !in a ==> w == a
  {
    if ' ' in a then "'" + a + "'" else a
  }

  /** What the render loop appends for one argument: a separating space unless it is the first, then the word. */
  function Piece(a: string, first: bool): string
  {
    if first then Word(a) else " " + Word(a)
  }

  /** The arguments joined by single spaces, built from the back as the render loop does. */
  function Joined(args: seq<string>): string
  {
    if args == [] then ""
    else if |args| == 1 then Word(args[0])
    else Joined(args[..|args| - 1]) + " " + Word(args[|args| - 1])
  }

  /** The number of items before the first NULL item. */
  function NullPrefix(items: seq<Option<string>>): (n: nat)
    ensures n <= |items|
    ensures forall k :: 0 <= k < n ==> items[k].Some?
    ensures n < |items| ==> items[n].None?
  {
    if items == [] || items[0].None? then 0
    else
      var n := 1 + NullPrefix(items[1..]);
      assert forall k :: 1 <= k < n ==> items[k] == items[1..][k - 1];
      n
  }

  /** The strings of a run of non-NULL items. */
  function Values(items: seq<Option<string>>): (vs: seq<string>)
    requires forall k :: 0 <= k < |items| ==> items[k].Some?
    ensures |vs| == |items|
    ensures forall k :: 0 <= k < |vs| ==> Some(vs[k]) == items[k]
  {
    if items == [] then []
    else Values(items[..|items| - 1]) + [items[|items| - 1].value]
  }

  /** The text ape_cmd_render appends for these items. */
  function RenderText(items: seq<Option<string>>): string
  {
    Joined(Values(items[..NullPrefix(items)]))
  }

  /** ape_cmd_render: the loop over the items, appending into `render`. */
  method CmdRender(items: seq<Option<string>>, render: Vec<char>)
    requires render.Valid()
    modifies render
    ensures render.Valid()
    ensures render.items == old(render.items) + RenderText(items)
  {
    ghost var n := NullPrefix(items);
    ghost var text := "";
    var i := 0;
    while i < |items|
      invariant 0 <= i <= n
      invariant render.Valid()
      invariant render.items == old(render.items) + text
      invariant text == Joined(Values(items[..i]))
    {
      var arg := items[i];
      if arg.None? {
        break;
      }
      assert i != n;
      RenderStep(items, i);
      AppendArg(render, arg.value, i == 0);
      Assoc(old(render.items), text, Piece(arg.value, i == 0));
      text := text + Piece(arg.value, i == 0);
      i := i + 1;
    }
    RenderDone(items, i);
  }

  /** The loop ends at the first NULL item or at the end: it has then rendered RenderText. */
  lemma RenderDone(items: seq<Option<string>>, i: nat)
    requires i <= NullPrefix(items)
    requires i == |items| || items[i].None?
    ensures Joined(Values(items[..i])) == RenderText(items)
  {
  }

  /** The body of the render loop for one argument: a separating space unless it is the first, then the word. */
  method AppendArg(render: Vec<char>, a: string, first: bool)
    requires render.Valid()
    modifies render
    ensures render.Valid()
    ensures render.items == old(render.items) + Piece(a, first)
  {
    if !first {
      render.AppendMany(" ");
    }
    ghost var mid := render.items;
    if ' ' !in a {
      render.AppendMany(a);
    } else {
      render.Append('\'');
      render.AppendMany(a);
      render.Append('\'');
      Assoc(mid + "'", a, "'");
      Assoc(mid, "'", a + "'");
      Assoc("'", a, "'");
    }
    if !first {
      Assoc(old(render.items), " ", Word(a));
    }
  }

  /** One turn of the render loop: a separator after the first item, then the word. */
  lemma RenderStep(items: seq<Option<string>>, i: nat)
    requires i < NullPrefix(items)
    ensures Joined(Values(items[..i + 1]))
         == Joined(Values(items[..i])) + Piece(items[i].value, i == 0)
  {
    assert items[..i + 1][..i] == items[..i];
    var vs, v := Values(items[..i + 1]), items[i].value;
    assert vs == Values(items[..i]) + [v];
    if i == 0 {
      assert vs == [v];
      assert "" + Word(v) == Word(v);
    } else {
      assert vs[..|vs| - 1] == Values(items[..i]);
      Assoc(Joined(Values(items[..i])), " ", Word(v));
    }
  }

  /** Joined, read from the front: the first word, then a space before the rest. */
  lemma {:induction false} JoinedCons(a: string, rest: seq<string>)
    ensures Joined([a] + rest) == Word(a) + (if rest == [] then "" else " " + Joined(rest))
    decreases |rest|
  {
    if |rest| > 1 {
      var all := [a] + rest;
      assert all[..|all| - 1] == [a] + rest[..|rest| - 1];
      JoinedCons(a, rest[..|rest| - 1]);
      var j, w := Joined(rest[..|rest| - 1]), Word(rest[|rest| - 1]);
      Assoc(Word(a), " " + j, " ");
      Assoc(Word(a), (" " + j) + " ", w);
      Assoc(" ", j, " ");
      Assoc(" ", j + " ", w);
    } else if |rest| == 1 {
      assert ([a] + rest)[..1] == [a];
    }
  }

  /** The index of the first c in s, or |s|. */
  function IndexOf(s: string, c: char): (k: nat)
    ensures k <= |s|
    ensures forall j :: 0 <= j < k ==> s[j] != c
    ensures k < |s| ==> s[k] == c
  {
    if s == [] || s[0] == c then 0
    else
      var k := 1 + IndexOf(s[1..], c);
      assert forall j :: 1 <= j < k ==> s[j] == s[1..][j - 1];
      k
  }

  /** The first argument of a rendered line, and the text after it. */
  function FirstWord(s: string): (r: (string, string))
    requires s != []
    ensures |r.1| <= |s|
  {
    if s[0] == '\'' then
      var k := IndexOf(s[1..], '\'');
      (s[1..][..k], if k + 1 < |s| then s[k + 2..] else [])
    else
      var k := IndexOf(s, ' ');
      (s[..k], s[k..])
  }

  /** Reads a rendered command line back into its arguments. */
  function ParseLine(s: string): seq<string>
    decreases |s|
  {
    if s == [] then []
    else
      var (w, rest) := FirstWord(s);
      if rest == [] then [w] else [w] + ParseLine(rest[1..])
  }

  /** An argument the log line can carry unambiguously: non-empty and without a single quote. */
  predicate Plain(a: string)
  {
    a != [] && '\'' !in a
  }

  lemma FirstWordOfWord(a: string, t: string)
    requires Plain(a)
    ensures FirstWord(Word(a) + t) == (a, t) || (t != [] && t[0] != ' ' && ' ' !in a)
  {
    var s := Word(a) + t;
    if ' ' in a {
      assert s[1..] == a + "'" + t;
      var k := IndexOf(s[1..], '\'');
      assert s[1..][|a|] == '\'';
      assert k == |a|;
      assert s[1..][..k] == a;
      assert s[k + 2..] == t;
    } else {
      var k := IndexOf(s, ' ');
      if t != [] && t[0] == ' ' {
        assert s[|a|] == ' ';
        assert k == |a|;
        assert s[..k] == a && s[k..] == t;
      } else if t == [] {
        assert s == a;
      }
    }
  }

  /**
   * The log line is unambiguous for plain arguments: reading it back gives
   * the command's arguments, so quoting keeps an argument with a space whole.
   */
  lemma {:induction false} ParseRender(args: seq<string>)
    requires args != []
    requires forall k :: 0 <= k < |args| ==> Plain(args[k])
    ensures ParseLine(Joined(args)) == args
    decreases |args|
  {
    var a, rest := args[0], args[1..];
    assert args == [a] + rest;
    JoinedCons(a, rest);
    if rest == [] {
      FirstWordOfWord(a, "");
      assert Word(a) + "" == Word(a);
    } else {
      var t := " " + Joined(rest);
      FirstWordOfWord(a, t);
      assert Word(a) + t == Joined(args);
      assert t[1..] == Joined(rest);
      ParseRender(rest);
    }
  }

  /** A NULL item ends the line: nothing after it is rendered. */
  lemma RenderStopsAtNull(before: seq<string>, after: seq<Option<string>>)
    ensures RenderText(Lift(before) + [None] + after) == Joined(before)
  {
    var items := Lift(before) + [None] + after;
    assert items[|before|] == None;
    assert forall k :: 0 <= k < |before| ==> items[k] == Some(before[k]);
    assert NullPrefix(items) == |before|;
    assert Values(items[..|before|]) == before;
  }

  /** The items of a command that holds no NULL. */
  function Lift(args: seq<string>): (items: seq<Option<string>>)
    ensures |items| == |args|
    ensures forall k :: 0 <= k < |args| ==> items[k] == Some(args[k])
  {
    seq(|args|, k requires 0 <= k < |args| => Some(args[k]))
  }
}
