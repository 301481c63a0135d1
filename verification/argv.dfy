/**
  A decoder for the flat argument lists the adapter hands to borg.

  The adapter builds its option lists as plain lists of strings. To say what
  such a list MEANS, this module has its own decoder, a simplification of
  an argparse-style parser. A token that starts with `-` and names an
  option that takes a value consumes the next token, whatever it looks
  like. Any other token that starts with `-` is a switch, and everything
  else is a positional argument. The option builders are then specified by
  what their output decodes to.

  argparse itself is stricter about values: it rejects a value that starts
  with `-` and is not a negative number (`--prefix -x`). This decoder
  accepts such a value, so a decode lemma here says nothing about whether
  borg would accept the list.
 */
module Argv {
  import opened Text

  datatype Arg =
    | Opt(flag: string, value: string)
    | Switch(flag: string)
    | Pos(value: string)

  predicate OptionLike(t: string) {
    |t| > 0 && t[0] == '-'
  }

  /** The options used by the adapter that take a value (`--keep-<interval>` for any interval). */
  predicate TakesValue(flag: string) {
    || flag == "--remote-path" || flag == "--compression" || flag == "--exclude"
    || flag == "--prefix" || flag == "--glob-archives" || flag == "--sort-by"
    || flag == "--first" || flag == "--last" || flag == "--format"
    || StartsWith(flag, "--keep-")
  }

  /** A token whose third character is not `k` is not a `--keep-` option. */
  lemma NotKeepOption(f: string)
    requires |f| >= 3 && f[2] != 'k'
    ensures !StartsWith(f, "--keep-")
  {
  }

  /** Reads a token list left to right into arguments. */
  function Parse(ts: seq<string>): seq<Arg>
    decreases |ts|
  {
    if |ts| == 0 then []
    else if !OptionLike(ts[0]) then [Pos(ts[0])] + Parse(ts[1..])
    else if TakesValue(ts[0]) && |ts| >= 2 then [Opt(ts[0], ts[1])] + Parse(ts[2..])
    else [Switch(ts[0])] + Parse(ts[1..])
  }

  /** The tokens of one argument. */
  function Tokens(a: Arg): seq<string> {
    match a
    case Opt(f, v) => [f, v]
    case Switch(f) => [f]
    case Pos(v) => [v]
  }

  /** Writes arguments out as tokens. */
  function Render(args: seq<Arg>): seq<string>
    decreases |args|
  {
    if |args| == 0 then [] else Tokens(args[0]) + Render(args[1..])
  }

  /** An argument that `Parse` reads back as itself. */
  predicate WellFormed(a: Arg) {
    match a
    case Opt(f, _) => OptionLike(f) && TakesValue(f)
    case Switch(f) => OptionLike(f) && !TakesValue(f)
    case Pos(v) => !OptionLike(v)
  }

  predicate AllWellFormed(args: seq<Arg>) {
    forall i :: 0 <= i < |args| ==> WellFormed(args[i])
  }

  lemma {:induction false} RenderAppend(a: seq<Arg>, b: seq<Arg>)
    ensures Render(a + b) == Render(a) + Render(b)
    decreases |a|
  {
    if |a| == 0 {
      assert a + b == b;
    } else {
      assert (a + b)[0] == a[0];
      assert (a + b)[1..] == a[1..] + b;
      RenderAppend(a[1..], b);
    }
  }

  lemma RenderSingle(a: Arg)
    ensures Render([a]) == Tokens(a)
  {
    assert [a][1..] == [];
  }

  /** Decoding one well-formed argument in front of any tokens consumes exactly its tokens. */
  lemma ParseStep(a: Arg, tail: seq<string>)
    requires WellFormed(a)
    ensures Parse(Tokens(a) + tail) == [a] + Parse(tail)
  {
    match a
    case Opt(f, v) =>
      assert ([f, v] + tail)[2..] == tail;
    case Switch(f) =>
      assert ([f] + tail)[1..] == tail;
    case Pos(v) =>
      assert ([v] + tail)[1..] == tail;
  }

  /**
    Decoding is a left inverse of rendering, and it does not look past a
    well-formed prefix: whatever follows is decoded on its own.
   */
  lemma {:induction false} ParseRenderAppend(args: seq<Arg>, rest: seq<string>)
    requires AllWellFormed(args)
    ensures Parse(Render(args) + rest) == args + Parse(rest)
    decreases |args|
  {
    if |args| > 0 {
      var head, more := args[0], args[1..];
      var tail := Render(more) + rest;
      assert AllWellFormed(more) by {
        forall i | 0 <= i < |more| ensures WellFormed(more[i]) {
          assert more[i] == args[i + 1];
        }
      }
      calc {
        Parse(Render(args) + rest);
        { assert Render(args) + rest == Tokens(head) + tail; }
        Parse(Tokens(head) + tail);
        { ParseStep(head, tail); }
        [head] + Parse(tail);
        { ParseRenderAppend(more, rest); }
        [head] + (more + Parse(rest));
        { assert [head] + more == args; }
        args + Parse(rest);
      }
    } else {
      assert Render(args) + rest == rest;
    }
  }

  /** Round trip: well-formed arguments survive rendering and decoding unchanged. */
  lemma ParseRender(args: seq<Arg>)
    requires AllWellFormed(args)
    ensures Parse(Render(args)) == args
  {
    ParseRenderAppend(args, []);
    assert Render(args) + [] == Render(args);
  }

  /** The tokens of a list of positional arguments. */
  function Positionals(vs: seq<string>): (args: seq<Arg>)
    ensures |args| == |vs|
    ensures forall i :: 0 <= i < |vs| ==> args[i] == Pos(vs[i])
    ensures Render(args) == vs
    decreases |vs|
  {
    if |vs| == 0 then [] else [Pos(vs[0])] + Positionals(vs[1..])
  }

  /** One `flag value` option per value, in order. */
  function Repeated(flag: string, vs: seq<string>): (args: seq<Arg>)
    ensures |args| == |vs|
    ensures forall i :: 0 <= i < |vs| ==> args[i] == Opt(flag, vs[i])
    decreases |vs|
  {
    if |vs| == 0 then [] else [Opt(flag, vs[0])] + Repeated(flag, vs[1..])
  }

  /** `flag value` tokens for each value, as the loops of the option builders append them. */
  function Pairs(flag: string, vs: seq<string>): (ts: seq<string>)
    ensures |ts| == 2 * |vs|
    ensures ts == Render(Repeated(flag, vs))
    decreases |vs|
  {
    if |vs| == 0 then []
    else
      var rest := Pairs(flag, vs[1..]);
      assert Repeated(flag, vs)[1..] == Repeated(flag, vs[1..]);
      [flag, vs[0]] + rest
  }

  lemma AllWellFormedAppend(a: seq<Arg>, b: seq<Arg>)
    requires AllWellFormed(a) && AllWellFormed(b)
    ensures AllWellFormed(a + b)
  {
    forall i | 0 <= i < |a + b| ensures WellFormed((a + b)[i]) {
      if i >= |a| {
        assert (a + b)[i] == b[i - |a|];
      }
    }
  }

  lemma RepeatedWellFormed(flag: string, vs: seq<string>)
    requires OptionLike(flag) && TakesValue(flag)
    ensures AllWellFormed(Repeated(flag, vs))
  {
  }
}
