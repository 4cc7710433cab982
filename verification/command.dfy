/**
 The command value's metadata: interpolated arguments, their flattening into
 an argument vector, the options a command runs with, and the derivation of
 new commands by `in` (working directory) and `with` (environment).
 */
module Command {
  import opened Wrappers
  import Decimal

  /**
   The shell-word tokenizer applied to the template's literal segments. It is
   an external library; the model takes it as a parameter and assumes
   nothing about it beyond being a pure function.
   */
  type Tokenizer = string -> seq<string>

  /** An interpolated template argument. */
  datatype Arg =
    | Undefined
    | Str(s: string)
    | Num(n: Decimal.SafeInt)   // integer-valued numbers up to 2^53 in magnitude
    | Nested(sh: Sh)      // another command value
    | Array(items: seq<Arg>)

  /** `cwd` absent means the caller's own working directory. */
  datatype Options = Options(cwd: Option<string>, env: map<string, string>)

  /**
   A command value's metadata. `args` is resolved once, when the value is
   built; the template and its arguments are kept so that `in` and `with`
   can build a sibling.
   */
  datatype Sh = Sh(template: seq<string>, templateArgs: seq<Arg>, options: Options, args: seq<string>)

  /** Options of a command built directly from a template: empty environment, no cwd. */
  const DefaultOptions: Options := Options(None, map[])

  /** Flattens one interpolated argument into argument-vector tokens. */
  function Parse(a: Arg): (r: seq<string>)
    ensures a.Undefined? ==> |r| == 0
    ensures a.Str? ==> |r| == 1 && r[0] == a.s
    ensures a.Num? ==> |r| == 1 && Decimal.ReadInt(r[0]) == a.n
    ensures a.Nested? ==> r == a.sh.args
    decreases a
  {
    match a
    case Undefined => []
    case Str(s) => [s]
    case Num(n) =>
      Decimal.IntToStringRoundTrip(n);
      [Decimal.IntToString(n)]
    case Array(items) => ParseAll(items)
    case Nested(sh) => sh.args
  }

  /** `flatMap(parse)` over an array argument. */
  function ParseAll(items: seq<Arg>): seq<string>
    decreases items
  {
    if |items| == 0 then [] else Parse(items[0]) + ParseAll(items[1..])
  }

  /** The argument interpolated after template segment `i`; reading past the end gives undefined. */
  function ArgAt(templateArgs: seq<Arg>, i: nat): Arg
  {
    if i < |templateArgs| then templateArgs[i] else Undefined
  }

  /** What template segment `i` contributes: its tokens, then its argument's tokens. */
  function Segment(tokenize: Tokenizer, template: seq<string>, templateArgs: seq<Arg>, i: nat): seq<string>
    requires i < |template|
  {
    tokenize(template[i]) + Parse(ArgAt(templateArgs, i))
  }

  /** Segments `i` onwards, concatenated in template order. */
  function SegmentsFrom(tokenize: Tokenizer, template: seq<string>, templateArgs: seq<Arg>, i: nat): seq<string>
    requires i <= |template|
    decreases |template| - i
  {
    if i == |template| then []
    else Segment(tokenize, template, templateArgs, i) + SegmentsFrom(tokenize, template, templateArgs, i + 1)
  }

  lemma {:induction false} SegmentsFromSnoc(tokenize: Tokenizer, template: seq<string>, templateArgs: seq<Arg>, i: nat)
    requires i < |template|
    ensures SegmentsFrom(tokenize, template[..|template| - 1], templateArgs, i)
            + Segment(tokenize, template, templateArgs, |template| - 1)
            == SegmentsFrom(tokenize, template, templateArgs, i)
    decreases |template| - i
  {
    var pre := template[..|template| - 1];
    if i < |template| - 1 {
      assert Segment(tokenize, pre, templateArgs, i) == Segment(tokenize, template, templateArgs, i);
      SegmentsFromSnoc(tokenize, template, templateArgs, i + 1);
    }
  }

  /** The argument vector: the template's segments folded from the left, as the source's `reduce` does. */
  function Argv(tokenize: Tokenizer, template: seq<string>, templateArgs: seq<Arg>): (r: seq<string>)
    ensures r == SegmentsFrom(tokenize, template, templateArgs, 0)
    decreases |template|
  {
    if |template| == 0 then []
    else
      SegmentsFromSnoc(tokenize, template, templateArgs, 0);
      Argv(tokenize, template[..|template| - 1], templateArgs)
         + Segment(tokenize, template, templateArgs, |template| - 1)
  }

  /** The accumulating loop that resolves a command's argument vector. */
  method ResolveArgs(tokenize: Tokenizer, template: seq<string>, templateArgs: seq<Arg>) returns (acc: seq<string>)
    ensures acc == SegmentsFrom(tokenize, template, templateArgs, 0)
  {
    acc := [];
    var i := 0;
    while i < |template|
      invariant 0 <= i <= |template|
      invariant acc + SegmentsFrom(tokenize, template, templateArgs, i) == SegmentsFrom(tokenize, template, templateArgs, 0)
    {
      acc := acc + tokenize(template[i]);
      acc := acc + Parse(ArgAt(templateArgs, i));
      i := i + 1;
    }
  }

  /** A command's argument vector is the one its template resolves to. */
  predicate Resolved(tokenize: Tokenizer, sh: Sh) {
    sh.args == Argv(tokenize, sh.template, sh.templateArgs)
  }

  /** Builds a command value from a template, its arguments and options. */
  function MakeSh(tokenize: Tokenizer, template: seq<string>, templateArgs: seq<Arg>, options: Options): (sh: Sh)
    ensures sh.args == SegmentsFrom(tokenize, template, templateArgs, 0)
    ensures Resolved(tokenize, sh)
    ensures sh.options == options
  {
    Sh(template, templateArgs, options, Argv(tokenize, template, templateArgs))
  }

  /** The `$` template tag. */
  function Dollar(tokenize: Tokenizer, template: seq<string>, templateArgs: seq<Arg>): (sh: Sh)
    ensures Resolved(tokenize, sh)
    ensures sh.options.cwd == None && sh.options.env == map[]
  {
    MakeSh(tokenize, template, templateArgs, DefaultOptions)
  }

  /** `in(cwd)`: a sibling command that runs in `cwd`. */
  function In(tokenize: Tokenizer, sh: Sh, cwd: string): (r: Sh)
    ensures r.options.cwd == Some(cwd)
    ensures r.options.env == sh.options.env
    ensures r.template == sh.template && r.templateArgs == sh.templateArgs
    ensures Resolved(tokenize, sh) ==> r.args == sh.args
  {
    MakeSh(tokenize, sh.template, sh.templateArgs, sh.options.(cwd := Some(cwd)))
  }

  /** `with(env)`: a sibling command whose environment is exactly `env`. */
  function With(tokenize: Tokenizer, sh: Sh, env: map<string, string>): (r: Sh)
    ensures r.options.env == env
    ensures r.options.cwd == sh.options.cwd
    ensures r.template == sh.template && r.templateArgs == sh.templateArgs
    ensures Resolved(tokenize, sh) ==> r.args == sh.args
  {
    MakeSh(tokenize, sh.template, sh.templateArgs, sh.options.(env := env))
  }
}
