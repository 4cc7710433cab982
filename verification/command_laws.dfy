/**
 Laws of argument flattening, argument-vector resolution and option
 derivation for command values.
 */
module CommandLaws {
  import opened Wrappers
  import Decimal
  import Display
  import opened Command

  /** Strings, each interpolated as its own argument. */
  function Strs(ss: seq<string>): (r: seq<Arg>)
    ensures |r| == |ss|
    ensures forall i :: 0 <= i < |ss| ==> r[i] == Str(ss[i])
  {
    if |ss| == 0 then [] else [Str(ss[0])] + Strs(ss[1..])
  }

  /** Total number of tokens the items flatten to, counted from the back. */
  function TokenCount(items: seq<Arg>): nat
  {
    if |items| == 0 then 0
    else TokenCount(items[..|items| - 1]) + |Parse(items[|items| - 1])|
  }

  // ---- parse ----

  lemma ParseUndefinedIsEmpty()
    ensures Parse(Undefined) == []
  {
  }

  /** A string is one token, whatever spaces or quotes it holds. */
  lemma ParseStringVerbatim(s: string)
    ensures |Parse(Str(s))| == 1 && Parse(Str(s))[0] == s
  {
  }

  /** A number is one token: its decimal text, which reads back as the number. */
  lemma ParseNumberDecimal(n: Decimal.SafeInt)
    ensures |Parse(Num(n))| == 1
    ensures Decimal.ReadInt(Parse(Num(n))[0]) == n
  {
    Decimal.IntToStringRoundTrip(n);
  }

  /**
   A nested command contributes its resolved argument vector, not its
   display text: the two coincide only for a one-token vector.
   */
  lemma ParseNestedIsArgs(sh: Sh)
    ensures Parse(Nested(sh)) == sh.args
    ensures |sh.args| != 1 ==> Parse(Nested(sh)) != [Display.ToString(sh.args)]
    ensures |sh.args| == 1 ==> Parse(Nested(sh)) == [Display.ToString(sh.args)]
  {
  }

  /** Flattening an array distributes over concatenation of its items. */
  lemma {:induction false} ParseAllAppend(xs: seq<Arg>, ys: seq<Arg>)
    ensures ParseAll(xs + ys) == ParseAll(xs) + ParseAll(ys)
  {
    if |xs| == 0 {
      assert xs + ys == ys;
    } else {
      assert (xs + ys)[0] == xs[0];
      assert (xs + ys)[1..] == xs[1..] + ys;
      ParseAllAppend(xs[1..], ys);
    }
  }

  /** An array flattens to its items' tokens, item by item, in order. */
  lemma ParseArrayInOrder(xs: seq<Arg>, i: nat)
    requires i < |xs|
    ensures Parse(Array(xs)) == ParseAll(xs[..i]) + Parse(xs[i]) + ParseAll(xs[i + 1..])
  {
    assert xs == xs[..i] + ([xs[i]] + xs[i + 1..]);
    ParseAllAppend(xs[..i], [xs[i]] + xs[i + 1..]);
    assert ([xs[i]] + xs[i + 1..])[1..] == xs[i + 1..];
  }

  /** The length of a flattened array is the sum of its items' lengths. */
  lemma {:induction false} ParseArrayLength(xs: seq<Arg>)
    ensures |Parse(Array(xs))| == TokenCount(xs)
  {
    if |xs| > 0 {
      var init := xs[..|xs| - 1];
      var last := xs[|xs| - 1];
      assert xs == init + [last];
      ParseAllAppend(init, [last]);
      assert ParseAll([last]) == Parse(last) + ParseAll([]);
      ParseArrayLength(init);
    }
  }

  /** An array of strings flattens to exactly those strings. */
  lemma ParseStrings(ss: seq<string>)
    ensures Parse(Array(Strs(ss))) == ss
  {
    ParseAllStrs(ss);
  }

  lemma {:induction false} ParseAllStrs(ss: seq<string>)
    ensures ParseAll(Strs(ss)) == ss
  {
    if |ss| > 0 {
      var xs := Strs(ss);
      assert xs[0] == Str(ss[0]) && xs[1..] == Strs(ss[1..]);
      ParseAllStrs(ss[1..]);
      assert ParseAll(xs) == Parse(xs[0]) + ParseAll(xs[1..]);
      assert [ss[0]] + ss[1..] == ss;
    }
  }

  /** Interpolating a command is the same as interpolating its arguments one by one. */
  lemma NestedSameAsDirect(sh: Sh)
    ensures Parse(Nested(sh)) == Parse(Array(Strs(sh.args)))
  {
    ParseStrings(sh.args);
  }

  // ---- argument vector ----

  /** The loop that resolves the vector computes the command's `args`. */
  method ResolveArgsIsArgv(tokenize: Tokenizer, template: seq<string>, templateArgs: seq<Arg>) returns (acc: seq<string>)
    ensures acc == Argv(tokenize, template, templateArgs)
    ensures acc == MakeSh(tokenize, template, templateArgs, DefaultOptions).args
  {
    acc := ResolveArgs(tokenize, template, templateArgs);
  }

  /** In a template literal the last segment has no argument: it adds its tokens only. */
  lemma LastSegmentTokensOnly(tokenize: Tokenizer, template: seq<string>, templateArgs: seq<Arg>)
    requires |template| == |templateArgs| + 1
    ensures Argv(tokenize, template, templateArgs)
            == Argv(tokenize, template[..|templateArgs|], templateArgs) + tokenize(template[|templateArgs|])
  {
    var last := |templateArgs|;
    SegmentsFromSnoc(tokenize, template, templateArgs, 0);
    SegmentPastArgs(tokenize, template, templateArgs, last);
  }

  /** A segment with no interpolated argument contributes its literal tokens only. */
  lemma SegmentPastArgs(tokenize: Tokenizer, template: seq<string>, templateArgs: seq<Arg>, i: nat)
    requires |templateArgs| <= i < |template|
    ensures Segment(tokenize, template, templateArgs, i) == tokenize(template[i])
  {
    assert Parse(ArgAt(templateArgs, i)) == [];
  }

  /** A template literal with one interpolation: `p${x}q`. */
  lemma OneInterpolation(tokenize: Tokenizer, p: string, x: Arg, q: string)
    ensures Dollar(tokenize, [p, q], [x]).args == tokenize(p) + Parse(x) + tokenize(q)
  {
    var t := [p, q];
    assert t[..1] == [p];
    assert t[..1][..0] == [];
    assert Argv(tokenize, t[..1], [x]) == tokenize(p) + Parse(x);
    LastSegmentTokensOnly(tokenize, t, [x]);
  }

  /** `echo -n ${'Hello "Mr White"'}`: the string stays one argument. */
  lemma EscapeArgsExample(tokenize: Tokenizer)
    requires tokenize("echo -n ") == ["echo", "-n"] && tokenize("") == []
    ensures Dollar(tokenize, ["echo -n ", ""], [Str("Hello \"Mr White\"")]).args
            == ["echo", "-n", "Hello \"Mr White\""]
  {
    OneInterpolation(tokenize, "echo -n ", Str("Hello \"Mr White\""), "");
  }

  /** `echo -n ${['Hello', 'world']}`: one argument per element. */
  lemma ArrayExample(tokenize: Tokenizer)
    requires tokenize("echo -n ") == ["echo", "-n"] && tokenize("") == []
    ensures Dollar(tokenize, ["echo -n ", ""], [Array([Str("Hello"), Str("world")])]).args
            == ["echo", "-n", "Hello", "world"]
  {
    OneInterpolation(tokenize, "echo -n ", Array([Str("Hello"), Str("world")]), "");
    ParseStrings(["Hello", "world"]);
    assert Strs(["Hello", "world"]) == [Str("Hello"), Str("world")];
  }

  /** `echo -n ${$`Hello ${'world of "sh"'}`}`: the inner command's arguments are spliced in. */
  lemma NestedExample(tokenize: Tokenizer)
    requires tokenize("echo -n ") == ["echo", "-n"] && tokenize("Hello ") == ["Hello"] && tokenize("") == []
    ensures var inner := Dollar(tokenize, ["Hello ", ""], [Str("world of \"sh\"")]);
            Dollar(tokenize, ["echo -n ", ""], [Nested(inner)]).args
            == ["echo", "-n", "Hello", "world of \"sh\""]
  {
    var inner := Dollar(tokenize, ["Hello ", ""], [Str("world of \"sh\"")]);
    OneInterpolation(tokenize, "Hello ", Str("world of \"sh\""), "");
    OneInterpolation(tokenize, "echo -n ", Nested(inner), "");
  }

  // ---- options ----

  /** `in` changes the working directory only: the last `in` wins. */
  lemma InLastWins(tokenize: Tokenizer, sh: Sh, a: string, b: string)
    ensures In(tokenize, In(tokenize, sh, a), b) == In(tokenize, sh, b)
  {
  }

  /** `with` replaces the whole environment: chained calls keep only the last one. */
  lemma WithReplaces(tokenize: Tokenizer, sh: Sh, a: map<string, string>, b: map<string, string>)
    ensures With(tokenize, With(tokenize, sh, a), b) == With(tokenize, sh, b)
    ensures forall k :: k in a && k !in b ==> k !in With(tokenize, With(tokenize, sh, a), b).options.env
  {
  }

  /** `in` and `with` touch different options, so their order does not matter. */
  lemma InWithCommute(tokenize: Tokenizer, sh: Sh, cwd: string, env: map<string, string>)
    ensures In(tokenize, With(tokenize, sh, env), cwd) == With(tokenize, In(tokenize, sh, cwd), env)
  {
  }

  /** Deriving with `in` or `with` keeps the argument vector of any command built by `$`. */
  lemma DerivedKeepArgs(tokenize: Tokenizer, template: seq<string>, templateArgs: seq<Arg>, cwd: string, env: map<string, string>)
    ensures var sh := Dollar(tokenize, template, templateArgs);
            && In(tokenize, sh, cwd).args == sh.args
            && With(tokenize, sh, env).args == sh.args
            && In(tokenize, sh, cwd).options == Options(Some(cwd), map[])
            && With(tokenize, sh, env).options == Options(None, env)
  {
  }

  /** The override test: `with({hello, something}).with({hello: 'moon'})` leaves only `hello=moon`. */
  lemma WithOverrideExample(tokenize: Tokenizer, sh: Sh)
    ensures With(tokenize, With(tokenize, sh, map["hello" := "world", "something" := "else"]), map["hello" := "moon"]).options.env
            == map["hello" := "moon"]
  {
  }
}
