/**
 The human-readable text of a command (`toString` of a command value): the
 executable bare, every later argument wrapped in double quotes with each
 `"` inside it written as `\"`, all separated by single spaces.
 */
module Display {
  import opened Wrappers

  /** Number of `"` characters in `s`. */
  function QuoteCount(s: string): nat
  {
    if |s| == 0 then 0 else (if s[0] == '"' then 1 else 0) + QuoteCount(s[1..])
  }

  /** Writes each `"` of `s` as `\"`; every other character is kept. */
  function Escape(s: string): (r: string)
    ensures |r| == |s| + QuoteCount(s)
    ensures QuoteCount(s) == 0 ==> r == s
    ensures forall i :: 0 <= i < |r| && r[i] == '"' ==> 0 < i && r[i - 1] == '\\'
    ensures |s| > 0 ==> |r| > 0 && r[0] != '"'
  {
    if |s| == 0 then ""
    else (if s[0] == '"' then "\\\"" else [s[0]]) + Escape(s[1..])
  }

  /** Turns each `\"` back into `"`; every other character is kept. */
  function Unescape(s: string): string
  {
    if |s| == 0 then ""
    else if |s| >= 2 && s[0] == '\\' && s[1] == '"' then "\"" + Unescape(s[2..])
    else [s[0]] + Unescape(s[1..])
  }

  lemma {:induction false} EscapeRoundTrip(s: string)
    ensures Unescape(Escape(s)) == s
  {
    if |s| > 0 {
      var t := Escape(s[1..]);
      EscapeRoundTrip(s[1..]);
      if s[0] == '"' {
        assert Escape(s) == "\\\"" + t;
        assert ("\\\"" + t)[2..] == t;
      } else {
        assert Escape(s) == [s[0]] + t;
        assert ([s[0]] + t)[1..] == t;
      }
    }
  }

  /** One argument after the executable, as it is displayed. */
  function Quote(s: string): string
  {
    "\"" + Escape(s) + "\""
  }

  function QuoteAll(ss: seq<string>): (r: seq<string>)
    ensures |r| == |ss|
    ensures forall i :: 0 <= i < |ss| ==> r[i] == Quote(ss[i])
  {
    if |ss| == 0 then [] else [Quote(ss[0])] + QuoteAll(ss[1..])
  }

  /** The words joined with single spaces. */
  function Join(words: seq<string>): string
  {
    if |words| == 0 then ""
    else if |words| == 1 then words[0]
    else words[0] + " " + Join(words[1..])
  }

  /** The argument vectors whose display text `ReadDisplay` reads back. */
  predicate Readable(args: seq<string>) {
    && |args| >= 1
    && !HasSpace(args[0])
    && forall i :: 1 <= i < |args| ==> !EndsWithBackslash(args[i])
  }

  /**
   The display text of an argument vector. It starts with the executable,
   bare, and determines the vector whenever the vector is `Readable`.
   */
  function ToString(args: seq<string>): (text: string)
    ensures |args| == 0 ==> text == ""
    ensures |args| >= 1 ==> |text| >= |args[0]| && text[..|args[0]|] == args[0]
    ensures |args| == 1 ==> text == args[0]
    ensures Readable(args) ==> ReadDisplay(text) == Some(args)
  {
    if |args| == 0 then ""
    else
      var words := [args[0]] + QuoteAll(args[1..]);
      ReadJoined(args);
      Join(words)
  }

  /*
   * A reader for display texts: the executable runs up to the first space,
   * and every later word is ` "..."` with `\"` standing for a quote.
   */

  /** Splits `s` at its first space (the space stays with the rest). */
  function SplitFirst(s: string): (r: (string, string))
    ensures r.0 + r.1 == s
  {
    if |s| == 0 then ("", "")
    else if s[0] == ' ' then ("", s)
    else var (w, rest) := SplitFirst(s[1..]); ([s[0]] + w, rest)
  }

  /** Reads a quoted body up to its unescaped closing `"`; yields the body and what follows. */
  function ReadQuoted(s: string): (r: Option<(string, string)>)
    ensures r.Some? ==> |r.value.1| < |s|
  {
    if |s| == 0 then None
    else if s[0] == '"' then Some(("", s[1..]))
    else if |s| >= 2 && s[0] == '\\' && s[1] == '"' then
      match ReadQuoted(s[2..])
      case None => None
      case Some((body, rest)) => Some(("\"" + body, rest))
    else
      match ReadQuoted(s[1..])
      case None => None
      case Some((body, rest)) => Some(([s[0]] + body, rest))
  }

  /** Reads a run of ` "..."` words. */
  function ReadWords(s: string): Option<seq<string>>
    decreases |s|
  {
    if |s| == 0 then Some([])
    else if |s| >= 2 && s[0] == ' ' && s[1] == '"' then
      match ReadQuoted(s[2..])
      case None => None
      case Some((w, rest)) =>
        match ReadWords(rest)
        case None => None
        case Some(ws) => Some([w] + ws)
    else None
  }

  function ReadDisplay(text: string): Option<seq<string>>
  {
    var (first, rest) := SplitFirst(text);
    match ReadWords(rest)
    case None => None
    case Some(ws) => Some([first] + ws)
  }

  predicate EndsWithBackslash(s: string) {
    |s| > 0 && s[|s| - 1] == '\\'
  }

  predicate HasSpace(s: string) {
    exists i :: 0 <= i < |s| && s[i] == ' '
  }

  lemma {:induction false} ReadQuotedEscape(a: string, rest: string)
    requires !EndsWithBackslash(a)
    ensures ReadQuoted(Escape(a) + "\"" + rest) == Some((a, rest))
  {
    var s := Escape(a) + "\"" + rest;
    if |a| == 0 {
      assert s == "\"" + rest;
      assert s[1..] == rest;
    } else {
      var t := Escape(a[1..]);
      assert !EndsWithBackslash(a[1..]) by {
        if |a[1..]| > 0 { assert a[1..][|a[1..]| - 1] == a[|a| - 1]; }
      }
      ReadQuotedEscape(a[1..], rest);
      if a[0] == '"' {
        assert s == "\\\"" + (t + "\"" + rest);
        assert s[2..] == t + "\"" + rest;
        assert "\"" + a[1..] == a;
      } else {
        assert s == [a[0]] + (t + "\"" + rest);
        assert s[1..] == t + "\"" + rest;
        if a[0] == '\\' {
          assert |a[1..]| > 0;
          assert s[1] == (t + "\"" + rest)[0] == t[0];
        }
        assert [a[0]] + a[1..] == a;
      }
    }
  }

  lemma {:induction false} ReadWordsQuoted(ss: seq<string>)
    requires forall i :: 0 <= i < |ss| ==> !EndsWithBackslash(ss[i])
    ensures ReadWords(if |ss| == 0 then "" else " " + Join(QuoteAll(ss))) == Some(ss)
  {
    if |ss| > 0 {
      var q := QuoteAll(ss);
      var tail := if |ss| == 1 then "" else " " + Join(QuoteAll(ss[1..]));
      assert q[1..] == QuoteAll(ss[1..]);
      assert Join(q) == Quote(ss[0]) + tail;
      var s := " " + Join(q);
      assert s == " \"" + (Escape(ss[0]) + "\"" + tail);
      assert s[2..] == Escape(ss[0]) + "\"" + tail;
      ReadQuotedEscape(ss[0], tail);
      ReadWordsQuoted(ss[1..]);
      assert [ss[0]] + ss[1..] == ss;
    }
  }

  lemma {:induction false} SplitFirstWord(w: string, rest: string)
    requires !HasSpace(w)
    requires |rest| == 0 || rest[0] == ' '
    ensures SplitFirst(w + rest) == (w, rest)
  {
    if |w| == 0 {
      assert w + rest == rest;
    } else {
      assert (w + rest)[0] == w[0];
      assert (w + rest)[1..] == w[1..] + rest;
      assert !HasSpace(w[1..]) by {
        forall i | 0 <= i < |w[1..]| ensures w[1..][i] != ' ' {
          assert w[1..][i] == w[i + 1];
        }
      }
      assert w[0] != ' ';
      SplitFirstWord(w[1..], rest);
      assert [w[0]] + w[1..] == w;
    }
  }

  lemma ReadJoined(args: seq<string>)
    requires |args| >= 1
    ensures Readable(args) ==> ReadDisplay(Join([args[0]] + QuoteAll(args[1..]))) == Some(args)
  {
    if Readable(args) {
      var tail := args[1..];
      var rest := if |tail| == 0 then "" else " " + Join(QuoteAll(tail));
      assert Join([args[0]] + QuoteAll(tail)) == args[0] + rest by {
        var words := [args[0]] + QuoteAll(tail);
        assert words[1..] == QuoteAll(tail);
      }
      SplitFirstWord(args[0], rest);
      assert forall i :: 0 <= i < |tail| ==> tail[i] == args[i + 1];
      ReadWordsQuoted(tail);
      assert [args[0]] + tail == args;
    }
  }

  /** A later argument ending in a backslash makes its closing quote read as escaped. */
  lemma TrailingBackslashNotReadBack()
    ensures ToString(["x", "a\\"]) == "x \"a\\\""
    ensures ReadDisplay(ToString(["x", "a\\"])) == None
  {
    assert Escape("a\\") == "a\\";
    assert Quote("a\\") == "\"a\\\"";
    assert QuoteAll(["a\\"]) == ["\"a\\\""];
    var text := "x \"a\\\"";
    assert ["x", "a\\"][1..] == ["a\\"];
    assert ["x"] + QuoteAll(["a\\"]) == ["x", "\"a\\\""];
    assert Join(["x", "\"a\\\""]) == "x" + " " + "\"a\\\"";
    assert ToString(["x", "a\\"]) == text;
    assert SplitFirst(text) == ("x", " \"a\\\"") by {
      SplitFirstWord("x", " \"a\\\"");
    }
    assert ReadQuoted("a\\\"") == None;
  }

  /** Appending an argument appends a space and its quoted form. */
  lemma {:induction false} DisplaySnoc(args: seq<string>, a: string)
    requires |args| >= 1
    ensures ToString(args + [a]) == ToString(args) + " " + Quote(a)
  {
    JoinSnoc([args[0]] + QuoteAll(args[1..]), Quote(a));
    assert (args + [a])[0] == args[0];
    assert (args + [a])[1..] == args[1..] + [a];
    QuoteAllAppend(args[1..], [a]);
    assert [args[0]] + QuoteAll(args[1..] + [a]) == [args[0]] + QuoteAll(args[1..]) + [Quote(a)];
  }

  lemma {:induction false} QuoteAllAppend(xs: seq<string>, ys: seq<string>)
    ensures QuoteAll(xs + ys) == QuoteAll(xs) + QuoteAll(ys)
  {
  }

  lemma {:induction false} JoinSnoc(words: seq<string>, w: string)
    requires |words| >= 1
    ensures Join(words + [w]) == Join(words) + " " + w
  {
    if |words| == 1 {
      assert (words + [w])[1..] == [w];
    } else {
      assert (words + [w])[1..] == words[1..] + [w];
      JoinSnoc(words[1..], w);
    }
  }
}
