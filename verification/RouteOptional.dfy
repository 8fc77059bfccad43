/** Optional parts: which paths a pattern with brackets matches (src/Route.cpp). The matcher takes an optional
    text whenever it is there, and does not go back. */
module RouteOptional {
  import opened Route
  import opened RouteCompiler
  import opened RouteMatching
  import opened RoutePrinting
  import opened RouteTypes
  import opened Wrappers

  /** What may follow a variable: every text that may stand there starts outside its class. */
  predicate Stops(view: View, tokens: seq<Token>)
    decreases |tokens|
  {
    tokens == [] ||
    var t := tokens[0];
    && t.kind == Default && t.text != "" && !InClass(view, t.text[0])
    && (t.optional ==> Stops(view, tokens[1..]))
  }

  /** Patterns of literals, prefix-free groups and variables, where a literal or a variable may be optional. */
  predicate Bracketed(tokens: seq<Token>)
    decreases |tokens|
  {
    tokens == [] ||
    var t := tokens[0];
    && t.kind != Any
    && (t.optional ==> t.kind == Variable || (t.kind == Default && t.text != ""))
    && (t.kind == Group ==> PrefixFree(t.group))
    && (t.kind == Variable ==> Stops(t.view, tokens[1..]))
    && Bracketed(tokens[1..])
  }

  /** No optional text is left out where the path goes on with that very text. */
  predicate Eager(tokens: seq<Token>, pieces: seq<string>)
    requires |pieces| == |tokens|
    decreases |tokens|
  {
    tokens == [] ||
    (&& (tokens[0].optional && tokens[0].kind == Default && pieces[0] == "" ==> !(tokens[0].text <= Concat(pieces[1..])))
     && Eager(tokens[1..], pieces[1..]))
  }

  ghost predicate EagerlyRendered(tokens: seq<Token>, s: string) {
    exists pieces :: |pieces| == |tokens| && Reading(tokens, pieces) && Eager(tokens, pieces) && Concat(pieces) == s
  }

  lemma {:induction false} StopsMeans(view: View, tokens: seq<Token>, pieces: seq<string>)
    requires Stops(view, tokens) && Reading(tokens, pieces)
    ensures var rest := Concat(pieces); rest == "" || !InClass(view, rest[0])
    decreases |tokens|
  {
    hide InClass;
    if tokens != [] && pieces[0] == "" {
      StopsMeans(view, tokens[1..], pieces[1..]);
      assert "" + Concat(pieces[1..]) == Concat(pieces[1..]);
    }
  }

  lemma RunIsEmpty(view: View, s: string)
    requires s == "" || !InClass(view, s[0])
    ensures ClassRun(view, s) == 0
  {
  }

  /** What is rendered so that no optional text is left out in front of itself is matched, and its variables
      are what was rendered. */
  lemma {:induction false} EagerReadingMatches(tokens: seq<Token>, pieces: seq<string>)
    requires Bracketed(tokens) && Reading(tokens, pieces) && Eager(tokens, pieces)
    ensures Walk(tokens, Concat(pieces)) == Result(true, CapturesOf(tokens, pieces))
    decreases |tokens|
  {
    hide FindToken, PrefixFree, ClassRun, InClass, Stops;
    if tokens != [] {
      var t, piece, rest := tokens[0], pieces[0], Concat(pieces[1..]);
      if t.kind == Variable { StopsMeans(t.view, tokens[1..], pieces[1..]); }
      EagerReadingMatches(tokens[1..], pieces[1..]);
      if t.optional && piece == "" {
        if t.kind == Variable { RunIsEmpty(t.view, rest); }
        assert "" + rest == rest;
        assert [] + CapturesOf(tokens[1..], pieces[1..]) == CapturesOf(tokens[1..], pieces[1..]);
      } else {
        TokenTakesThePiece(t, piece, rest);
        assert (piece + rest)[..|piece|] == piece && (piece + rest)[|piece|..] == rest;
        NoEmptyCapture(t, piece, CapturesOf(tokens[1..], pieces[1..]));
      }
    }
  }

  /** And every match is one of those. */
  lemma {:induction false} MatchIsEager(tokens: seq<Token>, s: string) returns (pieces: seq<string>)
    requires Bracketed(tokens) && Walk(tokens, s).ok
    ensures |pieces| == |tokens| && Reading(tokens, pieces) && Eager(tokens, pieces) && Concat(pieces) == s
    decreases |tokens|
  {
    hide FindToken, PrefixFree, InLanguage, InClass, Stops;
    if tokens == [] {
      pieces := [];
    } else {
      var t := tokens[0];
      match TokenLength(t, s)
      case Some(n) =>
        var more := MatchIsEager(tokens[1..], s[n..]);
        TokenIsSound(t, s);
        assert t.optional ==> n > 0;
        pieces := [s[..n]] + more;
        assert pieces[1..] == more && s[..n] + s[n..] == s;
      case None =>
        var more := MatchIsEager(tokens[1..], s);
        pieces := [""] + more;
        assert pieces[1..] == more && "" + s == s;
    }
  }

  /** A path matches exactly when it can be rendered so. */
  lemma BracketedMatchIsExact(tokens: seq<Token>, s: string)
    requires Bracketed(tokens)
    ensures Walk(tokens, s).ok <==> EagerlyRendered(tokens, s)
  {
    hide Walk, Bracketed, Reading, Eager, Concat;
    if Walk(tokens, s).ok { var pieces := MatchIsEager(tokens, s); }
    if EagerlyRendered(tokens, s) {
      var pieces :| |pieces| == |tokens| && Reading(tokens, pieces) && Eager(tokens, pieces) && Concat(pieces) == s;
      EagerReadingMatches(tokens, pieces);
    }
  }

  // ---------------------------------------------------------------- one optional text

  lemma TextStep(t: Token, rest: seq<Token>, s: string)
    requires t.kind == Default
    ensures Walk([t] + rest, s).ok
            <==> if t.text <= s then Walk(rest, s[|t.text|..]).ok else t.optional && Walk(rest, s).ok
  {
    assert ([t] + rest)[1..] == rest;
  }

  function OptionalItems(front: string, text: string, back: string): seq<Item> {
    [Literal(front), Optional(text), Literal(back)]
  }

  lemma OptionalCompiles(front: string, text: string, back: string)
    requires front != "" && PlainText(front) && text != "" && PlainText(text) && back != "" && PlainText(back)
    ensures Compile(START, front + "[" + text + "]" + back)
         == Outcome(true, [TextToken(front, false)] + ([TextToken(text, true)] + ([TextToken(back, false)] + [])))
  {
    hide Compile;
    var items := OptionalItems(front, text, back);
    CompilerInvertsPrinting(items);
    assert items[1..][0] == items[1] && items[1..][1..] == items[2..] && items[2..][1..] == [];
    assert PrintAll(items[2..]) == back + PrintAll([]) == back;
    assert PrintAll(items[1..]) == "[" + text + "]" + back;
    assert PrintAll(items) == front + ("[" + text + "]" + back);
    assert front + ("[" + text + "]" + back) == front + "[" + text + "]" + back;
    assert TokensOf(items) == [TextToken(front, false)] + ([TextToken(text, true)] + ([TextToken(back, false)] + []));
  }

  /** From the text of a pattern: where `back` does not start with `text`, `front[text]back` matches what it
      is with the optional text and what it is without, and nothing else; and where it does, only the first. */
  lemma OptionalMayBeLeftOut(front: string, text: string, back: string, s: string)
    requires front != "" && PlainText(front) && text != "" && PlainText(text) && back != "" && PlainText(back)
    ensures var route := Compile(START, front + "[" + text + "]" + back);
            && route.ok
            && (Walk(route.tokens, s).ok
                <==> s == front + (text + back) || (s == front + back && !(text <= back)))
  {
    hide Compile, Walk;
    OptionalCompiles(front, text, back);
    var last, opt := [TextToken(back, false)] + [], TextToken(text, true);
    TextStep(TextToken(front, false), [opt] + last, s);
    if front <= s {
      var t := s[|front|..];
      assert s == front + t;
      TextStep(opt, last, t);
      EndsWith(back, t);
      if text <= t {
        assert t == text + t[|text|..];
        EndsWith(back, t[|text|..]);
      }
    }
  }

  lemma EndsWith(back: string, s: string)
    ensures Walk([TextToken(back, false)] + [], s).ok <==> s == back
  {
    TextStep(TextToken(back, false), [], s);
    if back <= s { assert s == back + s[|back|..]; }
  }

  // ---------------------------------------------------------------- what is left of a pattern that was cut

  /** What a variable without a type may hold, or nothing. */
  predicate Value(s: string) {
    forall k :: 0 <= k < |s| ==> Fits("string", s[k])
  }

  lemma LastVariable(t: Token, s: string)
    requires t.kind == Variable && t.view == String && t.optional
    ensures Walk([t], s).ok <==> Value(s)
  {
    hide InClass, Fits;
    assert [t][1..] == [];
    var n := ClassRun(String, s);
    forall k | 0 <= k < |s| ensures Fits("string", s[k]) <==> InClass(String, s[k]) { StringFits(s[k]); }
    if n < |s| { assert !InClass(String, s[n]); }
  }

  /** A pattern such as the README's `/ws[/{user}/]` is cut, and its tokens are used all the same. What they
      match is the text in front, then perhaps the text in the brackets, then perhaps a value, and that is all:
      `/ws/name/` is not matched, and `/wsname` is. */
  lemma CutPatternMatches(a: string, b: string, name: string, d: string, rest: string, s: string)
    requires a != "" && PlainText(a) && b != "" && PlainText(b) && name != "" && PlainName(name) && PlainText(d)
    requires !Fits("string", b[0])
    ensures var tokens := Compile(START, a + "[" + b + "{" + name + "}" + d + ("]" + rest)).tokens;
            Walk(tokens, s).ok
            <==> a <= s && (Value(s[|a|..]) || (b <= s[|a|..] && Value(s[|a|..][|b|..])))
  {
    hide Walk, InClass, Compile, Fits;
    BracketedVariableIsCut(a, b, name, d, rest);
    var v := Token(name, [], Variable, String, true);
    assert CutTokens(a, b, name) == [TextToken(a, false)] + ([TextToken(b, true)] + [v]);
    TextStep(TextToken(a, false), [TextToken(b, true)] + [v], s);
    if a <= s {
      var t := s[|a|..];
      TextStep(TextToken(b, true), [v], t);
      LastVariable(v, t);
      if b <= t {
        assert t[0] == b[0];
        LastVariable(v, t[|b|..]);
      }
    }
  }
}
