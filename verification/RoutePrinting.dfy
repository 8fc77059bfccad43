/** Printing token lists in the pattern syntax of README.md and compiling them back. */
module RoutePrinting {
  import opened Route
  import opened RouteCompiler
  import opened Wrappers
  import RouteMatching

  // ---------------------------------------------------------------- patterns

  datatype Item =
    | Literal(text: string)
    | Optional(text: string)
    | Var(name: string)
    | TypedVar(name: string, view: View)
    | Alternatives(group: seq<string>)
    | Wildcard

  function ViewName(view: View): string {
    match view
    case AnyChar => "any"
    case Alpha => "alpha"
    case Numeric => "numeric"
    case String => "string"
    case Upper => "upper"
    case Lower => "lower"
    case DefaultView => ""
  }

  function Bars(group: seq<string>): string
    requires group != []
  {
    if |group| == 1 then group[0] else group[0] + "|" + Bars(group[1..])
  }

  function Print(item: Item): string
    requires item.Alternatives? ==> item.group != []
  {
    match item
    case Literal(text) => text
    case Optional(text) => "[" + text + "]"
    case Var(name) => "{" + name + "}"
    case TypedVar(name, view) => "{" + name + ":" + ViewName(view) + "}"
    case Alternatives(group) => "(" + Bars(group) + ")"
    case Wildcard => "*"
  }

  predicate PlainChar(c: char) {
    c != '*' && c != '[' && c != ']' && c != '{' && c != '}' && c != '(' && c != '|' && c != ')'
  }

  predicate PlainText(s: string) {
    forall k :: 0 <= k < |s| ==> PlainChar(s[k])
  }

  predicate PlainName(s: string) {
    PlainText(s) && forall k :: 0 <= k < |s| ==> s[k] != ':'
  }

  predicate Printable(item: Item) {
    match item
    case Literal(text) => text != "" && PlainText(text)
    case Optional(text) => text != "" && PlainText(text)
    case Var(name) => name != "" && PlainName(name)
    case TypedVar(name, view) => name != "" && PlainName(name) && view != DefaultView
    case Alternatives(group) => group != [] && forall k :: 0 <= k < |group| ==> PlainText(group[k])
    case Wildcard => true
  }

  predicate AllPrintable(items: seq<Item>) {
    forall k :: 0 <= k < |items| ==> Printable(items[k])
  }

  /** Two literals side by side would print as one. */
  predicate NoAdjacentLiterals(items: seq<Item>) {
    forall k :: 0 <= k < |items| - 1 ==> !(items[k].Literal? && items[k + 1].Literal?)
  }

  function PrintAll(items: seq<Item>): string
    requires AllPrintable(items)
  {
    if items == [] then "" else Print(items[0]) + PrintAll(items[1..])
  }

  function TextToken(text: string, optional: bool): Token {
    Token(text, [], Default, DefaultView, optional)
  }

  function TokenOf(item: Item): Token {
    match item
    case Literal(text) => TextToken(text, false)
    case Optional(text) => TextToken(text, true)
    case Var(name) => Token(name, [], Variable, String, false)
    case TypedVar(name, view) => Token(name, [], Variable, view, false)
    case Alternatives(group) => Token("", SortGroup(group), Group, DefaultView, false)
    case Wildcard => Token("*", [], Any, DefaultView, false)
  }

  function TokensOf(items: seq<Item>): seq<Token> {
    seq(|items|, k requires 0 <= k < |items| => TokenOf(items[k]))
  }

  // ---------------------------------------------------------------- running the machine

  /** The machine after some characters. */
  function Fed(c: Compiler, s: string): Option<Compiler>
    decreases |s|
  {
    if s == "" then Some(c)
    else match Step(c, s[0]) case Some(d) => Fed(d, s[1..]) case None => None
  }

  lemma {:induction false} FedConcat(c: Compiler, a: string, b: string)
    ensures Fed(c, a + b) == match Fed(c, a) case Some(d) => Fed(d, b) case None => None
    decreases |a|
  {
    hide Step;
    if a == "" {
      assert a + b == b;
    } else {
      assert (a + b)[1..] == a[1..] + b;
      if Step(c, a[0]).Some? { FedConcat(Step(c, a[0]).value, a[1..], b); }
    }
  }

  lemma {:induction false} CompileAfter(c: Compiler, a: string, b: string)
    requires Fed(c, a).Some?
    ensures Compile(c, a + b) == Compile(Fed(c, a).value, b)
    decreases |a|
  {
    hide Step;
    if a == "" {
      assert a + b == b;
    } else {
      assert (a + b)[1..] == a[1..] + b;
      CompileAfter(Step(c, a[0]).value, a[1..], b);
    }
  }

  lemma FedOne(c: Compiler, ch: char)
    ensures Fed(c, [ch]) == Step(c, ch)
  {
    hide Step;
    assert [ch][1..] == "";
  }

  lemma Chain(c: Compiler, a: string, d: Compiler, b: string, e: Option<Compiler>)
    requires Fed(c, a) == Some(d) && Fed(d, b) == e
    ensures Fed(c, a + b) == e
  {
    hide Fed;
    FedConcat(c, a, b);
  }

  /** Ordinary characters are collected. */
  lemma {:induction false} FedText(c: Compiler, s: string)
    requires PlainText(s) && (c.phase == InVariable ==> PlainName(s))
    ensures Fed(c, s) == Some(c.(str := c.str + s))
    decreases |s|
  {
    if s == "" {
      assert c.str + s == c.str;
    } else {
      var d := c.(str := c.str + [s[0]]);
      assert Step(c, s[0]) == Some(d);
      FedText(d, s[1..]);
      assert c.str + [s[0]] + s[1..] == c.str + s;
    }
  }

  lemma FedFirstText(c: Compiler, s: string)
    requires c.str == "" && PlainText(s) && (c.phase == InVariable ==> PlainName(s))
    ensures Fed(c, s) == Some(c.(str := s))
  {
    hide Fed;
    FedText(c, s);
    assert "" + s == s;
  }

  /** Tokens so far, and a literal that is still being collected. */
  function Pending(done: seq<Token>, text: string): Compiler {
    Compiler(done, EMPTY, text, InText)
  }

  function Finish(done: seq<Token>, text: string): seq<Token> {
    if text == "" then done else done + [TextToken(text, false)]
  }

  lemma FlushPending(done: seq<Token>, text: string)
    ensures Flushed(Pending(done, text)) == Pending(Finish(done, text), "")
  {
  }

  // ---------------------------------------------------------------- one item

  lemma FedWildcard(done: seq<Token>, text: string)
    ensures Fed(Pending(done, text), "*") == Some(Pending(Finish(done, text) + [TokenOf(Wildcard)], ""))
  {
    FedOne(Pending(done, text), '*');
    FlushPending(done, text);
  }

  lemma FedOptional(done: seq<Token>, text: string, inner: string)
    requires inner != "" && PlainText(inner)
    ensures Fed(Pending(done, text), "[" + inner + "]") == Some(Pending(Finish(done, text) + [TextToken(inner, true)], ""))
  {
    var c, all := Pending(done, text), Finish(done, text);
    var d := Compiler(all, EMPTY.(optional := true), "", InOptional);
    FlushPending(done, text);
    FedOne(c, '[');
    assert Fed(c, "[") == Some(d);
    FedText(d, inner);
    assert "" + inner == inner;
    FedOne(d.(str := inner), ']');
    FedConcat(c, "[", inner);
    FedConcat(c, "[" + inner, "]");
  }

  lemma FedOpenBrace(done: seq<Token>, text: string, name: string)
    requires PlainName(name)
    ensures Fed(Pending(done, text), "{" + name) == Some(Compiler(Finish(done, text), EMPTY.(kind := Variable), name, InVariable))
  {
    hide Fed;
    var c, all := Pending(done, text), Finish(done, text);
    var d := Compiler(all, EMPTY.(kind := Variable), "", InVariable);
    FlushPending(done, text);
    FedOne(c, '{');
    FedFirstText(d, name);
    Chain(c, "{", d, name, Some(d.(str := name)));
  }

  lemma FedVariable(done: seq<Token>, text: string, name: string)
    requires name != "" && PlainName(name)
    ensures Fed(Pending(done, text), "{" + name + "}") == Some(Pending(Finish(done, text) + [TokenOf(Var(name))], ""))
  {
    hide Flushed;
    var c, all := Pending(done, text), Finish(done, text);
    FedOpenBrace(done, text, name);
    var d := Compiler(all, EMPTY.(kind := Variable), name, InVariable);
    FedOne(d, '}');
    FedConcat(c, "{" + name, "}");
  }

  lemma ViewNameIsPlain(view: View)
    ensures PlainText(ViewName(view))
    ensures view != DefaultView ==> ViewOf(ViewName(view)) == view
  {
    hide LowerText;
    LowerStays(ViewName(view));
  }

  lemma {:induction false} LowerStays(s: string)
    requires forall k :: 0 <= k < |s| ==> !IsUpper(s[k])
    ensures LowerText(s) == s
    decreases |s|
  {
    if s != "" {
      LowerStays(s[1..]);
      assert s == [s[0]] + s[1..];
    }
  }

  lemma FedTypedVariable(done: seq<Token>, text: string, name: string, view: View)
    requires name != "" && PlainName(name) && view != DefaultView
    ensures Fed(Pending(done, text), "{" + name + ":" + ViewName(view) + "}")
         == Some(Pending(Finish(done, text) + [TokenOf(TypedVar(name, view))], ""))
  {
    hide Flushed, ViewOf, ViewName;
    var c, all := Pending(done, text), Finish(done, text);
    FedOpenBrace(done, text, name);
    var d := Compiler(all, EMPTY.(kind := Variable), name, InVariable);
    var e := Compiler(all, EMPTY.(kind := Variable, text := name), "", InType);
    FedOne(d, ':');
    ViewNameIsPlain(view);
    FedText(e, ViewName(view));
    assert "" + ViewName(view) == ViewName(view);
    FedOne(e.(str := ViewName(view)), '}');
    FedConcat(c, "{" + name, ":");
    FedConcat(c, "{" + name + ":", ViewName(view));
    FedConcat(c, "{" + name + ":" + ViewName(view), "}");
  }

  /** Inside a group: the alternatives that are complete, and the one being collected. */
  function InsideGroup(all: seq<Token>, group: seq<string>, str: string): Compiler {
    Compiler(all, EMPTY.(kind := Group, group := group), str, InGroup)
  }

  lemma {:induction false} FedBars(all: seq<Token>, before: seq<string>, group: seq<string>)
    requires group != [] && forall k :: 0 <= k < |group| ==> PlainText(group[k])
    ensures Fed(InsideGroup(all, before, ""), Bars(group))
         == Some(InsideGroup(all, before + group[..|group| - 1], group[|group| - 1]))
    decreases |group|
  {
    hide Step, Fed;
    var c, d := InsideGroup(all, before, ""), InsideGroup(all, before, group[0]);
    FedFirstText(c, group[0]);
    if |group| == 1 {
      assert before + group[..0] == before;
    } else {
      var e := InsideGroup(all, before + [group[0]], "");
      BarStep(d);
      FedOne(d, '|');
      FedBars(all, before + [group[0]], group[1..]);
      Chain(c, group[0], d, "|", Some(e));
      Chain(c, group[0] + "|", e, Bars(group[1..]), Fed(e, Bars(group[1..])));
      assert before + [group[0]] + group[1..][..|group| - 2] == before + group[..|group| - 1];
    }
  }

  lemma BarStep(c: Compiler)
    ensures Step(c, '|') == Some(Bar(c))
  {
  }

  lemma GroupOpens(done: seq<Token>, text: string)
    ensures Fed(Pending(done, text), "(") == Some(InsideGroup(Finish(done, text), [], ""))
  {
    FlushPending(done, text);
    FedOne(Pending(done, text), '(');
  }

  lemma GroupCloses(all: seq<Token>, group: seq<string>)
    requires group != []
    ensures Fed(InsideGroup(all, group[..|group| - 1], group[|group| - 1]), ")")
         == Some(Pending(all + [TokenOf(Alternatives(group))], ""))
  {
    hide SortGroup;
    var n := |group| - 1;
    assert group[..n] + [group[n]] == group;
    FedOne(InsideGroup(all, group[..n], group[n]), ')');
  }

  lemma FedGroup(done: seq<Token>, text: string, group: seq<string>)
    requires group != [] && forall k :: 0 <= k < |group| ==> PlainText(group[k])
    ensures Fed(Pending(done, text), "(" + Bars(group) + ")")
         == Some(Pending(Finish(done, text) + [TokenOf(Alternatives(group))], ""))
  {
    hide Bars, Fed, Pending, Finish, TokenOf;
    var c, all, n := Pending(done, text), Finish(done, text), |group| - 1;
    var d, e := InsideGroup(all, [], ""), InsideGroup(all, group[..n], group[n]);
    GroupOpens(done, text);
    FedBars(all, [], group);
    assert [] + group[..n] == group[..n];
    Chain(c, "(", d, Bars(group), Some(e));
    GroupCloses(all, group);
    Chain(c, "(" + Bars(group), e, ")", Fed(e, ")"));
  }

  lemma FedItem(done: seq<Token>, text: string, item: Item)
    requires Printable(item) && (item.Literal? ==> text == "")
    ensures Fed(Pending(done, text), Print(item))
         == Some(if item.Literal? then Pending(done, item.text) else Pending(Finish(done, text) + [TokenOf(item)], ""))
  {
    hide Bars, TokenOf, Pending, Finish, ViewName;
    match item
    case Literal(t) => FedLiteral(done, t);
    case Optional(t) => FedOptional(done, text, t); OptionalToken(t);
    case Var(name) => FedVariable(done, text, name);
    case TypedVar(name, view) => FedTypedVariable(done, text, name, view);
    case Alternatives(group) => FedGroup(done, text, group);
    case Wildcard => FedWildcard(done, text);
  }

  lemma OptionalToken(text: string)
    ensures TokenOf(Optional(text)) == TextToken(text, true)
  {
  }

  lemma FedLiteral(done: seq<Token>, text: string)
    requires PlainText(text)
    ensures Fed(Pending(done, ""), text) == Some(Pending(done, text))
  {
    FedText(Pending(done, ""), text);
    assert "" + text == text;
  }

  // ---------------------------------------------------------------- whole patterns

  lemma {:induction false} CompilePending(done: seq<Token>, text: string, items: seq<Item>)
    requires AllPrintable(items) && NoAdjacentLiterals(items) && (items != [] && items[0].Literal? ==> text == "")
    ensures Compile(Pending(done, text), PrintAll(items)) == Outcome(true, Finish(done, text) + TokensOf(items))
    decreases |items|
  {
    hide Step, Print, Fed;
    if items == [] {
      CompileNothing(done, text);
      assert Finish(done, text) + [] == Finish(done, text);
    } else {
      var item, rest := items[0], items[1..];
      FedItem(done, text, item);
      CompileAfter(Pending(done, text), Print(item), PrintAll(rest));
      assert TokensOf(items) == [TokenOf(item)] + TokensOf(rest);
      if item.Literal? {
        CompilePending(done, item.text, rest);
        assert done + [TokenOf(item)] + TokensOf(rest) == done + ([TokenOf(item)] + TokensOf(rest));
      } else {
        CompilePending(Finish(done, text) + [TokenOf(item)], "", rest);
        assert Finish(done, text) + [TokenOf(item)] + TokensOf(rest)
               == Finish(done, text) + ([TokenOf(item)] + TokensOf(rest));
      }
    }
  }

  lemma CompileNothing(done: seq<Token>, text: string)
    ensures Compile(Pending(done, text), "") == Outcome(true, Finish(done, text))
  {
  }

  /** Compiling what was printed gives back exactly the tokens. */
  lemma CompilerInvertsPrinting(items: seq<Item>)
    requires AllPrintable(items) && NoAdjacentLiterals(items)
    ensures Compile(START, PrintAll(items)) == Outcome(true, TokensOf(items))
  {
    hide Compile, PrintAll, TokensOf;
    CompilePending([], "", items);
    assert [] + TokensOf(items) == TokensOf(items);
  }

  /** A route from pattern to arguments: a plain pattern that was printed and compiled matches what is
      rendered from it, and sets the rendered values. */
  lemma CompiledRouteMatches(items: seq<Item>, pieces: seq<string>)
    requires AllPrintable(items) && NoAdjacentLiterals(items)
    requires RouteMatching.Plain(TokensOf(items)) && RouteMatching.Reading(TokensOf(items), pieces)
    ensures |pieces| == |items|
    ensures var route := Compile(START, PrintAll(items));
            && route.ok
            && Walk(route.tokens, RouteMatching.Concat(pieces))
               == Result(true, RouteMatching.CapturesOf(TokensOf(items), pieces))
  {
    hide Compile, PrintAll, RouteMatching.Plain, Walk, AllPrintable, TokenOf, RouteMatching.CapturesOf;
    CompilerInvertsPrinting(items);
    RouteMatching.RenderedPathMatches(TokensOf(items), pieces);
  }

  // ---------------------------------------------------------------- what brackets may hold

  /** What may stand between brackets: a variable or a group ends the optional part for the compiler. */
  predicate Bracketable(item: Item) {
    item.Literal? || item.Wildcard?
  }

  lemma OpensBrace(c: Compiler)
    requires c.phase == InText || c.phase == InOptional
    ensures Fed(c, "{").Some? && Fed(c, "{").value.phase == InVariable && Fed(c, "{").value.str == ""
  {
    FedOne(c, '{');
  }

  lemma ClosesBrace(c: Compiler)
    requires (c.phase == InVariable && c.str != "") || (c.phase == InType && c.current.text != "")
    ensures Fed(c, "}").Some? && Fed(c, "}").value.phase == InText
  {
    hide ViewOf;
    FedOne(c, '}');
  }

  lemma VariableEndsBracket(c: Compiler, name: string)
    requires (c.phase == InText || c.phase == InOptional) && name != "" && PlainName(name)
    ensures Fed(c, "{" + name + "}").Some? && Fed(c, "{" + name + "}").value.phase == InText
  {
    hide Fed;
    OpensBrace(c);
    var d := Fed(c, "{").value;
    FedFirstText(d, name);
    Chain(c, "{", d, name, Some(d.(str := name)));
    ClosesBrace(d.(str := name));
    Chain(c, "{" + name, d.(str := name), "}", Fed(d.(str := name), "}"));
  }

  lemma TypedVariableEndsBracket(c: Compiler, name: string, view: View)
    requires (c.phase == InText || c.phase == InOptional) && name != "" && PlainName(name)
    ensures var s := "{" + name + ":" + ViewName(view) + "}"; Fed(c, s).Some? && Fed(c, s).value.phase == InText
  {
    hide Fed, ViewName;
    OpensBrace(c);
    var d := Fed(c, "{").value;
    FedFirstText(d, name);
    Chain(c, "{", d, name, Some(d.(str := name)));
    var e := d.(str := name);
    TypeFollows(e);
    Chain(c, "{" + name, e, ":", Some(Colon(e)));
    ViewNameIsPlain(view);
    FedFirstText(Colon(e), ViewName(view));
    var f := Colon(e).(str := ViewName(view));
    Chain(c, "{" + name + ":", Colon(e), ViewName(view), Some(f));
    ClosesBrace(f);
    Chain(c, "{" + name + ":" + ViewName(view), f, "}", Fed(f, "}"));
  }

  lemma TypeFollows(c: Compiler)
    requires c.phase == InVariable
    ensures Fed(c, ":") == Some(Colon(c)) && Colon(c).phase == InType && Colon(c).current.text == c.str && Colon(c).str == ""
  {
    FedOne(c, ':');
  }

  lemma {:induction false} BarsStay(c: Compiler, group: seq<string>)
    requires c.phase == InGroup && group != [] && forall k :: 0 <= k < |group| ==> PlainText(group[k])
    ensures Fed(c, Bars(group)).Some? && Fed(c, Bars(group)).value.phase == InGroup
    decreases |group|
  {
    hide Step;
    FedText(c, group[0]);
    if |group| > 1 {
      var d := c.(str := c.str + group[0]);
      BarStep(d);
      FedOne(d, '|');
      BarsStay(Bar(d), group[1..]);
      FedConcat(c, group[0], "|");
      FedConcat(c, group[0] + "|", Bars(group[1..]));
    }
  }

  lemma GroupEndsBracket(c: Compiler, group: seq<string>)
    requires group != [] && forall k :: 0 <= k < |group| ==> PlainText(group[k])
    ensures var s := "(" + Bars(group) + ")"; Fed(c, s).Some? && Fed(c, s).value.phase == InText
  {
    hide Bars;
    FedOne(c, '(');
    BarsStay(OpenGroup(c), group);
    var d := Fed(OpenGroup(c), Bars(group)).value;
    FedOne(d, ')');
    FedConcat(c, "(", Bars(group));
    FedConcat(c, "(" + Bars(group), ")");
  }

  lemma OptionalInside(c: Compiler, text: string)
    requires PlainText(text)
    ensures c.phase == InOptional ==> Fed(c, "[" + text + "]").None?
    ensures c.phase == InText ==> Fed(c, "[" + text + "]").Some? && Fed(c, "[" + text + "]").value.phase == InText
  {
    FedOne(c, '[');
    FedConcat(c, "[", text + "]");
    assert "[" + text + "]" == "[" + (text + "]");
    if c.phase == InText {
      var d := OpenBracket(c).value;
      FedText(d, text);
      FedOne(d.(str := d.str + text), ']');
      FedConcat(d, text, "]");
    }
  }

  /** Where one item leaves the machine, inside brackets or behind them. */
  lemma PhaseAfterItem(c: Compiler, item: Item)
    requires Printable(item) && (c.phase == InText || c.phase == InOptional)
    ensures Bracketable(item) ==> Fed(c, Print(item)).Some? && Fed(c, Print(item)).value.phase == c.phase
    ensures !Bracketable(item) && Fed(c, Print(item)).Some? ==> Fed(c, Print(item)).value.phase == InText
    ensures c.phase == InText ==> Fed(c, Print(item)).Some?
  {
    hide Bars, ViewName, Fed;
    match item
    case Literal(text) => FedText(c, text);
    case Wildcard => StarKeepsPhase(c);
    case Optional(text) => OptionalInside(c, text);
    case Var(name) => VariableEndsBracket(c, name);
    case TypedVar(name, view) => TypedVariableEndsBracket(c, name, view);
    case Alternatives(group) => GroupEndsBracket(c, group);
  }

  lemma StarKeepsPhase(c: Compiler)
    ensures Fed(c, "*").Some? && Fed(c, "*").value.phase == c.phase
  {
    FedOne(c, '*');
  }

  predicate AllBracketable(items: seq<Item>) {
    forall k :: 0 <= k < |items| ==> Bracketable(items[k])
  }

  lemma {:induction false} PhaseAfterItems(c: Compiler, items: seq<Item>)
    requires AllPrintable(items) && (c.phase == InText || c.phase == InOptional)
    ensures AllBracketable(items) ==> Fed(c, PrintAll(items)).Some? && Fed(c, PrintAll(items)).value.phase == c.phase
    ensures Fed(c, PrintAll(items)).Some? && (!AllBracketable(items) || c.phase == InText) ==>
              Fed(c, PrintAll(items)).value.phase == InText
    ensures c.phase == InText ==> Fed(c, PrintAll(items)).Some?
    decreases |items|
  {
    hide Step, Print, Bracketable;
    if items != [] {
      var item, rest := items[0], items[1..];
      PhaseAfterItem(c, item);
      FedConcat(c, Print(item), PrintAll(rest));
      if Fed(c, Print(item)).Some? { PhaseAfterItems(Fed(c, Print(item)).value, rest); }
      assert AllBracketable(items) <==> Bracketable(item) && AllBracketable(rest);
    }
  }

  lemma {:induction false} CompileStops(c: Compiler, a: string, b: string)
    requires Fed(c, a).None?
    ensures !Compile(c, a + b).ok
    decreases |a|
  {
    hide Step;
    assert (a + b)[1..] == a[1..] + b;
    if Step(c, a[0]).Some? { CompileStops(Step(c, a[0]).value, a[1..], b); }
  }

  /** A pattern with an optional part anywhere in it compiles exactly when that part holds no variable, no
      group and no optional part of its own. README.md uses brackets around variables. */
  lemma BracketsHoldTextOnly(before: seq<Item>, inner: seq<Item>, after: seq<Item>)
    requires AllPrintable(before) && AllPrintable(inner) && AllPrintable(after)
    ensures Compile(START, PrintAll(before) + ("[" + (PrintAll(inner) + ("]" + PrintAll(after))))).ok <==> AllBracketable(inner)
  {
    hide Step, PrintAll, Fed, OpenBracket;
    PhaseAfterItems(START, before);
    var a := Fed(START, PrintAll(before)).value;
    CompileAfter(START, PrintAll(before), "[" + (PrintAll(inner) + ("]" + PrintAll(after))));
    var c := Opened(a);
    CompileAfter(a, "[", PrintAll(inner) + ("]" + PrintAll(after)));
    PhaseAfterItems(c, inner);
    if Fed(c, PrintAll(inner)).Some? {
      CompileAfter(c, PrintAll(inner), "]" + PrintAll(after));
      CloseCompiles(Fed(c, PrintAll(inner)).value, after);
    } else {
      CompileStops(c, PrintAll(inner), "]" + PrintAll(after));
    }
  }

  lemma Opened(a: Compiler) returns (c: Compiler)
    requires a.phase == InText
    ensures Fed(a, "[") == Some(c) && c.phase == InOptional
  {
    FedOne(a, '[');
    c := OpenBracket(a).value;
  }

  lemma CloseCompiles(c: Compiler, after: seq<Item>)
    requires AllPrintable(after)
    ensures Compile(c, "]" + PrintAll(after)).ok <==> c.phase == InOptional
  {
    hide PrintAll, Fed;
    FedOne(c, ']');
    if c.phase == InOptional {
      var d := CloseBracket(c).value;
      CompileAfter(c, "]", PrintAll(after));
      PhaseAfterItems(d, after);
      assert PrintAll(after) + "" == PrintAll(after);
      CompileAfter(d, PrintAll(after), "");
    } else {
      CompileStops(c, "]", PrintAll(after));
    }
  }

  /** The tokens of the prefix of `a[b{name}d]`. */
  function CutTokens(a: string, b: string, name: string): seq<Token> {
    [TextToken(a, false), TextToken(b, true), Token(name, [], Variable, String, true)]
  }

  lemma CutOpens(a: string)
    requires a != "" && PlainText(a)
    ensures Fed(START, a + "[") == Some(Compiler([TextToken(a, false)], EMPTY.(optional := true), "", InOptional))
  {
    FedLiteral([], a);
    FlushPending([], a);
    FedOne(Pending([], a), '[');
    assert START == Pending([], "") && [] + [TextToken(a, false)] == [TextToken(a, false)];
    Chain(START, a, Pending([], a), "[", Fed(Pending([], a), "["));
  }

  lemma CutBrace(a: string, b: string)
    requires b != "" && PlainText(b)
    ensures Fed(Compiler([TextToken(a, false)], EMPTY.(optional := true), b, InOptional), "{")
         == Some(Compiler([TextToken(a, false), TextToken(b, true)], EMPTY.(optional := true, kind := Variable), "", InVariable))
  {
    FedOne(Compiler([TextToken(a, false)], EMPTY.(optional := true), b, InOptional), '{');
    assert [TextToken(a, false)] + [TextToken(b, true)] == [TextToken(a, false), TextToken(b, true)];
  }

  lemma CutVariable(a: string, b: string, name: string)
    requires name != ""
    ensures Fed(Compiler([TextToken(a, false), TextToken(b, true)], EMPTY.(optional := true, kind := Variable), name, InVariable), "}")
         == Some(Compiler(CutTokens(a, b, name), EMPTY.(optional := true), "", InText))
  {
    FedOne(Compiler([TextToken(a, false), TextToken(b, true)], EMPTY.(optional := true, kind := Variable), name,
      InVariable), '}');
    assert [TextToken(a, false), TextToken(b, true)] + [Token(name, [], Variable, String, true)]
           == CutTokens(a, b, name);
  }

  /** The README's `/ws[/{user}/]` shape: the pattern is cut at the bracket, and what stands between the
      variable and the bracket is lost. */
  lemma BracketedVariableIsCut(a: string, b: string, name: string, d: string, rest: string)
    requires a != "" && PlainText(a) && b != "" && PlainText(b) && name != "" && PlainName(name) && PlainText(d)
    ensures Compile(START, a + "[" + b + "{" + name + "}" + d + ("]" + rest)) == Outcome(false, CutTokens(a, b, name))
  {
    hide Step, Fed, CutTokens;
    var c1 := Compiler([TextToken(a, false)], EMPTY.(optional := true), "", InOptional);
    var c3 := Compiler([TextToken(a, false), TextToken(b, true)], EMPTY.(optional := true, kind := Variable), "", InVariable);
    var c5 := Compiler(CutTokens(a, b, name), EMPTY.(optional := true), "", InText);
    CutOpens(a);
    FedFirstText(c1, b);
    Chain(START, a + "[", c1, b, Some(c1.(str := b)));
    CutBrace(a, b);
    Chain(START, a + "[" + b, c1.(str := b), "{", Some(c3));
    FedFirstText(c3, name);
    Chain(START, a + "[" + b + "{", c3, name, Some(c3.(str := name)));
    CutVariable(a, b, name);
    Chain(START, a + "[" + b + "{" + name, c3.(str := name), "}", Some(c5));
    FedFirstText(c5, d);
    Chain(START, a + "[" + b + "{" + name + "}", c5, d, Some(c5.(str := d)));
    CompileAfter(START, a + "[" + b + "{" + name + "}" + d, "]" + rest);
    ClosedTooLate(c5.(str := d), rest);
  }

  lemma ClosedTooLate(c: Compiler, rest: string)
    requires c.phase != InOptional
    ensures Compile(c, "]" + rest) == Outcome(false, c.tokens)
  {
    assert ("]" + rest)[0] == ']';
  }

  // ---------------------------------------------------------------- patterns that are refused

  lemma StopsAt(c: Compiler, ch: char, rest: string)
    requires Step(c, ch).None?
    ensures !Compile(c, [ch] + rest).ok
  {
    hide Step;
    FedOne(c, ch);
    CompileStops(c, [ch], rest);
  }

  lemma EndsOutsideText(c: Compiler)
    requires c.phase != InText
    ensures !Compile(c, "").ok
  {
  }

  /** Inside the braces of a variable. */
  lemma BraceIsOpen(c: Compiler, name: string) returns (d: Compiler)
    requires c.phase == InText && PlainName(name)
    ensures Fed(c, "{" + name) == Some(d) && d.phase == InVariable && d.str == name
  {
    hide Fed;
    OpensBrace(c);
    var e := Fed(c, "{").value;
    FedFirstText(e, name);
    d := e.(str := name);
    Chain(c, "{", e, name, Some(d));
  }

  lemma TypeIsRead(c: Compiler, view: string) returns (d: Compiler)
    requires c.phase == InVariable && PlainText(view)
    ensures Fed(c, ":" + view) == Some(d) && d.phase == InType && d.current.text == c.str
  {
    hide Fed;
    TypeFollows(c);
    FedFirstText(Colon(c), view);
    d := Colon(c).(str := view);
    Chain(c, ":", Colon(c), view, Some(d));
  }

  /** A variable has to be closed and named, and may not start inside another. */
  lemma BadVariableIsRefused(before: seq<Item>, name: string, view: string, rest: string)
    requires AllPrintable(before) && PlainName(name) && PlainText(view)
    ensures !Compile(START, PrintAll(before) + ("{" + name)).ok
    ensures !Compile(START, PrintAll(before) + ("{" + name + (":" + view))).ok
    ensures !Compile(START, PrintAll(before) + ("{" + name + ("{" + rest))).ok
    ensures !Compile(START, PrintAll(before) + ("{" + name + (":" + view) + ("{" + rest))).ok
    ensures name == "" ==> !Compile(START, PrintAll(before) + ("{" + name + ("}" + rest))).ok
    ensures name == "" ==> !Compile(START, PrintAll(before) + ("{" + name + (":" + view) + ("}" + rest))).ok
  {
    hide Step, PrintAll, Fed, Compile;
    PhaseAfterItems(START, before);
    var c := Fed(START, PrintAll(before)).value;
    var d := BraceIsOpen(c, name);
    var e := TypeIsRead(d, view);
    Chain(c, "{" + name, d, ":" + view, Some(e));
    forall s ensures Compile(START, PrintAll(before) + s) == Compile(c, s) { CompileAfter(START, PrintAll(before), s); }
    forall s ensures Compile(c, "{" + name + s) == Compile(d, s) { CompileAfter(c, "{" + name, s); }
    forall s ensures Compile(c, "{" + name + (":" + view) + s) == Compile(e, s) {
      CompileAfter(c, "{" + name + (":" + view), s);
    }
    assert "{" + name + "" == "{" + name && "{" + name + (":" + view) + "" == "{" + name + (":" + view);
    EndsOutsideText(d);
    EndsOutsideText(e);
    BracesStop(d, rest);
    BracesStop(e, rest);
  }

  lemma BracesStop(c: Compiler, rest: string)
    requires c.phase == InVariable || c.phase == InType
    ensures !Compile(c, "{" + rest).ok
    ensures (c.phase == InVariable && c.str == "") || (c.phase == InType && c.current.text == "") ==>
              !Compile(c, "}" + rest).ok
  {
    StopsAt(c, '{', rest);
    if (c.phase == InVariable && c.str == "") || (c.phase == InType && c.current.text == "") { StopsAt(c, '}', rest); }
  }

  /** Brackets and groups have to be closed, and nothing may be closed that is not open. */
  lemma UnbalancedIsRefused(before: seq<Item>, text: string, rest: string)
    requires AllPrintable(before) && PlainText(text)
    ensures !Compile(START, PrintAll(before) + ("]" + rest)).ok
    ensures !Compile(START, PrintAll(before) + ("}" + rest)).ok
    ensures !Compile(START, PrintAll(before) + ("[" + text)).ok
    ensures !Compile(START, PrintAll(before) + ("(" + text)).ok
  {
    hide Step, PrintAll, Fed, Compile;
    PhaseAfterItems(START, before);
    var c := Fed(START, PrintAll(before)).value;
    forall s ensures Compile(START, PrintAll(before) + s) == Compile(c, s) { CompileAfter(START, PrintAll(before), s); }
    NothingIsOpen(c, rest);
    StaysOpen(c, '[', text);
    StaysOpen(c, '(', text);
  }

  lemma NothingIsOpen(c: Compiler, rest: string)
    requires c.phase == InText
    ensures !Compile(c, "]" + rest).ok && !Compile(c, "}" + rest).ok
  {
    StopsAt(c, ']', rest);
    StopsAt(c, '}', rest);
  }

  lemma StaysOpen(c: Compiler, ch: char, text: string)
    requires c.phase == InText && PlainText(text) && (ch == '[' || ch == '(')
    ensures !Compile(c, [ch] + text).ok
  {
    hide Fed, Compile;
    FedOne(c, ch);
    var d := Step(c, ch).value;
    FedText(d, text);
    var e := d.(str := d.str + text);
    Chain(c, [ch], d, text, Some(e));
    CompileAfter(c, [ch] + text, "");
    assert [ch] + text + "" == [ch] + text;
    EndsOutsideText(e);
  }
}
