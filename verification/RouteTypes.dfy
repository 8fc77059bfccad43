/** What the parts of a pattern take, written out: the characters of each type of variable, and the alternative
    of a group (src/Route.cpp, include/Route.h). */
module RouteTypes {
  import opened Route
  import opened RouteCompiler
  import opened RoutePrinting
  import opened Wrappers
  import RouteMatching

  // ---------------------------------------------------------------- types of variables

  /** The characters a variable of that type may hold; any other type text stands for `string`. */
  predicate Fits(typeName: string, c: char) {
    if typeName == "any" then true
    else if typeName == "numeric" then '0' <= c <= '9'
    else if typeName == "lower" then 'a' <= c <= 'z'
    else if typeName == "upper" then 'A' <= c <= 'Z'
    else if typeName == "alpha" then 'a' <= c <= 'z' || 'A' <= c <= 'Z'
    else 'a' <= c <= 'z' || 'A' <= c <= 'Z' || '0' <= c <= '9' || c == '.' || c == '_' || c == '-'
  }

  predicate AllFit(typeName: string, s: string) {
    s != "" && forall k :: 0 <= k < |s| ==> Fits(typeName, s[k])
  }

  /** `written` is the text, with any of its letters in capitals. */
  predicate Spells(written: string, text: string) {
    |written| == |text| &&
    forall k :: 0 <= k < |text| ==>
                  written[k] == text[k] || ('a' <= text[k] <= 'z' && written[k] as int + 32 == text[k] as int)
  }

  /** No capitals. */
  predicate Small(text: string) {
    forall k :: 0 <= k < |text| ==> !('A' <= text[k] <= 'Z')
  }

  lemma {:induction false} LowerSpells(written: string, text: string)
    requires Spells(written, text) && Small(text)
    ensures LowerText(written) == text
    decreases |text|
  {
    if text != "" {
      LowerSpells(written[1..], text[1..]);
      assert text == [text[0]] + text[1..];
      LowerOfLetter(written[0], text[0]);
    }
  }

  lemma LowerOfLetter(w: char, t: char)
    requires !('A' <= t <= 'Z') && (w == t || ('a' <= t <= 'z' && w as int + 32 == t as int))
    ensures LowerChar(w) == t
  {
  }

  lemma ClassFits(typeName: string, written: string, c: char)
    requires Spells(written, typeName) && Small(typeName)
    ensures InClass(ViewOf(written), c) <==> Fits(typeName, c)
  {
    hide LowerText;
    LowerSpells(written, typeName);
  }

  /** A route of one variable: the whole text, or nothing. */
  lemma VariableTakes(t: Token, s: string)
    requires t.kind == Variable && !t.optional
    ensures Walk([t], s).ok <==> s != "" && forall k :: 0 <= k < |s| ==> InClass(t.view, s[k])
    ensures Walk([t], s).ok ==> Walk([t], s).captures == [Capture(t.text, s)]
  {
    hide InClass;
    assert [t][1..] == [];
    var n := ClassRun(t.view, s);
    assert s[..|s|] == s;
    if n < |s| { assert !InClass(t.view, s[n]); }
    assert TokenLength(t, s) == if n > 0 then Some(n) else None;
    if n > 0 {
      var none: seq<Capture> := [];
      assert Walk([], s[n..]) == Result(n == |s|, none);
      assert [Capture(t.text, s[..n])] + none == [Capture(t.text, s[..n])];
    }
  }

  lemma FedTypeText(name: string, written: string)
    requires name != "" && PlainName(name) && PlainText(written)
    ensures Fed(START, "{" + name + ":" + written + "}")
         == Some(Pending([Token(name, [], Variable, ViewOf(written), false)], ""))
  {
    hide Fed, ViewOf;
    var d := Compiler([], EMPTY.(kind := Variable), name, InVariable);
    var e := Compiler([], EMPTY.(kind := Variable, text := name), "", InType);
    FedOpenBrace([], "", name);
    FedOne(d, ':');
    Chain(START, "{" + name, d, ":", Some(e));
    FedFirstText(e, written);
    Chain(START, "{" + name + ":", e, written, Some(e.(str := written)));
    FedOne(e.(str := written), '}');
    var none: seq<Token> := [];
    var t := Token(name, [], Variable, ViewOf(written), false);
    assert none + [t] == [t];
    Chain(START, "{" + name + ":" + written, e.(str := written), "}", Fed(e.(str := written), "}"));
  }

  lemma CompileFed(s: string, tokens: seq<Token>)
    requires Fed(START, s) == Some(Pending(tokens, ""))
    ensures Compile(START, s) == Outcome(true, tokens)
  {
    hide Fed;
    assert s + "" == s;
    CompileAfter(START, s, "");
    CompileNothing(tokens, "");
  }

  /** A pattern that is compiled and matches. */
  predicate Takes(pattern: string, s: string) {
    var route := Compile(START, pattern);
    route.ok && Walk(route.tokens, s).ok
  }

  function CapturesBy(pattern: string, s: string): seq<Capture> {
    Walk(Compile(START, pattern).tokens, s).captures
  }

  /** A variable with a type, in whatever case the type is written: it takes a text exactly when the text is
      not empty and all its characters are of the type, and it is set to that text. */
  lemma TypedVariableTakes(name: string, typeName: string, written: string, s: string)
    requires name != "" && PlainName(name) && PlainText(written) && Spells(written, typeName) && Small(typeName)
    ensures var pattern := "{" + name + ":" + written + "}";
            && (Takes(pattern, s) <==> AllFit(typeName, s))
            && (Takes(pattern, s) ==> CapturesBy(pattern, s) == [Capture(name, s)])
  {
    hide Fed, Compile, Walk, InClass, ViewOf, Fits, Spells;
    var t := Token(name, [], Variable, ViewOf(written), false);
    FedTypeText(name, written);
    CompileFed("{" + name + ":" + written + "}", [t]);
    VariableTakes(t, s);
    forall k | 0 <= k < |s| ensures InClass(t.view, s[k]) <==> Fits(typeName, s[k]) {
      ClassFits(typeName, written, s[k]);
    }
  }

  /** A variable without a type is a `string`. */
  lemma UntypedVariableTakes(name: string, s: string)
    requires name != "" && PlainName(name)
    ensures var pattern := "{" + name + "}";
            && (Takes(pattern, s) <==> AllFit("string", s))
            && (Takes(pattern, s) ==> CapturesBy(pattern, s) == [Capture(name, s)])
  {
    hide Fed, Compile, Walk, InClass, Fits;
    var t := Token(name, [], Variable, String, false);
    FedVariable([], "", name);
    assert [] + [t] == [t];
    CompileFed("{" + name + "}", [t]);
    VariableTakes(t, s);
    forall k | 0 <= k < |s| ensures InClass(String, s[k]) <==> Fits("string", s[k]) { StringFits(s[k]); }
  }

  lemma StringFits(c: char)
    ensures InClass(String, c) <==> Fits("string", c)
  {
  }

  // ---------------------------------------------------------------- groups

  /** Sorted, no alternative stands behind a proper prefix of itself. */
  lemma NoPrefixInFront(group: seq<string>, i: nat, j: nat)
    requires i < j < |SortGroup(group)|
    ensures var g := SortGroup(group); !(g[i] <= g[j] && g[i] != g[j])
  {
    SortGroupSorts(group);
    var g := SortGroup(group);
    assert !Before(g[j], g[i]);
  }

  lemma {:induction false} FirstIsAt(group: seq<string>, s: string) returns (i: nat)
    requires FirstAlternative(group, s).Some?
    ensures i < |group| && FirstAlternative(group, s) == Some(group[i]) && group[i] <= s
    ensures forall k :: 0 <= k < i ==> !(group[k] <= s)
    decreases |group|
  {
    if group[0] <= s {
      i := 0;
    } else {
      var k := FirstIsAt(group[1..], s);
      i := k + 1;
    }
  }

  lemma {:induction false} NoneIsFound(group: seq<string>, s: string)
    ensures FirstAlternative(group, s).None? <==> forall a :: a in group ==> !(a <= s)
    decreases |group|
  {
    if group != [] {
      NoneIsFound(group[1..], s);
      assert group == [group[0]] + group[1..];
    }
  }

  /** The longest alternative a text starts with. */
  ghost predicate IsLongest(group: seq<string>, s: string, a: string) {
    a in group && a <= s && forall b :: b in group && b <= s ==> |b| <= |a|
  }

  lemma SortedTakesLongest(group: seq<string>, s: string)
    ensures FirstAlternative(SortGroup(group), s).Some? ==>
              IsLongest(group, s, FirstAlternative(SortGroup(group), s).value)
    ensures FirstAlternative(SortGroup(group), s).None? ==> forall a :: !IsLongest(group, s, a)
  {
    hide FirstAlternative, SortGroup, Sorted;
    SortGroupSorts(group);
    var g := SortGroup(group);
    SameMembers(g, group);
    if FirstAlternative(g, s).Some? {
      var i := FirstIsAt(g, s);
      forall b | b in group && b <= s ensures |b| <= |g[i]| {
        assert b in g;
        var j :| 0 <= j < |g| && g[j] == b;
        if j > i { NoPrefixInFront(group, i, j); RouteMatching.PrefixesCompare(g[i], b, s); }
      }
    } else {
      NoneIsFound(g, s);
    }
  }

  lemma SameMembers(a: seq<string>, b: seq<string>)
    requires multiset(a) == multiset(b)
    ensures forall x :: x in a <==> x in b
  {
    forall x ensures x in a <==> x in b { assert x in multiset(a) <==> x in multiset(b); }
  }

  /** A group in a pattern: it takes the longest of its alternatives that the text starts with, though another
      may be a prefix of it, and the rest of the route goes on behind that one. */
  lemma GroupTakesLongest(group: seq<string>, rest: seq<Token>, s: string)
    requires group != [] && forall k :: 0 <= k < |group| ==> PlainText(group[k])
    ensures var route := Compile(START, "(" + Bars(group) + ")");
            && route.ok && |route.tokens| == 1
            && (Walk(route.tokens + rest, s).ok <==> exists a :: IsLongest(group, s, a) && Walk(rest, s[|a|..]).ok)
  {
    hide Fed, Compile, Bars, SortGroup, FirstAlternative, IsLongest, Walk;
    var t := TokenOf(Alternatives(group));
    FedGroup([], "", group);
    assert [] + [t] == [t];
    CompileFed("(" + Bars(group) + ")", [t]);
    SortedTakesLongest(group, s);
    GroupWalks(group, rest, s);
    forall a, b | IsLongest(group, s, a) && IsLongest(group, s, b) ensures a == b { LongestIsOne(group, s, a, b); }
  }

  lemma LongestIsOne(group: seq<string>, s: string, a: string, b: string)
    requires IsLongest(group, s, a) && IsLongest(group, s, b)
    ensures a == b
  {
    RouteMatching.PrefixesCompare(a, b, s);
  }

  lemma GroupWalks(group: seq<string>, rest: seq<Token>, s: string)
    ensures var first := FirstAlternative(SortGroup(group), s);
            Walk([TokenOf(Alternatives(group))] + rest, s).ok
            <==> first.Some? && Walk(rest, s[|first.value|..]).ok
  {
    hide SortGroup, FirstAlternative;
    assert ([TokenOf(Alternatives(group))] + rest)[1..] == rest;
  }
}
