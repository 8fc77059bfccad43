/** What a token list means, and how far the greedy matcher of src/Route.cpp agrees. */
module RouteMatching {
  import opened Route
  import opened Wrappers

  // ---------------------------------------------------------------- the meaning of a token list

  /** The strings a token stands for when it is there. */
  predicate InLanguage(t: Token, piece: string) {
    match t.kind
    case Default => piece == t.text
    case Variable => piece != "" && forall k :: 0 <= k < |piece| ==> InClass(t.view, piece[k])
    case Group => piece in t.group
    case Any => true
  }

  predicate Stands(t: Token, piece: string) {
    InLanguage(t, piece) || (t.optional && piece == "")
  }

  /** One piece of the path for every token. */
  predicate Reading(tokens: seq<Token>, pieces: seq<string>)
    decreases |tokens|
  {
    |pieces| == |tokens| && (tokens != [] ==> Stands(tokens[0], pieces[0]) && Reading(tokens[1..], pieces[1..]))
  }

  function Concat(pieces: seq<string>): string {
    if pieces == [] then "" else pieces[0] + Concat(pieces[1..])
  }

  function CapturesOf(tokens: seq<Token>, pieces: seq<string>): seq<Capture>
    requires |pieces| == |tokens|
    decreases |tokens|
  {
    if tokens == [] then []
    else (if pieces[0] == "" then [] else Captured(tokens[0], pieces[0])) + CapturesOf(tokens[1..], pieces[1..])
  }

  /** Every variable takes all the characters of its class that are there. */
  predicate Maximal(tokens: seq<Token>, pieces: seq<string>)
    requires |pieces| == |tokens|
    decreases |tokens|
  {
    tokens == [] ||
    (&& (tokens[0].kind == Variable && pieces[0] != "" ==>
           var rest := Concat(pieces[1..]); rest == "" || !InClass(tokens[0].view, rest[0]))
     && Maximal(tokens[1..], pieces[1..]))
  }

  ghost predicate Explains(tokens: seq<Token>, pieces: seq<string>, s: string, captures: seq<Capture>) {
    && Reading(tokens, pieces) && Concat(pieces) == s
    && captures == CapturesOf(tokens, pieces) && Maximal(tokens, pieces)
  }

  // ---------------------------------------------------------------- soundness

  lemma TokenIsSound(t: Token, s: string)
    requires TokenLength(t, s).Some?
    ensures var n := TokenLength(t, s).value;
            && InLanguage(t, s[..n])
            && (t.kind == Variable ==> n > 0 && (s[n..] == "" || !InClass(t.view, s[n..][0])))
  {
    if t.kind == Group {
      var a := FirstAlternative(t.group, s).value;
      assert s[..|a|] == a;
    }
  }

  lemma ExplainsCons(
      t: Token, piece: string, tokens: seq<Token>, pieces: seq<string>, s: string, captures: seq<Capture>)
    requires Explains(tokens, pieces, s, captures) && Stands(t, piece)
    requires t.kind == Variable && piece != "" ==> s == "" || !InClass(t.view, s[0])
    ensures Explains([t] + tokens, [piece] + pieces, piece + s, (if piece == "" then [] else Captured(t, piece)) + captures)
  {
    assert ([t] + tokens)[1..] == tokens && ([piece] + pieces)[1..] == pieces;
  }

  /** A path that matches splits into consecutive pieces, each one its token's, with the arguments that
      were set; a wildcard at the end takes the rest. */
  lemma {:induction false} MatchIsSound(tokens: seq<Token>, s: string) returns (pieces: seq<string>)
    requires Walk(tokens, s).ok
    ensures Explains(tokens, pieces, s, Walk(tokens, s).captures)
    decreases |tokens|, 2
  {
    hide TokenLength, FindToken, Explains, InLanguage;
    if tokens == [] {
      pieces := [];
      assert Explains([], [], "", []) by { NothingExplained(); }
    } else {
      var t := tokens[0];
      assert tokens == [t] + tokens[1..];
      if t.kind == Any {
        pieces := WildcardIsSound(tokens, s);
      } else {
        pieces := TokenThenRest(tokens, s);
      }
    }
  }

  lemma NothingExplained()
    ensures Explains([], [], "", [])
  {
  }

  lemma {:induction false} TokenThenRest(tokens: seq<Token>, s: string) returns (pieces: seq<string>)
    requires tokens != [] && tokens[0].kind != Any && Walk(tokens, s).ok
    ensures Explains(tokens, pieces, s, Walk(tokens, s).captures)
    decreases |tokens|, 0
  {
    hide TokenLength, FindToken, Explains, InLanguage;
    var t, rest := tokens[0], tokens[1..];
    assert tokens == [t] + rest;
    match TokenLength(t, s)
    case Some(n) =>
      var tail := MatchIsSound(rest, s[n..]);
      pieces := TokenExplains(t, rest, tail, s, n, Walk(rest, s[n..]).captures);
    case None =>
      var tail := MatchIsSound(rest, s);
      ExplainsCons(t, "", rest, tail, s, Walk(rest, s).captures);
      assert "" + s == s && [] + Walk(rest, s).captures == Walk(rest, s).captures;
      pieces := [""] + tail;
  }

  lemma NoEmptyCapture(t: Token, piece: string, captures: seq<Capture>)
    requires t.kind == Variable ==> piece != ""
    ensures (if piece == "" then [] else Captured(t, piece)) + captures == Captured(t, piece) + captures
  {
  }

  lemma {:induction false} WildcardIsSound(tokens: seq<Token>, s: string) returns (pieces: seq<string>)
    requires tokens != [] && tokens[0].kind == Any && Walk(tokens, s).ok
    ensures Explains(tokens, pieces, s, Walk(tokens, s).captures)
    decreases |tokens|, 1
  {
    hide TokenLength, Explains, FindToken;
    if |tokens| == 1 {
      assert tokens == [tokens[0]];
      pieces := LastWildcard(tokens[0], s);
    } else {
      var p := FindToken(tokens[1], s).value;
      var tail := FoundThenRest(tokens, s);
      pieces := WildcardSkips(tokens[0], tokens[1..], tail, s, p.0, Walk(tokens, s).captures);
      assert [tokens[0]] + tokens[1..] == tokens;
    }
  }

  lemma LastWildcard(t: Token, s: string) returns (pieces: seq<string>)
    requires t.kind == Any
    ensures Explains([t], pieces, s, [])
  {
    hide Explains;
    NothingExplained();
    ExplainsCons(t, s, [], [], "", []);
    NoEmptyCapture(t, s, []);
    var none: seq<Capture> := [];
    assert s + "" == s && none + none == none && [t] + [] == [t];
    pieces := [s] + [];
  }

  lemma WildcardSkips(t: Token, rest: seq<Token>, tail: seq<string>, s: string, n: nat, captures: seq<Capture>)
    returns (pieces: seq<string>)
    requires t.kind == Any && n <= |s| && Explains(rest, tail, s[n..], captures)
    ensures Explains([t] + rest, pieces, s, captures)
  {
    hide Explains;
    ExplainsCons(t, s[..n], rest, tail, s[n..], captures);
    NoEmptyCapture(t, s[..n], captures);
    assert [] + captures == captures && s[..n] + s[n..] == s;
    pieces := [s[..n]] + tail;
  }

  /** Behind a wildcard: the token that was looked for, where it was found. */
  lemma {:induction false} FoundThenRest(tokens: seq<Token>, s: string) returns (pieces: seq<string>)
    requires |tokens| > 1 && tokens[0].kind == Any && Walk(tokens, s).ok
    ensures FindToken(tokens[1], s).Some?
    ensures Explains(tokens[1..], pieces, s[FindToken(tokens[1], s).value.0..], Walk(tokens, s).captures)
    decreases |tokens|, 0
  {
    hide TokenLength, Explains, FindToken;
    var p := FindToken(tokens[1], s).value;
    var tail := MatchIsSound(tokens[2..], s[p.0 + p.1..]);
    assert s[p.0..][p.1..] == s[p.0 + p.1..] && s[p.0..][..p.1] == s[p.0..p.0 + p.1];
    pieces := TokenExplains(tokens[1], tokens[2..], tail, s[p.0..], p.1, Walk(tokens[2..], s[p.0 + p.1..]).captures);
    assert [tokens[1]] + tokens[2..] == tokens[1..];
  }

  lemma TokenExplains(
      t: Token, rest: seq<Token>, tail: seq<string>, s: string, n: nat,
      captures: seq<Capture>) returns (pieces: seq<string>)
    requires TokenLength(t, s) == Some(n) && Explains(rest, tail, s[n..], captures)
    ensures Explains([t] + rest, pieces, s, Captured(t, s[..n]) + captures)
  {
    hide TokenLength, Explains, InLanguage;
    TokenIsSound(t, s);
    ExplainsCons(t, s[..n], rest, tail, s[n..], captures);
    NoEmptyCapture(t, s[..n], captures);
    assert s[..n] + s[n..] == s;
    pieces := [s[..n]] + tail;
  }

  // ---------------------------------------------------------------- exactness

  /** No alternative starts another one. */
  predicate PrefixFree(group: seq<string>) {
    forall i, j :: 0 <= i < |group| && 0 <= j < |group| && group[i] <= group[j] ==> group[i] == group[j]
  }

  /** Patterns of literals, prefix-free groups and variables, where a variable is last or followed by a
      literal that starts outside its class. */
  predicate Plain(tokens: seq<Token>)
    decreases |tokens|
  {
    tokens == [] ||
    var t := tokens[0];
    && t.kind != Any && !t.optional
    && (t.kind == Group ==> PrefixFree(t.group))
    && (t.kind == Variable && |tokens| > 1 ==>
          tokens[1].kind == Default && tokens[1].text != "" && !InClass(t.view, tokens[1].text[0]))
    && Plain(tokens[1..])
  }

  lemma PrefixesCompare(a: string, b: string, s: string)
    requires a <= s && b <= s
    ensures a <= b || b <= a
  {
  }

  lemma {:induction false} GroupTakesThePiece(group: seq<string>, piece: string, rest: string)
    requires PrefixFree(group) && piece in group
    ensures FirstAlternative(group, piece + rest) == Some(piece)
    decreases |group|
  {
    var s := piece + rest;
    assert piece <= s;
    if group[0] <= s {
      var j :| 0 <= j < |group| && group[j] == piece;
      PrefixesCompare(group[0], group[j], s);
    } else {
      assert piece in group[1..];
      GroupTakesThePiece(group[1..], piece, rest);
    }
  }

  lemma {:induction false} RunIsThePiece(view: View, piece: string, rest: string)
    requires forall k :: 0 <= k < |piece| ==> InClass(view, piece[k])
    requires rest == "" || !InClass(view, rest[0])
    ensures ClassRun(view, piece + rest) == |piece|
  {
    if piece == "" {
      assert "" + rest == rest;
    } else {
      assert (piece + rest)[1..] == piece[1..] + rest;
      RunIsThePiece(view, piece[1..], rest);
    }
  }

  lemma TokenTakesThePiece(t: Token, piece: string, rest: string)
    requires InLanguage(t, piece) && t.kind != Any && (t.kind == Group ==> PrefixFree(t.group))
    requires t.kind == Variable ==> rest == "" || !InClass(t.view, rest[0])
    ensures TokenLength(t, piece + rest) == Some(|piece|)
  {
    match t.kind
    case Group => GroupTakesThePiece(t.group, piece, rest);
    case Variable => RunIsThePiece(t.view, piece, rest);
    case Default => assert piece <= piece + rest;
  }

  lemma NextStarts(tokens: seq<Token>, pieces: seq<string>)
    requires Plain(tokens) && Reading(tokens, pieces) && |tokens| > 1 && tokens[0].kind == Variable
    ensures var rest := Concat(pieces[1..]); rest != "" && !InClass(tokens[0].view, rest[0])
  {
    assert tokens[1..][0] == tokens[1] && pieces[1..][0] == pieces[1];
    assert Plain(tokens[1..]) && Reading(tokens[1..], pieces[1..]);
    assert pieces[1] == tokens[1].text;
    assert Concat(pieces[1..]) == pieces[1] + Concat(pieces[1..][1..]);
  }

  /** Rendering a plain pattern and matching it gives back exactly what was rendered. */
  lemma {:induction false} RenderedPathMatches(tokens: seq<Token>, pieces: seq<string>)
    requires Plain(tokens) && Reading(tokens, pieces)
    ensures Walk(tokens, Concat(pieces)) == Result(true, CapturesOf(tokens, pieces))
    decreases |tokens|
  {
    hide TokenLength, FindToken, InLanguage, PrefixFree;
    if tokens != [] {
      var t, piece, rest := tokens[0], pieces[0], Concat(pieces[1..]);
      if t.kind == Variable {
        if |tokens| > 1 { NextStarts(tokens, pieces); }
        assert piece != "" by { VariableNotEmpty(t, piece); }
      }
      TokenTakesThePiece(t, piece, rest);
      assert (piece + rest)[..|piece|] == piece && (piece + rest)[|piece|..] == rest;
      RenderedPathMatches(tokens[1..], pieces[1..]);
      NoEmptyCapture(t, piece, CapturesOf(tokens[1..], pieces[1..]));
    }
  }

  lemma VariableNotEmpty(t: Token, piece: string)
    requires InLanguage(t, piece) && t.kind == Variable
    ensures piece != ""
  {
  }

  /** The path is what a token list makes of some pieces. */
  ghost predicate Rendered(tokens: seq<Token>, s: string) {
    exists pieces :: Reading(tokens, pieces) && Concat(pieces) == s
  }

  /** On plain patterns greedy matching loses nothing: a path matches exactly when it can be rendered. */
  lemma PlainMatchIsExact(tokens: seq<Token>, s: string)
    requires Plain(tokens)
    ensures Walk(tokens, s).ok <==> Rendered(tokens, s)
  {
    hide Walk, Plain, Reading;
    if Walk(tokens, s).ok {
      var pieces := MatchIsSound(tokens, s);
      assert Reading(tokens, pieces) && Concat(pieces) == s;
    }
    forall pieces | Reading(tokens, pieces) && Concat(pieces) == s ensures Walk(tokens, s).ok {
      RenderedPathMatches(tokens, pieces);
    }
  }

  /** There is only one way to read a plain pattern. */
  lemma {:induction false} ReadingIsUnique(tokens: seq<Token>, a: seq<string>, b: seq<string>)
    requires Plain(tokens) && Reading(tokens, a) && Reading(tokens, b) && Concat(a) == Concat(b)
    ensures a == b
    decreases |tokens|
  {
    hide TokenLength, InLanguage, PrefixFree;
    if tokens != [] {
      var t, ra, rb := tokens[0], Concat(a[1..]), Concat(b[1..]);
      if t.kind == Variable && |tokens| > 1 { NextStarts(tokens, a); NextStarts(tokens, b); }
      TokenTakesThePiece(t, a[0], ra);
      TokenTakesThePiece(t, b[0], rb);
      assert a[0] == (a[0] + ra)[..|a[0]|] && b[0] == (b[0] + rb)[..|b[0]|];
      assert ra == (a[0] + ra)[|a[0]|..] && rb == (b[0] + rb)[|b[0]|..];
      ReadingIsUnique(tokens[1..], a[1..], b[1..]);
      assert a == [a[0]] + a[1..] && b == [b[0]] + b[1..];
    } else {
      assert a == [] && b == [];
    }
  }

  // ---------------------------------------------------------------- the captured arguments

  predicate DistinctVariables(tokens: seq<Token>) {
    forall i, j :: 0 <= i < j < |tokens| && tokens[i].kind == tokens[j].kind == Variable ==>
                     tokens[i].text != tokens[j].text
  }

  lemma OtherKeeps(args: map<string, string>, first: seq<Capture>, name: string)
    requires |first| <= 1 && name in args && (first != [] ==> first[0].name != name)
    ensures name in SetArgs(args, first) && SetArgs(args, first)[name] == args[name]
  {
    if first != [] { assert first[1..] == []; }
  }

  lemma {:induction false} OthersKeep(args: map<string, string>, tokens: seq<Token>, pieces: seq<string>, name: string)
    requires |pieces| == |tokens| && name in args
    requires forall j :: 0 <= j < |tokens| && tokens[j].kind == Variable ==> tokens[j].text != name
    ensures var r := SetArgs(args, CapturesOf(tokens, pieces)); name in r && r[name] == args[name]
    decreases |tokens|
  {
    if tokens != [] {
      var first := if pieces[0] == "" then [] else Captured(tokens[0], pieces[0]);
      SetArgsConcat(args, first, CapturesOf(tokens[1..], pieces[1..]));
      OtherKeeps(args, first, name);
      OthersKeep(SetArgs(args, first), tokens[1..], pieces[1..], name);
    }
  }

  /** `GetArg` returns what was rendered for each variable. */
  lemma {:induction false} ArgumentsRoundTrip(
      args: map<string, string>, tokens: seq<Token>, pieces: seq<string>, i: nat)
    requires Plain(tokens) && Reading(tokens, pieces) && DistinctVariables(tokens) && i < |tokens|
             && tokens[i].kind == Variable
    ensures var r := SetArgs(args, Walk(tokens, Concat(pieces)).captures);
            tokens[i].text in r && r[tokens[i].text] == pieces[i]
    decreases |tokens|
  {
    hide TokenLength, Walk, InLanguage, PrefixFree;
    RenderedPathMatches(tokens, pieces);
    var first := if pieces[0] == "" then [] else Captured(tokens[0], pieces[0]);
    SetArgsConcat(args, first, CapturesOf(tokens[1..], pieces[1..]));
    if i == 0 {
      VariableNotEmpty(tokens[0], pieces[0]);
      assert first[1..] == [];
      OthersKeep(SetArgs(args, first), tokens[1..], pieces[1..], tokens[0].text);
    } else {
      RenderedPathMatches(tokens[1..], pieces[1..]);
      ArgumentsRoundTrip(SetArgs(args, first), tokens[1..], pieces[1..], i - 1);
    }
  }

  // ---------------------------------------------------------------- wildcards

  /** How plain tokens take the front of a path: a variable at their end takes all it can. */
  ghost predicate Front(tokens: seq<Token>, pieces: seq<string>, rest: string) {
    && Reading(tokens, pieces)
    && (tokens != [] && tokens[|tokens| - 1].kind == Variable ==>
          rest == "" || !InClass(tokens[|tokens| - 1].view, rest[0]))
  }

  lemma FrontNext(tokens: seq<Token>, pieces: seq<string>, rest: string)
    requires Front(tokens, pieces, rest) && tokens != []
    ensures |pieces| == |tokens| && Front(tokens[1..], pieces[1..], rest) && Stands(tokens[0], pieces[0])
    ensures Plain(tokens) && tokens[0].kind == Variable ==>
              var behind := Concat(pieces[1..]) + rest; behind == "" || !InClass(tokens[0].view, behind[0])
  {
    hide InLanguage, PrefixFree;
    if Plain(tokens) && tokens[0].kind == Variable {
      if |tokens| > 1 { NextStarts(tokens, pieces); }
      else { assert Concat(pieces[1..]) + rest == rest; }
    }
  }

  /** Behind plain tokens the match goes on as if it started there. */
  lemma {:induction false} RenderedThenRest(pre: seq<Token>, tail: seq<Token>, pieces: seq<string>, rest: string)
    requires Plain(pre) && Front(pre, pieces, rest)
    ensures Walk(pre + tail, Concat(pieces) + rest).ok <==> Walk(tail, rest).ok
    decreases |pre|
  {
    hide TokenLength, FindToken, InLanguage, PrefixFree, Front;
    if pre == [] {
      FrontOfNothing(pieces, rest);
      assert pre + tail == tail && Concat(pieces) + rest == rest;
    } else {
      FrontNext(pre, pieces, rest);
      var t, piece, behind := pre[0], pieces[0], Concat(pieces[1..]) + rest;
      TokenTakesThePiece(t, piece, behind);
      assert (pre + tail)[1..] == pre[1..] + tail && Concat(pieces) + rest == piece + behind;
      assert (piece + behind)[|piece|..] == behind;
      RenderedThenRest(pre[1..], tail, pieces[1..], rest);
    }
  }

  lemma FrontOfNothing(pieces: seq<string>, rest: string)
    requires Front([], pieces, rest)
    ensures pieces == [] && Concat(pieces) == ""
  {
  }

  /** And a match has to begin that way. */
  lemma {:induction false} FrontIsTaken(
      pre: seq<Token>, tail: seq<Token>, s: string) returns (pieces: seq<string>, rest: string)
    requires Plain(pre) && Walk(pre + tail, s).ok
    ensures Front(pre, pieces, rest) && Concat(pieces) + rest == s && Walk(tail, rest).ok
    decreases |pre|
  {
    hide TokenLength, FindToken, InLanguage, PrefixFree;
    if pre == [] {
      pieces, rest := [], s;
      assert pre + tail == tail && "" + s == s;
    } else {
      hide Front, Concat;
      assert (pre + tail)[1..] == pre[1..] + tail;
      var n := TokenLength(pre[0], s).value;
      var more;
      more, rest := FrontIsTaken(pre[1..], tail, s[n..]);
      FrontCons(pre, s, n, more, rest);
      pieces := [s[..n]] + more;
    }
  }

  lemma FrontCons(pre: seq<Token>, s: string, n: nat, more: seq<string>, rest: string)
    requires pre != [] && TokenLength(pre[0], s) == Some(n)
    requires Front(pre[1..], more, rest) && Concat(more) + rest == s[n..]
    ensures Front(pre, [s[..n]] + more, rest) && Concat([s[..n]] + more) + rest == s
  {
    hide TokenLength, InLanguage;
    var pieces := [s[..n]] + more;
    TokenIsSound(pre[0], s);
    assert pieces[1..] == more;
    assert s[..n] + Concat(more) + rest == s[..n] + (Concat(more) + rest) == s;
    if |pre| == 1 { assert rest == s[n..]; }
  }

  /** The first place where a text stands. */
  ghost predicate FirstAt(text: string, s: string, k: nat) {
    k + |text| <= |s| && text <= s[k..] && forall j :: 0 <= j < k ==> !(text <= s[j..])
  }

  lemma FindText(lit: Token, s: string, k: nat)
    requires lit.kind == Default && lit.text != ""
    ensures FindToken(lit, s) == Some((k, |lit.text|)) <==> FirstAt(lit.text, s, k)
    ensures FindToken(lit, s).Some? ==> FindToken(lit, s).value.1 == |lit.text|
  {
    hide TokenLength, FindToken;
    FindFirst(lit, s);
    TextLengths(lit, s);
    if FindToken(lit, s).Some? {
      var p := FindToken(lit, s).value;
      assert TokenLength(lit, s[p.0..]) == Some(p.1);
    }
  }

  lemma TextLengths(lit: Token, s: string)
    requires lit.kind == Default && lit.text != ""
    ensures forall j :: 0 <= j < |s| ==>
                          TokenLength(lit, s[j..]) == if lit.text <= s[j..] then Some(|lit.text|) else None
  {
  }

  lemma {:induction false} FindFirst(t: Token, s: string)
    ensures match FindToken(t, s) {
              case Some(p) => forall k :: 0 <= k < p.0 ==> TokenLength(t, s[k..]) == None
              case None => forall k :: 0 <= k < |s| ==> TokenLength(t, s[k..]) == None
            }
    decreases |s|
  {
    hide TokenLength;
    if s != "" && TokenLength(t, s).None? {
      FindFirst(t, s[1..]);
      forall k | 1 <= k <= |s| ensures s[k..] == s[1..][k - 1..] {}
      assert s[0..] == s;
    }
  }

  /** The literal first stands at some place, and the rest of the pattern matches right behind it. */
  ghost predicate GoesOn(text: string, post: seq<Token>, s: string) {
    exists k: nat :: FirstAt(text, s, k) && Walk(post, s[k + |text|..]).ok
  }

  lemma WildcardStep(star: Token, lit: Token, post: seq<Token>, s: string)
    requires star.kind == Any
    ensures var found := FindToken(lit, s);
            Walk([star, lit] + post, s).ok <==> found.Some? && Walk(post, s[found.value.0 + found.value.1..]).ok
  {
    hide TokenLength, FindToken;
    assert ([star, lit] + post)[2..] == post;
  }

  lemma WildcardWalk(star: Token, lit: Token, post: seq<Token>, s: string)
    requires star.kind == Any && lit.kind == Default && lit.text != ""
    ensures Walk([star, lit] + post, s).ok <==> GoesOn(lit.text, post, s)
  {
    hide TokenLength, FindToken, Walk, FirstAt;
    WildcardStep(star, lit, post, s);
    match FindToken(lit, s)
    case Some(p) =>
      FindText(lit, s, p.0);
      FirstIsOne(lit.text, s, p.0);
    case None =>
      forall k: nat ensures !FirstAt(lit.text, s, k) { FindText(lit, s, k); }
  }

  lemma FirstIsOne(text: string, s: string, j: nat)
    requires FirstAt(text, s, j)
    ensures j + |text| <= |s| && forall k: nat :: FirstAt(text, s, k) ==> k == j
  {
  }

  /** The front is taken, and the literal and what is behind it follow. */
  ghost predicate StopsAtFirst(pre: seq<Token>, text: string, post: seq<Token>, s: string) {
    exists pieces, rest :: Front(pre, pieces, rest) && Concat(pieces) + rest == s && GoesOn(text, post, rest)
  }

  /** A wildcard before a literal stops at the literal's first occurrence and does not go back: the path
      matches exactly when the rest of the pattern matches behind that one occurrence. */
  lemma WildcardStopsAtFirst(pre: seq<Token>, star: Token, lit: Token, post: seq<Token>, s: string)
    requires Plain(pre) && star.kind == Any && lit.kind == Default && lit.text != ""
    ensures Walk(pre + ([star, lit] + post), s).ok <==> StopsAtFirst(pre, lit.text, post, s)
  {
    hide Front, GoesOn, Plain;
    var tail := [star, lit] + post;
    if Walk(pre + tail, s).ok {
      var pieces, rest := FrontIsTaken(pre, tail, s);
      WildcardWalk(star, lit, post, rest);
    }
    forall pieces, rest | Front(pre, pieces, rest) && Concat(pieces) + rest == s && GoesOn(lit.text, post, rest)
      ensures Walk(pre + tail, s).ok
    {
      WildcardWalk(star, lit, post, rest);
      RenderedThenRest(pre, tail, pieces, rest);
    }
  }

  lemma {:induction false} ReadingConcat(a: seq<Token>, b: seq<Token>, p: seq<string>, q: seq<string>)
    requires Reading(a, p) && Reading(b, q)
    ensures Reading(a + b, p + q)
    decreases |a|
  {
    hide Stands;
    if a == [] {
      assert a + b == b && p + q == q;
    } else {
      ReadingConcat(a[1..], b, p[1..], q);
      assert (a + b)[1..] == a[1..] + b && (p + q)[1..] == p[1..] + q;
    }
  }

  lemma {:induction false} ConcatConcat(p: seq<string>, q: seq<string>)
    ensures Concat(p + q) == Concat(p) + Concat(q)
    decreases |p|
  {
    if p == [] {
      assert p + q == q;
    } else {
      ConcatConcat(p[1..], q);
      assert (p + q)[1..] == p[1..] + q;
    }
  }

  /** So `*` followed by a literal at the end of a pattern misses a path that repeats the literal, though the
      path can be read. */
  lemma WildcardMissesRepetition(pre: seq<Token>, star: Token, lit: Token, pieces: seq<string>, p: string)
    requires Plain(pre) && star.kind == Any && lit.kind == Default && lit.text != ""
    requires Front(pre, pieces, p + lit.text + lit.text)
    ensures var path := Concat(pieces) + (p + lit.text + lit.text);
            && !Walk(pre + [star, lit], path).ok
            && Reading(pre + [star, lit], pieces + [p + lit.text, lit.text])
            && Concat(pieces + [p + lit.text, lit.text]) == path
  {
    hide Plain, GoesOn, TokenLength, FindToken, Stands, FirstAt;
    var rest := p + lit.text + lit.text;
    RenderedThenRest(pre, [star, lit], pieces, rest);
    assert [star, lit] + [] == [star, lit];
    WildcardWalk(star, lit, [], rest);
    TooEarly(lit.text, p);
    assert Stands(star, p + lit.text) && Stands(lit, lit.text) by { StandsHere(star, lit, p + lit.text); }
    ReadTwo(star, lit, p + lit.text, lit.text);
    ReadingConcat(pre, [star, lit], pieces, [p + lit.text, lit.text]);
    ConcatConcat(pieces, [p + lit.text, lit.text]);
  }

  lemma TooEarly(text: string, p: string)
    requires text != ""
    ensures !GoesOn(text, [], p + text + text)
  {
    var rest := p + text + text;
    assert text <= rest[|p|..];
    forall k: nat | FirstAt(text, rest, k) ensures k <= |p| {}
  }

  lemma StandsHere(star: Token, lit: Token, piece: string)
    requires star.kind == Any && lit.kind == Default
    ensures Stands(star, piece) && Stands(lit, lit.text)
  {
  }

  lemma ReadTwo(a: Token, b: Token, p: string, q: string)
    requires Stands(a, p) && Stands(b, q)
    ensures Reading([a, b], [p, q]) && Concat([p, q]) == p + q
  {
    assert [a, b][1..] == [b] && [p, q][1..] == [q] && [b][1..] == [] && [q][1..] == [];
    assert Concat([q]) == q + Concat([q][1..]) == q + "" == q;
    assert Concat([p, q]) == p + Concat([p, q][1..]);
  }
}
