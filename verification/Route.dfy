/** Route patterns: tokens, the matcher and the pattern compiler of src/Route.cpp and include/Route.h.
    Paths and patterns are strings of single-byte characters. */
module Route {
  import opened Wrappers
  import Request

  datatype Kind = Default | Variable | Group | Any

  datatype View = DefaultView | AnyChar | Alpha | Numeric | String | Upper | Lower

  datatype Token = Token(text: string, group: seq<string>, kind: Kind, view: View, optional: bool)

  // ---------------------------------------------------------------- character classes

  predicate IsLower(c: char) { 'a' <= c <= 'z' }

  predicate IsUpper(c: char) { 'A' <= c <= 'Z' }

  predicate IsAlpha(c: char) { IsLower(c) || IsUpper(c) }

  predicate IsNumeric(c: char) { '0' <= c <= '9' }

  predicate IsString(c: char) { IsAlpha(c) || IsNumeric(c) || c == '.' || c == '_' || c == '-' }

  /** The class of characters a variable may hold. */
  predicate InClass(view: View, c: char) {
    match view
    case AnyChar => true
    case Alpha => IsAlpha(c)
    case Numeric => IsNumeric(c)
    case Upper => IsUpper(c)
    case Lower => IsLower(c)
    case String => IsString(c)
    case DefaultView => IsString(c)
  }

  // ---------------------------------------------------------------- one token

  /** The length of the longest prefix of `s` inside a class. */
  function ClassRun(view: View, s: string): (n: nat)
    ensures n <= |s|
    ensures forall k :: 0 <= k < n ==> InClass(view, s[k])
    ensures n < |s| ==> !InClass(view, s[n])
  {
    if s == [] || !InClass(view, s[0]) then 0 else 1 + ClassRun(view, s[1..])
  }

  /** The first alternative `s` starts with. */
  function FirstAlternative(group: seq<string>, s: string): (r: Option<string>)
    ensures r.Some? ==> r.value in group && r.value <= s
  {
    if group == [] then None
    else if group[0] <= s then Some(group[0])
    else FirstAlternative(group[1..], s)
  }

  /** How much of `s` a token takes; `None` if it does not match. A wildcard is not asked. */
  function TokenLength(t: Token, s: string): (r: Option<nat>)
    ensures r.Some? ==> r.value <= |s|
  {
    match t.kind
    case Default => if t.text <= s then Some(|t.text|) else None
    case Variable => if ClassRun(t.view, s) > 0 then Some(ClassRun(t.view, s)) else None
    case Group => (match FirstAlternative(t.group, s) case Some(a) => Some(|a|) case None => None)
    case Any => None
  }

  // ---------------------------------------------------------------- the whole route

  /** A call of `SetArg`. */
  datatype Capture = Capture(name: string, value: string)

  /** Arguments are set even by a match that fails further on. */
  datatype Result = Result(ok: bool, captures: seq<Capture>)

  function Captured(t: Token, value: string): seq<Capture> {
    if t.kind == Variable then [Capture(t.text, value)] else []
  }

  function With(captures: seq<Capture>, r: Result): Result {
    Result(r.ok, captures + r.captures)
  }

  /** The first place in `s` where a token matches: how many characters are skipped, how many taken. */
  function FindToken(t: Token, s: string): (r: Option<(nat, nat)>)
    ensures r.Some? ==> r.value.0 < |s| && r.value.0 + r.value.1 <= |s|
    ensures r.Some? ==> TokenLength(t, s[r.value.0..]) == Some(r.value.1)
    decreases |s|
  {
    if s == [] then None
    else match TokenLength(t, s)
      case Some(n) => Some((0, n))
      case None => match FindToken(t, s[1..]) case Some(p) => Some((p.0 + 1, p.1)) case None => None
  }

  /** Two wildcards in a row are left out: there the source reads a position that was never set. */
  predicate NoAdjacentAny(tokens: seq<Token>) {
    forall i :: 0 <= i < |tokens| - 1 ==> !(tokens[i].kind == Any && tokens[i + 1].kind == Any)
  }

  /** `IsMatch` from some token and position on. */
  function Walk(tokens: seq<Token>, s: string): Result
    decreases |tokens|
  {
    if tokens == [] then Result(s == [], [])
    else
      var t := tokens[0];
      if t.kind == Any then
        if |tokens| == 1 then Result(true, [])
        else match FindToken(tokens[1], s)
          case None => Result(false, [])
          case Some(p) => With(Captured(tokens[1], s[p.0..p.0 + p.1]), Walk(tokens[2..], s[p.0 + p.1..]))
      else match TokenLength(t, s)
        case Some(n) => With(Captured(t, s[..n]), Walk(tokens[1..], s[n..]))
        case None => if t.optional then Walk(tokens[1..], s) else Result(false, [])
  }

  /** `SetArg` for every capture in turn. */
  function SetArgs(args: map<string, string>, captures: seq<Capture>): map<string, string>
    decreases |captures|
  {
    if captures == [] then args
    else SetArgs(args[captures[0].name := captures[0].value], captures[1..])
  }

  lemma {:induction false} SetArgsConcat(args: map<string, string>, a: seq<Capture>, b: seq<Capture>)
    ensures SetArgs(args, a + b) == SetArgs(SetArgs(args, a), b)
    decreases |a|
  {
    if a == [] {
      assert a + b == b;
    } else {
      assert (a + b)[1..] == a[1..] + b;
      SetArgsConcat(args[a[0].name := a[0].value], a[1..], b);
    }
  }

  // ---------------------------------------------------------------- all routes

  /** A route: its method and the tokens of its pattern. */
  datatype Pattern = Pattern(verb: Request.Method, tokens: seq<Token>)

  predicate Accepts(p: Pattern, verb: Request.Method, path: string) {
    verb == p.verb && Walk(p.tokens, path).ok
  }

  predicate AnyAccepts(routes: seq<Pattern>, verb: Request.Method, path: string) {
    exists k :: 0 <= k < |routes| && Accepts(routes[k], verb, path)
  }

  // ---------------------------------------------------------------- the matcher's loops

  class Matcher {
    const verb: Request.Method
    const tokens: seq<Token>
    var args: map<string, string>

    constructor (verb: Request.Method, tokens: seq<Token>)
      ensures this.verb == verb && this.tokens == tokens && args == map[]
    {
      this.verb, this.tokens := verb, tokens;
      args := map[];
    }

    /** `Token::IsMatch`; `pos` is where the source leaves the length. */
    static method TokenIsMatch(t: Token, s: string) returns (retval: bool, pos: nat)
      requires t.kind != Any
      ensures retval == TokenLength(t, s).Some? && (retval ==> pos == TokenLength(t, s).value)
    {
      retval, pos := false, 0;
      match t.kind
      case Default =>
        if |t.text| <= |s| && s[..|t.text|] == t.text {
          retval, pos := true, |t.text|;
        }
      case Variable =>
        var i := 0;
        while i < |s| && InClass(t.view, s[i])
          invariant i <= |s|
          invariant ClassRun(t.view, s) == i + ClassRun(t.view, s[i..])
        {
          i := i + 1;
        }
        retval, pos := i > 0, i;
      case Group =>
        for k := 0 to |t.group|
          invariant FirstAlternative(t.group, s) == FirstAlternative(t.group[k..], s)
        {
          var str := t.group[k];
          if |str| <= |s| && s[..|str|] == str {
            return true, |str|;
          }
        }
    }

    method SetArg(t: Token, value: string)
      modifies this
      ensures args == SetArgs(old(args), Captured(t, value))
    {
      if t.kind == Variable {
        args := args[t.text := value];
      }
    }

    /** The inner loop of a wildcard: look for the next token from `start` on. */
    method Search(next: Token, path: string, start: nat) returns (found: Option<(nat, nat)>)
      requires next.kind != Any && start <= |path|
      ensures found == FindToken(next, path[start..])
    {
      hide FindToken, TokenLength;
      var searchPos := start;
      while searchPos < |path|
        invariant start <= searchPos <= |path|
        invariant FindToken(next, path[start..]) == Skip(searchPos - start, FindToken(next, path[searchPos..]))
      {
        FindStep(next, path, start, searchPos);
        var matched, offset := TokenIsMatch(next, path[searchPos..]);
        if matched {
          return Some((searchPos - start, offset));
        }
        searchPos := searchPos + 1;
      }
      FindNothing(next, path[searchPos..]);
      found := None;
    }

    static function Skip(n: nat, found: Option<(nat, nat)>): Option<(nat, nat)> {
      match found case Some(p) => Some((p.0 + n, p.1)) case None => None
    }

    static lemma FindStep(t: Token, path: string, start: nat, at: nat)
      requires start <= at < |path|
      ensures match TokenLength(t, path[at..]) {
                case Some(n) => FindToken(t, path[at..]) == Some((0, n))
                case None => Skip(at - start, FindToken(t, path[at..]))
                  == Skip(at + 1 - start, FindToken(t, path[at + 1..]))
              }
    {
      hide TokenLength;
      assert path[at..][1..] == path[at + 1..];
    }

    static lemma FindNothing(t: Token, s: string)
      requires s == []
      ensures FindToken(t, s) == None
    {
    }

    /** `Route::IsMatch`: the method first, then the path. */
    method IsMatch(verb: Request.Method, path: string) returns (matched: bool)
      requires NoAdjacentAny(tokens)
      modifies this
      ensures verb != this.verb ==> !matched && args == old(args)
      ensures verb == this.verb ==>
              matched == Walk(tokens, path).ok && args == SetArgs(old(args), Walk(tokens, path).captures)
    {
      if verb != this.verb {
        return false;
      }
      matched := MatchPath(path);
    }

    /** The loop over the tokens. */
    method MatchPath(path: string) returns (matched: bool)
      requires NoAdjacentAny(tokens)
      modifies this
      ensures matched == Walk(tokens, path).ok && args == SetArgs(old(args), Walk(tokens, path).captures)
    {
      hide TokenLength, FindToken, SetArgs, Walk, With, Captured;
      var pos: nat, i: nat := 0, 0;
      ghost var before := [];
      ghost var whole := Walk(tokens, path);
      SetNothing(args);
      Starts(tokens, path);
      while i < |tokens|
        invariant i <= |tokens| && pos <= |path|
        invariant args == SetArgs(old(args), before)
        invariant whole == With(before, Walk(tokens[i..], path[pos..]))
        decreases |tokens| - i
      {
        var token := tokens[i];
        WalkStep(tokens[i..], path[pos..], before, whole);
        assert tokens[i..][1..] == tokens[i + 1..];
        if token.kind == Any {
          if i + 1 >= |tokens| {
            return true;
          }
          assert tokens[i..][2..] == tokens[i + 2..] && tokens[i..][1] == tokens[i + 1];
          var next := tokens[i + 1];
          var found := Search(next, path, pos);
          if found.None? {
            return false;
          }
          var (skipped, offset) := found.value;
          var value := path[pos + skipped..pos + skipped + offset];
          Slices(path, pos, skipped, offset);
          SetArg(next, value);
          SetMore(old(args), before, Captured(next, value));
          before := before + Captured(next, value);
          pos := pos + skipped + offset;
          i := i + 2;
        } else {
          var ok, offset := TokenIsMatch(token, path[pos..]);
          if ok {
            var value := path[pos..pos + offset];
            Slices(path, pos, 0, offset);
            SetArg(token, value);
            SetMore(old(args), before, Captured(token, value));
            before := before + Captured(token, value);
            pos := pos + offset;
          } else if !token.optional {
            return false;
          }
          i := i + 1;
        }
      }
      WalkEnd(tokens[i..], path[pos..], before, whole);
      matched := pos >= |path|;
    }

    static lemma Slices(path: string, pos: nat, skipped: nat, offset: nat)
      requires pos + skipped + offset <= |path|
      ensures path[pos..][skipped..skipped + offset] == path[pos + skipped..pos + skipped + offset]
      ensures path[pos..][skipped + offset..] == path[pos + skipped + offset..]
      ensures skipped == 0 ==>
              path[pos..][..offset] == path[pos..pos + offset] && path[pos..][offset..] == path[pos + offset..]
    {
    }

    static lemma WalkEnd(tokens: seq<Token>, s: string, before: seq<Capture>, whole: Result)
      requires tokens == [] && whole == With(before, Walk(tokens, s))
      ensures whole == Result(s == [], before)
    {
      assert before + [] == before;
    }

    static lemma SetNothing(args: map<string, string>)
      ensures SetArgs(args, []) == args
    {
    }

    static lemma SetMore(args: map<string, string>, a: seq<Capture>, b: seq<Capture>)
      ensures SetArgs(args, a + b) == SetArgs(SetArgs(args, a), b)
    {
      SetArgsConcat(args, a, b);
    }

    static lemma Starts(tokens: seq<Token>, path: string)
      ensures Walk(tokens, path) == With([], Walk(tokens[0..], path[0..]))
    {
      assert tokens[0..] == tokens && path[0..] == path;
    }

    /** One turn of the loop, against the function. */
    static lemma WalkStep(tokens: seq<Token>, s: string, before: seq<Capture>, whole: Result)
      requires tokens != [] && whole == With(before, Walk(tokens, s))
      ensures tokens[0].kind == Any && |tokens| == 1 ==> whole == Result(true, before)
      ensures tokens[0].kind == Any && |tokens| > 1 ==> AfterFind(tokens, s, before, whole)
      ensures tokens[0].kind != Any ==> AfterToken(tokens, s, before, whole)
    {
      hide TokenLength, FindToken;
      assert before + [] == before;
      if tokens[0].kind == Any {
        if |tokens| > 1 && FindToken(tokens[1], s).Some? {
          var p := FindToken(tokens[1], s).value;
          WithWith(before, Captured(tokens[1], s[p.0..p.0 + p.1]), Walk(tokens[2..], s[p.0 + p.1..]));
        }
      } else if TokenLength(tokens[0], s).Some? {
        var n := TokenLength(tokens[0], s).value;
        WithWith(before, Captured(tokens[0], s[..n]), Walk(tokens[1..], s[n..]));
      }
    }

    static ghost predicate AfterFind(tokens: seq<Token>, s: string, before: seq<Capture>, whole: Result)
      requires |tokens| > 1
    {
      match FindToken(tokens[1], s)
      case None => whole == Result(false, before)
      case Some(p) => whole == With(before + Captured(tokens[1], s[p.0..p.0 + p.1]), Walk(tokens[2..], s[p.0 + p.1..]))
    }

    static ghost predicate AfterToken(tokens: seq<Token>, s: string, before: seq<Capture>, whole: Result)
      requires |tokens| > 0
    {
      match TokenLength(tokens[0], s)
      case None => whole == if tokens[0].optional then With(before, Walk(tokens[1..], s)) else Result(false, before)
      case Some(n) => whole == With(before + Captured(tokens[0], s[..n]), Walk(tokens[1..], s[n..]))
    }

    static lemma WithWith(a: seq<Capture>, b: seq<Capture>, r: Result)
      ensures With(a, With(b, r)) == With(a + b, r)
    {
      assert a + (b + r.captures) == a + b + r.captures;
    }
  }

  function Patterns(routes: seq<Matcher>): seq<Pattern> {
    seq(|routes|, k requires 0 <= k < |routes| => Pattern(routes[k].verb, routes[k].tokens))
  }

  /** The loop of `ProcessRequest` over the routes, none of which has a callback. */
  method AnyMatch(routes: seq<Matcher>, verb: Request.Method, path: string) returns (matched: bool)
    requires forall k :: 0 <= k < |routes| ==> NoAdjacentAny(routes[k].tokens)
    modifies routes
    ensures matched == AnyAccepts(Patterns(routes), verb, path)
  {
    hide Walk, SetArgs;
    matched := false;
    for i := 0 to |routes|
      invariant matched == exists k :: 0 <= k < i && Accepts(Patterns(routes)[k], verb, path)
    {
      var taken := routes[i].IsMatch(verb, path);
      assert taken == Accepts(Patterns(routes)[i], verb, path);
      matched := matched || taken;
    }
  }
}
