/** The pattern compiler: `Route::Parse` and `AddToken` of src/Route.cpp, a state machine over the
    characters of a pattern, and the pattern syntax of README.md it is to read. */
module RouteCompiler {
  import opened Route
  import opened Wrappers

  // ---------------------------------------------------------------- groups

  /** `first > second` on strings. */
  predicate LexGreater(a: string, b: string) {
    if b == "" then a != ""
    else a != "" && (a[0] > b[0] || (a[0] == b[0] && LexGreater(a[1..], b[1..])))
  }

  /** The order of `SortGroup`: longer alternatives first. */
  predicate Before(a: string, b: string) {
    if |a| != |b| then |a| > |b| else LexGreater(a, b)
  }

  function InsertSorted(s: string, group: seq<string>): seq<string> {
    if group == [] || !Before(group[0], s) then [s] + group
    else [group[0]] + InsertSorted(s, group[1..])
  }

  /** What `std::sort` leaves: the order is total, so equal elements are equal strings. */
  function SortGroup(group: seq<string>): seq<string> {
    if group == [] then [] else InsertSorted(group[0], SortGroup(group[1..]))
  }

  predicate Sorted(group: seq<string>) {
    forall i, j :: 0 <= i < j < |group| ==> !Before(group[j], group[i])
  }

  lemma {:induction false} LexTotal(a: string, b: string)
    ensures LexGreater(a, b) || LexGreater(b, a) || a == b
    ensures !(LexGreater(a, b) && LexGreater(b, a))
    decreases |a|
  {
    if a != "" && b != "" {
      LexTotal(a[1..], b[1..]);
      assert a == [a[0]] + a[1..] && b == [b[0]] + b[1..];
    }
  }

  lemma {:induction false} LexTransitive(a: string, b: string, c: string)
    requires LexGreater(a, b) && LexGreater(b, c)
    ensures LexGreater(a, c)
    decreases |a|
  {
    if a != "" && b != "" && c != "" && a[0] == b[0] && b[0] == c[0] { LexTransitive(a[1..], b[1..], c[1..]); }
  }

  /** Of two alternatives of one length, the one with the greater character where they first differ. */
  lemma {:induction false} GreaterAtFirstDifference(a: string, b: string, k: nat)
    requires |a| == |b| && k < |a| && a[..k] == b[..k] && a[k] != b[k]
    ensures Before(a, b) <==> a[k] > b[k]
  {
    if k > 0 {
      assert a[0] == a[..k][0] == b[..k][0] == b[0];
      assert a[1..][..k - 1] == a[..k][1..] == b[..k][1..] == b[1..][..k - 1];
      GreaterAtFirstDifference(a[1..], b[1..], k - 1);
    }
  }

  /** `Before` is a strict total order. */
  lemma BeforeOrders(a: string, b: string, c: string)
    ensures !(Before(a, b) && Before(b, a)) && (Before(a, b) || Before(b, a) || a == b)
    ensures Before(a, b) && Before(b, c) ==> Before(a, c)
  {
    LexTotal(a, b);
    if LexGreater(a, b) && LexGreater(b, c) { LexTransitive(a, b, c); }
  }

  lemma {:induction false} InsertKeeps(s: string, group: seq<string>)
    requires Sorted(group)
    ensures Sorted(InsertSorted(s, group)) && multiset(InsertSorted(s, group)) == multiset([s] + group)
    decreases |group|
  {
    hide Before;
    if group == [] {
    } else if !Before(group[0], s) {
      InFront(s, group);
    } else {
      InsertKeeps(s, group[1..]);
      var rest := InsertSorted(s, group[1..]);
      assert group == [group[0]] + group[1..];
      forall x | x in rest ensures !Before(x, group[0]) {
        assert x in multiset(rest);
        BeforeOrders(group[0], s, s);
        if x != s { assert x in group[1..]; }
      }
    }
  }

  lemma InFront(s: string, group: seq<string>)
    requires Sorted(group) && group != [] && !Before(group[0], s)
    ensures Sorted([s] + group)
  {
    hide Before;
    var all := [s] + group;
    forall j | 0 < j < |all| ensures !Before(all[j], s) {
      BeforeOrders(all[j], s, group[0]);
      BeforeOrders(group[0], s, all[j]);
      BeforeOrders(s, group[0], all[j]);
      BeforeOrders(all[j], s, s);
      if j > 1 { assert !Before(group[j - 1], group[0]); BeforeOrders(group[0], all[j], s); }
    }
  }

  /** Sorting is a sorted rearrangement; a group that is sorted already stays as it is. */
  lemma {:induction false} SortGroupSorts(group: seq<string>)
    ensures Sorted(SortGroup(group)) && multiset(SortGroup(group)) == multiset(group)
    ensures Sorted(group) ==> SortGroup(group) == group
    decreases |group|
  {
    hide Before;
    if group != [] {
      SortGroupSorts(group[1..]);
      InsertKeeps(group[0], SortGroup(group[1..]));
      assert group == [group[0]] + group[1..];
      if Sorted(group) && |group| > 1 { assert !Before(group[1], group[0]); }
    }
  }

  // ---------------------------------------------------------------- the state machine

  datatype Phase = InText | InVariable | InOptional | InType | InGroup

  /** The locals of `Parse` and the tokens made so far. */
  datatype Compiler = Compiler(tokens: seq<Token>, current: Token, str: string, phase: Phase)

  const EMPTY := Token("", [], Default, DefaultView, false)
  const START := Compiler([], EMPTY, "", InText)

  function LowerChar(c: char): char {
    if IsUpper(c) then (c as int + 32) as char else c
  }

  function LowerText(s: string): string {
    if s == "" then "" else [LowerChar(s[0])] + LowerText(s[1..])
  }

  /** `String2View`. */
  function ViewOf(str: string): View {
    var s := LowerText(str);
    if s == "any" then AnyChar
    else if s == "alpha" then Alpha
    else if s == "numeric" then Numeric
    else if s == "string" then String
    else if s == "upper" then Upper
    else if s == "lower" then Lower
    else DefaultView
  }

  /** `AddToken`; clearing a token leaves its `optional` mark. */
  function Added(c: Compiler, str: string): Compiler {
    var t := if str == "" then c.current else c.current.(text := str);
    if t.kind == Default && t.text == "" && t.group == [] then c.(current := t)
    else c.(tokens := c.tokens + [t], current := EMPTY.(optional := t.optional))
  }

  /** `AddToken(current, str)` and an empty `str`. */
  function Flushed(c: Compiler): Compiler {
    Added(c, c.str).(str := "")
  }

  function Star(c: Compiler): Compiler {
    var d := Flushed(c);
    Added(d.(current := d.current.(text := "*", kind := Any)), "")
  }

  function OpenBracket(c: Compiler): Option<Compiler> {
    if c.phase == InOptional then None
    else var d := Flushed(c); Some(d.(current := d.current.(optional := true), phase := InOptional))
  }

  function CloseBracket(c: Compiler): Option<Compiler> {
    if c.phase != InOptional then None
    else var d := Flushed(c); Some(d.(current := d.current.(optional := false), phase := InText))
  }

  function OpenBrace(c: Compiler): Option<Compiler> {
    if c.phase == InVariable || c.phase == InType then None
    else
      var d := if c.phase == InText || c.phase == InOptional then Flushed(c) else c;
      Some(d.(current := d.current.(kind := Variable), phase := InVariable))
  }

  function CloseBrace(c: Compiler): Option<Compiler> {
    if c.phase != InVariable && c.phase != InType then None
    else
      var t := if c.phase == InType then c.current.(view := ViewOf(c.str))
        else c.current.(text := c.str, view := String);
      if t.text == "" then None else Some(Added(c.(current := t), "").(str := "", phase := InText))
  }

  function Colon(c: Compiler): Compiler {
    if c.phase == InVariable then c.(current := c.current.(text := c.str), str := "", phase := InType)
    else c.(str := c.str + ":")
  }

  function OpenGroup(c: Compiler): Compiler {
    var d := Flushed(c);
    d.(current := d.current.(kind := Group), phase := InGroup)
  }

  function Bar(c: Compiler): Compiler {
    c.(current := c.current.(group := c.current.group + [c.str]), str := "")
  }

  function CloseGroup(c: Compiler): Compiler {
    var d := Bar(c);
    Added(d.(current := d.current.(group := SortGroup(d.current.group)), phase := InText), "")
  }

  /** One character; `None` where `Parse` gives up. */
  function Step(c: Compiler, ch: char): Option<Compiler> {
    if ch == '*' then Some(Star(c))
    else if ch == '[' then OpenBracket(c)
    else if ch == ']' then CloseBracket(c)
    else if ch == '}' then CloseBrace(c)
    else if ch == '{' then OpenBrace(c)
    else if ch == ':' then Some(Colon(c))
    else if ch == '(' then Some(OpenGroup(c))
    else if ch == '|' then Some(Bar(c))
    else if ch == ')' then Some(CloseGroup(c))
    else Some(c.(str := c.str + [ch]))
  }

  /** What `Parse` returns, and the tokens it leaves in either case. */
  datatype Outcome = Outcome(ok: bool, tokens: seq<Token>)

  function Compile(c: Compiler, path: string): Outcome
    decreases |path|
  {
    if path == "" then
      if c.phase != InText then Outcome(false, c.tokens) else Outcome(true, Added(c, c.str).tokens)
    else match Step(c, path[0])
      case None => Outcome(false, c.tokens)
      case Some(d) => Compile(d, path[1..])
  }

  class PatternCompiler {
    var tokens: seq<Token>
    var current: Token
    var str: string
    var state: Phase

    constructor ()
      ensures Value() == START
    {
      tokens, current, str, state := [], EMPTY, "", InText;
    }

    function Value(): Compiler
      reads this
    {
      Compiler(tokens, current, str, state)
    }

    method AddToken(text: string) returns (added: bool)
      modifies this
      ensures Value() == Added(old(Value()), text)
    {
      if text != "" {
        current := current.(text := text);
      }
      if current.kind == Default && current.text == "" && current.group == [] {
        return false;
      }
      tokens := tokens + [current];
      current := EMPTY.(optional := current.optional);
      added := true;
    }

    /** The body of the loop: the switch over one character. */
    method Feed(ch: char) returns (ok: bool)
      modifies this
      ensures ok == Step(old(Value()), ch).Some?
      ensures ok ==> Value() == Step(old(Value()), ch).value
      ensures !ok ==> tokens == old(tokens)
    {
      ok := true;
      var added;
      match ch
      case '*' =>
        added := AddToken(str);
        str := "";
        current := current.(text := "*", kind := Any);
        added := AddToken("");
      case '[' =>
        if state == InOptional {
          return false;
        }
        added := AddToken(str);
        str := "";
        current, state := current.(optional := true), InOptional;
      case ']' =>
        if state != InOptional {
          return false;
        }
        added := AddToken(str);
        str := "";
        current, state := current.(optional := false), InText;
      case '}' =>
        ok := FeedCloseBrace();
      case '{' =>
        if state == InVariable || state == InType {
          return false;
        }
        if state == InText || state == InOptional {
          added := AddToken(str);
          str := "";
        }
        current, state := current.(kind := Variable), InVariable;
      case ':' =>
        if state == InVariable {
          current, str, state := current.(text := str), "", InType;
        } else {
          str := str + ":";
        }
      case '(' =>
        added := AddToken(str);
        str := "";
        current, state := current.(kind := Group), InGroup;
      case '|' =>
        current := current.(group := current.group + [str]);
        str := "";
      case ')' =>
        current := current.(group := current.group + [str]);
        current := current.(group := SortGroup(current.group));
        str, state := "", InText;
        added := AddToken("");
      case _ =>
        str := str + [ch];
    }

    method FeedCloseBrace() returns (ok: bool)
      modifies this
      ensures ok == CloseBrace(old(Value())).Some?
      ensures ok ==> Value() == CloseBrace(old(Value())).value
      ensures !ok ==> tokens == old(tokens)
    {
      if state != InVariable && state != InType {
        return false;
      }
      if state == InType {
        current := current.(view := ViewOf(str));
      } else {
        current := current.(text := str, view := String);
      }
      if current.text == "" {
        return false;
      }
      var added := AddToken("");
      str, state, ok := "", InText, true;
    }

    method Parse(path: string) returns (retval: bool)
      requires Value() == START
      modifies this
      ensures Outcome(retval, tokens) == Compile(START, path)
    {
      hide Step, Added;
      for i := 0 to |path|
        invariant Compile(Value(), path[i..]) == Compile(START, path)
      {
        assert path[i..][1..] == path[i + 1..];
        var ok := Feed(path[i]);
        if !ok {
          return false;
        }
      }
      if state != InText {
        return false;
      }
      var added := AddToken(str);
      retval := true;
    }
  }
}
