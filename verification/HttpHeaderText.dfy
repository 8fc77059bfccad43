/** Printing a list of header fields and parsing it again: `ToByteArray` against `Parse` of
    src/HttpHeader.cpp. */
module HttpHeaderText {
  import opened Bytes
  import opened HttpHeader
  import opened StringUtil
  import opened Wrappers

  // ---------------------------------------------------------------- fields that survive the text form

  predicate Free(s: ByteArray, c: byte) {
    forall k :: 0 <= k < |s| ==> s[k] != c
  }

  predicate OneLine(s: ByteArray) {
    Free(s, CR) && Free(s, LF)
  }

  predicate Printable(f: Field) {
    && f.name != [] && Trimmed(f.name) && OneLine(f.name) && Free(f.name, COLON)
    && Trimmed(f.value) && OneLine(f.value)
  }

  predicate AllPrintable(fields: seq<Field>) {
    forall k :: 0 <= k < |fields| ==> Printable(fields[k])
  }

  // ---------------------------------------------------------------- where the lines are

  predicate LineAt(data: ByteArray, f: Field, at: nat) {
    var end := at + |Line(f)|;
    end + 2 <= |data| && data[at..end] == Line(f) && data[end] == CR && data[end + 1] == LF
  }

  function Next(f: Field, at: nat): nat {
    at + |Line(f)| + 2
  }

  function End(fields: seq<Field>, at: nat): (e: nat)
    ensures e >= at + 2 * |fields|
  {
    if fields == [] then at else End(fields[1..], Next(fields[0], at))
  }

  /** The lines of `fields` start at `at`, and a blank line follows them. */
  predicate LinesAt(data: ByteArray, fields: seq<Field>, at: nat) {
    if fields == [] then at + 2 <= |data| && data[at] == CR && data[at + 1] == LF
    else LineAt(data, fields[0], at) && LinesAt(data, fields[1..], Next(fields[0], at))
  }

  lemma {:induction false} PrintFirst(fields: seq<Field>)
    requires fields != []
    ensures Print(fields) == Line(fields[0]) + CRLF + Print(fields[1..])
  {
    hide Line;
    var n := |fields| - 1;
    if n == 0 {
      assert fields[..0] == [];
      assert Print(fields) == [] + (Line(fields[0]) + CRLF);
    } else {
      var last := Line(fields[n]) + CRLF;
      PrintFirst(fields[..n]);
      assert fields[..n][1..] == fields[1..][..n - 1];
      assert Line(fields[0]) + CRLF + Print(fields[1..n]) + last
             == Line(fields[0]) + CRLF + (Print(fields[1..n]) + last);
      assert fields[..n][1..] == fields[1..n];
    }
  }

  lemma LineThenTail(data: ByteArray, line: ByteArray, tail: ByteArray, at: nat)
    requires at <= |data| && data[at..] == line + (CRLF + tail)
    ensures var end := at + |line|;
            end + 2 <= |data| && data[at..end] == line && data[end] == CR && data[end + 1] == LF
              && data[end + 2..] == tail
  {
    var suffix, k := data[at..], |line|;
    assert suffix[k + 2..] == tail && suffix[..k] == line && suffix[k] == CR && suffix[k + 1] == LF;
    assert data[at + k + 2..] == suffix[k + 2..];
    assert data[at..at + k] == suffix[..k];
    assert data[at + k] == suffix[k] && data[at + k + 1] == suffix[k + 1];
  }

  lemma {:induction false} PrintedLines(data: ByteArray, fields: seq<Field>, at: nat, rest: ByteArray)
    requires at <= |data| && data[at..] == Print(fields) + (CRLF + rest)
    ensures LinesAt(data, fields, at) && End(fields, at) == at + |Print(fields)|
  {
    hide Line, Print;
    if fields == [] {
      assert Print(fields) == [] by { PrintNone(); }
      LineThenTail(data, [], rest, at);
    } else {
      PrintFirst(fields);
      var line, more := Line(fields[0]), Print(fields[1..]);
      Reassociate(line, more, rest);
      LineThenTail(data, line, more + (CRLF + rest), at);
      PrintedLines(data, fields[1..], Next(fields[0], at), rest);
    }
  }

  lemma PrintNone()
    ensures Print([]) == []
  {
  }

  lemma Reassociate(line: ByteArray, more: ByteArray, rest: ByteArray)
    ensures line + CRLF + more + (CRLF + rest) == line + (CRLF + (more + (CRLF + rest)))
  {
  }

  // ---------------------------------------------------------------- the blank line

  lemma MatchOne(data: ByteArray, c: byte, i: nat)
    ensures MatchesAt(data, [c], i) <==> i < |data| && data[i] == c
  {
    if i < |data| { assert data[i..i + 1] == [data[i]]; }
  }

  lemma MatchTwo(data: ByteArray, i: nat)
    ensures MatchesAt(data, CRLF, i) <==> i + 2 <= |data| && data[i] == CR && data[i + 1] == LF
  {
    if i + 2 <= |data| { assert data[i..i + 2] == [data[i], data[i + 1]]; }
  }

  lemma MatchFour(data: ByteArray, i: nat)
    ensures MatchesAt(data, CRLFCRLF, i) <==> MatchesAt(data, CRLF, i) && MatchesAt(data, CRLF, i + 2)
  {
    MatchTwo(data, i);
    MatchTwo(data, i + 2);
    if i + 4 <= |data| { assert data[i..i + 4] == [data[i], data[i + 1], data[i + 2], data[i + 3]]; }
  }

  lemma LineByte(data: ByteArray, f: Field, at: nat, k: nat)
    requires LineAt(data, f, at) && k < |Line(f)|
    ensures at + k < |data| && data[at + k] == Line(f)[k]
  {
    hide Line;
  }

  lemma InsideLine(data: ByteArray, f: Field, at: nat, i: nat)
    requires LineAt(data, f, at) && Printable(f) && at <= i < at + |Line(f)|
    ensures data[i] != CR && data[i] != LF
  {
    var k := i - at;
    LineByte(data, f, at, k);
    if k < |f.name| { assert Line(f)[k] == f.name[k]; }
    else if k >= |f.name| + 2 { assert Line(f)[k] == f.value[k - |f.name| - 2]; }
  }

  lemma NoBreakInside(data: ByteArray, f: Field, at: nat, i: nat)
    requires LineAt(data, f, at) && Printable(f) && at <= i < Next(f, at) && i != at + |Line(f)|
    ensures !MatchesAt(data, CRLF, i)
  {
    hide Line, MatchesAt;
    MatchTwo(data, i);
    if i < at + |Line(f)| { InsideLine(data, f, at, i); }
  }

  lemma BreakAtEnd(data: ByteArray, f: Field, at: nat)
    requires LineAt(data, f, at) && Printable(f)
    ensures IsFirst(data, CRLF, at, Next(f, at), Some(at + |Line(f)|))
  {
    hide Line, MatchesAt, LineAt;
    MatchTwo(data, at + |Line(f)|);
    assert MatchesAt(data, CRLF, at + |Line(f)|) by { LineEnd(data, f, at); }
    forall i: nat | at <= i < at + |Line(f)| ensures !MatchesAt(data, CRLF, i) { NoBreakInside(data, f, at, i); }
  }

  lemma LineEnd(data: ByteArray, f: Field, at: nat)
    requires LineAt(data, f, at)
    ensures Next(f, at) <= |data| && data[at + |Line(f)|] == CR && data[at + |Line(f)| + 1] == LF
  {
    hide Line;
  }

  /** A line starts with the first letter of a name, so it is not blank. */
  lemma NotBlank(data: ByteArray, fields: seq<Field>, at: nat)
    requires fields != [] && LinesAt(data, fields, at) && Printable(fields[0])
    ensures !MatchesAt(data, CRLF, at)
  {
    NoBreakInside(data, fields[0], at, at);
  }

  lemma {:induction false} BlankLineIsFirst(data: ByteArray, fields: seq<Field>, at: nat)
    requires fields != [] && LinesAt(data, fields, at) && AllPrintable(fields)
    ensures IsFirst(data, CRLFCRLF, at, |data|, Some(End(fields, at) - 2))
  {
    hide Line, MatchesAt, LineAt;
    var f, tail := fields[0], fields[1..];
    var end, next := at + |Line(f)|, Next(f, at);
    LineEnd(data, f, at);
    MatchFour(data, end);
    MatchTwo(data, end);
    MatchTwo(data, next);
    forall i: nat | at <= i < next && i != end ensures !MatchesAt(data, CRLFCRLF, i) {
      NoBreakInside(data, f, at, i);
      MatchFour(data, i);
    }
    if tail != [] {
      NotBlank(data, tail, next);
      BlankLineIsFirst(data, tail, next);
      assert NoMatch(data, CRLFCRLF, next, End(tail, next) - 2);
    }
  }

  // ---------------------------------------------------------------- the ranges

  /** The last range also takes the carriage return its line ends with. */
  function LineRanges(fields: seq<Field>, at: nat): seq<Range> {
    if fields == [] then []
    else
      var end := at + |Line(fields[0])|;
      if |fields| == 1 then [Range(at, end)] else [Range(at, end - 1)] + LineRanges(fields[1..], end + 2)
  }

  lemma LinesFit(data: ByteArray, fields: seq<Field>, at: nat)
    requires LinesAt(data, fields, at)
    ensures End(fields, at) + 2 <= |data|
    decreases |fields|
  {
    hide Line, LineAt;
    if fields != [] { LinesFit(data, fields[1..], Next(fields[0], at)); }
  }

  /** Splitting at a known first delimiter, and with no delimiter left. */
  lemma SplitAt(data: ByteArray, at: nat, end: nat, stop: nat)
    requires at <= end && end + 2 <= stop <= |data| && IsFirst(data, CRLF, at, stop, Some(end))
    ensures Pieces(data, CRLF, at, stop) == [Range(at, end - 1)] + Pieces(data, CRLF, end + 2, stop)
  {
    hide MatchesAt, IsFirst;
    SearchIs(data, CRLF, at, stop, Some(end));
  }

  lemma SplitLast(data: ByteArray, at: nat, stop: nat)
    requires at < stop <= |data| && IsFirst(data, CRLF, at, stop, None)
    ensures Pieces(data, CRLF, at, stop) == [Range(at, stop - 1)]
  {
    hide MatchesAt, IsFirst;
    SearchIs(data, CRLF, at, stop, None);
  }

  lemma FirstInWider(data: ByteArray, at: nat, end: nat, stop: nat)
    requires IsFirst(data, CRLF, at, end + 2, Some(end)) && end + 2 <= stop
    ensures IsFirst(data, CRLF, at, stop, Some(end)) && IsFirst(data, CRLF, at, end + 1, None)
  {
    hide MatchesAt;
  }

  lemma FirstLine(data: ByteArray, fields: seq<Field>, at: nat)
    requires fields != [] && LinesAt(data, fields, at) && AllPrintable(fields)
    ensures var f := fields[0];
            LineAt(data, f, at) && Printable(f) && LinesAt(data, fields[1..], Next(f, at)) && AllPrintable(fields[1..])
  {
    hide Line, LineAt, Printable;
  }

  lemma {:induction false} SplitsIntoLines(data: ByteArray, fields: seq<Field>, at: nat)
    requires fields != [] && LinesAt(data, fields, at) && AllPrintable(fields)
    requires End(fields, at) <= |data|
    ensures Pieces(data, CRLF, at, End(fields, at) - 1) == LineRanges(fields, at)
    decreases |fields|
  {
    hide Line, LineAt, Pieces, Printable, IsFirst, AllPrintable, LinesAt;
    var f, tail := fields[0], fields[1..];
    var end, next, stop := at + |Line(f)|, Next(f, at), End(fields, at) - 1;
    FirstLine(data, fields, at);
    BreakAtEnd(data, f, at);
    if tail == [] {
      FirstInWider(data, at, end, end + 2);
      SplitLast(data, at, stop);
    } else {
      assert End(tail, next) == End(fields, at);
      FirstInWider(data, at, end, stop);
      SplitAt(data, at, end, stop);
      SplitsIntoLines(data, tail, next);
    }
  }

  // ---------------------------------------------------------------- one line

  lemma TrimmedParts(f: Field, tail: ByteArray)
    requires Printable(f) && (tail == [] || tail == [CR])
    ensures Trim(f.name) == f.name && f.name != [] && Trim([SPACE] + f.value + tail) == f.value
  {
    TrimTakesBlanks([], f.name, []);
    assert [] + f.name + [] == f.name;
    TrimTakesBlanks([SPACE], f.value, tail);
  }

  /** `extra` is the carriage return behind the last line. */
  lemma FieldFromLine(data: ByteArray, f: Field, at: nat, extra: nat)
    requires LineAt(data, f, at) && Printable(f) && extra <= 1
    ensures FieldAt(data, Range(at, at + |Line(f)| - 1 + extra)) == Some(f)
  {
    hide Trim, Search, MatchesAt, LineAt, Line, IsFirst, Printable;
    LineEnd(data, f, at);
    var end, colon := at + |Line(f)| + extra, at + |f.name|;
    ColonIsFirst(data, f, at, end);
    NameText(data, f, at);
    ValueText(data, f, at, extra);
    SearchIs(data, [COLON], at, end, Some(colon));
    TrimmedParts(f, data[at + |Line(f)|..end]);
  }

  lemma ColonIsFirst(data: ByteArray, f: Field, at: nat, end: nat)
    requires LineAt(data, f, at) && Printable(f) && at + |Line(f)| <= end <= |data|
    ensures |Line(f)| > |f.name| && IsFirst(data, [COLON], at, end, Some(at + |f.name|))
  {
    hide MatchesAt, LineAt;
    var n := |f.name|;
    LineByte(data, f, at, n);
    MatchOne(data, COLON, at + n);
    forall i: nat | at <= i < at + n ensures !MatchesAt(data, [COLON], i) {
      LineByte(data, f, at, i - at);
      MatchOne(data, COLON, i);
    }
  }

  lemma NameText(data: ByteArray, f: Field, at: nat)
    requires LineAt(data, f, at)
    ensures at + |f.name| <= |data| && data[at..at + |f.name|] == f.name
  {
    forall k | 0 <= k < |f.name| ensures data[at + k] == f.name[k] { LineByte(data, f, at, k); }
  }

  lemma ValueText(data: ByteArray, f: Field, at: nat, extra: nat)
    requires LineAt(data, f, at) && extra <= 1
    ensures data[at + |f.name| + 1..at + |Line(f)| + extra]
            == [SPACE] + f.value + data[at + |Line(f)|..at + |Line(f)| + extra]
  {
    var line, end := Line(f), at + |Line(f)|;
    assert line[|f.name| + 1..] == [SPACE] + f.value;
    assert data[at + |f.name| + 1..end] == data[at..end][|f.name| + 1..];
    assert data[at + |f.name| + 1..end + extra] == data[at + |f.name| + 1..end] + data[end..end + extra];
  }

  // ---------------------------------------------------------------- lines as any peer may write them

  lemma ColonAt(data: ByteArray, at: nat, before: ByteArray, tail: ByteArray)
    requires at <= |data| && before + [COLON] + tail <= data[at..] && Free(before, COLON)
    ensures var p, end := at + |before|, at + |before| + 1 + |tail|;
            && end <= |data| && IsFirst(data, [COLON], at, end, Some(p)) && data[at..p] == before
            && data[p + 1..end] == tail
  {
    hide MatchesAt;
    var p, line := at + |before|, before + [COLON] + tail;
    forall k: nat | k < |line| ensures data[at + k] == line[k] { assert data[at..][k] == line[k]; }
    MatchOne(data, COLON, p);
    forall i: nat | at <= i < p ensures !MatchesAt(data, [COLON], i) {
      MatchOne(data, COLON, i);
      assert data[i] == line[i - at] == before[i - at];
    }
  }

  /** A line is a name, a colon and a value, with any blanks around both. Without a name it is skipped. */
  lemma LineReads(
    fields: seq<Field>, data: ByteArray, at: nat, left: ByteArray, f: Field, right: ByteArray, inner: ByteArray,
    end: ByteArray)
    requires AllBlank(left) && AllBlank(right) && AllBlank(inner) && AllBlank(end)
    requires Trimmed(f.name) && Free(f.name, COLON) && Trimmed(f.value)
    requires at <= |data| && left + f.name + right + [COLON] + (inner + f.value + end) <= data[at..]
    ensures var r := Range(at, at + |left + f.name + right| + |inner + f.value + end|);
            InRange(r, data) && AddRange(fields, data, r) == if f.name == [] then fields else Set(fields, f)
  {
    hide Trim, Search, MatchesAt, IsFirst, Trimmed, Set;
    var before, tail := left + f.name + right, inner + f.value + end;
    assert Free(before, COLON);
    ColonAt(data, at, before, tail);
    SearchIs(data, [COLON], at, at + |before| + 1 + |tail|, Some(at + |before|));
    TrimTakesBlanks(left, f.name, right);
    TrimTakesBlanks(inner, f.value, end);
  }

  /** A line without a colon is skipped. */
  lemma LineWithoutColon(fields: seq<Field>, data: ByteArray, r: Range)
    requires InRange(r, data) && Free(Piece(data, r), COLON)
    ensures AddRange(fields, data, r) == fields
  {
    hide MatchesAt;
    forall i: nat | r.start <= i < r.end + 1 ensures !MatchesAt(data, [COLON], i) {
      MatchOne(data, COLON, i);
      assert data[i] == Piece(data, r)[i - r.start];
    }
    SearchIs(data, [COLON], r.start, r.end + 1, None);
  }

  // ---------------------------------------------------------------- all lines

  lemma {:induction false} AddRangesFirst(fields: seq<Field>, data: ByteArray, r: Range, ranges: seq<Range>)
    requires InRange(r, data) && AllInRange(ranges, data)
    ensures AllInRange([r] + ranges, data)
    ensures AddRanges(fields, data, [r] + ranges) == AddRanges(AddRange(fields, data, r), data, ranges)
  {
    hide AddRange;
    var all := [r] + ranges;
    if ranges == [] {
      assert all[..0] == [];
      assert AddRanges(fields, data, all[..0]) == fields;
    } else {
      var n := |ranges| - 1;
      AddRangesFirst(fields, data, r, ranges[..n]);
      assert all[..n + 1] == [r] + ranges[..n];
    }
  }

  /** Setting fields one after the other. */
  function SetAll(done: seq<Field>, fields: seq<Field>): seq<Field>
    decreases |fields|
  {
    if fields == [] then done else SetAll(Set(done, fields[0]), fields[1..])
  }

  lemma AddOneField(fields: seq<Field>, f: Field, rest: seq<Field>)
    requires DistinctNames(fields + [f] + rest)
    ensures Set(fields, f) == fields + [f]
  {
    var all := fields + [f] + rest;
    forall k | 0 <= k < |fields| ensures !SameName(fields[k].name, f.name) {
      assert all[k] == fields[k] && all[|fields|] == f;
    }
    FindNone(fields, f.name);
  }

  lemma {:induction false} SetAllDistinct(done: seq<Field>, fields: seq<Field>)
    requires DistinctNames(done + fields)
    ensures SetAll(done, fields) == done + fields
    decreases |fields|
  {
    hide DistinctNames, Set;
    if fields == [] {
      assert done + fields == done;
    } else {
      assert done + [fields[0]] + fields[1..] == done + fields;
      AddOneField(done, fields[0], fields[1..]);
      SetAllDistinct(done + [fields[0]], fields[1..]);
    }
  }

  lemma RangesFit(data: ByteArray, fields: seq<Field>, at: nat)
    requires LinesAt(data, fields, at)
    ensures AllInRange(LineRanges(fields, at), data)
    decreases |fields|
  {
    hide Line, LineAt;
    if fields != [] {
      LineEnd(data, fields[0], at);
      RangesFit(data, fields[1..], Next(fields[0], at));
    }
  }

  lemma {:induction false} LinesBecomeFields(data: ByteArray, done: seq<Field>, fields: seq<Field>, at: nat)
    requires LinesAt(data, fields, at) && AllPrintable(fields)
    ensures AllInRange(LineRanges(fields, at), data)
    ensures AddRanges(done, data, LineRanges(fields, at)) == SetAll(done, fields)
    decreases |fields|
  {
    hide Line, LineAt, FieldAt, Set, AllPrintable, LinesAt, Printable;
    RangesFit(data, fields, at);
    if fields != [] {
      var f, tail, end := fields[0], fields[1..], at + |Line(fields[0])|;
      FirstLine(data, fields, at);
      var extra := if tail == [] then 1 else 0;
      var r := Range(at, end - 1 + extra);
      assert InRange(r, data) by { LineEnd(data, f, at); }
      assert LineRanges(fields, at) == [r] + LineRanges(tail, end + 2);
      FieldFromLine(data, f, at, extra);
      RangesFit(data, tail, end + 2);
      AddRangesFirst(done, data, r, LineRanges(tail, end + 2));
      LinesBecomeFields(data, Set(done, f), tail, end + 2);
    }
  }

  /** What was printed is parsed back on top of the fields that were there already. */
  lemma HeaderParses(h: State, before: ByteArray, fields: seq<Field>, rest: ByteArray)
    requires fields != [] && AllPrintable(fields) && |before| >= 2
    ensures Parsed(h, before + Print(fields) + CRLF + rest, |before|)
         == State(SetAll(h.fields, fields), true, |Print(fields)| - 2, h.chunkedSize)
  {
    hide Line, Search, MatchesAt, Pieces, Print, AddRanges, LinesAt, LineRanges, SetAll;
    var data, at := before + Print(fields) + CRLF + rest, |before|;
    assert data[at..] == Print(fields) + (CRLF + rest);
    PrintedLines(data, fields, at, rest);
    LinesFit(data, fields, at);
    BlankLineIsFirst(data, fields, at);
    SearchIs(data, CRLFCRLF, at, |data|, Some(End(fields, at) - 2));
    SplitsIntoLines(data, fields, at);
    LinesBecomeFields(data, h.fields, fields, at);
    assert LineRanges(fields, at) != [] by { SomeRange(fields, at); }
  }

  /** On a fresh header: field for field, with the size the request needs. */
  lemma HeaderRoundTrip(before: ByteArray, fields: seq<Field>, rest: ByteArray)
    requires fields != [] && AllPrintable(fields) && DistinctNames(fields) && |before| >= 2
    ensures Parsed(FRESH, before + Print(fields) + CRLF + rest, |before|)
         == State(fields, true, |Print(fields)| - 2, 0)
  {
    hide Parsed, Print, SetAll, DistinctNames;
    HeaderParses(FRESH, before, fields, rest);
    assert [] + fields == fields;
    SetAllDistinct([], fields);
  }

  lemma {:induction false} SetAllIsFirst(done: seq<Field>, fields: seq<Field>, name: ByteArray)
    ensures First(SetAll(done, fields), name) == First(done + fields, name)
    decreases |fields|
  {
    hide First, Set;
    if fields == [] {
      assert done + fields == done;
    } else {
      SetAllIsFirst(Set(done, fields[0]), fields[1..], name);
      SetIsFirst(done, fields[0], name);
      FirstConcat(Set(done, fields[0]), fields[1..], name);
      FirstConcat(done + [fields[0]], fields[1..], name);
      assert done + [fields[0]] + fields[1..] == done + fields;
    }
  }

  /** What a lookup in a parsed header finds: the value that was printed first under that name, however the
      name is spelled on either side. */
  lemma LookupFindsFirst(before: ByteArray, fields: seq<Field>, rest: ByteArray, name: ByteArray)
    requires fields != [] && AllPrintable(fields) && |before| >= 2
    ensures var h := Parsed(FRESH, before + Print(fields) + CRLF + rest, |before|);
            h.complete && Get(h.fields, name) == OrEmpty(First(fields, name))
  {
    hide Parsed, Print, SetAll, First, AllPrintable;
    HeaderParses(FRESH, before, fields, rest);
    SetAllIsFirst([], fields, name);
    assert [] + fields == fields;
    GetIsFirst(SetAll([], fields), name);
  }

  lemma SomeRange(fields: seq<Field>, at: nat)
    requires fields != []
    ensures LineRanges(fields, at) != []
  {
  }

  /** A header without fields is never complete: the blank line is looked for behind the first. */
  lemma NoFieldsNoHeader(before: ByteArray)
    ensures !Parsed(FRESH, before + Print([]) + CRLF, |before|).complete
  {
    var data := before + Print([]) + CRLF;
    assert |data| == |before| + 2;
  }
}
