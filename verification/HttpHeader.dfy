/** Header fields, their text and the parser's state: `class HttpHeader` (src/HttpHeader.cpp). */
module HttpHeader {
  import opened Bytes
  import opened StringUtil
  import opened Wrappers

  const CRLF: ByteArray := [CR, LF]
  const CRLFCRLF: ByteArray := [CR, LF, CR, LF]

  // the names the library itself uses, as include/Header.h spells them

  // Content-Length
  const CONTENT_LENGTH: ByteArray := [67, 111, 110, 116, 101, 110, 116, 45, 76, 101, 110, 103, 116, 104]
  const HOST: ByteArray := [72, 111, 115, 116]  // Host
  const UPGRADE: ByteArray := [85, 112, 103, 114, 97, 100, 101]  // Upgrade
  const CONNECTION: ByteArray := [67, 111, 110, 110, 101, 99, 116, 105, 111, 110]  // Connection
  const USER_AGENT: ByteArray := [85, 115, 101, 114, 45, 65, 103, 101, 110, 116]  // User-Agent
  const ACCEPT: ByteArray := [65, 99, 99, 101, 112, 116]  // Accept
  const DATE: ByteArray := [68, 97, 116, 101]  // Date
  const SERVER: ByteArray := [83, 101, 114, 118, 101, 114]  // Server
  // Transfer-Encoding
  const TRANSFER_ENCODING: ByteArray := [84, 114, 97, 110, 115, 102, 101, 114, 45, 69, 110, 99, 111, 100, 105, 110, 103]
  // Sec-WebSocket-Key
  const SEC_WEBSOCKET_KEY: ByteArray := [83, 101, 99, 45, 87, 101, 98, 83, 111, 99, 107, 101, 116, 45, 75, 101, 121]
  // Sec-WebSocket-Accept
  const SEC_WEBSOCKET_ACCEPT: ByteArray := [83, 101, 99, 45, 87, 101, 98, 83, 111, 99, 107, 101, 116, 45, 65, 99, 99,
    101, 112, 116]
  // Sec-WebSocket-Version
  const SEC_WEBSOCKET_VERSION: ByteArray := [83, 101, 99, 45, 87, 101, 98, 83, 111, 99, 107, 101, 116, 45, 86, 101, 114,
    115, 105, 111, 110]

  const TWO_64 := 0x1_0000_0000_0000_0000

  datatype Field = Field(name: ByteArray, value: ByteArray)

  /** Everything the parser keeps. */
  datatype State = State(fields: seq<Field>, complete: bool, headerSize: nat, chunkedSize: nat)

  const FRESH := State([], false, 0, 0)

  // ---------------------------------------------------------------- a list of fields

  /** The first field of that name, whatever its case. */
  function Find(fields: seq<Field>, name: ByteArray): (r: Option<nat>)
    ensures r.Some? ==> r.value < |fields| && SameName(fields[r.value].name, name)
  {
    if fields == [] then None
    else if SameName(fields[0].name, name) then Some(0)
    else match Find(fields[1..], name) case Some(k) => Some(k + 1) case None => None
  }

  function Get(fields: seq<Field>, name: ByteArray): ByteArray {
    match Find(fields, name) case Some(k) => fields[k].value case None => []
  }

  /** The source assigns to a copy when the name is already there, so the first value stays. */
  function Set(fields: seq<Field>, f: Field): seq<Field> {
    if Find(fields, f.name).Some? then fields else fields + [f]
  }

  ghost predicate DistinctNames(fields: seq<Field>) {
    forall i, j :: 0 <= i < j < |fields| ==> !SameName(fields[i].name, fields[j].name)
  }

  lemma {:induction false} FindNone(fields: seq<Field>, name: ByteArray)
    requires forall k :: 0 <= k < |fields| ==> !SameName(fields[k].name, name)
    ensures Find(fields, name) == None
  {
    if fields != [] { FindNone(fields[1..], name); }
  }

  lemma {:induction false} FindFirst(fields: seq<Field>, name: ByteArray)
    ensures match Find(fields, name) {
              case Some(i) => forall k :: 0 <= k < i ==> !SameName(fields[k].name, name)
              case None => forall k :: 0 <= k < |fields| ==> !SameName(fields[k].name, name)
            }
  {
    if fields != [] && !SameName(fields[0].name, name) { FindFirst(fields[1..], name); }
  }

  lemma FindIs(fields: seq<Field>, name: ByteArray, i: nat)
    requires i < |fields| && SameName(fields[i].name, name)
    requires forall k :: 0 <= k < i ==> !SameName(fields[k].name, name)
    ensures Find(fields, name) == Some(i)
  {
    FindFirst(fields, name);
  }

  /** Setting a field never changes another lookup, and names stay distinct. */
  lemma SetKeepsOthers(fields: seq<Field>, f: Field, name: ByteArray)
    ensures Get(Set(fields, f), f.name) == if Find(fields, f.name).Some? then Get(fields, f.name) else f.value
    ensures !SameName(f.name, name) ==> Get(Set(fields, f), name) == Get(fields, name)
    ensures DistinctNames(fields) ==> DistinctNames(Set(fields, f))
  {
    FindFirst(fields, f.name);
    FindFirst(fields, name);
    if Find(fields, f.name).None? {
      FindIs(fields + [f], f.name, |fields|);
      match Find(fields, name)
      case Some(i) => FindIs(fields + [f], name, i);
      case None => if !SameName(f.name, name) { FindNone(fields + [f], name); }
    }
  }

  /** The value of the first field with that name, in whatever spelling. */
  function First(fields: seq<Field>, name: ByteArray): Option<ByteArray> {
    if fields == [] then None
    else if SameSpelling(fields[0].name, name) then Some(fields[0].value)
    else First(fields[1..], name)
  }

  function OrEmpty(value: Option<ByteArray>): ByteArray {
    match value case Some(v) => v case None => []
  }

  lemma {:induction false} FindIsFirst(fields: seq<Field>, name: ByteArray)
    ensures First(fields, name) == match Find(fields, name) case Some(k) => Some(fields[k].value) case None => None
  {
    hide SameName, SameSpelling;
    if fields != [] {
      SameNameMeans(fields[0].name, name);
      FindIsFirst(fields[1..], name);
    }
  }

  lemma GetIsFirst(fields: seq<Field>, name: ByteArray)
    ensures Get(fields, name) == OrEmpty(First(fields, name))
  {
    hide Find, First;
    FindIsFirst(fields, name);
  }

  lemma {:induction false} FirstConcat(a: seq<Field>, b: seq<Field>, name: ByteArray)
    ensures First(a + b, name) == if First(a, name).Some? then First(a, name) else First(b, name)
    decreases |a|
  {
    hide SameSpelling;
    if a == [] {
      assert a + b == b;
    } else {
      assert (a + b)[1..] == a[1..] + b;
      FirstConcat(a[1..], b, name);
    }
  }

  /** Of two values that are set under one name, the first is found. */
  lemma SetIsFirst(fields: seq<Field>, f: Field, name: ByteArray)
    ensures First(Set(fields, f), name) == First(fields + [f], name)
  {
    hide Find, SameSpelling, SameName;
    if Find(fields, f.name).Some? {
      FirstConcat(fields, [f], name);
      FindIsFirst(fields, f.name);
      assert [f][1..] == [];
      if SameSpelling(f.name, name) { SpellingsAgree(fields, f.name, name); }
    }
  }

  lemma SpellingIsShared(a: ByteArray, b: ByteArray, c: ByteArray)
    requires SameSpelling(a, b)
    ensures SameSpelling(c, a) <==> SameSpelling(c, b)
  {
    hide SameSpelling, Lower;
    SameNameMeans(a, b);
    SameNameMeans(c, a);
    SameNameMeans(c, b);
  }

  lemma {:induction false} SpellingsAgree(fields: seq<Field>, a: ByteArray, b: ByteArray)
    requires SameSpelling(a, b)
    ensures First(fields, a) == First(fields, b)
    decreases |fields|
  {
    hide SameSpelling;
    if fields != [] {
      SpellingIsShared(a, b, fields[0].name);
      SpellingsAgree(fields[1..], a, b);
    }
  }

  // ---------------------------------------------------------------- parsing

  function FieldAt(data: ByteArray, r: Range): Option<Field>
    requires InRange(r, data)
  {
    match Search(data, [COLON], r.start, r.end + 1)
    case None => None
    case Some(p) =>
      var name := Trim(data[r.start..p]);
      if name == [] then None else Some(Field(name, Trim(data[p + 1..r.end + 1])))
  }

  function AddRange(fields: seq<Field>, data: ByteArray, r: Range): seq<Field>
    requires InRange(r, data)
  {
    match FieldAt(data, r) case Some(f) => Set(fields, f) case None => fields
  }

  predicate AllInRange(ranges: seq<Range>, data: ByteArray) {
    forall k :: 0 <= k < |ranges| ==> InRange(ranges[k], data)
  }

  function AddRanges(fields: seq<Field>, data: ByteArray, ranges: seq<Range>): seq<Field>
    requires AllInRange(ranges, data)
  {
    if ranges == [] then fields
    else AddRange(AddRanges(fields, data, ranges[..|ranges| - 1]), data, ranges[|ranges| - 1])
  }

  /** The state after `Parse`: nothing but the flag changes unless the blank line is there. */
  function Parsed(h: State, data: ByteArray, start: nat): State {
    match Search(data, CRLFCRLF, start, |data|)
    case None => h.(complete := false)
    case Some(pos) =>
      var ranges := SplitRanges(data, CRLF, start, pos);
      if ranges == [] then h.(complete := false)
      else State(AddRanges(h.fields, data, ranges), true, pos - start, h.chunkedSize)
  }

  lemma FieldAtLonger(data: ByteArray, all: ByteArray, r: Range)
    requires data <= all && InRange(r, data)
    ensures FieldAt(all, r) == FieldAt(data, r)
  {
    hide Search, MatchesAt, Trim;
    SearchLonger(data, all, [COLON], r.start, r.end + 1);
    match Search(data, [COLON], r.start, r.end + 1)
    case None =>
    case Some(p) =>
      assert all[r.start..p] == data[r.start..p];
      assert all[p + 1..r.end + 1] == data[p + 1..r.end + 1];
  }

  lemma {:induction false} AddRangesLonger(fields: seq<Field>, data: ByteArray, all: ByteArray, ranges: seq<Range>)
    requires data <= all && AllInRange(ranges, data)
    ensures AllInRange(ranges, all) && AddRanges(fields, all, ranges) == AddRanges(fields, data, ranges)
  {
    hide FieldAt;
    if ranges != [] {
      var n := |ranges| - 1;
      AddRangesLonger(fields, data, all, ranges[..n]);
      FieldAtLonger(data, all, ranges[n]);
    }
  }

  /** Once complete, more bytes change nothing. */
  lemma ParsedLonger(h: State, data: ByteArray, all: ByteArray, start: nat)
    requires data <= all && Parsed(h, data, start).complete
    ensures Parsed(h, all, start) == Parsed(h, data, start)
    ensures start + Parsed(h, data, start).headerSize + 4 <= |data|
  {
    hide Search, MatchesAt, AddRanges, Pieces;
    SearchWider(data, all, CRLFCRLF, start, |data|, |all|);
    var pos := Search(data, CRLFCRLF, start, |data|).value;
    PiecesLonger(data, all, CRLF, start, pos + 1);
    AddRangesLonger(h.fields, data, all, SplitRanges(data, CRLF, start, pos));
  }

  // ---------------------------------------------------------------- sizes

  predicate IsSpace(c: byte) {
    9 <= c <= 13 || c == SPACE
  }

  function SkipSpace(s: ByteArray): ByteArray {
    if s != [] && IsSpace(s[0]) then SkipSpace(s[1..]) else s
  }

  predicate AllDigits(s: ByteArray) {
    forall k :: 0 <= k < |s| ==> 48 <= s[k] <= 57
  }

  function Decimal(s: ByteArray): nat
    requires AllDigits(s)
  {
    if s == [] then 0 else 10 * Decimal(s[..|s| - 1]) + (s[|s| - 1] - 48) as nat
  }

  /** `String2uint64`: what `std::stoull` reads from the whole string; it takes a sign. */
  function ParseUint64(str: ByteArray): (r: Option<nat>)
    ensures r.Some? ==> r.value < TWO_64
  {
    var s := SkipSpace(str);
    var signed := s != [] && (s[0] == 43 || s[0] == 45);
    var digits := if signed then s[1..] else s;
    if digits == [] || !AllDigits(digits) || Decimal(digits) >= TWO_64 then None
    else if signed && s[0] == 45 then Some((TWO_64 - Decimal(digits)) % TWO_64)
    else Some(Decimal(digits))
  }

  function BodySize(h: State): nat {
    if !h.complete then 0
    else
      var str := Get(h.fields, CONTENT_LENGTH);
      if str == [] then h.chunkedSize
      else match ParseUint64(str) case Some(n) => n case None => 0
  }

  // ---------------------------------------------------------------- printing

  function Line(f: Field): ByteArray {
    f.name + [COLON, SPACE] + f.value
  }

  /** `ToByteArray`. */
  function Print(fields: seq<Field>): ByteArray {
    if fields == [] then [] else Print(fields[..|fields| - 1]) + (Line(fields[|fields| - 1]) + CRLF)
  }

  // ---------------------------------------------------------------- the object

  class HttpHeader {
    var fields: seq<Field>
    var complete: bool
    var headerSize: nat
    var chunkedSize: nat

    constructor ()
      ensures Value() == FRESH
    {
      fields, complete, headerSize, chunkedSize := [], false, 0, 0;
    }

    function Value(): State
      reads this
    {
      State(fields, complete, headerSize, chunkedSize)
    }

    /** Both callers start behind a first line. */
    method Parse(data: ByteArray, start: nat) returns (ok: bool)
      requires |data| == 0 || |data| >= 4
      requires start > 0
      modifies this
      ensures Value() == Parsed(old(Value()), data, start) && ok == complete
    {
      hide Search, MatchesAt, Pieces, AddRange;
      complete := false;
      var pos := SearchPosition(data, CRLFCRLF, start, None);
      if pos.Some? {
        var arr := Split(data, CRLF, start, pos.value);
        var parsed := ParseHeaders(data, arr);
        if parsed {
          headerSize := pos.value - start;
          complete := true;
        }
      }
      ok := complete;
    }

    method ParseHeaders(data: ByteArray, ranges: seq<Range>) returns (ok: bool)
      requires AllInRange(ranges, data) && forall k :: 0 <= k < |ranges| ==> ranges[k].end >= 0
      requires data != []
      modifies this`fields
      ensures ok == (ranges != []) && fields == AddRanges(old(fields), data, ranges)
    {
      ok := ranges != [];
      for i := 0 to |ranges|
        invariant fields == AddRanges(old(fields), data, ranges[..i])
      {
        var before := ranges[..i + 1];
        assert before[..i] == ranges[..i];
        AddOne(data, ranges[i]);
      }
      assert ranges[..|ranges|] == ranges;
    }

    /** One turn of the loop over the lines. */
    method AddOne(data: ByteArray, range: Range)
      requires data != [] && InRange(range, data) && range.end >= 0
      modifies this`fields
      ensures fields == AddRange(old(fields), data, range)
    {
      hide Search, MatchesAt, Trim, Set;
      var delimiter := SearchPosition(data, [COLON], range.start, Some(range.end));
      if delimiter.Some? {
        var name := TrimString(data[range.start..delimiter.value]);
        var value := TrimString(data[delimiter.value + 1..range.end + 1]);
        if name == [] {
          return;
        }
        SetHeader(name, value);
      }
    }

    method SetHeader(name: ByteArray, value: ByteArray)
      modifies this`fields
      ensures fields == Set(old(fields), Field(name, value))
    {
      for i := 0 to |fields|
        invariant fields == old(fields) && forall k :: 0 <= k < i ==> !SameName(fields[k].name, name)
      {
        var same := Compare(fields[i].name, name);
        if same {
          FindIs(fields, name, i);
          return;
        }
      }
      FindNone(fields, name);
      fields := fields + [Field(name, value)];
    }

    method GetHeader(name: ByteArray) returns (value: ByteArray)
      ensures value == Get(fields, name) == OrEmpty(First(fields, name))
    {
      hide SameName, SameSpelling, First, OrEmpty;
      GetIsFirst(fields, name);
      for i := 0 to |fields|
        invariant forall k :: 0 <= k < i ==> !SameName(fields[k].name, name)
      {
        var same := Compare(fields[i].name, name);
        if same {
          FindIs(fields, name, i);
          return fields[i].value;
        }
      }
      FindNone(fields, name);
      value := [];
    }

    method GetBodySize() returns (size: nat)
      ensures size == BodySize(Value())
    {
      hide ParseUint64, Find;
      size := 0;
      if complete {
        var str := GetHeader(CONTENT_LENGTH);
        if str != [] {
          var num := ParseUint64(str);
          if num.Some? {
            size := num.value;
          }
        } else {
          size := chunkedSize;
        }
      }
    }

    method ToByteArray() returns (headers: ByteArray)
      ensures headers == Print(fields)
    {
      headers := [];
      for i := 0 to |fields|
        invariant headers == Print(fields[..i])
      {
        var before := fields[..i + 1];
        assert before[..i] == fields[..i];
        headers := headers + (Line(fields[i]) + CRLF);
      }
      assert fields[..|fields|] == fields;
    }
  }
}
