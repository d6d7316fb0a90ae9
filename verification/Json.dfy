/** JSON texts (RFC 8259): values, a reader, and a writer that leaves a comma after the last element of
    a list, which sections 4 and 5 do not allow. */
module Json {
  import opened Decimal

  datatype Json =
    | Literal(word: string)
    | Number(token: string)
    | String(text: string)
    | Array(items: seq<Json>)
    | Object(members: seq<Member>)

  datatype Member = Member(key: string, value: Json)

  /** The outcome of reading something from the front of a text. */
  datatype Parsed<T> = Fail | Done(value: T, rest: string)

  // ----- The grammar's terminals -----

  predicate IsSpace(c: char) {
    c == ' ' || c == '\t' || c == '\r' || c == '\n'
  }

  predicate IsNumberChar(c: char) {
    IsDigit(c) || c == '-' || c == '+' || c == '.' || c == 'e' || c == 'E'
  }

  /** The first position at or after `i` that holds no digit. */
  function DigitsEnd(s: string, i: nat): (j: nat)
    requires i <= |s|
    ensures i <= j <= |s|
    ensures forall k :: i <= k < j ==> IsDigit(s[k])
    ensures j < |s| ==> !IsDigit(s[j])
    decreases |s| - i
  {
    if i < |s| && IsDigit(s[i]) then DigitsEnd(s, i + 1) else i
  }

  /** number = [ minus ] int [ frac ] [ exp ] (section 6). */
  predicate IsNumber(s: string) {
    var i := if s != [] && s[0] == '-' then 1 else 0;
    var j := DigitsEnd(s, i);
    && i < j && (s[i] == '0' ==> j == i + 1)
    && var k := if j < |s| && s[j] == '.' then DigitsEnd(s, j + 1) else j;
    && (k == j || j + 1 < k)
    && (k == |s| ||
        ((s[k] == 'e' || s[k] == 'E') &&
         var l := if k + 1 < |s| && (s[k + 1] == '+' || s[k + 1] == '-') then k + 2 else k + 1;
         l < |s| && DigitsEnd(s, l) == |s|))
  }

  function SkipSpaces(s: string): (r: string)
    ensures |r| <= |s|
    ensures r != [] ==> !IsSpace(r[0])
  {
    if s != [] && IsSpace(s[0]) then SkipSpaces(s[1..]) else s
  }

  // ----- The reader -----

  /** The rest of a string whose opening quote has been read. Escapes are outside this model: a backslash
      makes the reader fail. Control characters are let through. */
  function ParseString(s: string): (p: Parsed<string>)
    ensures p.Done? ==> |p.rest| < |s|
  {
    if s == [] || s[0] == '\\' then Fail
    else if s[0] == '"' then Done([], s[1..])
    else
      var p := ParseString(s[1..]);
      if p.Fail? then Fail else Done([s[0]] + p.value, p.rest)
  }

  function NumberEnd(s: string): (i: nat)
    ensures i <= |s|
    ensures forall k :: 0 <= k < i ==> IsNumberChar(s[k])
    ensures i < |s| ==> !IsNumberChar(s[i])
  {
    if s != [] && IsNumberChar(s[0]) then NumberEnd(s[1..]) + 1 else 0
  }

  function ParseNumber(s: string): (p: Parsed<Json>)
    ensures p.Done? ==> |p.rest| < |s|
  {
    var i := NumberEnd(s);
    if IsNumber(s[..i]) then Done(Number(s[..i]), s[i..]) else Fail
  }

  function ParseLiteral(s: string): (p: Parsed<Json>)
    ensures p.Done? ==> |p.rest| < |s|
  {
    if "true" <= s then Done(Literal("true"), s[4..])
    else if "false" <= s then Done(Literal("false"), s[5..])
    else if "null" <= s then Done(Literal("null"), s[4..])
    else Fail
  }

  /** A value at the very front of `s`. */
  function ParseValue(s: string): (p: Parsed<Json>)
    ensures p.Done? ==> |p.rest| < |s|
    decreases |s|, 0
  {
    if s == [] then Fail
    else if s[0] == '"' then
      var p := ParseString(s[1..]);
      if p.Fail? then Fail else Done(String(p.value), p.rest)
    else if s[0] == '[' then
      var inner := SkipSpaces(s[1..]);
      if inner != [] && inner[0] == ']' then Done(Array([]), inner[1..])
      else
        var p := ParseItems(inner);
        if p.Fail? then Fail else Done(Array(p.value), p.rest)
    else if s[0] == '{' then
      var inner := SkipSpaces(s[1..]);
      if inner != [] && inner[0] == '}' then Done(Object([]), inner[1..])
      else
        var p := ParseMembers(inner);
        if p.Fail? then Fail else Done(Object(p.value), p.rest)
    else if s[0] == '-' || IsDigit(s[0]) then ParseNumber(s)
    else ParseLiteral(s)
  }

  /** One or more values separated by commas, up to the closing bracket. */
  function ParseItems(s: string): (p: Parsed<seq<Json>>)
    ensures p.Done? ==> |p.rest| < |s|
    decreases |s|, 1
  {
    var first := ParseValue(s);
    if first.Fail? then Fail
    else
      var after := SkipSpaces(first.rest);
      if after == [] then Fail
      else if after[0] == ']' then Done([first.value], after[1..])
      else if after[0] != ',' then Fail
      else
        var more := ParseItems(SkipSpaces(after[1..]));
        if more.Fail? then Fail else Done([first.value] + more.value, more.rest)
  }

  function ParseMember(s: string): (p: Parsed<Member>)
    ensures p.Done? ==> |p.rest| < |s|
    decreases |s|, 1
  {
    if s == [] || s[0] != '"' then Fail
    else
      var key := ParseString(s[1..]);
      if key.Fail? then Fail
      else
        var colon := SkipSpaces(key.rest);
        if colon == [] || colon[0] != ':' then Fail
        else
          var value := ParseValue(SkipSpaces(colon[1..]));
          if value.Fail? then Fail else Done(Member(key.value, value.value), value.rest)
  }

  /** One or more members separated by commas, up to the closing brace. */
  function ParseMembers(s: string): (p: Parsed<seq<Member>>)
    ensures p.Done? ==> |p.rest| < |s|
    decreases |s|, 2
  {
    var first := ParseMember(s);
    if first.Fail? then Fail
    else
      var after := SkipSpaces(first.rest);
      if after == [] then Fail
      else if after[0] == '}' then Done([first.value], after[1..])
      else if after[0] != ',' then Fail
      else
        var more := ParseMembers(SkipSpaces(after[1..]));
        if more.Fail? then Fail else Done([first.value] + more.value, more.rest)
  }

  /** A JSON text: one value, with nothing but white space around it. */
  function Parse(s: string): Parsed<Json> {
    var p := ParseValue(SkipSpaces(s));
    if p.Done? && SkipSpaces(p.rest) == [] then p else Fail
  }

  // ----- The writer -----

  /** Whether the comma after the last element is left out, in objects and in arrays. */
  datatype Style = Style(bareObjects: bool, bareArrays: bool)

  const TRAILING: Style := Style(false, false)
  const BARE: Style := Style(true, true)

  function Tabs(n: nat): (s: string)
    ensures |s| == n && forall i :: 0 <= i < n ==> s[i] == '\t'
  {
    seq(n, _ => '\t')
  }

  function Quoted(s: string): string {
    "\"" + s + "\""
  }

  /** What comes between the previous element of a list and the line of the next one. */
  function Lead(first: bool): string {
    if first then "\n" else ",\n"
  }

  /** Elements one to a line. A member that is an array ends its object without a comma; every other last
      element is followed by one, and then by the line of the bracket. */
  function Show(v: Json, depth: nat, style: Style): string
    decreases v
  {
    match v
    case Literal(word) => word
    case Number(token) => token
    case String(text) => Quoted(text)
    case Array(items) => "[" + ShowItems(items, true, depth, style) + Close("]", items != [], style.bareArrays, depth)
    case Object(members) =>
      "{" + ShowMembers(members, true, depth, style) + Close("}", CommaAtEnd(members), style.bareObjects, depth)
  }

  predicate CommaAtEnd(members: seq<Member>) {
    members != [] && !members[|members| - 1].value.Array?
  }

  function Close(bracket: string, comma: bool, bare: bool, depth: nat): string {
    if comma && bare then bracket else Lead(!comma) + Tabs(depth) + bracket
  }

  function ShowItems(items: seq<Json>, first: bool, depth: nat, style: Style): string
    decreases items
  {
    if items == [] then ""
    else Lead(first) + Tabs(depth + 1) + Show(items[0], depth + 1, style) + ShowItems(items[1..], false, depth, style)
  }

  function ShowMember(m: Member, depth: nat, style: Style): string
    decreases m
  {
    Quoted(m.key) + ": " + Show(m.value, depth, style)
  }

  function ShowMembers(members: seq<Member>, first: bool, depth: nat, style: Style): string
    decreases members
  {
    if members == [] then ""
    else Lead(first) + Tabs(depth + 1) + ShowMember(members[0], depth + 1, style)
         + ShowMembers(members[1..], false, depth, style)
  }
}
