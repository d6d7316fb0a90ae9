/** What the reader makes of a written value: exactly that value, unless a comma is left before a
    closing bracket, and then nothing. */
module JsonRoundTrip {
  import opened Json
  import opened CleanJson

  /** Somewhere in `v`, the writer leaves a comma before a closing bracket. */
  predicate LeavesComma(v: Json, style: Style)
    decreases v
  {
    match v
    case Array(items) => (items != [] && !style.bareArrays) || AnyItem(items, style)
    case Object(members) => (CommaAtEnd(members) && !style.bareObjects) || AnyMember(members, style)
    case _ => false
  }

  predicate AnyItem(items: seq<Json>, style: Style)
    decreases items
  {
    items != [] && (LeavesComma(items[0], style) || AnyItem(items[1..], style))
  }

  predicate AnyMember(members: seq<Member>, style: Style)
    decreases members
  {
    members != [] && (LeavesComma(members[0].value, style) || AnyMember(members[1..], style))
  }

  /** What may come behind a value: nothing that would continue a number. */
  predicate Follows(rest: string) {
    rest == [] || !IsNumberChar(rest[0])
  }

  /** What the reader should make of a value in front of `rest`. */
  function Expected<T>(bad: bool, value: T, rest: string): Parsed<T> {
    if bad then Fail else Done(value, rest)
  }

  // ----- Terminals -----

  lemma {:induction false} ReadString(s: string, rest: string)
    requires '"' !in s && '\\' !in s
    ensures ParseString(s + (['"'] + rest)) == Done(s, rest)
  {
    var t := s + (['"'] + rest);
    if s == [] {
      assert t[1..] == rest;
    } else {
      assert t[1..] == s[1..] + (['"'] + rest);
      ReadString(s[1..], rest);
      assert s == [s[0]] + s[1..];
    }
  }

  lemma {:induction false} NumberEndsAt(s: string, rest: string)
    requires (forall k :: 0 <= k < |s| ==> IsNumberChar(s[k])) && Follows(rest)
    ensures NumberEnd(s + rest) == |s|
  {
    if s == [] {
      assert s + rest == rest;
    } else {
      assert (s + rest)[1..] == s[1..] + rest;
      NumberEndsAt(s[1..], rest);
    }
  }

  lemma ReadNumber(s: string, rest: string)
    requires IsNumber(s) && Follows(rest)
    ensures ParseValue(s + rest) == Done(Number(s), rest)
  {
    NumberChars(s);
    NumberEndsAt(s, rest);
    assert (s + rest)[..|s|] == s && (s + rest)[|s|..] == rest;
  }

  lemma SkipLead(lead: string, s: string)
    requires IsLead(lead) && s != [] && !IsSpace(s[0])
    ensures AllSpaces(lead) ==> SkipSpaces(lead + s) == s
    ensures !AllSpaces(lead) ==> (lead + s)[0] == ',' && SkipSpaces((lead + s)[1..]) == s
  {
    if AllSpaces(lead) {
      SkipAllSpaces(lead);
      SkipConcat(lead, s);
    } else {
      assert (lead + s)[1..] == lead[1..] + s;
      SkipAllSpaces(lead[1..]);
      SkipConcat(lead[1..], s);
    }
  }

  // ----- Lists -----

  /** `t` ends a list: its bracket and then `rest`, after spaces, and after a comma if `comma` is true. */
  predicate Ends(t: string, comma: bool, bracket: char, rest: string) {
    if comma then t != [] && t[0] == ',' && SkipSpaces(t[1..]) == [bracket] + rest
    else SkipSpaces(t) == [bracket] + rest
  }

  lemma CloseEnds(bracket: char, comma: bool, bare: bool, depth: nat, rest: string)
    requires bracket == ']' || bracket == '}'
    ensures var t := Close([bracket], comma, bare, depth) + rest;
      Ends(t, comma && !bare, bracket, rest) && Follows(t)
  {
    var s := [bracket] + rest;
    if comma && bare {
    } else {
      var lead := Lead(!comma) + Tabs(depth);
      assert Close([bracket], comma, bare, depth) + rest == lead + s;
      SkipLead(lead, s);
    }
  }

  lemma NothingStartsWithBracket(rest: string)
    ensures ParseItems([']'] + rest).Fail? && ParseMembers(['}'] + rest).Fail?
  {
  }

  /** The elements of a list from its first value on. */
  function ItemsText(items: seq<Json>, depth: nat, style: Style): string
    requires items != []
  {
    Show(items[0], depth + 1, style) + ShowItems(items[1..], false, depth, style)
  }

  function MembersText(members: seq<Member>, depth: nat, style: Style): string
    requires members != []
  {
    ShowMember(members[0], depth + 1, style) + ShowMembers(members[1..], false, depth, style)
  }

  /** Reading the last element of a list. */
  lemma LastItem(s: string, v: Json, bad: bool, end: string, comma: bool, rest: string)
    requires ParseValue(s) == Expected(bad, v, end) && Ends(end, comma, ']', rest)
    ensures ParseItems(s) == Expected(comma || bad, [v], rest)
  {
    if comma {
      NothingStartsWithBracket(rest);
    } else {
      assert ([']'] + rest)[1..] == rest;
    }
  }

  lemma LastMember(s: string, m: Member, bad: bool, end: string, comma: bool, rest: string)
    requires ParseMember(s) == Expected(bad, m, end) && Ends(end, comma, '}', rest)
    ensures ParseMembers(s) == Expected(comma || bad, [m], rest)
  {
    if comma {
      NothingStartsWithBracket(rest);
    } else {
      assert (['}'] + rest)[1..] == rest;
    }
  }

  /** Reading an element of a list that has more of them. */
  lemma NextItem(s: string, items: seq<Json>, bad: bool, lead: string, more: string, bads: bool, rest: string)
    requires IsLead(lead) && !AllSpaces(lead) && more != [] && !IsSpace(more[0]) && items != []
    requires ParseValue(s) == Expected(bad, items[0], lead + more)
    requires ParseItems(more) == Expected(bads, items[1..], rest)
    ensures ParseItems(s) == Expected(bad || bads, items, rest)
  {
    SkipLead(lead, more);
    assert items == [items[0]] + items[1..];
  }

  lemma NextMember(s: string, members: seq<Member>, bad: bool, lead: string, more: string, bads: bool, rest: string)
    requires IsLead(lead) && !AllSpaces(lead) && more != [] && !IsSpace(more[0]) && members != []
    requires ParseMember(s) == Expected(bad, members[0], lead + more)
    requires ParseMembers(more) == Expected(bads, members[1..], rest)
    ensures ParseMembers(s) == Expected(bad || bads, members, rest)
  {
    SkipLead(lead, more);
    assert members == [members[0]] + members[1..];
  }

  lemma ItemsTextMore(items: seq<Json>, depth: nat, style: Style, end: string)
    requires |items| > 1
    ensures ItemsText(items, depth, style) + end ==
      Show(items[0], depth + 1, style) + (Lead(false) + Tabs(depth + 1) + (ItemsText(items[1..], depth, style) + end))
  {
    var lead, next, more :=
      Lead(false) + Tabs(depth + 1), Show(items[1], depth + 1, style), ShowItems(items[2..], false, depth, style);
    assert items[1..][1..] == items[2..];
    assert ShowItems(items[1..], false, depth, style) == lead + next + more;
    assert lead + next + more + end == lead + (next + more + end);
  }

  lemma MembersTextMore(members: seq<Member>, depth: nat, style: Style, end: string)
    requires |members| > 1
    ensures MembersText(members, depth, style) + end ==
      ShowMember(members[0], depth + 1, style)
      + (Lead(false) + Tabs(depth + 1) + (MembersText(members[1..], depth, style) + end))
  {
    var lead, next, more :=
      Lead(false) + Tabs(depth + 1), ShowMember(members[1], depth + 1, style),
      ShowMembers(members[2..], false, depth, style);
    assert members[1..][1..] == members[2..];
    assert ShowMembers(members[1..], false, depth, style) == lead + next + more;
    assert lead + next + more + end == lead + (next + more + end);
  }

  lemma ItemsTextStarts(items: seq<Json>, depth: nat, style: Style, end: string)
    requires items != [] && Printable(items[0])
    ensures var text := ItemsText(items, depth, style) + end;
      text != [] && !IsSpace(text[0]) && text[0] != ']'
  {
    ShowIsFirm(items[0], depth + 1, style);
  }

  lemma {:induction false} ReadItems(items: seq<Json>, depth: nat, style: Style, end: string, comma: bool, rest: string)
    requires items != [] && (forall i :: 0 <= i < |items| ==> Printable(items[i]))
    requires Ends(end, comma, ']', rest) && Follows(end)
    ensures ParseItems(ItemsText(items, depth, style) + end) == Expected(comma || AnyItem(items, style), items, rest)
    decreases items, 2
  {
    var bad := LeavesComma(items[0], style);
    if |items| == 1 {
      assert ItemsText(items, depth, style) == Show(items[0], depth + 1, style);
      ReadValue(items[0], depth + 1, style, end);
      LastItem(ItemsText(items, depth, style) + end, items[0], bad, end, comma, rest);
      assert items == [items[0]];
    } else {
      ReadItems(items[1..], depth, style, end, comma, rest);
      ReadMoreItems(items, depth, style, end, comma || AnyItem(items[1..], style), rest);
    }
  }

  lemma {:induction false} ReadFirstItem(items: seq<Json>, depth: nat, style: Style, end: string)
    requires |items| > 1 && Printable(items[0])
    ensures ParseValue(ItemsText(items, depth, style) + end) ==
      Expected(LeavesComma(items[0], style), items[0],
               Lead(false) + Tabs(depth + 1) + (ItemsText(items[1..], depth, style) + end))
    decreases items, 0
  {
    ItemsTextMore(items, depth, style, end);
    ReadValue(items[0], depth + 1, style, Lead(false) + Tabs(depth + 1) + (ItemsText(items[1..], depth, style) + end));
  }

  lemma {:induction false} ReadMoreItems(items: seq<Json>, depth: nat, style: Style, end: string, bads: bool,
                                         rest: string)
    requires |items| > 1 && Printable(items[0]) && Printable(items[1])
    requires ParseItems(ItemsText(items[1..], depth, style) + end) == Expected(bads, items[1..], rest)
    ensures ParseItems(ItemsText(items, depth, style) + end) ==
      Expected(LeavesComma(items[0], style) || bads, items, rest)
    decreases items, 1
  {
    var lead, more := Lead(false) + Tabs(depth + 1), ItemsText(items[1..], depth, style) + end;
    ReadFirstItem(items, depth, style, end);
    Leads(depth + 1);
    ItemsTextStarts(items[1..], depth, style, end);
    NextItem(ItemsText(items, depth, style) + end, items, LeavesComma(items[0], style), lead, more, bads, rest);
  }

  lemma {:induction false} ReadMember(m: Member, depth: nat, style: Style, rest: string)
    requires Harmless(m.key) && Printable(m.value) && Follows(rest)
    ensures ParseMember(ShowMember(m, depth, style) + rest) == Expected(LeavesComma(m.value, style), m, rest)
    decreases m, 1
  {
    var value := Show(m.value, depth, style) + rest;
    MemberText(m, depth, style, rest);
    ReadValue(m.value, depth, style, rest);
    KeyedOf(ShowMember(m, depth, style) + rest, m, value, LeavesComma(m.value, style), rest);
  }

  lemma MemberText(m: Member, depth: nat, style: Style, rest: string)
    requires Printable(m.value)
    ensures var value := Show(m.value, depth, style) + rest;
      ShowMember(m, depth, style) + rest == Quoted(m.key) + (": " + value) && value != [] && !IsSpace(value[0])
  {
    ShowIsFirm(m.value, depth, style);
  }

  lemma KeyText(key: string, text: string)
    requires text != [] && !IsSpace(text[0])
    ensures var s, colon := Quoted(key) + (": " + text), ": " + text;
      && s[0] == '"' && s[1..] == key + (['"'] + colon)
      && SkipSpaces(colon) == colon && colon[0] == ':' && SkipSpaces(colon[1..]) == text
  {
    assert (": " + text)[1..] == " " + text;
    SkipLead(" ", text);
  }

  lemma KeyThenValue(s: string, m: Member, colon: string, text: string, bad: bool, rest: string)
    requires s != [] && s[0] == '"' && ParseString(s[1..]) == Done(m.key, colon)
    requires colon != [] && SkipSpaces(colon) == colon && colon[0] == ':' && SkipSpaces(colon[1..]) == text
    requires ParseValue(text) == Expected(bad, m.value, rest)
    ensures ParseMember(s) == Expected(bad, m, rest)
  {
  }

  lemma KeyedOf(s: string, m: Member, text: string, bad: bool, rest: string)
    requires s == Quoted(m.key) + (": " + text)
    requires Harmless(m.key) && text != [] && !IsSpace(text[0]) && ParseValue(text) == Expected(bad, m.value, rest)
    ensures ParseMember(s) == Expected(bad, m, rest)
  {
    KeyText(m.key, text);
    ReadString(m.key, ": " + text);
    KeyThenValue(s, m, ": " + text, text, bad, rest);
  }

  lemma MembersTextStarts(members: seq<Member>, depth: nat, style: Style, end: string)
    requires members != []
    ensures var text := MembersText(members, depth, style) + end;
      text != [] && text[0] == '"'
  {
    assert ShowMember(members[0], depth + 1, style)[0] == '"';
  }

  lemma ReadOneMember(members: seq<Member>, depth: nat, style: Style, end: string, comma: bool, rest: string)
    requires |members| == 1 && Ends(end, comma, '}', rest)
    requires ParseMember(ShowMember(members[0], depth + 1, style) + end) ==
      Expected(LeavesComma(members[0].value, style), members[0], end)
    ensures ParseMembers(MembersText(members, depth, style) + end) ==
      Expected(comma || AnyMember(members, style), members, rest)
  {
    var m := members[0];
    assert MembersText(members, depth, style) == ShowMember(m, depth + 1, style);
    LastMember(MembersText(members, depth, style) + end, m, LeavesComma(m.value, style), end, comma, rest);
    assert members == [m] && !AnyMember(members[1..], style);
  }

  lemma {:induction false} ReadMembers(members: seq<Member>, depth: nat, style: Style, end: string, comma: bool,
                                       rest: string)
    requires members != []
    requires forall i :: 0 <= i < |members| ==> Harmless(members[i].key) && Printable(members[i].value)
    requires Ends(end, comma, '}', rest) && Follows(end)
    ensures ParseMembers(MembersText(members, depth, style) + end) ==
      Expected(comma || AnyMember(members, style), members, rest)
    decreases members, 1
  {
    var m := members[0];
    if |members| == 1 {
      ReadMember(m, depth + 1, style, end);
      ReadOneMember(members, depth, style, end, comma, rest);
    } else {
      ReadMembers(members[1..], depth, style, end, comma, rest);
      ReadMoreMembers(members, depth, style, end, comma || AnyMember(members[1..], style), rest);
    }
  }

  lemma {:induction false} ReadMoreMembers(members: seq<Member>, depth: nat, style: Style, end: string, bads: bool,
                                           rest: string)
    requires |members| > 1
    requires Harmless(members[0].key) && Printable(members[0].value)
    requires ParseMembers(MembersText(members[1..], depth, style) + end) == Expected(bads, members[1..], rest)
    ensures ParseMembers(MembersText(members, depth, style) + end) ==
      Expected(LeavesComma(members[0].value, style) || bads, members, rest)
    decreases members, 0
  {
    var m := members[0];
    var lead, more := Lead(false) + Tabs(depth + 1), MembersText(members[1..], depth, style) + end;
    var text, bad := MembersText(members, depth, style) + end, LeavesComma(m.value, style);
    assert ParseMember(text) == Expected(bad, m, lead + more) by {
      assert Follows(lead + more);
      ReadMember(m, depth + 1, style, lead + more);
      MembersTextMore(members, depth, style, end);
    }
    assert IsLead(lead) && !AllSpaces(lead) by {
      Leads(depth + 1);
    }
    MembersTextStarts(members[1..], depth, style, end);
    NextMember(text, members, bad, lead, more, bads, rest);
  }

  lemma ArrayOf(lead: string, more: string, items: seq<Json>, bads: bool, rest: string)
    requires AllSpaces(lead) && more != [] && !IsSpace(more[0]) && more[0] != ']'
    requires ParseItems(more) == Expected(bads, items, rest)
    ensures ParseValue("[" + (lead + more)) == Expected(bads, Array(items), rest)
  {
    assert ("[" + (lead + more))[1..] == lead + more;
    SkipLead(lead, more);
  }

  lemma ObjectOf(lead: string, more: string, members: seq<Member>, bads: bool, rest: string)
    requires AllSpaces(lead) && more != [] && !IsSpace(more[0]) && more[0] != '}'
    requires ParseMembers(more) == Expected(bads, members, rest)
    ensures ParseValue("{" + (lead + more)) == Expected(bads, Object(members), rest)
  {
    assert ("{" + (lead + more))[1..] == lead + more;
    SkipLead(lead, more);
  }

  lemma EmptyListOf(end: string, rest: string)
    ensures Ends(end, false, ']', rest) ==> ParseValue("[" + end) == Done(Array([]), rest)
    ensures Ends(end, false, '}', rest) ==> ParseValue("{" + end) == Done(Object([]), rest)
  {
    assert ("[" + end)[1..] == end && ("{" + end)[1..] == end;
    assert ([']'] + rest)[1..] == rest && (['}'] + rest)[1..] == rest;
  }

  lemma ArrayText(items: seq<Json>, depth: nat, style: Style, rest: string)
    ensures var end := Close("]", items != [], style.bareArrays, depth) + rest;
      Show(Array(items), depth, style) + rest == "[" +
        if items == [] then end else Lead(true) + Tabs(depth + 1) + (ItemsText(items, depth, style) + end)
  {
    var end := Close("]", items != [], style.bareArrays, depth);
    var body := ShowItems(items, true, depth, style);
    assert Show(Array(items), depth, style) + rest == "[" + (body + (end + rest));
    if items != [] {
      assert body == Lead(true) + Tabs(depth + 1) + ItemsText(items, depth, style);
    }
  }

  lemma ObjectText(members: seq<Member>, depth: nat, style: Style, rest: string)
    ensures var end := Close("}", CommaAtEnd(members), style.bareObjects, depth) + rest;
      Show(Object(members), depth, style) + rest == "{" +
        if members == [] then end else Lead(true) + Tabs(depth + 1) + (MembersText(members, depth, style) + end)
  {
    var end := Close("}", CommaAtEnd(members), style.bareObjects, depth);
    var body := ShowMembers(members, true, depth, style);
    assert Show(Object(members), depth, style) + rest == "{" + (body + (end + rest));
    if members != [] {
      assert body == Lead(true) + Tabs(depth + 1) + MembersText(members, depth, style);
    }
  }

  lemma {:induction false} ReadArray(items: seq<Json>, depth: nat, style: Style, rest: string)
    requires Printable(Array(items)) && Follows(rest)
    ensures ParseValue(Show(Array(items), depth, style) + rest) ==
      Expected(LeavesComma(Array(items), style), Array(items), rest)
    decreases items, 3
  {
    var end := Close("]", items != [], style.bareArrays, depth) + rest;
    CloseEnds(']', items != [], style.bareArrays, depth, rest);
    ArrayText(items, depth, style, rest);
    if items == [] {
      EmptyListOf(end, rest);
    } else {
      var more := ItemsText(items, depth, style) + end;
      Leads(depth + 1);
      ItemsTextStarts(items, depth, style, end);
      ReadItems(items, depth, style, end, !style.bareArrays, rest);
      ArrayOf(Lead(true) + Tabs(depth + 1), more, items, !style.bareArrays || AnyItem(items, style), rest);
    }
  }

  lemma {:induction false} ReadObject(members: seq<Member>, depth: nat, style: Style, rest: string)
    requires Printable(Object(members)) && Follows(rest)
    ensures ParseValue(Show(Object(members), depth, style) + rest) ==
      Expected(LeavesComma(Object(members), style), Object(members), rest)
    decreases members, 2
  {
    var comma := CommaAtEnd(members);
    var end := Close("}", comma, style.bareObjects, depth) + rest;
    CloseEnds('}', comma, style.bareObjects, depth, rest);
    ObjectText(members, depth, style, rest);
    if members == [] {
      EmptyListOf(end, rest);
    } else {
      var more := MembersText(members, depth, style) + end;
      Leads(depth + 1);
      MembersTextStarts(members, depth, style, end);
      ReadMembers(members, depth, style, end, comma && !style.bareObjects, rest);
      ObjectOf(Lead(true) + Tabs(depth + 1), more, members,
               (comma && !style.bareObjects) || AnyMember(members, style), rest);
    }
  }

  /** The reader on a written value. */
  lemma {:induction false} ReadValue(v: Json, depth: nat, style: Style, rest: string)
    requires Printable(v) && Follows(rest)
    ensures ParseValue(Show(v, depth, style) + rest) == Expected(LeavesComma(v, style), v, rest)
    decreases v, 0
  {
    match v
    case Number(token) => ReadNumber(token, rest);
    case String(text) =>
      assert (Quoted(text) + rest)[1..] == text + (['"'] + rest);
      ReadString(text, rest);
    case Array(items) => ReadArray(items, depth, style, rest);
    case Object(members) => ReadObject(members, depth, style, rest);
  }

  lemma {:induction false} BareLeavesNoComma(v: Json)
    ensures !LeavesComma(v, BARE)
    decreases v
  {
    match v
    case Array(items) => BareItems(items);
    case Object(members) => BareMembers(members);
    case _ =>
  }

  lemma {:induction false} BareItems(items: seq<Json>)
    ensures !AnyItem(items, BARE)
    decreases items
  {
    if items != [] {
      BareLeavesNoComma(items[0]);
      BareItems(items[1..]);
    }
  }

  lemma {:induction false} BareMembers(members: seq<Member>)
    ensures !AnyMember(members, BARE)
    decreases members
  {
    if members != [] {
      BareLeavesNoComma(members[0].value);
      BareMembers(members[1..]);
    }
  }

  /** A written value followed by white space: after cleaning, it is a JSON text for that same value;
      before cleaning, it is one exactly when the writer left no comma before a closing bracket. */
  lemma WrittenTextReads(v: Json, end: string)
    requires Printable(v) && AllSpaces(end)
    ensures Parse(Clean(Show(v, 0, TRAILING) + end)) == Done(v, end)
    ensures Parse(Show(v, 0, TRAILING) + end) == Expected(LeavesComma(v, TRAILING), v, end)
  {
    var raw, clean := Show(v, 0, TRAILING), Show(v, 0, BARE);
    CleanThenEnd(v, end);
    ShowIsFirm(v, 0, TRAILING);
    ShowIsFirm(v, 0, BARE);
    assert SkipSpaces(raw + end) == raw + end && SkipSpaces(clean + end) == clean + end;
    SkipAllSpaces(end);
    ReadValue(v, 0, TRAILING, end);
    ReadValue(v, 0, BARE, end);
    BareLeavesNoComma(v);
  }

  lemma CleanThenEnd(v: Json, end: string)
    requires Printable(v) && AllSpaces(end)
    ensures Clean(Show(v, 0, TRAILING) + end) == Show(v, 0, BARE) + end
  {
    var raw := Show(v, 0, TRAILING);
    SubNoComma(end, '}');
    SubNoComma(end, ']');
    ShowIsFirm(v, 0, TRAILING);
    EndsFirmly(raw);
    SubConcat(raw, end, '}');
    SubShow(v, 0, TRAILING, '}');
    var half := Show(v, 0, Style(true, false));
    ShowIsFirm(v, 0, Style(true, false));
    EndsFirmly(half);
    SubConcat(half, end, ']');
    SubShow(v, 0, Style(true, false), ']');
  }
}
