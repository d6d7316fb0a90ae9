/** The reader's clean-up of trailing commas, and why it undoes what the writer leaves behind. */
module CleanJson {
  import opened Decimal
  import opened Json

  /** At the front of `s`: a comma, one or more spaces, and the bracket `close`. */
  predicate Matches(s: string, close: char) {
    && s != [] && s[0] == ','
    && var r := SkipSpaces(s[1..]);
       |r| < |s| - 1 && r != [] && r[0] == close
  }

  /** Replaces every such run, from left to right, by the bracket alone. */
  function Sub(s: string, close: char): string
    decreases |s|
  {
    if s == [] then []
    else if Matches(s, close) then [close] + Sub(SkipSpaces(s[1..])[1..], close)
    else [s[0]] + Sub(s[1..], close)
  }

  function Clean(s: string): string {
    Sub(Sub(s, '}'), ']')
  }

  // ----- Substituting piece by piece -----

  predicate AllSpaces(s: string) {
    forall i :: 0 <= i < |s| ==> IsSpace(s[i])
  }

  /** A comma followed by nothing but spaces ends `s`: what comes next may complete a match. */
  predicate Dangling(s: string) {
    s != [] && ((s[0] == ',' && SkipSpaces(s[1..]) == []) || Dangling(s[1..]))
  }

  lemma {:induction false} SkipConcat(a: string, b: string)
    ensures SkipSpaces(a) != [] ==> SkipSpaces(a + b) == SkipSpaces(a) + b
    ensures SkipSpaces(a) == [] ==> SkipSpaces(a + b) == SkipSpaces(b)
  {
    if a == [] {
      assert a + b == b;
    } else {
      assert (a + b)[1..] == a[1..] + b;
      SkipConcat(a[1..], b);
    }
  }

  lemma {:induction false} SkipIsSuffix(s: string)
    ensures var n := |s| - |SkipSpaces(s)|;
      SkipSpaces(s) == s[n..] && forall k :: 0 <= k < n ==> IsSpace(s[k])
  {
    if s != [] && IsSpace(s[0]) {
      SkipIsSuffix(s[1..]);
    }
  }

  lemma {:induction false} SkipAllSpaces(a: string)
    requires AllSpaces(a)
    ensures SkipSpaces(a) == []
  {
    if a != [] {
      SkipAllSpaces(a[1..]);
    }
  }

  lemma {:induction false} SkipKeepsTies(a: string)
    requires !Dangling(a)
    ensures !Dangling(SkipSpaces(a))
  {
    if a != [] {
      SkipKeepsTies(a[1..]);
    }
  }

  /** Where no match can straddle the seam, substitution works on the parts. */
  lemma {:induction false} SubConcat(a: string, b: string, close: char)
    requires !Dangling(a)
    ensures Sub(a + b, close) == Sub(a, close) + Sub(b, close)
    decreases |a|
  {
    if a == [] {
      assert a + b == b;
    } else {
      assert (a + b)[1..] == a[1..] + b;
      SkipConcat(a[1..], b);
      if Matches(a, close) {
        var r := SkipSpaces(a[1..]);
        SkipKeepsTies(a[1..]);
        assert (r + b)[1..] == r[1..] + b;
        SubConcat(r[1..], b, close);
      } else {
        SubConcat(a[1..], b, close);
      }
    }
  }

  lemma {:induction false} EndsFirmly(a: string)
    requires a != [] && !IsSpace(a[|a| - 1]) && a[|a| - 1] != ','
    ensures !Dangling(a)
  {
    if |a| > 1 {
      assert a[1..][|a| - 2] == a[|a| - 1];
      SkipIsSuffix(a[1..]);
      EndsFirmly(a[1..]);
    }
  }

  lemma {:induction false} SubNoComma(a: string, close: char)
    requires ',' !in a
    ensures Sub(a, close) == a && !Dangling(a)
  {
    if a != [] {
      SubNoComma(a[1..], close);
    }
  }

  /** A comma, some spaces, tabs or line ends, and a bracket: the bracket is what is left. */
  lemma CommaRunIsCleaned(spaces: string, close: char)
    requires spaces != [] && (close == '}' || close == ']')
    requires forall i :: 0 <= i < |spaces| ==> spaces[i] in {' ', '\t', '\r', '\n'}
    ensures Clean("," + spaces + [close]) == [close]
  {
    var s := "," + spaces + [close];
    assert s[1..] == spaces + [close];
    SkipAllSpaces(spaces);
    SkipConcat(spaces, [close]);
    assert SkipSpaces(s[1..]) == [close];
    SubRun(s, close);
    if close == ']' {
      assert Sub(s[1..], '}') == s[1..] by { SubNoComma(s[1..], '}'); }
    } else {
      SubNoComma([close], ']');
    }
  }

  lemma SubRun(s: string, close: char)
    requires s != [] && s[0] == ',' && SkipSpaces(s[1..]) == [close] && |s| > 2
    ensures Sub(s, close) == [close]
  {
  }

  /** Spaces, or a comma and then spaces. */
  predicate IsLead(lead: string) {
    AllSpaces(lead) || (lead[0] == ',' && AllSpaces(lead[1..]))
  }

  lemma Leads(depth: nat)
    ensures var first, next := Lead(true) + Tabs(depth), Lead(false) + Tabs(depth);
      AllSpaces(first) && IsLead(first) && IsLead(next) && !AllSpaces(next)
  {
    assert (Lead(false) + Tabs(depth))[0] == ',';
  }

  /** The line break and indentation before an element stay, with or without a comma in front. */
  lemma SubLead(lead: string, s: string, close: char)
    requires IsLead(lead) && s != [] && !IsSpace(s[0]) && s[0] != close
    ensures Sub(lead + s, close) == lead + Sub(s, close)
  {
    if AllSpaces(lead) {
      SubNoComma(lead, close);
      SubConcat(lead, s, close);
    } else {
      var spaces := lead[1..];
      assert (lead + s)[1..] == spaces + s;
      SkipAllSpaces(spaces);
      SkipConcat(spaces, s);
      assert !Matches(lead + s, close);
      SubLead(spaces, s, close);
      assert lead + Sub(s, close) == [lead[0]] + (spaces + Sub(s, close));
    }
  }

  /** A comma left before a bracket of the kind looked for goes, with the spaces behind it. */
  lemma SubClose(bracket: char, comma: bool, bare: bool, depth: nat, close: char)
    requires (bracket == ']' || bracket == '}') && (close == ']' || close == '}')
    ensures Sub(Close([bracket], comma, bare, depth), close) == Close([bracket], comma, bare || bracket == close, depth)
  {
    var spaces := "\n" + Tabs(depth);
    var s := [bracket];
    SubNoComma(s, close);
    if comma && bare {
    } else if comma && bracket == close {
      var t := Lead(false) + Tabs(depth) + s;
      assert t[1..] == spaces + s;
      SkipAllSpaces(spaces);
      SkipConcat(spaces, s);
      assert Matches(t, close);
    } else if comma {
      SubLead(Lead(false) + Tabs(depth), s, close);
    } else {
      SubNoComma(Lead(true) + Tabs(depth) + s, close);
    }
  }

  // ----- Strings -----

  /** A comma, one or more spaces and a closing bracket, somewhere in `s`. */
  predicate Trap(s: string, i: int, j: int) {
    && 0 <= i && i + 1 < j < |s| && s[i] == ','
    && (forall k :: i < k < j ==> IsSpace(s[k]))
    && (s[j] == '}' || s[j] == ']')
  }

  predicate NoTrap(s: string) {
    forall i, j :: 0 <= i < j < |s| ==> !Trap(s, i, j)
  }

  lemma TrapBehind(s: string, i: int, j: int)
    requires s != [] && Trap(s[1..], i, j)
    ensures Trap(s, i + 1, j + 1)
  {
    forall k | i + 1 < k < j + 1 ensures IsSpace(s[k]) {
      assert s[k] == s[1..][k - 1];
    }
  }

  lemma NoTrapBehind(s: string)
    requires s != [] && NoTrap(s)
    ensures NoTrap(s[1..])
  {
    forall i, j | 0 <= i < j < |s| - 1 ensures !Trap(s[1..], i, j) {
      if Trap(s[1..], i, j) {
        TrapBehind(s, i, j);
      }
    }
  }

  lemma MatchIsTrap(s: string, close: char)
    requires (close == '}' || close == ']') && Matches(s, close)
    ensures exists j :: Trap(s, 0, j) && 0 < j < |s|
  {
    var r := SkipSpaces(s[1..]);
    var j := |s| - |r|;
    SkipIsSuffix(s[1..]);
    assert s[j] == r[0];
    forall k | 0 < k < j ensures IsSpace(s[k]) {
      assert s[k] == s[1..][k - 1];
    }
    assert Trap(s, 0, j);
  }

  lemma {:induction false} SubNoTrap(s: string, close: char)
    requires (close == '}' || close == ']') && NoTrap(s)
    ensures Sub(s, close) == s
  {
    if s != [] {
      if Matches(s, close) {
        MatchIsTrap(s, close);
        assert false;
      }
      NoTrapBehind(s);
      SubNoTrap(s[1..], close);
    }
  }

  lemma {:induction false} SubShortens(s: string, close: char)
    ensures |Sub(s, close)| <= |s|
    ensures Matches(s, close) ==> |Sub(s, close)| < |s|
    decreases |s|
  {
    if s != [] {
      if Matches(s, close) {
        SubShortens(SkipSpaces(s[1..])[1..], close);
      } else {
        SubShortens(s[1..], close);
      }
    }
  }

  lemma {:induction false} SkipsUpTo(s: string, k: nat)
    requires k < |s| && !IsSpace(s[k]) && forall i :: 0 <= i < k ==> IsSpace(s[i])
    ensures SkipSpaces(s) == s[k..]
  {
    if k > 0 {
      assert forall i :: 0 <= i < k - 1 ==> s[1..][i] == s[i + 1];
      SkipsUpTo(s[1..], k - 1);
    }
  }

  lemma TrapMatches(s: string, j: int)
    requires Trap(s, 0, j)
    ensures Matches(s, s[j])
  {
    assert forall k :: 0 <= k < j ==> s[1..][k] == s[k + 1];
    SkipsUpTo(s[1..], j - 1);
  }

  lemma {:induction false} TrapShortens(s: string, i: int, j: int)
    requires Trap(s, i, j)
    ensures |Sub(s, s[j])| < |s|
    decreases |s|
  {
    var close := s[j];
    SubShortens(s, close);
    if i == 0 {
      TrapMatches(s, j);
    } else if !Matches(s, close) {
      assert s[1..][j - 1] == close;
      assert forall k :: i - 1 < k < j - 1 ==> s[1..][k] == s[k + 1];
      TrapShortens(s[1..], i - 1, j - 1);
    }
  }

  /** Cleaning leaves a text alone exactly when it has no trap in it. */
  lemma CleanIsIdentityIff(s: string)
    ensures Clean(s) == s <==> NoTrap(s)
  {
    if NoTrap(s) {
      SubNoTrap(s, '}');
      SubNoTrap(s, ']');
    } else {
      var i, j :| 0 <= i < j < |s| && Trap(s, i, j);
      TrapShortens(s, i, j);
      SubShortens(s, '}');
      SubShortens(Sub(s, '}'), ']');
      if s[j] == ']' && |Sub(s, '}')| == |s| {
        SameLengthIsSame(s, '}');
      }
    }
  }

  lemma {:induction false} SameLengthIsSame(s: string, close: char)
    requires |Sub(s, close)| == |s|
    ensures Sub(s, close) == s
    decreases |s|
  {
    SubShortens(s, close);
    if s != [] {
      SubShortens(s[1..], close);
      SameLengthIsSame(s[1..], close);
    }
  }

  /** A string that is printed between quotes as it is, and comes back as it was. */
  predicate Harmless(s: string) {
    '"' !in s && '\\' !in s && NoTrap(s)
  }

  lemma SubQuoted(s: string, close: char)
    requires Harmless(s) && (close == '}' || close == ']')
    ensures Sub(Quoted(s), close) == Quoted(s) && !Dangling(Quoted(s))
  {
    var q := Quoted(s);
    forall i, j | 0 <= i < j < |q| ensures !Trap(q, i, j) {
      if Trap(q, i, j) {
        forall k | i - 1 < k < j - 1 ensures IsSpace(s[k]) {
          assert s[k] == q[k + 1];
        }
        assert Trap(s, i - 1, j - 1);
        assert false;
      }
    }
    SubNoTrap(q, close);
    EndsFirmly(q);
  }

  // ----- Cleaning what was written -----

  predicate Printable(v: Json) {
    match v
    case Literal(_) => false
    case Number(token) => IsNumber(token)
    case String(text) => Harmless(text)
    case Array(items) => forall i :: 0 <= i < |items| ==> Printable(items[i])
    case Object(members) => forall i :: 0 <= i < |members| ==> Harmless(members[i].key) && Printable(members[i].value)
  }

  function After(style: Style, close: char): Style {
    if close == '}' then style.(bareObjects := true) else style.(bareArrays := true)
  }

  /** A written value starts and ends with something that is neither a space nor a comma, and does not
      start with a closing bracket. */
  predicate Firm(s: string) {
    && s != [] && !IsSpace(s[0]) && s[0] != ',' && s[0] != '}' && s[0] != ']'
    && !IsSpace(s[|s| - 1]) && s[|s| - 1] != ','
  }

  lemma NumberChars(s: string)
    requires IsNumber(s)
    ensures s != [] && (s[0] == '-' || IsDigit(s[0])) && forall k :: 0 <= k < |s| ==> IsNumberChar(s[k])
  {
  }

  lemma ShowIsFirm(v: Json, depth: nat, style: Style)
    requires Printable(v)
    ensures Firm(Show(v, depth, style))
  {
    if v.Number? {
      NumberChars(v.token);
    }
  }

  /** One element of a list in front of `more` of them and a `tail`. */
  lemma SubElement(lead: string, element: string, element': string, more: string, more': string,
                   list: string, list': string, tail: string, tail': string, close: char)
    requires IsLead(lead) && Firm(element) && (close == '}' || close == ']')
    requires list == lead + element + more && list' == lead + element' + more'
    requires Sub(element, close) == element' && Sub(more + tail, close) == more' + tail'
    ensures Sub(list + tail, close) == list' + tail'
  {
    var rest := more + tail;
    Regrouped(lead, element, more, tail);
    Regrouped(lead, element', more', tail');
    EndsFirmly(element);
    SubLead(lead, element + rest, close);
    SubConcat(element, rest, close);
  }

  lemma Regrouped(lead: string, element: string, more: string, tail: string)
    ensures (lead + element + more) + tail == lead + (element + (more + tail))
  {
  }

  lemma SubBracketed(bracket: char, body: string, body': string, end: string, close: char)
    requires bracket == '[' || bracket == '{'
    requires Sub(body + end, close) == body' + Sub(end, close)
    ensures Sub([bracket] + body + end, close) == [bracket] + body' + Sub(end, close)
  {
    var open := [bracket];
    SubNoComma(open, close);
    SubConcat(open, body + end, close);
    assert open + body + end == open + (body + end);
    assert open + (body' + Sub(end, close)) == open + body' + Sub(end, close);
  }

  lemma SubKeyed(key: string, value: string, close: char)
    requires Harmless(key) && Firm(value) && (close == '}' || close == ']')
    ensures Sub(Quoted(key) + ": " + value, close) == Quoted(key) + ": " + Sub(value, close)
    ensures Firm(Quoted(key) + ": " + value)
  {
    SubQuoted(key, close);
    SubNoComma(": ", close);
    SubConcat(Quoted(key), ": " + value, close);
    SubConcat(": ", value, close);
    assert Quoted(key) + ": " + value == Quoted(key) + (": " + value);
    assert Quoted(key) + ": " + Sub(value, close) == Quoted(key) + (": " + Sub(value, close));
  }

  lemma {:induction false} SubShow(v: Json, depth: nat, style: Style, close: char)
    requires Printable(v) && (close == '}' || close == ']')
    ensures Sub(Show(v, depth, style), close) == Show(v, depth, After(style, close))
    decreases v, 0
  {
    match v
    case Number(token) =>
      NumberChars(token);
      SubNoComma(token, close);
    case String(text) => SubQuoted(text, close);
    case Array(items) =>
      var end := Close("]", items != [], style.bareArrays, depth);
      SubItems(items, true, depth, style, close, end);
      SubBracketed('[', ShowItems(items, true, depth, style), ShowItems(items, true, depth, After(style, close)),
                   end, close);
      SubClose(']', items != [], style.bareArrays, depth, close);
    case Object(members) =>
      var end := Close("}", CommaAtEnd(members), style.bareObjects, depth);
      SubMembers(members, true, depth, style, close, end);
      SubBracketed('{', ShowMembers(members, true, depth, style),
                   ShowMembers(members, true, depth, After(style, close)), end, close);
      SubClose('}', CommaAtEnd(members), style.bareObjects, depth, close);
  }

  lemma ItemsUnfold(items: seq<Json>, first: bool, depth: nat, style: Style)
    requires items != []
    ensures ShowItems(items, first, depth, style) ==
      (Lead(first) + Tabs(depth + 1)) + Show(items[0], depth + 1, style) + ShowItems(items[1..], false, depth, style)
  {
  }

  lemma SubMoreItems(items: seq<Json>, first: bool, depth: nat, style: Style, close: char, tail: string)
    requires items != [] && (close == '}' || close == ']') && Firm(Show(items[0], depth + 1, style))
    requires Sub(Show(items[0], depth + 1, style), close) == Show(items[0], depth + 1, After(style, close))
    requires Sub(ShowItems(items[1..], false, depth, style) + tail, close) ==
      ShowItems(items[1..], false, depth, After(style, close)) + Sub(tail, close)
    ensures Sub(ShowItems(items, first, depth, style) + tail, close) ==
      ShowItems(items, first, depth, After(style, close)) + Sub(tail, close)
  {
    Leads(depth + 1);
    ItemsUnfold(items, first, depth, style);
    ItemsUnfold(items, first, depth, After(style, close));
    SubElement(Lead(first) + Tabs(depth + 1),
               Show(items[0], depth + 1, style), Show(items[0], depth + 1, After(style, close)),
               ShowItems(items[1..], false, depth, style), ShowItems(items[1..], false, depth, After(style, close)),
               ShowItems(items, first, depth, style), ShowItems(items, first, depth, After(style, close)),
               tail, Sub(tail, close), close);
  }

  lemma {:induction false} SubItems(items: seq<Json>, first: bool, depth: nat, style: Style, close: char, tail: string)
    requires (forall i :: 0 <= i < |items| ==> Printable(items[i])) && (close == '}' || close == ']')
    ensures Sub(ShowItems(items, first, depth, style) + tail, close) ==
      ShowItems(items, first, depth, After(style, close)) + Sub(tail, close)
    decreases items, 1
  {
    if items == [] {
      assert ShowItems(items, first, depth, style) + tail == tail;
    } else {
      ShowIsFirm(items[0], depth + 1, style);
      SubShow(items[0], depth + 1, style, close);
      SubItems(items[1..], false, depth, style, close, tail);
      SubMoreItems(items, first, depth, style, close, tail);
    }
  }

  lemma {:induction false} SubMember(m: Member, depth: nat, style: Style, close: char)
    requires Harmless(m.key) && Printable(m.value) && (close == '}' || close == ']')
    ensures Sub(ShowMember(m, depth, style), close) == ShowMember(m, depth, After(style, close))
    ensures Firm(ShowMember(m, depth, style))
    decreases m, 1
  {
    ShowIsFirm(m.value, depth, style);
    SubShow(m.value, depth, style, close);
    SubKeyed(m.key, Show(m.value, depth, style), close);
  }

  lemma MembersUnfold(members: seq<Member>, first: bool, depth: nat, style: Style)
    requires members != []
    ensures ShowMembers(members, first, depth, style) ==
      (Lead(first) + Tabs(depth + 1)) + ShowMember(members[0], depth + 1, style)
      + ShowMembers(members[1..], false, depth, style)
  {
  }

  lemma SubMoreMembers(members: seq<Member>, first: bool, depth: nat, style: Style, close: char, tail: string)
    requires members != [] && (close == '}' || close == ']') && Firm(ShowMember(members[0], depth + 1, style))
    requires Sub(ShowMember(members[0], depth + 1, style), close) ==
      ShowMember(members[0], depth + 1, After(style, close))
    requires Sub(ShowMembers(members[1..], false, depth, style) + tail, close) ==
      ShowMembers(members[1..], false, depth, After(style, close)) + Sub(tail, close)
    ensures Sub(ShowMembers(members, first, depth, style) + tail, close) ==
      ShowMembers(members, first, depth, After(style, close)) + Sub(tail, close)
  {
    Leads(depth + 1);
    MembersUnfold(members, first, depth, style);
    MembersUnfold(members, first, depth, After(style, close));
    SubElement(Lead(first) + Tabs(depth + 1),
               ShowMember(members[0], depth + 1, style), ShowMember(members[0], depth + 1, After(style, close)),
               ShowMembers(members[1..], false, depth, style),
               ShowMembers(members[1..], false, depth, After(style, close)),
               ShowMembers(members, first, depth, style), ShowMembers(members, first, depth, After(style, close)),
               tail, Sub(tail, close), close);
  }

  lemma {:induction false} SubMembers(members: seq<Member>, first: bool, depth: nat, style: Style, close: char,
                                      tail: string)
    requires forall i :: 0 <= i < |members| ==> Harmless(members[i].key) && Printable(members[i].value)
    requires close == '}' || close == ']'
    ensures Sub(ShowMembers(members, first, depth, style) + tail, close) ==
      ShowMembers(members, first, depth, After(style, close)) + Sub(tail, close)
    decreases members, 1
  {
    if members == [] {
      assert ShowMembers(members, first, depth, style) + tail == tail;
    } else {
      SubMember(members[0], depth + 1, style, close);
      SubMembers(members[1..], false, depth, style, close, tail);
      SubMoreMembers(members, first, depth, style, close, tail);
    }
  }

  /** The two substitutions remove exactly the commas the writer left before closing brackets. */
  lemma CleanShow(v: Json, depth: nat)
    requires Printable(v)
    ensures Clean(Show(v, depth, TRAILING)) == Show(v, depth, BARE)
  {
    SubShow(v, depth, TRAILING, '}');
    SubShow(v, depth, Style(true, false), ']');
  }
}
