/** Reading a file as text: every carriage return, with the line feed behind it if there is one, is read
    as one line feed. */
module TextMode {
  import opened Json
  import opened CleanJson

  /** How many characters are read as the first one. */
  function Step(s: string): (k: nat)
    requires s != []
    ensures 1 <= k <= |s|
  {
    if s[0] == '\r' && |s| > 1 && s[1] == '\n' then 2 else 1
  }

  function Translate(s: string): (r: string)
    ensures s != [] ==> r != [] && r[0] == if s[0] == '\r' then '\n' else s[0]
    ensures '\r' !in r
  {
    if s == [] then []
    else [if s[0] == '\r' then '\n' else s[0]] + Translate(s[Step(s)..])
  }

  lemma {:induction false} Untouched(s: string)
    requires '\r' !in s
    ensures Translate(s) == s
  {
    if s != [] {
      Untouched(s[1..]);
    }
  }

  /** What is read is what was written exactly when it had no carriage return in it. */
  lemma TranslateIsIdentityIff(s: string)
    ensures Translate(s) == s <==> '\r' !in s
  {
    if '\r' !in s {
      Untouched(s);
    }
  }

  lemma StepConcat(a: string, b: string)
    requires a != [] && (b != [] && a[|a| - 1] == '\r' ==> b[0] != '\n')
    ensures Step(a + b) == Step(a) && (a + b)[0] == a[0] && (a + b)[Step(a)..] == a[Step(a)..] + b
  {
  }

  /** Texts are translated piece by piece, as long as no return and its line feed are torn apart. */
  lemma {:induction false} TranslateConcat(a: string, b: string)
    requires a != [] && b != [] && a[|a| - 1] == '\r' ==> b[0] != '\n'
    ensures Translate(a + b) == Translate(a) + Translate(b)
  {
    if a == [] {
      assert a + b == b;
    } else {
      StepConcat(a, b);
      TranslateConcat(a[Step(a)..], b);
    }
  }

  /** The text with `end` for every line feed. */
  function WithLineEnd(s: string, end: string): string {
    if s == [] then []
    else (if s[0] == '\n' then end else [s[0]]) + WithLineEnd(s[1..], end)
  }

  /** A text whose lines end in a line feed, in a return, or in both, is read as the same text. */
  lemma {:induction false} LineEndsAreRead(s: string, end: string)
    requires '\r' !in s && (end == "\n" || end == "\r" || end == "\r\n")
    ensures Translate(WithLineEnd(s, end)) == s
    ensures end == "\r" && s != [] ==> WithLineEnd(s, end)[0] != '\n'
  {
    if s != [] {
      var first, rest := if s[0] == '\n' then end else [s[0]], WithLineEnd(s[1..], end);
      LineEndsAreRead(s[1..], end);
      OneLineEnd(first, s[0]);
      TranslateConcat(first, rest);
      assert s == [s[0]] + s[1..];
    }
  }

  lemma OneLineEnd(first: string, c: char)
    requires c != '\r' && (first == [c] || (c == '\n' && (first == "\r" || first == "\r\n")))
    ensures Translate(first) == [c]
  {
    assert first[1..] == [] || (first == "\r\n" && Step(first) == 2 && first[2..] == []);
    assert Translate([]) == [];
  }

  // ----- Harmless strings stay harmless -----

  lemma {:induction false} SkipCommutes(s: string)
    ensures SkipSpaces(Translate(s)) == Translate(SkipSpaces(s))
  {
    if s != [] && IsSpace(s[0]) {
      assert Translate(s)[1..] == Translate(s[Step(s)..]);
      SkipCommutes(s[Step(s)..]);
    }
  }

  lemma SkipsSomething(s: string)
    ensures |SkipSpaces(s)| < |s| <==> s != [] && IsSpace(s[0])
  {
  }

  /** A text's front matches when the front of its translation does. */
  lemma MatchTranslated(s: string, close: char)
    requires s != [] && s[0] != '\r' && Matches(Translate(s), close) && (close == '}' || close == ']')
    ensures Matches(s, close)
  {
    assert Translate(s)[1..] == Translate(s[1..]);
    SkipCommutes(s[1..]);
    SkipsSomething(s[1..]);
    SkipsSomething(Translate(s[1..]));
  }

  lemma NoTrapInFront(s: string)
    requires s != [] && NoTrap(s[1..]) && !Matches(s, '}') && !Matches(s, ']')
    ensures NoTrap(s)
  {
    forall i, j | 0 <= i < j < |s| ensures !Trap(s, i, j) {
      if Trap(s, i, j) && i == 0 {
        TrapMatches(s, j);
      } else if Trap(s, i, j) {
        forall k | i - 1 < k < j - 1 ensures IsSpace(s[1..][k]) {
          assert s[1..][k] == s[k + 1];
        }
        assert Trap(s[1..], i - 1, j - 1);
      }
    }
  }

  lemma {:induction false} TranslateKeepsNoTrap(s: string)
    requires NoTrap(s)
    ensures NoTrap(Translate(s))
  {
    if s != [] {
      var r := Translate(s);
      NoTrapBehind(s);
      if Step(s) == 2 {
        NoTrapBehind(s[1..]);
        assert s[1..][1..] == s[2..];
      }
      TranslateKeepsNoTrap(s[Step(s)..]);
      assert r[1..] == Translate(s[Step(s)..]);
      NoMatchInFront(s, '}');
      NoMatchInFront(s, ']');
      NoTrapInFront(r);
    }
  }

  lemma NoMatchInFront(s: string, close: char)
    requires s != [] && NoTrap(s) && (close == '}' || close == ']')
    ensures !Matches(Translate(s), close)
  {
    if Matches(Translate(s), close) {
      MatchTranslated(s, close);
      MatchIsTrap(s, close);
    }
  }

  lemma {:induction false} TranslateAddsNothing(s: string, c: char)
    requires c !in s && c != '\n'
    ensures c !in Translate(s)
  {
    if s != [] {
      TranslateAddsNothing(s[Step(s)..], c);
    }
  }

  lemma TranslateKeepsHarmless(s: string)
    requires Harmless(s)
    ensures Harmless(Translate(s))
  {
    TranslateAddsNothing(s, '"');
    TranslateAddsNothing(s, '\\');
    TranslateKeepsNoTrap(s);
  }

  // ----- A written value -----

  /** The value with every string translated; keys are left alone. */
  function TranslateValue(v: Json): Json {
    match v
    case Literal(_) => v
    case Number(_) => v
    case String(text) => String(Translate(text))
    case Array(items) => Array(TranslateItems(items))
    case Object(members) => Object(TranslateMembers(members))
  }

  function TranslateItems(items: seq<Json>): (r: seq<Json>)
    ensures |r| == |items|
    ensures forall i :: 0 <= i < |r| ==> r[i] == TranslateValue(items[i])
  {
    if items == [] then [] else [TranslateValue(items[0])] + TranslateItems(items[1..])
  }

  function TranslateMember(m: Member): Member {
    Member(m.key, TranslateValue(m.value))
  }

  function TranslateMembers(members: seq<Member>): (r: seq<Member>)
    ensures |r| == |members|
    ensures forall i :: 0 <= i < |r| ==> r[i] == TranslateMember(members[i])
  {
    if members == [] then [] else [TranslateMember(members[0])] + TranslateMembers(members[1..])
  }

  /** No key has a carriage return in it. */
  predicate PlainKeys(v: Json) {
    match v
    case Array(items) => forall i :: 0 <= i < |items| ==> PlainKeys(items[i])
    case Object(members) => forall i :: 0 <= i < |members| ==> PlainMember(members[i])
    case _ => true
  }

  predicate PlainMember(m: Member) {
    '\r' !in m.key && PlainKeys(m.value)
  }

  /** A text that does not end in a carriage return. */
  predicate EndsClean(s: string) {
    s == [] || s[|s| - 1] != '\r'
  }

  lemma TranslateThree(a: string, b: string, c: string)
    requires EndsClean(a) && EndsClean(b)
    ensures Translate(a + b + c) == Translate(a) + Translate(b) + Translate(c)
  {
    TranslateConcat(a, b);
    TranslateConcat(a + b, c);
  }

  lemma TranslateQuoted(s: string)
    ensures Translate(Quoted(s)) == Quoted(Translate(s))
  {
    TranslateConcat("\"", s);
    TranslateConcat("\"" + s, "\"");
    Untouched("\"");
  }

  lemma TranslateLead(first: bool, depth: nat)
    ensures var lead := Lead(first) + Tabs(depth); EndsClean(lead) && Translate(lead) == lead
  {
    Untouched(Lead(first) + Tabs(depth));
  }

  lemma TranslateClose(bracket: char, comma: bool, bare: bool, depth: nat)
    requires bracket == ']' || bracket == '}'
    ensures var close := Close([bracket], comma, bare, depth); Translate(close) == close
  {
    Untouched(Close([bracket], comma, bare, depth));
  }

  lemma TranslateNumber(token: string)
    requires IsNumber(token)
    ensures Translate(token) == token
  {
    NumberChars(token);
    Untouched(token);
  }

  /** What is read of a written value is the text of the translated value. */
  lemma {:induction false} TranslateShow(v: Json, depth: nat, style: Style)
    requires Printable(v) && PlainKeys(v)
    ensures Translate(Show(v, depth, style)) == Show(TranslateValue(v), depth, style)
    ensures EndsClean(Show(v, depth, style))
    decreases v, 0
  {
    ShowIsFirm(v, depth, style);
    match v
    case Number(token) => TranslateNumber(token);
    case String(text) => TranslateQuoted(text);
    case Array(items) =>
      TranslateShownItems(items, true, depth, style);
      TranslateArray(items, depth, style);
    case Object(members) =>
      TranslateShownMembers(members, true, depth, style);
      TranslateObject(members, depth, style);
  }

  lemma TranslateArray(items: seq<Json>, depth: nat, style: Style)
    requires Translate(ShowItems(items, true, depth, style)) == ShowItems(TranslateItems(items), true, depth, style)
    requires EndsClean(ShowItems(items, true, depth, style))
    ensures Translate(Show(Array(items), depth, style)) == Show(Array(TranslateItems(items)), depth, style)
  {
    TranslateClose(']', items != [], style.bareArrays, depth);
    TranslateThree("[", ShowItems(items, true, depth, style), Close("]", items != [], style.bareArrays, depth));
    Untouched("[");
  }

  lemma TranslateObject(members: seq<Member>, depth: nat, style: Style)
    requires Translate(ShowMembers(members, true, depth, style)) ==
      ShowMembers(TranslateMembers(members), true, depth, style)
    requires EndsClean(ShowMembers(members, true, depth, style))
    ensures Translate(Show(Object(members), depth, style)) == Show(Object(TranslateMembers(members)), depth, style)
  {
    var close := Close("}", CommaAtEnd(members), style.bareObjects, depth);
    TranslateClose('}', CommaAtEnd(members), style.bareObjects, depth);
    TranslateThree("{", ShowMembers(members, true, depth, style), close);
    Untouched("{");
    SameCommaAtEnd(members);
  }

  lemma SameCommaAtEnd(members: seq<Member>)
    ensures CommaAtEnd(TranslateMembers(members)) == CommaAtEnd(members)
  {
    if members != [] {
      var k := |members| - 1;
      assert TranslateMembers(members)[k] == TranslateMember(members[k]);
    }
  }

  lemma {:induction false} TranslateShownItems(items: seq<Json>, first: bool, depth: nat, style: Style)
    requires forall i :: 0 <= i < |items| ==> Printable(items[i]) && PlainKeys(items[i])
    ensures Translate(ShowItems(items, first, depth, style)) == ShowItems(TranslateItems(items), first, depth, style)
    ensures EndsClean(ShowItems(items, first, depth, style))
    decreases items, 1
  {
    if items != [] {
      var lead, item := Lead(first) + Tabs(depth + 1), Show(items[0], depth + 1, style);
      TranslateShow(items[0], depth + 1, style);
      TranslateShownItems(items[1..], false, depth, style);
      TranslateLead(first, depth + 1);
      TranslateThree(lead, item, ShowItems(items[1..], false, depth, style));
      ItemsUnfold(items, first, depth, style);
      ItemsUnfold(TranslateItems(items), first, depth, style);
      assert TranslateItems(items)[1..] == TranslateItems(items[1..]);
    }
  }

  lemma {:induction false} TranslateShownMember(m: Member, depth: nat, style: Style)
    requires Printable(m.value) && PlainMember(m)
    ensures Translate(ShowMember(m, depth, style)) == ShowMember(TranslateMember(m), depth, style)
    ensures EndsClean(ShowMember(m, depth, style)) && ShowMember(m, depth, style) != []
    decreases m, 1
  {
    TranslateShow(m.value, depth, style);
    ShowIsFirm(m.value, depth, style);
    TranslateQuoted(m.key);
    Untouched(m.key);
    Untouched(": ");
    TranslateThree(Quoted(m.key), ": ", Show(m.value, depth, style));
  }

  lemma {:induction false} TranslateShownMembers(members: seq<Member>, first: bool, depth: nat, style: Style)
    requires forall i :: 0 <= i < |members| ==> Printable(members[i].value) && PlainMember(members[i])
    ensures Translate(ShowMembers(members, first, depth, style)) ==
      ShowMembers(TranslateMembers(members), first, depth, style)
    ensures EndsClean(ShowMembers(members, first, depth, style))
    decreases members, 1
  {
    if members != [] {
      var lead, member := Lead(first) + Tabs(depth + 1), ShowMember(members[0], depth + 1, style);
      TranslateShownMember(members[0], depth + 1, style);
      TranslateShownMembers(members[1..], false, depth, style);
      TranslateLead(first, depth + 1);
      TranslateThree(lead, member, ShowMembers(members[1..], false, depth, style));
      MembersUnfold(members, first, depth, style);
      MembersUnfold(TranslateMembers(members), first, depth, style);
      assert TranslateMembers(members)[1..] == TranslateMembers(members[1..]);
    }
  }
}
