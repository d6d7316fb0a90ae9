/** The dummy server reads the size of an object off its name: 100k, 3MiB, dir/8g.bin. */
module ObjectSize {
  import opened Arithmetic
  import opened Decimal
  import opened ObjectName

  /** What is kept of an integer in a signed 64-bit variable. */
  function Wrap64(x: int): int {
    (x + INT64_MAX + 1) % (2 * INT64_MAX + 2) - INT64_MAX - 1
  }

  // ----- The name without directory and extension -----

  /** The last position of a character, or -1. */
  function FindLastOf(s: string, c: char): (k: int)
    ensures -1 <= k < |s|
    ensures k >= 0 ==> s[k] == c
    ensures forall i :: k < i < |s| ==> s[i] != c
  {
    if s == [] then -1
    else if s[|s| - 1] == c then |s| - 1
    else FindLastOf(s[..|s| - 1], c)
  }

  /** `path` is a directory part, a name and an extension; the name may have dots in it, and a name
      without any has an empty extension. */
  predicate Splits(path: string, dir: string, name: string, ext: string) {
    && path == dir + (name + ext)
    && (dir == [] || dir[|dir| - 1] == '/')
    && '/' !in name && '/' !in ext
    && if ext == [] then '.' !in name else ext[0] == '.' && '.' !in ext[1..]
  }

  method GetBasenameWithoutExt(path: string) returns (name: string, ghost dir: string, ghost ext: string)
    ensures Splits(path, dir, name, ext) && name == BaseName(path)
  {
    name := path;
    var slash := FindLastOf(name, '/');
    if slash != -1 {
      name := name[slash + 1..];
    }
    ghost var rest := name;
    var dot := FindLastOf(name, '.');
    if dot != -1 {
      name := name[..dot];
    }
    dir, ext := path[..slash + 1], rest[|name|..];
    CutAtSlash(path, slash, rest);
    CutAtDot(rest, dot, name);
    assert rest == name + ext;
    BaseNameOfSplit(path, dir, name, ext);
  }

  lemma CutAtSlash(path: string, slash: int, rest: string)
    requires slash == FindLastOf(path, '/') && rest == path[slash + 1..]
    ensures path == path[..slash + 1] + rest && '/' !in rest
    ensures slash >= 0 ==> path[..slash + 1][slash] == '/'
  {
  }

  lemma CutAtDot(rest: string, dot: int, name: string)
    requires dot == FindLastOf(rest, '.') && name == (if dot == -1 then rest else rest[..dot]) && '/' !in rest
    ensures var ext := rest[|name|..];
      && rest == name + ext && '/' !in name && '/' !in ext
      && if ext == [] then '.' !in name else ext[0] == '.' && '.' !in ext[1..]
  {
  }

  function WithoutExtension(name: string): string {
    var dot := FindLastOf(name, '.');
    if dot == -1 then name else name[..dot]
  }

  function BaseName(path: string): string {
    WithoutExtension(path[FindLastOf(path, '/') + 1..])
  }

  lemma LastSeparator(s: string, c: char, left: string, right: string)
    requires s == left + right && (left == [] || left[|left| - 1] == c) && c !in right
    ensures FindLastOf(s, c) == |left| - 1 && s[|left|..] == right
  {
    forall i | |left| <= i < |s| ensures s[i] != c {
      assert s[i] == right[i - |left|];
    }
    assert left != [] ==> s[|left| - 1] == left[|left| - 1];
  }

  lemma ExtensionRemoved(name: string, ext: string)
    requires if ext == [] then '.' !in name else ext[0] == '.' && '.' !in ext[1..]
    ensures WithoutExtension(name + ext) == name
  {
    var rest := name + ext;
    if ext == [] {
      assert rest == name;
    } else {
      var upToDot := name + ['.'];
      assert rest == upToDot + ext[1..];
      LastSeparator(rest, '.', upToDot, ext[1..]);
    }
  }

  /** A path splits in one way only, so its base name is the name of any split. */
  lemma BaseNameOfSplit(path: string, dir: string, name: string, ext: string)
    requires Splits(path, dir, name, ext)
    ensures BaseName(path) == name
  {
    LastSeparator(path, '/', dir, name + ext);
    ExtensionRemoved(name, ext);
  }

  // ----- Units -----

  predicate IsLetter(c: char) {
    'a' <= c <= 'z' || 'A' <= c <= 'Z'
  }

  predicate AllLetters(s: string) {
    forall i :: 0 <= i < |s| ==> IsLetter(s[i])
  }

  function LowerChar(c: char): char {
    if 'A' <= c <= 'Z' then c - 'A' + 'a' else c
  }

  function Lower(s: string): (r: string)
    ensures |r| == |s| && forall i :: 0 <= i < |s| ==> r[i] == LowerChar(s[i])
  {
    seq(|s|, i requires 0 <= i < |s| => LowerChar(s[i]))
  }

  /** The bytes in a unit; zero for a word that is not a unit. */
  function GetUnitMultiplier(unit: string): int {
    var k := 1024;
    var s := Lower(unit);
    if |s| == 0 then 1
    else if s == "k" || s == "kib" then k
    else if s == "m" || s == "mib" then k * k
    else if s == "g" || s == "gib" then k * k * k
    else if s == "t" || s == "tib" then k * k * k * k
    else 0
  }

  // ----- Sizes -----

  /** The length of the longest prefix of digits. */
  function DigitCount(s: string): (k: nat)
    ensures k <= |s| && AllDigits(s[..k]) && (k < |s| ==> !IsDigit(s[k]))
  {
    if s == [] || !IsDigit(s[0]) then 0
    else
      var k := 1 + DigitCount(s[1..]);
      assert s[..k] == [s[0]] + s[1..][..k - 1];
      k
  }

  /** The size a number and a unit stand for, in 64-bit arithmetic; -1 for none. */
  function SizeOf(num: nat, unit: string): int {
    if num > INT64_MAX || GetUnitMultiplier(unit) == 0 then -1 else Wrap64(num * GetUnitMultiplier(unit))
  }

  /** The size of the object, or -1 if its name does not tell one. */
  function GetObjectSize(path: string): int {
    var name := BaseName(path);
    var k := DigitCount(name);
    if k == 0 || !AllLetters(name[k..]) then -1 else SizeOf(ReadNat(name[..k]), name[k..])
  }

  lemma {:induction false} DigitCountIs(s: string, k: nat)
    requires k <= |s| && AllDigits(s[..k]) && (k < |s| ==> !IsDigit(s[k]))
    ensures DigitCount(s) == k
  {
    if k > 0 {
      assert s[0] == s[..k][0] && s[1..][..k - 1] == s[..k][1..];
      DigitCountIs(s[1..], k - 1);
    }
  }

  /** A name made of a number and letters has the size they stand for, wherever the object lies and
      whatever its extension. */
  lemma SizeOfName(path: string, dir: string, digits: string, unit: string, ext: string)
    requires Splits(path, dir, digits + unit, ext)
    requires digits != [] && AllDigits(digits) && AllLetters(unit)
    ensures GetObjectSize(path) == SizeOf(ReadNat(digits), unit)
  {
    BaseNameOfSplit(path, dir, digits + unit, ext);
    SizeOfParts(digits + unit, digits, unit);
  }

  // ----- What the units mean -----

  function Power(base: int, e: nat): (r: int)
    ensures base >= 1 ==> r >= 1
  {
    if e == 0 then 1 else base * Power(base, e - 1)
  }

  const PREFIXES: string := " kmgt"

  /** `unit` is, in any letter case, nothing, or one of the prefixes k, m, g, t, alone or followed by ib;
      `e` is the place of the prefix. */
  predicate Means(unit: string, e: nat) {
    if unit == [] then e == 0
    else
      && 1 <= e <= 4
      && LowerChar(unit[0]) == PREFIXES[e]
      && (|unit| == 1 || (|unit| == 3 && LowerChar(unit[1]) == 'i' && LowerChar(unit[2]) == 'b'))
  }

  lemma PowersOf1024()
    ensures Power(1024, 0) == 1 && Power(1024, 1) == 1024 && Power(1024, 2) == 1024 * 1024
    ensures Power(1024, 3) == 1024 * 1024 * 1024 && Power(1024, 4) == 1024 * 1024 * 1024 * 1024
  {
    assert Power(1024, 2) == 1024 * Power(1024, 1);
    assert Power(1024, 3) == 1024 * Power(1024, 2);
  }

  lemma UnitsAreLetters(unit: string, e: nat)
    requires Means(unit, e)
    ensures AllLetters(unit)
  {
    assert forall c: char :: IsLetter(LowerChar(c)) ==> IsLetter(c);
  }

  /** Accepted units are exactly those, and each is worth its power of 1024. */
  lemma UnitsArePowers(unit: string)
    ensures forall e: nat :: Means(unit, e) ==> GetUnitMultiplier(unit) == Power(1024, e)
    ensures GetUnitMultiplier(unit) == 0 <==> forall e: nat :: !Means(unit, e)
  {
    PowersOf1024();
    var s := Lower(unit);
    if |unit| == 1 {
      assert s == [s[0]];
    } else if |unit| == 3 {
      assert s == [s[0], s[1], s[2]];
    }
    if unit == [] {
      assert Means(unit, 0);
    } else if GetUnitMultiplier(unit) != 0 {
      var e := if s[0] == 'k' then 1 else if s[0] == 'm' then 2 else if s[0] == 'g' then 3 else 4;
      assert Means(unit, e);
    }
  }

  /** Some units in their usual spellings. */
  lemma UnitValues(unit: string)
    ensures unit == "" ==> GetUnitMultiplier(unit) == 1
    ensures unit == "k" || unit == "KiB" ==> GetUnitMultiplier(unit) == 1024
    ensures unit == "M" || unit == "MiB" ==> GetUnitMultiplier(unit) == 1048576
    ensures unit == "g" || unit == "GiB" ==> GetUnitMultiplier(unit) == 1073741824
    ensures unit == "T" || unit == "TiB" ==> GetUnitMultiplier(unit) == 1099511627776
  {
    PowersOf1024();
    UnitsArePowers(unit);
    if unit == "" {
      assert Means(unit, 0);
    } else if unit == "k" || unit == "KiB" {
      assert Means(unit, 1);
    } else if unit == "M" || unit == "MiB" {
      assert Means(unit, 2);
    } else if unit == "g" || unit == "GiB" {
      assert Means(unit, 3);
    } else if unit == "T" || unit == "TiB" {
      assert Means(unit, 4);
    }
  }

  /** A number and a unit always stand for their product modulo 2^64, as a signed number. */
  lemma SizeIsModulo(num: nat, unit: string)
    requires num <= 0x7fff_ffff_ffff_ffff && GetUnitMultiplier(unit) != 0
    ensures -0x8000_0000_0000_0000 <= SizeOf(num, unit) <= 0x7fff_ffff_ffff_ffff
    ensures (SizeOf(num, unit) - num * GetUnitMultiplier(unit)) % 0x1_0000_0000_0000_0000 == 0
  {
    WrapIsModulo(num * GetUnitMultiplier(unit));
  }

  lemma WrapIsModulo(x: int)
    ensures -0x8000_0000_0000_0000 <= Wrap64(x) <= 0x7fff_ffff_ffff_ffff
    ensures (Wrap64(x) - x) % 0x1_0000_0000_0000_0000 == 0
  {
    var m := 0x1_0000_0000_0000_0000;
    var y := x + 0x8000_0000_0000_0000;
    var q := y / m;
    assert y == q * m + y % m && Wrap64(x) - x == -q * m;
    DivModUnique(-q * m, m, -q, 0);
  }

  lemma SizeIsProductIff(num: nat, unit: string)
    requires GetUnitMultiplier(unit) != 0
    ensures SizeOf(num, unit) == num * GetUnitMultiplier(unit) <==> num * GetUnitMultiplier(unit) <= INT64_MAX
  {
    var m := GetUnitMultiplier(unit);
    assert 1 <= m;
    MulMonotone(1, m, num);
  }

  /** The size of dir/<n><unit>.ext is n times the unit's power of 1024 exactly when that fits 64 bits. */
  lemma SizeOfPrintedName(path: string, dir: string, n: nat, unit: string, e: nat, ext: string)
    requires Splits(path, dir, PrintNat(n) + unit, ext) && Means(unit, e)
    ensures GetObjectSize(path) == n * Power(1024, e) <==> n * Power(1024, e) <= 0x7fff_ffff_ffff_ffff
  {
    UnitsAreLetters(unit, e);
    SizeOfName(path, dir, PrintNat(n), unit, ext);
    ReadPrintNat(n);
    UnitsArePowers(unit);
    SizeIsProductIff(n, unit);
  }

  // ----- Names without a size -----

  /** `name` is a number and an accepted unit, and the number fits 64 bits. */
  ghost predicate TellsSize(name: string, digits: string, unit: string) {
    && name == digits + unit && digits != [] && AllDigits(digits)
    && ReadNat(digits) <= 0x7fff_ffff_ffff_ffff
    && exists e: nat :: Means(unit, e)
  }

  lemma {:induction false} PowersAreEven(e: nat)
    requires e > 0
    ensures Power(1024, e) % 2 == 0
  {
    assert Power(1024, e) == 2 * (512 * Power(1024, e - 1));
  }

  lemma EvenMinusEven(x: int, half: int)
    requires x % 2 == 0
    ensures (x - 2 * half) % 2 == 0
  {
  }

  lemma WrapKeepsParity(x: int)
    requires x % 2 == 0
    ensures Wrap64(x) % 2 == 0
  {
    var m, y := 2 * INT64_MAX + 2, x + INT64_MAX + 1;
    var q := y / m;
    assert y == q * m + y % m;
    assert q * m == 2 * (q * (INT64_MAX + 1));
    EvenMinusEven(x, q * (INT64_MAX + 1));
  }

  /** Even a product that wraps around is never -1. */
  lemma WrappedIsNotMissing(num: nat, e: nat)
    requires num <= INT64_MAX
    ensures Wrap64(num * Power(1024, e)) != -1
  {
    if e > 0 {
      PowersAreEven(e);
      var half := Power(1024, e) / 2;
      assert num * Power(1024, e) == 2 * (num * half);
      WrapKeepsParity(num * Power(1024, e));
    }
  }

  /** An object has no size exactly when its base name is not a number within 64 bits with an accepted
      unit behind it. */
  lemma NoSizeIff(path: string)
    ensures GetObjectSize(path) == -1 <==> forall digits, unit :: !TellsSize(BaseName(path), digits, unit)
  {
    var name := BaseName(path);
    var k := DigitCount(name);
    if digits, unit :| TellsSize(name, digits, unit) {
      var e: nat :| Means(unit, e);
      UnitsAreLetters(unit, e);
      SizeOfParts(name, digits, unit);
      UnitsArePowers(unit);
      WrappedIsNotMissing(ReadNat(digits), e);
    } else if GetObjectSize(path) != -1 {
      UnitsArePowers(name[k..]);
      assert name == name[..k] + name[k..];
      assert TellsSize(name, name[..k], name[k..]);
    }
  }

  lemma SizeOfParts(name: string, digits: string, unit: string)
    requires name == digits + unit && digits != [] && AllDigits(digits) && AllLetters(unit)
    ensures DigitCount(name) == |digits| && name[..|digits|] == digits && name[|digits|..] == unit
  {
    assert name[..|digits|] == digits && name[|digits|..] == unit;
    DigitCountIs(name, |digits|);
  }

  lemma KBIsNoUnit()
    ensures GetUnitMultiplier("KB") == 0 && AllLetters("KB") && AllDigits("100")
  {
    assert Lower("KB")[1] == 'b';
  }

  /** The example of a name in the source is not one: KB is not a unit. */
  lemma HundredKBHasNoSize(path: string, dir: string, digits: string, unit: string, ext: string)
    requires digits == "100" && unit == "KB" && Splits(path, dir, digits + unit, ext)
    ensures GetObjectSize(path) == -1
  {
    KBIsNoUnit();
    SizeOfName(path, dir, digits, unit, ext);
  }

  // ----- Sizes of resolved names -----

  lemma NumbersHaveNoDots(n: int)
    ensures '.' !in Print(n) && '/' !in Print(n)
  {
    forall c | c in Print(n) ensures c == '-' || IsDigit(c) {
      if n < 0 && c != '-' {
        assert c in PrintNat(-n);
      }
    }
  }

  lemma LettersArePlain(s: string)
    requires forall i :: 0 <= i < |s| ==> s[i] != '{'
    ensures Plain(s)
  {
    forall i | 0 <= i <= |s| ensures !PlaceholderAt(s, i) {
      assert i < |s| ==> s[i..][0] == s[i];
    }
  }

  lemma TailIsFilled(prefix: string, middle: string, t: string, o: string)
    requires Plain(middle) && middle != [] && StartsAfresh(middle)
    ensures ReplaceAll(prefix + (middle + "{o}"), t, o) == ReplaceAll(prefix, t, o) + (middle + o)
  {
    PiecesReplaced(prefix, middle + "{o}", t, o);
    PiecesReplaced(middle, "{o}", t, o);
    PlainStays(middle, t, o);
    assert "{o}"[1] == 'o' && "{o}"[3..] == [] && ReplaceAll([], t, o) == [];
  }

  lemma SplitsAtTail(path: string, start: string, name: string, o: string)
    requires path == start + (("/" + name + ".") + o)
    requires '/' !in name && '/' !in o && '.' !in o
    ensures Splits(path, start + "/", name, "." + o)
  {
    assert path == (start + "/") + (name + ("." + o));
    assert ("." + o)[1..] == o;
  }

  /** A format that ends in /<n><unit>.{o} makes objects of one size, whatever the thread, the object, and
      whatever stands before, placeholders included. */
  lemma ResolvedNamesHaveOneSize(r: Resolver, prefix: string, n: nat, unit: string, threadId: int, objectId: int)
    requires r.format == prefix + (("/" + (PrintNat(n) + unit) + ".") + "{o}")
    requires Usable(r) && AllLetters(unit)
    ensures GetObjectSize(Resolve(r, threadId, objectId)) == SizeOf(n, unit)
  {
    var t, o := Print(threadId), Print(ObjectNumber(r, objectId));
    var name := PrintNat(n) + unit;
    var middle := "/" + name + ".";
    var path := Resolve(r, threadId, objectId);
    LettersArePlain(middle);
    TailIsFilled(prefix, middle, t, o);
    NumbersHaveNoDots(ObjectNumber(r, objectId));
    SplitsAtTail(path, ReplaceAll(prefix, t, o), name, o);
    SizeOfName(path, ReplaceAll(prefix, t, o) + "/", PrintNat(n), unit, "." + o);
    ReadPrintNat(n);
  }
}
