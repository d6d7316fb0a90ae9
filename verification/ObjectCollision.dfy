/** When two jobs get the same object although only digits stand between their numbers: thread 1 with
    object 11 and thread 11 with object 1, for a format like {t}{o}. */
module ObjectCollision {
  import opened Arithmetic
  import opened Decimal
  import opened ObjectName
  import Runner
  import WorkQueue

  // ----- Where digits can move from one number to the other -----

  /** Digits that a longer thread number may end in, and those that an object number may begin with
      instead, so that the digits `s` between the numbers hide the difference. */
  function ThreadDigits(s: string, d: nat): string
    requires 1 <= d <= |s| + 1
  {
    if d <= |s| then s[..d] else s + "1"
  }

  function ObjectDigits(s: string, d: nat): string
    requires 1 <= d <= |s| + 1
  {
    if d <= |s| then s[|s| - d..] else "1" + s
  }

  /** `s` repeats with period `d`, and the last period does not start with a zero; or `d` is one more
      than the length of `s`. */
  predicate Shifts(s: string, d: nat) {
    && 1 <= d <= |s| + 1
    && (d <= |s| ==> s[d..] == s[..|s| - d] && s[|s| - d] != '0')
  }

  /** Both numbers have room for a shift by `d` digits: threads go up to `threads`, and object numbers from
      `low` to `high`. */
  predicate HasRoom(s: string, d: nat, threads: nat, low: int, high: int)
    requires AllDigits(s)
  {
    && Shifts(s, d)
    && ReadNat("1" + ThreadDigits(s, d)) <= threads
    && Behind(ObjectDigits(s, d), if low < 0 then 0 else low) <= high
  }

  ghost predicate Collides(s: string, threads: nat, low: int, high: int)
    requires AllDigits(s)
  {
    exists d: nat :: HasRoom(s, d, threads, low, high)
  }

  lemma ShiftHides(s: string, d: nat)
    requires Shifts(s, d)
    ensures ThreadDigits(s, d) + s == s + ObjectDigits(s, d)
    ensures AllDigits(s) ==> AllDigits(ThreadDigits(s, d)) && AllDigits(ObjectDigits(s, d))
    ensures ObjectDigits(s, d)[0] != '0'
  {
    if d <= |s| {
      assert s == s[..d] + s[d..];
      assert s == s[..|s| - d] + s[|s| - d..];
    }
  }

  // ----- A shift makes a collision -----

  lemma ShiftedText(t: string, s: string, x: string, z: string, o: string)
    requires x + s == s + z
    ensures t + s + (z + o) == (t + x) + s + o
  {
    assert t + s + (z + o) == t + (s + z) + o;
    assert (t + x) + s + o == t + (x + s) + o;
  }

  lemma ShiftedObject(z: string, n2: nat) returns (n1: nat)
    requires AllDigits(z) && z != [] && z[0] != '0'
    ensures n1 == Behind(z, n2) >= n2 && PrintNat(n1) == z + PrintNat(n2)
  {
    n1 := Behind(z, n2);
    PrintReadNat(z + PrintNat(n2));
    if n2 >= 1 {
      BehindIsMore(z, n2);
    }
  }

  lemma ShiftedThread(x: string) returns (t2: nat)
    requires AllDigits(x) && x != []
    ensures AllDigits("1" + x) && t2 == ReadNat("1" + x) > 1 && PrintNat(t2) == "1" + x
  {
    t2 := ReadNat("1" + x);
    PrintReadNat("1" + x);
    AppendedMuchAtAll(x);
  }

  lemma PrintedOne()
    ensures Print(1) == "1"
  {
  }

  /** The two jobs: thread 1 with object number n1, and thread t2 with object number n2. */
  lemma CollisionExists(s: string, d: nat, threads: nat, low: int, high: int) returns (n1: nat, t2: nat, n2: nat)
    requires AllDigits(s) && HasRoom(s, d, threads, low, high)
    ensures 1 < t2 <= threads && low <= n1 <= high && low <= n2 <= high
    ensures Print(1) + s + Print(n1) == Print(t2) + s + Print(n2)
  {
    var x, z := ThreadDigits(s, d), ObjectDigits(s, d);
    ShiftHides(s, d);
    n2 := if low < 0 then 0 else low;
    n1 := ShiftedObject(z, n2);
    t2 := ShiftedThread(x);
    PrintedOne();
    ShiftedText("1", s, x, z, PrintNat(n2));
  }

  lemma AppendedMuchAtAll(x: string)
    requires AllDigits(x) && x != []
    ensures ReadNat("1" + x) > 1
  {
    var k := |x| - 1;
    assert "1" + x == ("1" + x[..k]) + [x[k]];
    ReadNatAppend("1" + x[..k], x[k]);
    PrintReadNat("1" + x[..k]);
  }

  // ----- A collision comes from a shift -----

  /** Two texts that are the same around `s`, although the first number is shorter. */
  lemma NumbersAreDigits(t1: string, n1: int, t2: string, n2: int, s: string)
    requires AllDigits(t1) && AllDigits(t2) && AllDigits(s) && |t1| < |t2|
    requires t1 + s + Print(n1) == t2 + s + Print(n2)
    ensures n1 >= 0 && n2 >= 0
  {
    var w1, w2 := t1 + s + Print(n1), t2 + s + Print(n2);
    assert w2[|t1| + |s|] == (t2 + s)[|t1| + |s|];
    assert w1[|t1| + |s|] == Print(n1)[0];
    assert w2[|t2| + |s|] == Print(n2)[0];
    assert w1[|t2| + |s|] == Print(n1)[|t2| - |t1|];
  }

  lemma SplitShift(t1: string, o1: string, t2: string, o2: string, s: string) returns (x: string)
    requires |t1| < |t2| && t1 + s + o1 == t2 + s + o2
    ensures |x| == |t2| - |t1| && t2 == t1 + x && s + o1 == x + s + o2 && |o1| == |x| + |o2|
  {
    x := t2[|t1|..];
    var w1, w2 := t1 + s + o1, t2 + s + o2;
    assert t2[..|t1|] == w2[..|t1|] == w1[..|t1|] == t1;
    assert s + o1 == w1[|t1|..] == w2[|t1|..] == x + s + o2;
  }

  /** The shift is by a period of `s`. */
  lemma ShortShift(x: string, s: string, o1: string, o2: string)
    requires 0 < |x| <= |s| && s + o1 == x + s + o2 && o1 != [] && o1[0] != '0'
    ensures Shifts(s, |x|) && x == ThreadDigits(s, |x|) && o1 == ObjectDigits(s, |x|) + o2
  {
    var d, w1, w2 := |x|, s + o1, x + s + o2;
    assert s[..d] == w1[..d] == w2[..d] == x;
    assert s[d..] == w1[d..|s|] == w2[d..|s|] == s[..|s| - d];
    assert o1 == w1[|s|..] == w2[|s|..] == s[|s| - d..] + o2;
  }

  /** The shift is by all of `s` and more. */
  lemma LongShift(x: string, s: string, o1: string, o2: string) returns (y: string)
    requires |x| > |s| && s + o1 == x + s + o2 && o1 != [] && o1[0] != '0'
    ensures y != [] && y[0] != '0' && x == s + y && o1 == y + s + o2
  {
    y := x[|s|..];
    var w1, w2 := s + o1, x + s + o2;
    assert x[..|s|] == w2[..|s|] == w1[..|s|] == s;
    assert o1 == w1[|s|..] == w2[|s|..] == y + s + o2;
  }

  lemma ObjectsHaveRoom(z: string, low: int, n2: nat, n1: nat, high: int)
    requires AllDigits(z) && low <= n2 && n1 <= high && Behind(z, n2) <= n1
    ensures Behind(z, if low < 0 then 0 else low) <= high
  {
    var m: nat := if low < 0 then 0 else low;
    if m < n2 {
      BehindIncreases(z, m, n2);
    }
  }

  /** The thread with the longer number has room for the shift if the shorter one is at least thread 1. */
  lemma ThreadHasRoom(t1: nat, t2: nat, x: string)
    requires 1 <= t1 && AllDigits(x) && PrintNat(t2) == PrintNat(t1) + x
    ensures AllDigits("1" + x) && ReadNat("1" + x) <= t2
  {
    ReadPrintNat(t1);
    ReadPrintNat(t2);
    OneIsOne();
    AppendKeepsOrder("1", PrintNat(t1), x);
  }

  lemma ShortShiftHasRoom(t1: nat, t2: nat, n1: nat, n2: nat, s: string, x: string, threads: nat, low: int, high: int)
    requires AllDigits(s) && 1 <= t1 && t2 <= threads && low <= n2 && n1 <= high
    requires 0 < |x| <= |s| && PrintNat(t2) == PrintNat(t1) + x && s + PrintNat(n1) == x + s + PrintNat(n2)
    requires PrintNat(n1)[0] != '0'
    ensures Collides(s, threads, low, high)
  {
    var d := |x|;
    ShortShift(x, s, PrintNat(n1), PrintNat(n2));
    ShiftHides(s, d);
    ThreadHasRoom(t1, t2, x);
    ReadPrintNat(n1);
    ObjectsHaveRoom(ObjectDigits(s, d), low, n2, n1, high);
    assert HasRoom(s, d, threads, low, high);
  }

  lemma LongShiftHasRoom(t1: nat, t2: nat, n1: nat, n2: nat, s: string, x: string, threads: nat, low: int, high: int)
    requires AllDigits(s) && 1 <= t1 && t2 <= threads && low <= n2 && n1 <= high
    requires |x| > |s| && PrintNat(t2) == PrintNat(t1) + x && s + PrintNat(n1) == x + s + PrintNat(n2)
    requires PrintNat(n1)[0] != '0'
    ensures Collides(s, threads, low, high)
  {
    var y := LongShift(x, s, PrintNat(n1), PrintNat(n2));
    LongThread(t1, t2, s, y);
    LongObject(y, s, n1, n2);
    LongShiftRoom(s, n1, n2, threads, low, high);
  }

  lemma LongShiftRoom(s: string, n1: nat, n2: nat, threads: nat, low: int, high: int)
    requires AllDigits(s) && AllDigits("1" + (s + "1")) && AllDigits("1" + s)
    requires ReadNat("1" + (s + "1")) <= threads && Behind("1" + s, n2) <= n1 <= high && low <= n2
    ensures Collides(s, threads, low, high)
  {
    ObjectsHaveRoom("1" + s, low, n2, n1, high);
    assert HasRoom(s, |s| + 1, threads, low, high);
  }

  lemma SuffixIsDigits(s: string, y: string)
    requires AllDigits(s + y)
    ensures AllDigits(y)
  {
    forall i | 0 <= i < |y| ensures IsDigit(y[i]) {
      assert y[i] == (s + y)[|s| + i];
    }
  }

  lemma LongThread(t1: nat, t2: nat, s: string, y: string)
    requires 1 <= t1 && PrintNat(t2) == PrintNat(t1) + (s + y) && AllDigits(s) && y != [] && y[0] != '0'
    ensures AllDigits("1" + (s + "1")) && ReadNat("1" + (s + "1")) <= t2
  {
    var t := PrintNat(t1);
    assert PrintNat(t2) == (t + s) + y;
    SuffixIsDigits(t + s, y);
    ReadPrintNat(t1);
    ReadPrintNat(t2);
    OneIsOne();
    AppendKeepsOrder("1", t, s);
    AppendedMuch(t + s, y);
    ReadNatAppend("1" + s, '1');
    assert "1" + (s + "1") == ("1" + s) + ['1'];
  }

  lemma OneIsOne()
    ensures AllDigits("1") && ReadNat("1") == 1
  {
    assert "1"[..0] == [];
  }

  lemma LongObject(y: string, s: string, n1: nat, n2: nat)
    requires AllDigits(s) && PrintNat(n1) == y + s + PrintNat(n2) && y != [] && y[0] != '0'
    ensures AllDigits("1" + s) && Behind("1" + s, n2) <= n1
  {
    assert AllDigits(y) by {
      forall i | 0 <= i < |y| ensures IsDigit(y[i]) {
        assert y[i] == PrintNat(n1)[i];
      }
    }
    ReadPrintNat(n1);
    OneIsOne();
    PrintReadNat(y);
    AppendKeepsOrder("1", y, s);
    AppendKeepsOrder("1" + s, y + s, PrintNat(n2));
  }

  /** Two threads with the same name have room for a shift. */
  lemma CollisionHasRoom(t1: nat, n1: int, t2: nat, n2: int, s: string, threads: nat, low: int, high: int)
    requires AllDigits(s) && 1 <= t1 && t2 <= threads && low <= n2 && n1 <= high
    requires |PrintNat(t1)| < |PrintNat(t2)|
    requires Print(t1) + s + Print(n1) == Print(t2) + s + Print(n2)
    ensures Collides(s, threads, low, high)
  {
    NumbersAreDigits(PrintNat(t1), n1, PrintNat(t2), n2, s);
    var x := SplitShift(PrintNat(t1), PrintNat(n1), PrintNat(t2), PrintNat(n2), s);
    assert n1 >= 10 by {
      assert |PrintNat(n1)| >= 2;
    }
    NoLeadingZero(n1);
    if |x| <= |s| {
      ShortShiftHasRoom(t1, t2, n1, n2, s, x, threads, low, high);
    } else {
      LongShiftHasRoom(t1, t2, n1, n2, s, x, threads, low, high);
    }
  }

  // ----- The object numbers of a benchmark -----

  /** The least object number that `runs` runs within one cycle use. */
  function FirstNumber(r: Resolver, runs: nat): int {
    if r.stop != 0 && runs == Period(r) then r.start else r.start + 1
  }

  predicate WithinOneCycle(r: Resolver, runs: nat) {
    r.stop == 0 || (r.stop != r.start && runs <= Period(r))
  }

  /** Within one cycle, the runs use a range of consecutive numbers. */
  lemma NumberInRange(r: Resolver, runs: nat, id: nat)
    requires WithinOneCycle(r, runs) && 1 <= id <= runs
    ensures FirstNumber(r, runs) <= ObjectNumber(r, id) < FirstNumber(r, runs) + runs
  {
    if r.stop != 0 {
      ModOfNegative(id, r.stop - r.start);
      SmallMod(id, Period(r));
    }
  }

  lemma NumberIsUsed(r: Resolver, runs: nat, n: int) returns (id: nat)
    requires WithinOneCycle(r, runs) && FirstNumber(r, runs) <= n < FirstNumber(r, runs) + runs
    ensures 1 <= id <= runs && ObjectNumber(r, id) == n
  {
    id := if n == r.start then runs else n - r.start;
    if r.stop != 0 {
      ModOfNegative(id, r.stop - r.start);
      SmallMod(id, Period(r));
    }
  }

  lemma SmallMod(id: nat, period: nat)
    requires 1 <= id <= period
    ensures id % period == if id == period then 0 else id
  {
    if id == period {
      DivModUnique(id, period, 1, 0);
    } else {
      DivModUnique(id, period, 0, id);
    }
  }

  // ----- Names -----

  lemma SameNameSameText(before: string, s: string, after: string, t1: int, n1: int, t2: int, n2: int)
    requires PlainParts(before, s, after)
    ensures NameOf(before, s, after, t1, n1) == NameOf(before, s, after, t2, n2) <==>
      Print(t1) + s + Print(n1) == Print(t2) + s + Print(n2)
  {
    NameText(before, s, after, t1, n1);
    NameText(before, s, after, t2, n2);
    if NameOf(before, s, after, t1, n1) == NameOf(before, s, after, t2, n2) {
      SameBetween(before, Print(t1) + s + Print(n1), Print(t2) + s + Print(n2), after);
    }
  }

  lemma SameLengthSameNumbers(t1: string, o1: string, t2: string, o2: string, s: string)
    requires |t1| == |t2| && t1 + s + o1 == t2 + s + o2
    ensures t1 == t2 && o1 == o2
  {
    var w1, w2 := t1 + s + o1, t2 + s + o2;
    assert t1 == w1[..|t1|] && t2 == w2[..|t2|];
    assert o1 == w1[|t1| + |s|..] && o2 == w2[|t2| + |s|..];
  }

  /** A format whose numbers have only digits `s` between them. */
  ghost predicate DigitsBetween(r: Resolver, before: string, s: string, after: string) {
    r.format == Format(before, s, after) && PlainParts(before, s, after) && AllDigits(s) && Usable(r)
  }

  lemma CollisionMakesSameName(r: Resolver, before: string, s: string, after: string, threads: nat, runs: nat)
    requires DigitsBetween(r, before, s, after) && WithinOneCycle(r, runs)
    requires Collides(s, threads, FirstNumber(r, runs), FirstNumber(r, runs) + runs - 1)
    ensures !NamesDistinct(r, threads, runs)
  {
    var low := FirstNumber(r, runs);
    var d: nat :| HasRoom(s, d, threads, low, low + runs - 1);
    var n1, t2, n2 := CollisionExists(s, d, threads, low, low + runs - 1);
    var id1 := NumberIsUsed(r, runs, n1);
    var id2 := NumberIsUsed(r, runs, n2);
    var a, b := WorkQueue.Job(1, id1), WorkQueue.Job(t2, id2);
    SameNameSameText(before, s, after, 1, n1, t2, n2);
    assert Runner.IsJob(threads, runs, a) && Runner.IsJob(threads, runs, b) && a != b;
    assert Resolve(r, a.thread, a.run) == Resolve(r, b.thread, b.run);
  }

  lemma SameNameMakesCollision(r: Resolver, before: string, s: string, after: string, threads: nat, runs: nat,
                               a: Runner.Job, b: Runner.Job)
    requires DigitsBetween(r, before, s, after) && WithinOneCycle(r, runs)
    requires Runner.IsJob(threads, runs, a) && Runner.IsJob(threads, runs, b) && a != b
    requires Resolve(r, a.thread, a.run) == Resolve(r, b.thread, b.run)
    ensures Collides(s, threads, FirstNumber(r, runs), FirstNumber(r, runs) + runs - 1)
  {
    var n1, n2 := ObjectNumber(r, a.run), ObjectNumber(r, b.run);
    NumberInRange(r, runs, a.run);
    NumberInRange(r, runs, b.run);
    SameNameSameText(before, s, after, a.thread, n1, b.thread, n2);
    if a.thread == b.thread || |Print(a.thread)| == |Print(b.thread)| {
      SameLengthSameNumbers(Print(a.thread), Print(n1), Print(b.thread), Print(n2), s);
      SameNumbersSameJob(r, runs, a, b);
    }
    EitherHasRoom(a.thread, n1, b.thread, n2, s, threads, FirstNumber(r, runs), FirstNumber(r, runs) + runs - 1);
  }

  lemma EitherHasRoom(t1: nat, n1: int, t2: nat, n2: int, s: string, threads: nat, low: int, high: int)
    requires AllDigits(s) && 1 <= t1 <= threads && 1 <= t2 <= threads && low <= n1 <= high && low <= n2 <= high
    requires |Print(t1)| != |Print(t2)| && Print(t1) + s + Print(n1) == Print(t2) + s + Print(n2)
    ensures Collides(s, threads, low, high)
  {
    if |Print(t1)| < |Print(t2)| {
      CollisionHasRoom(t1, n1, t2, n2, s, threads, low, high);
    } else {
      CollisionHasRoom(t2, n2, t1, n1, s, threads, low, high);
    }
  }

  lemma SameNumbersSameJob(r: Resolver, runs: nat, a: Runner.Job, b: Runner.Job)
    requires WithinOneCycle(r, runs) && 1 <= a.run <= runs && 1 <= b.run <= runs
    requires Print(a.thread) == Print(b.thread) && Print(ObjectNumber(r, a.run)) == Print(ObjectNumber(r, b.run))
    ensures a == b
  {
    PrintIsInjective(a.thread, b.thread);
    PrintIsInjective(ObjectNumber(r, a.run), ObjectNumber(r, b.run));
    NumbersCycle(r, a.run, b.run);
    if r.stop != 0 {
      CongruentInOneCycle(a.run, b.run, Period(r));
    }
  }

  /** For any number of threads and runs, the jobs name distinct objects exactly when the runs fit in one
      cycle, and there is a non-digit between the two numbers or no room for a shift of digits. */
  lemma NamesDistinctIff(r: Resolver, before: string, separator: string, after: string, threads: nat, runs: nat)
    requires r.format == Format(before, separator, after) && PlainParts(before, separator, after)
    requires Usable(r) && threads >= 1
    ensures NamesDistinct(r, threads, runs) <==>
      && WithinOneCycle(r, runs)
      && (AllDigits(separator) ==>
            !Collides(separator, threads, FirstNumber(r, runs), FirstNumber(r, runs) + runs - 1))
  {
    if HasNonDigit(separator) {
      SeparatedNamesDistinctIff(r, before, separator, after, threads, runs);
    } else if !WithinOneCycle(r, runs) {
      NextCycleRepeats(r, threads, runs);
    } else if Collides(separator, threads, FirstNumber(r, runs), FirstNumber(r, runs) + runs - 1) {
      CollisionMakesSameName(r, before, separator, after, threads, runs);
    } else {
      forall a, b | Runner.IsJob(threads, runs, a) && Runner.IsJob(threads, runs, b) && a != b
        ensures Resolve(r, a.thread, a.run) != Resolve(r, b.thread, b.run)
      {
        if Resolve(r, a.thread, a.run) == Resolve(r, b.thread, b.run) {
          SameNameMakesCollision(r, before, separator, after, threads, runs, a, b);
        }
      }
    }
  }
}
