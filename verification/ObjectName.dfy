/** The names of the objects that the jobs read and write: a format with a place for the thread and
    one for the number of the object. */
module ObjectName {
  import opened Arithmetic
  import opened Decimal
  import Runner
  import WorkQueue

  /** Whether a placeholder stands at position `i`. */
  predicate PlaceholderAt(s: string, i: nat)
    requires i <= |s|
  {
    "{t}" <= s[i..] || "{o}" <= s[i..]
  }

  /** No placeholder stands anywhere in `s`. */
  predicate Plain(s: string) {
    forall i :: 0 <= i <= |s| ==> !PlaceholderAt(s, i)
  }

  /** Every placeholder is replaced, from the left, and what was put in is not looked at again. */
  function ReplaceAll(format: string, t: string, o: string): string {
    if format == [] then []
    else if "{t}" <= format then t + ReplaceAll(format[3..], t, o)
    else if "{o}" <= format then o + ReplaceAll(format[3..], t, o)
    else [format[0]] + ReplaceAll(format[1..], t, o)
  }

  /** The remainder that takes the sign of the dividend. */
  function TruncatedMod(a: int, b: int): int
    requires b != 0
  {
    var m := (if a < 0 then -a else a) % b;
    if a < 0 then -m else m
  }

  datatype Resolver = Resolver(name: string, format: string, start: int, stop: int)

  /** The source divides by stop - start, so it needs them to differ when it gets there. */
  predicate Usable(r: Resolver) {
    r.format == [] || r.stop == 0 || r.stop != r.start
  }

  /** The number put in for the object. */
  function ObjectNumber(r: Resolver, objectId: int): int
    requires r.stop == 0 || r.stop != r.start
  {
    if r.stop == 0 then objectId + r.start else TruncatedMod(objectId, r.stop - r.start) + r.start
  }

  function Resolve(r: Resolver, threadId: int, objectId: int): string
    requires Usable(r)
  {
    if r.format == [] then r.name
    else ReplaceAll(r.format, Print(threadId), Print(ObjectNumber(r, objectId)))
  }

  // ----- Names of the form before + thread + separator + object + after -----

  function Format(before: string, separator: string, after: string): string {
    before + ("{t}" + (separator + ("{o}" + after)))
  }

  predicate PlainParts(before: string, separator: string, after: string) {
    Plain(before) && Plain(separator) && Plain(after)
  }

  /** A text that does not go on in the middle of a placeholder. */
  predicate StartsAfresh(s: string) {
    s == [] || (s[0] != 't' && s[0] != 'o' && s[0] != '}')
  }

  lemma HeadDecides(left: string, right: string)
    requires left != [] && StartsAfresh(right)
    ensures "{t}" <= left + right <==> "{t}" <= left
    ensures "{o}" <= left + right <==> "{o}" <= left
    ensures forall k :: 0 <= k <= |left| ==> (left + right)[k..] == left[k..] + right
  {
    var s := left + right;
    if |left| == 1 && right != [] {
      assert s[1] == right[0];
    } else if |left| == 2 && right != [] {
      assert s[2] == right[0];
    } else if |left| >= 3 {
      assert s[..3] == left[..3];
    }
  }

  /** The same is put in for the head of a text, whatever follows. */
  lemma HeadReplaced(left: string, right: string, t: string, o: string) returns (k: nat, head: string)
    requires left != [] && StartsAfresh(right)
    ensures 0 < k <= |left|
    ensures ReplaceAll(left, t, o) == head + ReplaceAll(left[k..], t, o)
    ensures ReplaceAll(left + right, t, o) == head + ReplaceAll(left[k..] + right, t, o)
  {
    HeadDecides(left, right);
    if "{t}" <= left {
      k, head := 3, t;
    } else if "{o}" <= left {
      k, head := 3, o;
    } else {
      k, head := 1, [left[0]];
    }
  }

  /** Replacing works piece by piece, as long as no placeholder lies across the cut. */
  lemma {:induction false} PiecesReplaced(left: string, right: string, t: string, o: string)
    requires StartsAfresh(right)
    ensures ReplaceAll(left + right, t, o) == ReplaceAll(left, t, o) + ReplaceAll(right, t, o)
  {
    if left == [] {
      assert left + right == right;
    } else {
      var k, head := HeadReplaced(left, right, t, o);
      PiecesReplaced(left[k..], right, t, o);
    }
  }

  lemma {:induction false} PlainStays(s: string, t: string, o: string)
    requires Plain(s)
    ensures ReplaceAll(s, t, o) == s
  {
    if s != [] {
      assert s[0..] == s && !PlaceholderAt(s, 0);
      forall i | 0 <= i <= |s| - 1 ensures !PlaceholderAt(s[1..], i) {
        assert s[1..][i..] == s[i + 1..] && !PlaceholderAt(s, i + 1);
      }
      PlainStays(s[1..], t, o);
    }
  }

  /** The replacement puts the two numbers where the placeholders stand, and changes nothing else. */
  lemma PlaceholdersAreFilled(before: string, separator: string, after: string, t: string, o: string)
    requires PlainParts(before, separator, after)
    ensures ReplaceAll(Format(before, separator, after), t, o) == before + (t + (separator + (o + after)))
  {
    var tail := "{o}" + after;
    var middle := "{t}" + (separator + tail);
    PiecesReplaced(before, middle, t, o);
    PlainStays(before, t, o);
    assert "{t}" == middle[..3] && middle[3..] == separator + tail;
    PiecesReplaced(separator, tail, t, o);
    PlainStays(separator, t, o);
    assert "{o}" == tail[..3] && tail[1] == 'o' && tail[3..] == after;
    PlainStays(after, t, o);
  }

  /** A format, part by part. */
  datatype Part = Text(text: string) | ThreadPlace | ObjectPlace

  function Written(parts: seq<Part>): string {
    if parts == [] then ""
    else (match parts[0] case Text(s) => s case ThreadPlace => "{t}" case ObjectPlace => "{o}") + Written(parts[1..])
  }

  function Filled(parts: seq<Part>, t: string, o: string): string {
    if parts == [] then ""
    else (match parts[0] case Text(s) => s case ThreadPlace => t case ObjectPlace => o) + Filled(parts[1..], t, o)
  }

  ghost predicate ProperParts(parts: seq<Part>) {
    forall i :: 0 <= i < |parts| && parts[i].Text? ==>
      parts[i].text != [] && Plain(parts[i].text) && StartsAfresh(parts[i].text)
  }

  /** Whatever the number and the order of the placeholders: each is filled, and the texts between stay. */
  lemma {:induction false} PartsAreFilled(parts: seq<Part>, t: string, o: string)
    requires ProperParts(parts)
    ensures ReplaceAll(Written(parts), t, o) == Filled(parts, t, o) && StartsAfresh(Written(parts))
  {
    if parts != [] {
      var rest := Written(parts[1..]);
      PartsAreFilled(parts[1..], t, o);
      match parts[0] {
        case Text(s) =>
          PiecesReplaced(s, rest, t, o);
          PlainStays(s, t, o);
        case ThreadPlace => PlaceIsFilled("{t}", rest, t, o);
        case ObjectPlace => PlaceIsFilled("{o}", rest, t, o);
      }
    }
  }

  lemma PlaceIsFilled(place: string, rest: string, t: string, o: string)
    requires place == "{t}" || place == "{o}"
    ensures ReplaceAll(place + rest, t, o) == (if place == "{t}" then t else o) + ReplaceAll(rest, t, o)
    ensures StartsAfresh(place + rest)
  {
    assert (place + rest)[..3] == place && (place + rest)[3..] == rest;
    assert place[1] == 't' <==> place == "{t}";
  }

  /** The name of a job's object: the fixed name when there is no format, and otherwise the format with the
      thread and the number filled in. */
  lemma ResolvedName(r: Resolver, parts: seq<Part>, threadId: int, objectId: int)
    requires Usable(r) && ProperParts(parts) && r.format == Written(parts)
    ensures Resolve(r, threadId, objectId) ==
      if r.format == [] then r.name else Filled(parts, Print(threadId), Print(ObjectNumber(r, objectId)))
  {
    if r.format != [] {
      PartsAreFilled(parts, Print(threadId), Print(ObjectNumber(r, objectId)));
    }
  }

  predicate HasNonDigit(s: string) {
    exists i :: 0 <= i < |s| && !IsDigit(s[i])
  }

  lemma FirstNonDigit(s: string) returns (k: nat)
    requires HasNonDigit(s)
    ensures k < |s| && !IsDigit(s[k]) && AllDigits(s[..k])
  {
    k := 0;
    while IsDigit(s[k])
      invariant k < |s| && AllDigits(s[..k])
      invariant exists i :: k <= i < |s| && !IsDigit(s[i])
      decreases |s| - k
    {
      k := k + 1;
    }
  }

  lemma NumberEnds(t: string, separator: string, o: string, k: nat)
    requires AllDigits(t) && k < |separator| && !IsDigit(separator[k]) && AllDigits(separator[..k])
    ensures var s := t + separator + o;
      !IsDigit(s[|t| + k]) && forall i :: 0 <= i < |t| + k ==> IsDigit(s[i])
  {
    var s := t + separator + o;
    forall i | 0 <= i < |t| + k ensures IsDigit(s[i]) {
      if i >= |t| {
        assert s[i] == separator[..k][i - |t|];
      }
    }
  }

  /** The digits before a separator end where its first non-digit says. */
  lemma SplitsUniquely(t1: string, o1: string, t2: string, o2: string, separator: string)
    requires AllDigits(t1) && AllDigits(t2) && HasNonDigit(separator)
    requires t1 + separator + o1 == t2 + separator + o2
    ensures t1 == t2 && o1 == o2
  {
    var k := FirstNonDigit(separator);
    NumberEnds(t1, separator, o1, k);
    NumberEnds(t2, separator, o2, k);
    var s1, s2 := t1 + separator + o1, t2 + separator + o2;
    assert |t1| + k == |t2| + k;
    assert t1 == s1[..|t1|] && t2 == s2[..|t2|];
    assert o1 == s1[|t1| + |separator|..] && o2 == s2[|t2| + |separator|..];
  }

  lemma SameBetween(before: string, x: string, y: string, after: string)
    requires before + (x + after) == before + (y + after)
    ensures x == y
  {
    var s1, s2 := before + (x + after), before + (y + after);
    assert x == s1[|before|..|s1| - |after|];
    assert y == s2[|before|..|s2| - |after|];
  }

  function NameOf(before: string, separator: string, after: string, thread: int, number: int): string {
    ReplaceAll(Format(before, separator, after), Print(thread), Print(number))
  }

  lemma NameText(before: string, separator: string, after: string, thread: int, number: int)
    requires PlainParts(before, separator, after)
    ensures NameOf(before, separator, after, thread, number) ==
      before + ((Print(thread) + separator + Print(number)) + after)
  {
    var t, o := Print(thread), Print(number);
    PlaceholdersAreFilled(before, separator, after, t, o);
    assert t + (separator + (o + after)) == (t + separator + o) + after;
  }

  /** A name tells the thread and the object it was made for. */
  lemma NameTellsJob(before: string, separator: string, after: string, t1: int, n1: int, t2: int, n2: int)
    requires PlainParts(before, separator, after) && HasNonDigit(separator) && t1 >= 0 && t2 >= 0
    requires NameOf(before, separator, after, t1, n1) == NameOf(before, separator, after, t2, n2)
    ensures t1 == t2 && n1 == n2
  {
    NameText(before, separator, after, t1, n1);
    NameText(before, separator, after, t2, n2);
    SameBetween(before, Print(t1) + separator + Print(n1), Print(t2) + separator + Print(n2), after);
    SplitsUniquely(Print(t1), Print(n1), Print(t2), Print(n2), separator);
    PrintIsInjective(t1, t2);
    PrintIsInjective(n1, n2);
  }

  ghost predicate Unambiguous(before: string, separator: string, after: string) {
    forall t1: int, n1: int, t2: int, n2: int ::
      t1 >= 1 && n1 >= 1 && t2 >= 1 && n2 >= 1
      && NameOf(before, separator, after, t1, n1) == NameOf(before, separator, after, t2, n2)
      ==> t1 == t2 && n1 == n2
  }

  /** With only digits between the numbers, thread 1 with object 1S1 and thread 1S1 with object 1 share
      a name. */
  lemma DigitsAreAmbiguous(before: string, separator: string, after: string)
    requires PlainParts(before, separator, after) && !HasNonDigit(separator)
    ensures !Unambiguous(before, separator, after)
  {
    var long := "1" + separator + "1";
    assert AllDigits(long);
    PrintReadNat(long);
    PrintReadNat("1");
    var one, many := ReadNat("1"), ReadNat(long);
    NameText(before, separator, after, one, many);
    NameText(before, separator, after, many, one);
    assert "1" + separator + long == long + separator + "1";
    assert NameOf(before, separator, after, one, many) == NameOf(before, separator, after, many, one);
  }

  /** Names tell threads and objects apart exactly when something other than digits separates them. */
  lemma UnambiguousIff(before: string, separator: string, after: string)
    requires PlainParts(before, separator, after)
    ensures Unambiguous(before, separator, after) <==> HasNonDigit(separator)
  {
    if HasNonDigit(separator) {
      forall t1: int, n1: int, t2: int, n2: int |
        t1 >= 1 && n1 >= 1 && t2 >= 1 && n2 >= 1
        && NameOf(before, separator, after, t1, n1) == NameOf(before, separator, after, t2, n2)
        ensures t1 == t2 && n1 == n2
      {
        NameTellsJob(before, separator, after, t1, n1, t2, n2);
      }
    } else {
      DigitsAreAmbiguous(before, separator, after);
    }
  }

  // ----- Object numbers -----

  function Period(r: Resolver): nat {
    if r.stop >= r.start then r.stop - r.start else r.start - r.stop
  }

  /** With a stop, the numbers cycle through |stop - start| values from start on: two object ids get the
      same number exactly when they are congruent. Without one, no two ids do. */
  lemma NumbersCycle(r: Resolver, id1: nat, id2: nat)
    requires r.stop == 0 || r.stop != r.start
    ensures r.stop != 0 ==> r.start <= ObjectNumber(r, id1) < r.start + Period(r)
    ensures ObjectNumber(r, id1) == ObjectNumber(r, id2) <==>
      if r.stop == 0 then id1 == id2 else id1 % Period(r) == id2 % Period(r)
  {
    if r.stop != 0 {
      ModOfNegative(id1, r.stop - r.start);
      ModOfNegative(id2, r.stop - r.start);
    }
  }

  /** The numbers begin at the start and go up by one. With a stop they begin again after as many numbers as
      there are between start and stop. */
  lemma NumbersCountUp(r: Resolver, id: nat)
    requires r.stop == 0 || r.stop != r.start
    ensures ObjectNumber(r, 0) == r.start
    ensures var last := (if r.stop > r.start then r.stop else 2 * r.start - r.stop) - 1;
      ObjectNumber(r, id + 1) ==
        if r.stop != 0 && ObjectNumber(r, id) == last then r.start else ObjectNumber(r, id) + 1
  {
    if r.stop != 0 {
      ModOfNegative(id, r.stop - r.start);
      ModOfNegative(id + 1, r.stop - r.start);
      NextRemainder(id, Period(r));
    }
  }

  lemma ModOfNegative(a: nat, b: int)
    requires b != 0
    ensures a % b == a % (if b < 0 then -b else b)
  {
    if b < 0 {
      DivModUnique(a, -b, -(a / b), a % b);
    }
  }

  /** No two of the jobs of `threads` threads with `runs` runs each name the same object. */
  ghost predicate NamesDistinct(r: Resolver, threads: nat, runs: nat)
    requires Usable(r)
  {
    forall a, b :: Runner.IsJob(threads, runs, a) && Runner.IsJob(threads, runs, b) && a != b ==>
      Resolve(r, a.thread, a.run) != Resolve(r, b.thread, b.run)
  }

  lemma CongruentInOneCycle(a: nat, b: nat, n: nat)
    requires 1 <= a <= n && 1 <= b <= n && a % n == b % n
    ensures a == b
  {
    assert n % n == 0;
  }

  ghost predicate NamesJobs(r: Resolver, before: string, separator: string, after: string) {
    && r.format == Format(before, separator, after) && PlainParts(before, separator, after)
    && HasNonDigit(separator) && Usable(r)
  }

  lemma DistinctWithinOneCycle(r: Resolver, before: string, separator: string, after: string, runs: nat,
                               a: Runner.Job, b: Runner.Job)
    requires NamesJobs(r, before, separator, after) && (r.stop == 0 || runs <= Period(r))
    requires a.thread >= 1 && b.thread >= 1 && 1 <= a.run <= runs && 1 <= b.run <= runs
    requires Resolve(r, a.thread, a.run) == Resolve(r, b.thread, b.run)
    ensures a == b
  {
    NameTellsJob(before, separator, after, a.thread, ObjectNumber(r, a.run), b.thread, ObjectNumber(r, b.run));
    NumbersCycle(r, a.run, b.run);
    if r.stop != 0 {
      CongruentInOneCycle(a.run, b.run, Period(r));
    }
  }

  lemma NextCycleRepeats(r: Resolver, threads: nat, runs: nat)
    requires Usable(r) && r.format != [] && r.stop != 0 && threads >= 1 && runs > Period(r)
    ensures !NamesDistinct(r, threads, runs)
  {
    var n := Period(r);
    assert (1 + n) % n == 1 % n by {
      DivModUnique(1 + n, n, 1 / n + 1, 1 % n);
    }
    NumbersCycle(r, 1, 1 + n);
    var a, b := WorkQueue.Job(1, 1), WorkQueue.Job(1, 1 + n);
    assert Runner.IsJob(threads, runs, a) && Runner.IsJob(threads, runs, b) && a != b;
    assert Resolve(r, a.thread, a.run) == Resolve(r, b.thread, b.run);
  }

  /** With a non-digit between the numbers, distinct jobs get distinct objects exactly when there is no
      stop, or the runs of a thread fit in one cycle. */
  lemma SeparatedNamesDistinctIff(r: Resolver, before: string, separator: string, after: string, threads: nat,
                                  runs: nat)
    requires NamesJobs(r, before, separator, after) && threads >= 1
    ensures NamesDistinct(r, threads, runs) <==> r.stop == 0 || runs <= Period(r)
  {
    if r.stop == 0 || runs <= Period(r) {
      forall a, b | Runner.IsJob(threads, runs, a) && Runner.IsJob(threads, runs, b) && a != b
        ensures Resolve(r, a.thread, a.run) != Resolve(r, b.thread, b.run)
      {
        if Resolve(r, a.thread, a.run) == Resolve(r, b.thread, b.run) {
          DistinctWithinOneCycle(r, before, separator, after, runs, a, b);
        }
      }
    } else {
      NextCycleRepeats(r, threads, runs);
    }
  }

  /** The object a completed call was about. */
  function ObjectOf(r: Resolver, record: Runner.Record): string
    requires Usable(r)
  {
    Resolve(r, record.job.thread, record.job.run)
  }

  /** At any time in a benchmark whose names do not repeat, under any interleaving, failures, retries and
      stealing, no two successful calls were about the same object. */
  lemma SuccessfulCallsNameDistinctObjects(
      r: Resolver, before: string, separator: string, after: string,
      threads: nat, runs: nat, stealing: bool, trying: bool, events: seq<Runner.Event>, run: seq<Runner.State>)
    requires NamesJobs(r, before, separator, after) && (r.stop == 0 || runs <= Period(r))
    requires Runner.IsRun(threads, runs, stealing, trying, events, run)
    ensures var records := run[|events|].records;
      forall i, j :: 0 <= i < j < |records| && records[i].status.Ok? && records[j].status.Ok? ==>
        ObjectOf(r, records[i]) != ObjectOf(r, records[j])
  {
    var records := run[|events|].records;
    Runner.OneOkRecordPerJob(threads, runs, stealing, trying, events, run);
    Runner.RecordsAreOfJobs(threads, runs, stealing, trying, events, run);
    forall i, j | 0 <= i < j < |records| && records[i].status.Ok? && records[j].status.Ok?
      ensures ObjectOf(r, records[i]) != ObjectOf(r, records[j])
    {
      Runner.OkRecordsDiffer(records, i, j);
      if ObjectOf(r, records[i]) == ObjectOf(r, records[j]) {
        DistinctWithinOneCycle(r, before, separator, after, runs, records[i].job, records[j].job);
      }
    }
  }
}
