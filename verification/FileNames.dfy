/**
 The order in which overflow files are replayed: file names sorted as strings. For one agent this is
 the order of their dates, because the dates are written in fixed-width decimal.
 */
module FileNames {

  predicate LexLess(a: string, b: string) {
    b != [] && (a == [] || a[0] < b[0] || (a[0] == b[0] && LexLess(a[1..], b[1..])))
  }

  lemma {:induction false} LexTotal(a: string, b: string)
    ensures a == b || LexLess(a, b) || LexLess(b, a)
  {
    if a != [] && b != [] && a[0] == b[0] {
      LexTotal(a[1..], b[1..]);
      assert a == [a[0]] + a[1..] && b == [b[0]] + b[1..];
    }
  }

  lemma {:induction false} LexTransitive(a: string, b: string, c: string)
    requires LexLess(a, b) && LexLess(b, c)
    ensures LexLess(a, c)
  {
    if a != [] && a[0] == b[0] == c[0] {
      LexTransitive(a[1..], b[1..], c[1..]);
    }
  }

  lemma {:induction false} LexIrreflexive(a: string)
    ensures !LexLess(a, a)
  {
    if a != [] {
      LexIrreflexive(a[1..]);
    }
  }

  /** Comparing two strings part by part, when the first parts are equally long. */
  lemma {:induction false} LexParts(a: string, a': string, b: string, b': string)
    requires |a| == |b|
    ensures LexLess(a + a', b + b') <==> LexLess(a, b) || (a == b && LexLess(a', b'))
  {
    if a == [] {
      assert a + a' == a' && b + b' == b';
    } else {
      assert (a + a')[1..] == a[1..] + a' && (b + b')[1..] == b[1..] + b';
      LexParts(a[1..], a', b[1..], b');
      assert a == [a[0]] + a[1..] && b == [b[0]] + b[1..];
    }
  }

  // ------------------------------------------------------------------ dates

  datatype Date = Date(year: nat, month: nat, day: nat)

  /** A date of the four-digit years. */
  predicate Proper(d: Date) {
    d.year < 10_000 && 1 <= d.month <= 12 && 1 <= d.day <= 31
  }

  predicate DateLess(a: Date, b: Date) {
    a.year < b.year || (a.year == b.year && (a.month < b.month || (a.month == b.month && a.day < b.day)))
  }

  function Digit(n: nat): char
    requires n < 10
  {
    '0' + n as char
  }

  function Two(n: nat): string
    requires n < 100
  {
    [Digit(n / 10), Digit(n % 10)]
  }

  function Four(n: nat): string
    requires n < 10_000
  {
    Two(n / 100) + Two(n % 100)
  }

  function DayString(d: Date): string
    requires Proper(d)
  {
    Four(d.year) + ("-" + (Two(d.month) + ("-" + Two(d.day))))
  }

  function FileName(agentId: string, day: string): string {
    agentId + ("_" + (day + ".ndjson"))
  }

  lemma TwoOrder(m: nat, n: nat)
    requires m < 100 && n < 100
    ensures LexLess(Two(m), Two(n)) <==> m < n
    ensures Two(m) == Two(n) <==> m == n
  {
    LexParts([Digit(m / 10)], [Digit(m % 10)], [Digit(n / 10)], [Digit(n % 10)]);
    OneOrder(m / 10, n / 10);
    OneOrder(m % 10, n % 10);
    assert Two(m) == [Digit(m / 10)] + [Digit(m % 10)] && Two(n) == [Digit(n / 10)] + [Digit(n % 10)];
    assert Two(m)[0] == Digit(m / 10) && Two(m)[1] == Digit(m % 10);
  }

  lemma OneOrder(m: nat, n: nat)
    requires m < 10 && n < 10
    ensures LexLess([Digit(m)], [Digit(n)]) <==> m < n
    ensures [Digit(m)] == [Digit(n)] <==> m == n
  {
    assert [Digit(m)][0] == Digit(m) && [Digit(n)][0] == Digit(n);
    assert [Digit(m)][1..] == [] && [Digit(n)][1..] == [];
  }

  lemma FourOrder(m: nat, n: nat)
    requires m < 10_000 && n < 10_000
    ensures LexLess(Four(m), Four(n)) <==> m < n
    ensures Four(m) == Four(n) <==> m == n
  {
    LexParts(Two(m / 100), Two(m % 100), Two(n / 100), Two(n % 100));
    TwoOrder(m / 100, n / 100);
    TwoOrder(m % 100, n % 100);
    assert Four(m)[..2] == Two(m / 100) && Four(m)[2..] == Two(m % 100);
    assert Four(n)[..2] == Two(n / 100) && Four(n)[2..] == Two(n % 100);
  }

  lemma DayOrder(a: Date, b: Date)
    requires Proper(a) && Proper(b)
    ensures LexLess(DayString(a), DayString(b)) <==> DateLess(a, b)
    ensures DayString(a) == DayString(b) <==> a == b
  {
    var a3, b3 := Two(a.month) + ("-" + Two(a.day)), Two(b.month) + ("-" + Two(b.day));
    LexParts(Four(a.year), "-" + a3, Four(b.year), "-" + b3);
    LexParts("-", a3, "-", b3);
    LexParts(Two(a.month), "-" + Two(a.day), Two(b.month), "-" + Two(b.day));
    LexParts("-", Two(a.day), "-", Two(b.day));
    LexIrreflexive("-");
    FourOrder(a.year, b.year);
    TwoOrder(a.month, b.month);
    TwoOrder(a.day, b.day);
    if DayString(a) == DayString(b) {
      assert DayString(a)[..4] == Four(a.year) && DayString(b)[..4] == Four(b.year);
      assert DayString(a)[5..7] == Two(a.month) && DayString(b)[5..7] == Two(b.month);
      assert DayString(a)[8..] == Two(a.day) && DayString(b)[8..] == Two(b.day);
    }
  }

  /** For one agent, the order of the file names is the order of the dates. */
  lemma NameOrderIsDateOrder(agentId: string, a: Date, b: Date)
    requires Proper(a) && Proper(b)
    ensures LexLess(FileName(agentId, DayString(a)), FileName(agentId, DayString(b))) <==> DateLess(a, b)
  {
    var a2, b2 := DayString(a) + ".ndjson", DayString(b) + ".ndjson";
    LexParts(agentId, "_" + a2, agentId, "_" + b2);
    LexParts("_", a2, "_", b2);
    LexParts(DayString(a), ".ndjson", DayString(b), ".ndjson");
    LexIrreflexive(agentId);
    LexIrreflexive("_");
    LexIrreflexive(".ndjson");
    DayOrder(a, b);
  }

  function DigitValue(c: char): int { c as int - '0' as int }

  /** The name of a day: year, month and day in decimal, of fixed width, between dashes. */
  lemma DayStringReads(d: Date)
    requires Proper(d)
    ensures var s := DayString(d);
            && |s| == 10 && s[4] == '-' && s[7] == '-'
            && DigitValue(s[0]) * 1000 + DigitValue(s[1]) * 100 + DigitValue(s[2]) * 10 + DigitValue(s[3]) == d.year
            && DigitValue(s[5]) * 10 + DigitValue(s[6]) == d.month
            && DigitValue(s[8]) * 10 + DigitValue(s[9]) == d.day
  {
    var y := Four(d.year);
    assert DayString(d)[..4] == y;
    assert y[..2] == Two(d.year / 100) && y[2..] == Two(d.year % 100);
    assert DayString(d)[5..7] == Two(d.month) && DayString(d)[8..] == Two(d.day);
  }

  // ----------------------------------------------------------- sorted listing

  predicate Sorted(names: seq<string>) {
    forall i, j :: 0 <= i < j < |names| ==> LexLess(names[i], names[j])
  }

  /** A directory listing as `sorted` returns it: every name once, in order. */
  predicate IsListing(names: seq<string>, all: set<string>) {
    Sorted(names) && (forall n :: n in names ==> n in all) && (forall n :: n in all ==> n in names)
  }

  /** The least name of a non-empty set. */
  lemma {:induction false} Least(all: set<string>) returns (least: string)
    requires all != {}
    ensures least in all && forall n :: n in all && n != least ==> LexLess(least, n)
    decreases |all|
  {
    var some :| some in all;
    var others := all - {some};
    if others == {} {
      assert all == {some};
      return some;
    }
    var best := Least(others);
    LexTotal(some, best);
    if LexLess(some, best) {
      forall n | n in all && n != some ensures LexLess(some, n) {
        if n != best {
          LexTransitive(some, best, n);
        }
      }
      return some;
    }
    return best;
  }

  lemma {:induction false} ListingExists(all: set<string>) returns (names: seq<string>)
    ensures IsListing(names, all)
    decreases |all|
  {
    if all == {} {
      return [];
    }
    var first := Least(all);
    var rest := ListingExists(all - {first});
    names := [first] + rest;
    forall i, j | 0 <= i < j < |names| ensures LexLess(names[i], names[j]) {
      assert names[j] == rest[j - 1] && rest[j - 1] in rest;
      if i > 0 {
        assert names[i] == rest[i - 1];
      }
    }
  }

  lemma {:induction false} ListingIsUnique(a: seq<string>, b: seq<string>, all: set<string>)
    requires IsListing(a, all) && IsListing(b, all)
    ensures a == b
    decreases |a|
  {
    if a == [] {
      FirstIn(b, all);
    } else {
      assert a[0] in all && a[0] in b && b[0] in all && b[0] in a;
      LexIrreflexive(a[0]);
      if a[0] != b[0] {
        LexTransitive(a[0], b[0], a[0]);
      }
      RestIsListing(a, all);
      RestIsListing(b, all);
      ListingIsUnique(a[1..], b[1..], all - {a[0]});
      assert a == [a[0]] + a[1..] && b == [b[0]] + b[1..];
    }
  }

  lemma FirstIn(names: seq<string>, all: set<string>)
    requires IsListing(names, all)
    ensures names != [] ==> names[0] in all
  {
  }

  lemma RestIsListing(names: seq<string>, all: set<string>)
    requires IsListing(names, all) && names != []
    ensures IsListing(names[1..], all - {names[0]})
  {
    var rest := names[1..];
    LexIrreflexive(names[0]);
    assert names == [names[0]] + rest;
    forall n | n in rest ensures n in all && n != names[0] {
      var i :| 0 <= i < |rest| && rest[i] == n;
      assert LexLess(names[0], names[i + 1]);
    }
  }

  /** The listing of a directory. */
  ghost function ListingOf(all: set<string>): (names: seq<string>)
    ensures IsListing(names, all)
  {
    assert exists names :: IsListing(names, all) by {
      var names := ListingExists(all);
    }
    var names :| IsListing(names, all);
    names
  }
}
