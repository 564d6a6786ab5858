/** The check of osbuild's version: versions are read as tuples of numbers and compared after padding the shorter one
    of the two with zeros. */
module Versions {
  import opened Decimal
  import Text

  /** The length of the run of digits in front. */
  function DigitRun(s: string): (n: nat)
    ensures n <= |s| && AllDigits(s[..n]) && (n < |s| ==> !IsDigit(s[n]))
  {
    if s == "" || !IsDigit(s[0]) then 0
    else
      assert s[1..][..DigitRun(s[1..])] == s[1..1 + DigitRun(s[1..])];
      1 + DigitRun(s[1..])
  }

  /** A dot with a digit behind it goes on with the number tuple. */
  predicate DotDigit(s: string) {
    |s| >= 2 && s[0] == '.' && IsDigit(s[1])
  }

  function ParseParts(s: string): (parts: seq<nat>)
    ensures parts != []
    decreases |s|
  {
    var n := DigitRun(s);
    [Value(s[..n])] + if DotDigit(s[n..]) then ParseParts(s[n + 1..]) else []
  }

  /** The longest numeric beginning of a version; (0) when there is none. */
  function ParseVersion(s: string): (parts: seq<nat>)
    ensures parts != []
  {
    if s == "" || !IsDigit(s[0]) then [0] else ParseParts(s)
  }

  /** The order of tuples: by the first difference, and a proper prefix is smaller. */
  predicate TupleLess(a: seq<nat>, b: seq<nat>) {
    b != [] && (a == [] || a[0] < b[0] || (a[0] == b[0] && TupleLess(a[1..], b[1..])))
  }

  function Zeros(n: nat): (z: seq<nat>)
    ensures |z| == n
  {
    seq(n, _ => 0)
  }

  function CompareTuples(installed: seq<nat>, minimum: seq<nat>): int {
    var maxLen := if |installed| >= |minimum| then |installed| else |minimum|;
    var installedPadded := installed + Zeros(maxLen - |installed|);
    var minimumPadded := minimum + Zeros(maxLen - |minimum|);
    if TupleLess(installedPadded, minimumPadded) then -1
    else if TupleLess(minimumPadded, installedPadded) then 1
    else 0
  }

  function CompareVersions(installed: string, minimum: string): int {
    CompareTuples(ParseVersion(installed), ParseVersion(minimum))
  }

  // ---- One order behind all paddings: tuples as infinite sequences that end in zeros

  function Head(a: seq<nat>): nat {
    if a == [] then 0 else a[0]
  }

  function Tail(a: seq<nat>): seq<nat> {
    if a == [] then [] else a[1..]
  }

  function Order(a: seq<nat>, b: seq<nat>): int
    decreases |a| + |b|
  {
    if a == [] && b == [] then 0
    else if Head(a) < Head(b) then -1
    else if Head(a) > Head(b) then 1
    else Order(Tail(a), Tail(b))
  }

  lemma {:induction false} PaddingDoesNotMatter(a: seq<nat>, b: seq<nat>, n: nat)
    requires |a| <= n && |b| <= n
    ensures TupleLess(a + Zeros(n - |a|), b + Zeros(n - |b|)) <==> Order(a, b) == -1
    decreases n
  {
    if n == 0 {
    } else {
      PaddingDoesNotMatter(Tail(a), Tail(b), n - 1);
      assert (a + Zeros(n - |a|))[1..] == Tail(a) + Zeros(n - 1 - |Tail(a)|);
      assert (b + Zeros(n - |b|))[1..] == Tail(b) + Zeros(n - 1 - |Tail(b)|);
    }
  }

  lemma {:induction false} OrderIsAntisymmetric(a: seq<nat>, b: seq<nat>)
    ensures Order(a, b) == -Order(b, a) && -1 <= Order(a, b) <= 1
    decreases |a| + |b|
  {
    if a == [] && b == [] {
    } else {
      OrderIsAntisymmetric(Tail(a), Tail(b));
    }
  }

  lemma {:induction false} OrderIsTransitive(a: seq<nat>, b: seq<nat>, c: seq<nat>)
    requires Order(a, b) <= 0 && Order(b, c) <= 0
    ensures Order(a, c) <= 0 && (Order(a, c) == 0 ==> Order(a, b) == 0 && Order(b, c) == 0)
    decreases |a| + |b| + |c|
  {
    if a == [] && b == [] && c == [] {
    } else {
      if Head(a) == Head(b) == Head(c) {
        OrderIsTransitive(Tail(a), Tail(b), Tail(c));
      }
    }
  }

  lemma CompareIsOrder(a: seq<nat>, b: seq<nat>)
    ensures CompareTuples(a, b) == Order(a, b)
  {
    var n := if |a| >= |b| then |a| else |b|;
    PaddingDoesNotMatter(a, b, n);
    PaddingDoesNotMatter(b, a, n);
    OrderIsAntisymmetric(a, b);
  }

  /** The comparison is antisymmetric in sign, and transitive although each pair is padded to its own length. */
  lemma ComparisonIsTotalPreorder(x: string, y: string, z: string)
    ensures CompareVersions(x, y) == -CompareVersions(y, x) && CompareVersions(x, y) in {-1, 0, 1}
    ensures CompareVersions(x, y) <= 0 && CompareVersions(y, z) <= 0 ==>
      CompareVersions(x, z) <= 0 && (CompareVersions(x, z) == 0 ==> CompareVersions(x, y) == CompareVersions(y, z) == 0)
  {
    var a, b, c := ParseVersion(x), ParseVersion(y), ParseVersion(z);
    CompareIsOrder(a, b);
    CompareIsOrder(b, a);
    CompareIsOrder(b, c);
    CompareIsOrder(a, c);
    OrderIsAntisymmetric(a, b);
    if Order(a, b) <= 0 && Order(b, c) <= 0 {
      OrderIsTransitive(a, b, c);
    }
  }

  lemma {:induction false} FirstDifferenceOrders(a: seq<nat>, b: seq<nat>, k: nat)
    requires (forall i: nat :: i < k ==> Number(a, i) == Number(b, i)) && Number(a, k) < Number(b, k)
    ensures Order(a, b) == -1
    decreases k
  {
    assert Number(a, 0) == Head(a) && Number(b, 0) == Head(b);
    if k == 0 {
      assert b != [];
    } else {
      assert Number(a, 0) == Number(b, 0);
      forall i: nat | i < k - 1 ensures Number(Tail(a), i) == Number(Tail(b), i) {
        assert Number(a, i + 1) == Number(b, i + 1);
      }
      FirstDifferenceOrders(Tail(a), Tail(b), k - 1);
      assert Number(b, k) > 0;
    }
  }

  /** The first number in which two versions differ decides, numbers that are missing being zero: the version with the
      smaller one is the older one, and that comparison gives -1. */
  lemma FirstDifferenceDecides(x: string, y: string, k: nat)
    requires var a, b := ParseVersion(x), ParseVersion(y);
      (forall i: nat :: i < k ==> Number(a, i) == Number(b, i)) && Number(a, k) < Number(b, k)
    ensures CompareVersions(x, y) == -1 && CompareVersions(y, x) == 1
  {
    var a, b := ParseVersion(x), ParseVersion(y);
    FirstDifferenceOrders(a, b, k);
    CompareIsOrder(a, b);
    CompareIsOrder(b, a);
    OrderIsAntisymmetric(a, b);
  }

  predicate Numeral(s: string) {
    s != "" && AllDigits(s)
  }

  /** As for an osbuild that is too old: numbers are compared by value and not as text, and a further number counts. */
  lemma OlderIsLess(a: string, b: string, c: string)
    requires Numeral(a) && Numeral(b) && Numeral(c)
    ensures Value(b) < Value(c) ==> CompareVersions(b, c) == -1 && CompareVersions(a + "." + b, a + "." + c) == -1
    ensures Value(b) > 0 ==> CompareVersions(a, a + "." + b) == -1
  {
    ReadOne(a);
    ReadOne(b);
    ReadOne(c);
    ReadDotted(a, b);
    ReadDotted(a, c);
    if Value(b) < Value(c) {
      FirstDifferenceDecides(b, c, 0);
      FirstDifferenceDecides(a + "." + b, a + "." + c, 1);
    }
    if Value(b) > 0 {
      FirstDifferenceDecides(a, a + "." + b, 1);
    }
  }

  /** What does not begin with a number is version zero. */
  lemma UnreadableIsZero(s: string)
    requires s == "" || !IsDigit(s[0])
    ensures CompareVersions(s, "0") == 0
  {
    ReadOne("0");
    DigitValue('0');
    EqualIffSameTuple(s, "0");
  }

  lemma StartsWithDigit(s: string)
    requires s != "" && IsDigit(s[0])
    ensures ParseVersion(s) == ParseParts(s)
  {
  }

  lemma ReadOne(a: string)
    requires Numeral(a)
    ensures ParseVersion(a) == [Value(a)]
  {
    StartsWithDigit(a);
    FirstNumberReads(a, "");
    assert a + "" == a;
  }

  lemma FirstOfDotted(a: string, b: string)
    requires a != ""
    ensures a + "." + b != "" && (a + "." + b)[0] == a[0]
  {
  }

  lemma PartsOfDotted(a: string, b: string)
    requires Numeral(a) && Numeral(b)
    ensures ParseParts(a + "." + b) == [Value(a)] + [Value(b)]
  {
    StartsWithDigit(b);
    ReadOne(b);
    NextNumberReads(a, b, [Value(b)]);
  }

  lemma ReadDotted(a: string, b: string)
    requires Numeral(a) && Numeral(b)
    ensures ParseVersion(a + "." + b) == [Value(a), Value(b)]
  {
    PartsOfDotted(a, b);
    FirstOfDotted(a, b);
    StartsWithDigit(a + "." + b);
  }

  // ---- When two versions compare equal

  function DropTrailingZeros(a: seq<nat>): seq<nat> {
    if a == [] || a[|a| - 1] != 0 then a else DropTrailingZeros(a[..|a| - 1])
  }

  /** The i-th number of a tuple that goes on with zeros. */
  function Number(a: seq<nat>, i: nat): nat {
    if i < |a| then a[i] else 0
  }

  lemma {:induction false} EqualIffSameNumbers(a: seq<nat>, b: seq<nat>)
    ensures Order(a, b) == 0 <==> forall i: nat :: Number(a, i) == Number(b, i)
    decreases |a| + |b|
  {
    if a == [] && b == [] {
    } else {
      EqualIffSameNumbers(Tail(a), Tail(b));
      assert Number(a, 0) == Head(a) && Number(b, 0) == Head(b);
      assert forall i: nat :: Number(a, i + 1) == Number(Tail(a), i) && Number(b, i + 1) == Number(Tail(b), i);
      if Order(a, b) == 0 {
        forall i: nat ensures Number(a, i) == Number(b, i) {
          if i > 0 {
            assert Number(Tail(a), i - 1) == Number(Tail(b), i - 1);
          }
        }
      }
      if forall i: nat :: Number(a, i) == Number(b, i) {
        forall i: nat ensures Number(Tail(a), i) == Number(Tail(b), i) {
          assert Number(a, i + 1) == Number(b, i + 1);
        }
      }
    }
  }

  lemma {:induction false} DroppingKeepsNumbers(a: seq<nat>)
    ensures forall i: nat :: Number(DropTrailingZeros(a), i) == Number(a, i)
    ensures var d := DropTrailingZeros(a); d != [] ==> d[|d| - 1] != 0
    decreases |a|
  {
    if a != [] && a[|a| - 1] == 0 {
      DroppingKeepsNumbers(a[..|a| - 1]);
      assert forall i: nat :: Number(a[..|a| - 1], i) == Number(a, i);
    }
  }

  lemma SameNumbersSameTuple(a: seq<nat>, b: seq<nat>)
    requires a != [] ==> a[|a| - 1] != 0
    requires b != [] ==> b[|b| - 1] != 0
    requires forall i: nat :: Number(a, i) == Number(b, i)
    ensures a == b
  {
    if b != [] {
      assert Number(a, |b| - 1) == Number(b, |b| - 1);
    }
    if a != [] {
      assert Number(a, |a| - 1) == Number(b, |a| - 1);
    }
    forall i | 0 <= i < |a| && i < |b| ensures a[i] == b[i] {
      assert Number(a, i) == Number(b, i);
    }
  }

  /** Two versions compare equal exactly when their tuples agree after dropping trailing zeros. */
  lemma EqualIffSameTuple(x: string, y: string)
    ensures CompareVersions(x, y) == 0 <==> DropTrailingZeros(ParseVersion(x)) == DropTrailingZeros(ParseVersion(y))
  {
    var a, b := ParseVersion(x), ParseVersion(y);
    CompareIsOrder(a, b);
    EqualIffSameNumbers(a, b);
    DroppingKeepsNumbers(a);
    DroppingKeepsNumbers(b);
    if Order(a, b) == 0 {
      SameNumbersSameTuple(DropTrailingZeros(a), DropTrailingZeros(b));
    } else {
      var i: nat :| Number(a, i) != Number(b, i);
      assert Number(DropTrailingZeros(a), i) != Number(DropTrailingZeros(b), i);
    }
  }

  // ---- Printing and reading

  function ShowVersion(t: seq<nat>): (s: string)
    requires t != []
    ensures |s| > 0 && IsDigit(s[0])
  {
    if |t| == 1 then Print(t[0]) else Print(t[0]) + "." + ShowVersion(t[1..])
  }

  lemma {:induction false} DigitRunOf(digits: string, rest: string)
    requires AllDigits(digits) && (rest == "" || !IsDigit(rest[0]))
    ensures DigitRun(digits + rest) == |digits|
    decreases |digits|
  {
    if digits == "" {
      assert digits + rest == rest;
    } else {
      assert (digits + rest)[1..] == digits[1..] + rest;
      DigitRunOf(digits[1..], rest);
    }
  }

  lemma FirstNumberReads(digits: string, rest: string)
    requires digits != "" && AllDigits(digits) && (rest == "" || !IsDigit(rest[0]))
    ensures ParseParts(digits + rest) == [Value(digits)] + (if DotDigit(rest) then ParseParts(rest[1..]) else [])
  {
    DigitRunOf(digits, rest);
    var s := digits + rest;
    assert s[..|digits|] == digits && s[|digits|..] == rest;
    assert DotDigit(rest) ==> s[|digits| + 1..] == rest[1..];
  }

  lemma NextNumberReads(digits: string, more: string, parts: seq<nat>)
    requires digits != "" && AllDigits(digits) && more != "" && IsDigit(more[0]) && ParseParts(more) == parts
    ensures ParseParts(digits + "." + more) == [Value(digits)] + parts
  {
    FirstNumberReads(digits, "." + more);
    assert ("." + more)[1..] == more;
    Text.Associative(digits, ".", more);
  }

  lemma {:induction false} ShownPartsRead(t: seq<nat>, rest: string)
    requires t != [] && (rest == "" || !IsDigit(rest[0])) && !DotDigit(rest)
    ensures ParseParts(ShowVersion(t) + rest) == t
    decreases |t|
  {
    var first, others := t[0], t[1..];
    assert t == [first] + others;
    ValueOfPrint(first);
    if others == [] {
      FirstNumberReads(Print(first), rest);
    } else {
      ShownPartsRead(others, rest);
      NextNumberReads(Print(first), ShowVersion(others) + rest, others);
      Text.Associative(Print(first) + ".", ShowVersion(others), rest);
    }
  }

  /** Reading a printed tuple gives it back, also when text follows that does not go on with a number. */
  lemma ShownVersionReads(t: seq<nat>, rest: string)
    requires t != [] && (rest == "" || !IsDigit(rest[0])) && !DotDigit(rest)
    ensures ParseVersion(ShowVersion(t) + rest) == t
  {
    ShownPartsRead(t, rest);
  }
}
