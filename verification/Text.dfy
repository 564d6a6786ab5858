/** Splitting text at a separator, as Go's strings.Split does. */
module Text {
  function Split(s: string, sep: char): (parts: seq<string>)
    ensures parts != []
  {
    if s == "" then [""]
    else if s[0] == sep then [""] + Split(s[1..], sep)
    else var rest := Split(s[1..], sep); [[s[0]] + rest[0]] + rest[1..]
  }

  lemma Associative(x: string, y: string, z: string)
    ensures x + y + z == x + (y + z)
  {
  }

  lemma {:induction false} SplitUnseparated(a: string, sep: char)
    requires sep !in a
    ensures Split(a, sep) == [a]
    decreases |a|
  {
    if a == "" {
    } else {
      SplitUnseparated(a[1..], sep);
      assert [a[0]] + a[1..] == a;
    }
  }

  lemma {:induction false} SplitFirst(a: string, b: string, sep: char)
    requires sep !in a
    ensures Split(a + [sep] + b, sep) == [a] + Split(b, sep)
    decreases |a|
  {
    var s := a + [sep] + b;
    if a == "" {
      assert s[1..] == b;
    } else {
      assert s[1..] == a[1..] + [sep] + b;
      SplitFirst(a[1..], b, sep);
      assert [a[0]] + a[1..] == a;
    }
  }

  /** What follows a separator does not change the first part. */
  lemma {:induction false} FirstPartEnds(a: string, b: string, sep: char)
    requires sep in a
    ensures Split(a + b, sep)[0] == Split(a, sep)[0]
    decreases |a|
  {
    assert (a + b)[0] == a[0] && (a + b)[1..] == a[1..] + b;
    if a[0] == sep {
    } else {
      FirstPartEnds(a[1..], b, sep);
    }
  }

  /** The last part of a text that ends in a separator and an unseparated text is that text. */
  lemma {:induction false} SplitLast(a: string, b: string, sep: char)
    requires sep !in b
    ensures var parts := Split(a + [sep] + b, sep); |parts| >= 2 && parts[|parts| - 1] == b
    decreases |a|
  {
    var s := a + [sep] + b;
    if a == "" {
      assert s[1..] == b;
      SplitUnseparated(b, sep);
    } else {
      assert s[1..] == a[1..] + [sep] + b;
      SplitLast(a[1..], b, sep);
    }
  }

  /** Parts hold no separator, and no character the text does not hold. */
  lemma {:induction false} PartsAreFree(s: string, sep: char)
    ensures forall p :: p in Split(s, sep) ==> sep !in p && forall c :: c in p ==> c in s
    decreases |s|
  {
    if s == "" {
    } else {
      PartsAreFree(s[1..], sep);
      var rest := Split(s[1..], sep);
      assert rest[0] in rest;
      forall p | p in Split(s, sep) ensures sep !in p && forall c :: c in p ==> c in s {
        if s[0] == sep {
          assert p == "" || p in rest;
        } else {
          assert p == [s[0]] + rest[0] || p in rest;
        }
      }
    }
  }

  function Join(parts: seq<string>, sep: char): string {
    if parts == [] then "" else if |parts| == 1 then parts[0] else parts[0] + [sep] + Join(parts[1..], sep)
  }

  /** The parts with the separator between them are the text. */
  lemma {:induction false} JoinOfSplit(s: string, sep: char)
    ensures Join(Split(s, sep), sep) == s
    decreases |s|
  {
    if s == "" {
    } else {
      JoinOfSplit(s[1..], sep);
      var rest := Split(s[1..], sep);
      assert s == [s[0]] + s[1..];
      if s[0] == sep {
        assert ([""] + rest)[1..] == rest && "" + [sep] + Join(rest, sep) == [sep] + Join(rest, sep);
      } else {
        var parts := [[s[0]] + rest[0]] + rest[1..];
        assert parts[1..] == rest[1..];
        if |rest| > 1 {
          Associative([s[0]], rest[0], [sep]);
          Associative([s[0]], rest[0] + [sep], Join(rest[1..], sep));
        }
      }
    }
  }
}
