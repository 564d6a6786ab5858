/** The package lists of an image description: names are collected in maps, whose order of iteration is arbitrary, and
    sorted. */
module PackageSets {
  datatype PackageSet = PackageSet(include_: seq<string>, exclude: seq<string>)

  datatype Packages = Packages(include_: seq<string>, exclude: seq<string>)

  /** Go's order of strings: by the first difference, and a proper prefix is smaller. */
  predicate Less(a: string, b: string) {
    b != "" && (a == "" || a[0] < b[0] || (a[0] == b[0] && Less(a[1..], b[1..])))
  }

  /** The first difference decides, the end of a name being smaller than any character. */
  lemma {:induction false} FirstDifferenceDecides(a: string, b: string, k: nat)
    requires k <= |a| && k < |b| && a[..k] == b[..k] && (k < |a| ==> a[k] < b[k])
    ensures Less(a, b)
    decreases k
  {
    if k == 0 {
    } else {
      assert a[0] == a[..k][0] == b[..k][0] == b[0];
      assert a[1..][..k - 1] == a[..k][1..] == b[..k][1..] == b[1..][..k - 1];
      FirstDifferenceDecides(a[1..], b[1..], k - 1);
    }
  }

  lemma {:induction false} LessIsTotal(a: string, b: string)
    ensures Less(a, b) || Less(b, a) <==> a != b
    ensures !(Less(a, b) && Less(b, a))
    decreases |a|
  {
    if a != "" && b != "" && a[0] == b[0] {
      LessIsTotal(a[1..], b[1..]);
      assert a == [a[0]] + a[1..] && b == [b[0]] + b[1..];
    }
  }

  lemma {:induction false} LessIsTransitive(a: string, b: string, c: string)
    requires Less(a, b) && Less(b, c)
    ensures Less(a, c)
    decreases |a|
  {
    if a != "" && a[0] == b[0] == c[0] {
      LessIsTransitive(a[1..], b[1..], c[1..]);
    }
  }

  predicate Increasing(xs: seq<string>) {
    forall i, j :: 0 <= i < j < |xs| ==> Less(xs[i], xs[j])
  }

  function Elements(xs: seq<string>): set<string> {
    set x | x in xs
  }

  lemma ElementsAppend(xs: seq<string>, x: string)
    ensures Elements(xs + [x]) == Elements(xs) + {x}
    ensures x !in Elements(xs) ==> forall i :: 0 <= i < |xs| ==> xs[i] != x
  {
  }

  /** The names some package set includes, or excludes. */
  ghost function Included(sets: seq<PackageSet>): set<string> {
    set s, x | s in sets && x in s.include_ :: x
  }

  ghost function Excluded(sets: seq<PackageSet>): set<string> {
    set s, x | s in sets && x in s.exclude :: x
  }

  method Insert(sorted: seq<string>, x: string) returns (r: seq<string>)
    requires Increasing(sorted) && x !in Elements(sorted)
    ensures Increasing(r) && Elements(r) == Elements(sorted) + {x}
  {
    var k := 0;
    while k < |sorted| && Less(sorted[k], x)
      invariant k <= |sorted|
      invariant forall j :: 0 <= j < k ==> Less(sorted[j], x)
    {
      k := k + 1;
    }
    InsertedInOrder(sorted, k, x);
    r := sorted[..k] + [x] + sorted[k..];
    assert sorted == sorted[..k] + sorted[k..];
  }

  lemma InsertedInOrder(sorted: seq<string>, k: nat, x: string)
    requires Increasing(sorted) && x !in Elements(sorted) && k <= |sorted|
    requires forall j :: 0 <= j < k ==> Less(sorted[j], x)
    requires k < |sorted| ==> !Less(sorted[k], x)
    ensures Increasing(sorted[..k] + [x] + sorted[k..])
  {
    var r := sorted[..k] + [x] + sorted[k..];
    forall j | k <= j < |sorted| ensures Less(x, sorted[j]) {
      assert sorted[k] in Elements(sorted);
      LessIsTotal(x, sorted[k]);
      if j > k {
        LessIsTransitive(x, sorted[k], sorted[j]);
      }
    }
    forall i, j | 0 <= i < j < |r| ensures Less(r[i], r[j]) {
      assert r[j] == if j < k then sorted[j] else if j == k then x else sorted[j - 1];
      assert r[i] == if i < k then sorted[i] else if i == k then x else sorted[i - 1];
    }
  }

  /** Some increasing sort of names that do not repeat. */
  method Sort(xs: seq<string>) returns (sorted: seq<string>)
    requires forall i, j :: 0 <= i < j < |xs| ==> xs[i] != xs[j]
    ensures Increasing(sorted) && Elements(sorted) == Elements(xs)
  {
    sorted := [];
    for i := 0 to |xs|
      invariant Increasing(sorted) && Elements(sorted) == Elements(xs[..i])
    {
      assert xs[..i + 1] == xs[..i] + [xs[i]];
      sorted := Insert(sorted, xs[i]);
    }
    assert xs[..|xs|] == xs;
  }

  /** The keys of a map, in some order, sorted. */
  method SortedKeys(keys: set<string>) returns (sorted: seq<string>)
    ensures Increasing(sorted) && Elements(sorted) == keys
  {
    var names: seq<string> := [];
    var rest := keys;
    while rest != {}
      invariant Elements(names) == keys - rest && rest <= keys
      invariant forall i, j :: 0 <= i < j < |names| ==> names[i] != names[j]
      decreases rest
    {
      var name :| name in rest;
      ElementsAppend(names, name);
      rest := rest - {name};
      names := names + [name];
    }
    sorted := Sort(names);
  }

  method PackagesOf(pkgSets: seq<PackageSet>) returns (p: Packages)
    ensures Increasing(p.include_) && Elements(p.include_) == Included(pkgSets)
    ensures forall x :: x in p.include_ <==> exists set_ :: set_ in pkgSets && x in set_.include_
    ensures Increasing(p.exclude) && Elements(p.exclude) == Excluded(pkgSets)
    ensures forall x :: x in p.exclude <==> exists set_ :: set_ in pkgSets && x in set_.exclude
  {
    var incM, excM: set<string> := {}, {};
    for n := 0 to |pkgSets|
      invariant incM == Included(pkgSets[..n]) && excM == Excluded(pkgSets[..n])
    {
      var pkgSet := pkgSets[n];
      ghost var inc, exc := incM, excM;
      assert pkgSets[..n + 1] == pkgSets[..n] + [pkgSet];
      for i := 0 to |pkgSet.include_|
        invariant incM == inc + Elements(pkgSet.include_[..i])
      {
        assert pkgSet.include_[..i + 1] == pkgSet.include_[..i] + [pkgSet.include_[i]];
        incM := incM + {pkgSet.include_[i]};
      }
      for i := 0 to |pkgSet.exclude|
        invariant excM == exc + Elements(pkgSet.exclude[..i])
      {
        assert pkgSet.exclude[..i + 1] == pkgSet.exclude[..i] + [pkgSet.exclude[i]];
        excM := excM + {pkgSet.exclude[i]};
      }
      assert pkgSet.include_[..|pkgSet.include_|] == pkgSet.include_;
      assert pkgSet.exclude[..|pkgSet.exclude|] == pkgSet.exclude;
    }
    assert pkgSets[..|pkgSets|] == pkgSets;
    var includes := SortedKeys(incM);
    var excludes := SortedKeys(excM);
    p := Packages(includes, excludes);
    NamesOf(p, pkgSets);
  }

  lemma NamesOf(p: Packages, pkgSets: seq<PackageSet>)
    requires Elements(p.include_) == Included(pkgSets) && Elements(p.exclude) == Excluded(pkgSets)
    ensures forall x :: x in p.include_ <==> exists set_ :: set_ in pkgSets && x in set_.include_
    ensures forall x :: x in p.exclude <==> exists set_ :: set_ in pkgSets && x in set_.exclude
  {
    assert forall x :: x in p.include_ <==> x in Elements(p.include_);
    assert forall x :: x in p.exclude <==> x in Elements(p.exclude);
  }

  /** Every pipeline gets increasing lists with exactly the names its package sets include and exclude. */
  method PackageSetsFor(chains: map<string, seq<PackageSet>>) returns (res: map<string, Packages>)
    ensures res.Keys == chains.Keys
    ensures forall name :: name in chains ==>
      && Increasing(res[name].include_) && Elements(res[name].include_) == Included(chains[name])
      && Increasing(res[name].exclude) && Elements(res[name].exclude) == Excluded(chains[name])
    ensures forall name, x :: name in chains ==>
      && (x in res[name].include_ <==> exists set_ :: set_ in chains[name] && x in set_.include_)
      && (x in res[name].exclude <==> exists set_ :: set_ in chains[name] && x in set_.exclude)
  {
    res := map[];
    var rest := chains.Keys;
    while rest != {}
      invariant rest <= chains.Keys && res.Keys == chains.Keys - rest
      invariant forall name :: name in res ==>
        && Increasing(res[name].include_) && Elements(res[name].include_) == Included(chains[name])
        && Increasing(res[name].exclude) && Elements(res[name].exclude) == Excluded(chains[name])
      decreases rest
    {
      var name :| name in rest;
      var p := PackagesOf(chains[name]);
      res := res[name := p];
      rest := rest - {name};
    }
    forall name | name in chains
      ensures forall x :: x in res[name].include_ <==> exists set_ :: set_ in chains[name] && x in set_.include_
      ensures forall x :: x in res[name].exclude <==> exists set_ :: set_ in chains[name] && x in set_.exclude
    {
      NamesOf(res[name], chains[name]);
    }
  }

  /** Increasing lists with the same elements are the same list, so the description does not depend on any order. */
  lemma {:induction false} IncreasingIsCanonical(xs: seq<string>, ys: seq<string>)
    requires Increasing(xs) && Increasing(ys) && Elements(xs) == Elements(ys)
    ensures xs == ys
    decreases |xs|
  {
    if ys != [] {
      assert ys[0] in Elements(ys);
    }
    if xs == [] {
    } else {
      assert xs[0] in Elements(xs);
      assert xs[0] in Elements(ys);
      var j :| 0 <= j < |ys| && ys[j] == xs[0];
      assert ys[0] in Elements(xs);
      var i :| 0 <= i < |xs| && xs[i] == ys[0];
      LessIsTotal(xs[0], ys[0]);
      assert xs[0] == ys[0];
      TailElements(xs);
      TailElements(ys);
      IncreasingIsCanonical(xs[1..], ys[1..]);
      assert xs == [xs[0]] + xs[1..] && ys == [ys[0]] + ys[1..];
    }
  }

  lemma TailElements(xs: seq<string>)
    requires Increasing(xs) && xs != []
    ensures Elements(xs[1..]) == Elements(xs) - {xs[0]}
  {
    assert xs == [xs[0]] + xs[1..];
    forall i | 0 <= i < |xs[1..]| ensures xs[1..][i] != xs[0] {
      LessIsTotal(xs[0], xs[i + 1]);
    }
  }
}
