/** Strings: the few facts about Go strings that the driver relies on. */
module Strings {

  datatype Option<+T> = None | Some(value: T)

  /** Strict lexicographic order, the order of `sort.Strings` and `slices.Sort`. */
  predicate Less(a: string, b: string) {
    b != "" && (a == "" || a[0] < b[0] || (a[0] == b[0] && Less(a[1..], b[1..])))
  }

  lemma {:induction false} LessTotal(a: string, b: string)
    ensures a == b || Less(a, b) || Less(b, a)
  {
    if a != "" && b != "" && a[0] == b[0] {
      LessTotal(a[1..], b[1..]);
      assert a == [a[0]] + a[1..] && b == [b[0]] + b[1..];
    }
  }

  lemma {:induction false} LessAsymmetric(a: string, b: string)
    requires Less(a, b)
    ensures !Less(b, a) && a != b
  {
    if a != "" && a[0] == b[0] {
      LessAsymmetric(a[1..], b[1..]);
    }
  }

  lemma {:induction false} LessTransitive(a: string, b: string, c: string)
    requires Less(a, b) && Less(b, c)
    ensures Less(a, c)
  {
    if a != "" && a[0] == b[0] && b[0] == c[0] {
      LessTransitive(a[1..], b[1..], c[1..]);
    }
  }

  predicate Ascending(xs: seq<string>) {
    forall i, j | 0 <= i < j < |xs| :: Less(xs[i], xs[j])
  }

  function Elements(xs: seq<string>): set<string> {
    set x | x in xs
  }

  /** Two ascending lists of the same elements are the same list. */
  lemma {:induction false} AscendingUnique(xs: seq<string>, ys: seq<string>)
    requires Ascending(xs) && Ascending(ys) && Elements(xs) == Elements(ys)
    ensures xs == ys
  {
    assert ys != [] ==> ys[0] in Elements(ys);
    if xs != [] {
      assert xs[0] in Elements(xs);
      HeadsEqual(xs, ys);
      forall x | x in xs[1..] ensures x in ys[1..] {
        assert x in Elements(xs);
        LessAsymmetric(xs[0], x);
      }
      forall y | y in ys[1..] ensures y in xs[1..] {
        assert y in Elements(ys);
        LessAsymmetric(ys[0], y);
      }
      AscendingUnique(xs[1..], ys[1..]);
    }
  }

  lemma HeadsEqual(xs: seq<string>, ys: seq<string>)
    requires Ascending(xs) && Ascending(ys) && Elements(xs) == Elements(ys) && xs != [] && ys != []
    ensures xs[0] == ys[0]
  {
    assert xs[0] in Elements(xs) && ys[0] in Elements(ys);
    var i :| 0 <= i < |ys| && ys[i] == xs[0];
    var j :| 0 <= j < |xs| && xs[j] == ys[0];
    if i > 0 && j > 0 {
      LessAsymmetric(ys[0], ys[i]);
    }
  }

  predicate IsLeast(x: string, s: set<string>) {
    x in s && forall y | y in s :: y == x || Less(x, y)
  }

  lemma {:induction false} LeastExists(s: set<string>)
    requires s != {}
    ensures exists x :: IsLeast(x, s)
  {
    var x :| x in s;
    if s == {x} {
      assert IsLeast(x, s);
    } else {
      LeastExists(s - {x});
      var y :| IsLeast(y, s - {x});
      LessTotal(x, y);
      if Less(x, y) {
        forall z | z in s ensures z == x || Less(x, z) {
          if z != x && z != y { LessTransitive(x, y, z); }
        }
        assert IsLeast(x, s);
      } else {
        assert IsLeast(y, s);
      }
    }
  }

  lemma LeastUnique(x: string, y: string, s: set<string>)
    requires IsLeast(x, s) && IsLeast(y, s)
    ensures x == y
  {
    if x != y { LessAsymmetric(x, y); }
  }

  /** The ascending list of a set of strings. */
  function Sorted(s: set<string>): (r: seq<string>)
    ensures Ascending(r) && Elements(r) == s
  {
    if s == {} then [] else
      LeastExists(s);
      assert forall x, y | IsLeast(x, s) && IsLeast(y, s) :: x == y by {
        forall x, y | IsLeast(x, s) && IsLeast(y, s) ensures x == y { LeastUnique(x, y, s); }
      }
      var x :| IsLeast(x, s);
      var rest := Sorted(s - {x});
      assert Elements([x] + rest) == {x} + Elements(rest) by {
        assert forall y :: y in [x] + rest <==> y == x || y in rest;
      }
      assert forall i | 0 <= i < |rest| :: rest[i] in Elements(rest);
      [x] + rest
  }

  predicate Nondecreasing(xs: seq<string>) {
    forall i, j | 0 <= i < j < |xs| :: xs[i] == xs[j] || Less(xs[i], xs[j])
  }

  predicate NoDuplicates(xs: seq<string>) {
    forall i, j | 0 <= i < j < |xs| :: xs[i] != xs[j]
  }

  lemma FrontNondecreasing(x: string, xs: seq<string>)
    requires Nondecreasing(xs) && forall i | 0 <= i < |xs| :: x == xs[i] || Less(x, xs[i])
    ensures Nondecreasing([x] + xs)
  {}

  lemma PlacedInFront(x: string, xs: seq<string>)
    requires Nondecreasing(xs) && xs != [] && !Less(xs[0], x)
    ensures Nondecreasing([x] + xs)
  {
    LessTotal(x, xs[0]);
    forall i | 0 <= i < |xs| ensures x == xs[i] || Less(x, xs[i]) {
      if x != xs[0] && xs[0] != xs[i] { LessTransitive(x, xs[0], xs[i]); }
    }
    FrontNondecreasing(x, xs);
  }

  lemma PlacedLater(x: string, xs: seq<string>, rest: seq<string>)
    requires Nondecreasing(xs) && xs != [] && Less(xs[0], x)
    requires Nondecreasing(rest) && multiset(rest) == multiset(xs[1..]) + multiset{x}
    ensures Nondecreasing([xs[0]] + rest) && multiset([xs[0]] + rest) == multiset(xs) + multiset{x}
  {
    assert xs == [xs[0]] + xs[1..];
    forall i | 0 <= i < |rest| ensures xs[0] == rest[i] || Less(xs[0], rest[i]) {
      assert rest[i] in multiset(rest);
      assert rest[i] == x || rest[i] in xs[1..];
    }
    FrontNondecreasing(xs[0], rest);
  }

  /** `x` put in front of the first element that is not below it. */
  function Place(x: string, xs: seq<string>): (r: seq<string>)
    requires Nondecreasing(xs)
    ensures multiset(r) == multiset(xs) + multiset{x}
    ensures Nondecreasing(r)
  {
    if xs == [] then [x]
    else if !Less(xs[0], x) then
      PlacedInFront(x, xs);
      [x] + xs
    else
      var rest := Place(x, xs[1..]);
      PlacedLater(x, xs, rest);
      [xs[0]] + rest
  }

  /** `sort.Strings`. */
  method SortStrings(xs: seq<string>) returns (ys: seq<string>)
    ensures Nondecreasing(ys) && multiset(ys) == multiset(xs)
    ensures NoDuplicates(xs) ==> ys == Sorted(Elements(xs))
  {
    ys := [];
    for i := 0 to |xs|
      invariant Nondecreasing(ys) && multiset(ys) == multiset(xs[..i])
    {
      assert xs[..i + 1] == xs[..i] + [xs[i]];
      ys := Place(xs[i], ys);
    }
    assert xs[..|xs|] == xs;
    if NoDuplicates(xs) { SortedWithoutDuplicates(xs, ys); }
  }

  lemma {:induction false} NoDuplicatesCounts(xs: seq<string>)
    ensures NoDuplicates(xs) <==> forall x :: multiset(xs)[x] <= 1
  {
    if xs != [] {
      NoDuplicatesCounts(xs[1..]);
      assert xs == [xs[0]] + xs[1..];
      assert multiset(xs) == multiset(xs[1..]) + multiset{xs[0]};
      if NoDuplicates(xs) {
        assert xs[0] !in multiset(xs[1..]);
      }
      if forall x :: multiset(xs)[x] <= 1 {
        assert forall x :: multiset(xs[1..])[x] <= multiset(xs)[x];
        assert multiset(xs[1..])[xs[0]] == 0;
        assert xs[0] !in xs[1..];
      }
    }
  }

  lemma SortedWithoutDuplicates(xs: seq<string>, ys: seq<string>)
    requires NoDuplicates(xs) && Nondecreasing(ys) && multiset(ys) == multiset(xs)
    ensures ys == Sorted(Elements(xs))
  {
    NoDuplicatesCounts(xs);
    NoDuplicatesCounts(ys);
    assert forall x :: x in ys <==> x in multiset(ys);
    assert forall x :: x in xs <==> x in multiset(xs);
    AscendingUnique(ys, Sorted(Elements(xs)));
  }

  /** A separator that occurs on neither left side splits equal texts at the same place. */
  lemma SplitAt(a: string, b: string, c: char, x: string, y: string)
    requires a + [c] + x == b + [c] + y
    requires c !in a && c !in b
    ensures a == b && x == y
  {
    var l, r := a + [c] + x, b + [c] + y;
    assert l[|a|] == c && r[|b|] == c;
    assert a == l[..|a|] == r[..|b|] == b;
    assert x == l[|a| + 1..] == r[|b| + 1..] == y;
  }

  /** Go's `strings.Join`. */
  function Join(xs: seq<string>, sep: string): string {
    if xs == [] then "" else if |xs| == 1 then xs[0] else xs[0] + sep + Join(xs[1..], sep)
  }

  /** Joining lists one after the other puts the separator between them. */
  lemma {:induction false} JoinOfBoth(xs: seq<string>, ys: seq<string>, sep: string)
    ensures Join([], sep) == "" && forall x :: Join([x], sep) == x
    ensures xs != [] && ys != [] ==> Join(xs + ys, sep) == Join(xs, sep) + sep + Join(ys, sep)
  {
    if xs != [] && ys != [] {
      assert (xs + ys)[1..] == xs[1..] + ys;
      JoinOfBoth(xs[1..], ys, sep);
      if |xs| == 1 {
        assert xs + ys == [xs[0]] + ys && xs[1..] + ys == ys;
      } else {
        assert Join(xs + ys, sep) == xs[0] + sep + (Join(xs[1..], sep) + sep + Join(ys, sep));
      }
    }
  }

  lemma {:induction false} JoinHasSeparator(xs: seq<string>, c: char)
    requires |xs| > 1
    ensures c in Join(xs, [c])
  {
    assert Join(xs, [c])[|xs[0]|] == c;
  }

  /** Texts without the separator can be told from what is joined. */
  lemma {:induction false} JoinTells(xs: seq<string>, ys: seq<string>, c: char)
    requires xs != [] && ys != [] && forall x | x in xs + ys :: c !in x
    ensures Join(xs, [c]) == Join(ys, [c]) <==> xs == ys
  {
    assert xs[0] in xs + ys && ys[0] in xs + ys;
    if Join(xs, [c]) == Join(ys, [c]) {
      if |xs| == 1 && |ys| > 1 { JoinHasSeparator(ys, c); }
      if |ys| == 1 && |xs| > 1 { JoinHasSeparator(xs, c); }
      if |xs| > 1 && |ys| > 1 {
        SplitAt(xs[0], ys[0], c, Join(xs[1..], [c]), Join(ys[1..], [c]));
        JoinTells(xs[1..], ys[1..], c);
        assert xs == [xs[0]] + xs[1..] && ys == [ys[0]] + ys[1..];
      }
    }
  }
}
