/** Expectations: the key under which `expectations.go` remembers a pending creation. */
module Expectations {
  import opened Strings

  type Filters = map<string, string>

  /** `key=value;` for each listed key, in the order given. */
  function Render(filters: Filters, keys: seq<string>): string
    requires forall k | k in keys :: k in filters
  {
    if keys == [] then "" else keys[0] + ['='] + (filters[keys[0]] + [';'] + Render(filters, keys[1..]))
  }

  /** The expectation key of a filter map. */
  function Key(filters: Filters): string {
    assert forall k | k in Sorted(filters.Keys) :: k in Elements(Sorted(filters.Keys));
    Render(filters, Sorted(filters.Keys))
  }

  /** Keys without '=' and ';', values without ';'. */
  predicate Clean(filters: Filters) {
    forall k | k in filters :: '=' !in k && ';' !in k && ';' !in filters[k]
  }

  lemma {:induction false} RenderInjective(f: Filters, ks: seq<string>, g: Filters, ls: seq<string>)
    requires Clean(f) && Clean(g)
    requires forall k | k in ks :: k in f
    requires forall l | l in ls :: l in g
    requires Render(f, ks) == Render(g, ls)
    ensures ks == ls
    ensures forall k | k in ks :: f[k] == g[k]
  {
    if ks != [] && ls != [] {
      var fRest := f[ks[0]] + [';'] + Render(f, ks[1..]);
      var gRest := g[ls[0]] + [';'] + Render(g, ls[1..]);
      SplitAt(ks[0], ls[0], '=', fRest, gRest);
      SplitAt(f[ks[0]], g[ls[0]], ';', Render(f, ks[1..]), Render(g, ls[1..]));
      RenderInjective(f, ks[1..], g, ls[1..]);
      assert ks == [ks[0]] + ks[1..] && ls == [ls[0]] + ls[1..];
    }
  }

  /** Different clean filter maps never share a pending mark. */
  lemma KeyInjective(f: Filters, g: Filters)
    requires Clean(f) && Clean(g)
    ensures Key(f) == Key(g) <==> f == g
  {
    if Key(f) == Key(g) {
      var ks, ls := Sorted(f.Keys), Sorted(g.Keys);
      assert forall k | k in ks :: k in Elements(ks);
      assert forall l | l in ls :: l in Elements(ls);
      RenderInjective(f, ks, g, ls);
      assert f.Keys == Elements(ks) == g.Keys;
      assert forall k | k in f :: k in Elements(ks);
    }
  }

  /** The keys of a Go map, in whatever order the iteration yields them. */
  method MapKeys(filters: Filters) returns (keys: seq<string>)
    ensures Elements(keys) == filters.Keys && NoDuplicates(keys)
  {
    keys := [];
    var todo := filters.Keys;
    while todo != {}
      invariant todo <= filters.Keys
      invariant Elements(keys) == filters.Keys - todo && NoDuplicates(keys)
      decreases todo
    {
      var k :| k in todo;
      assert Elements(keys + [k]) == Elements(keys) + {k};
      assert forall i | 0 <= i < |keys| :: keys[i] in Elements(keys);
      keys, todo := keys + [k], todo - {k};
    }
  }

  lemma AppendPair(done: string, k: string, v: string, rest: string)
    ensures done + (k + ['='] + (v + [';'])) + rest == done + (k + ['='] + (v + [';'] + rest))
  {}

  /** The code: collect the keys in map order, sort them, append the pairs. */
  method DeriveExpectationKeyFromFilters(filters: Filters) returns (key: string)
    ensures key == Key(filters)
  {
    var keys := MapKeys(filters);
    keys := SortStrings(keys);
    assert forall k | k in keys :: k in Elements(keys);
    key := "";
    assert keys[0..] == keys;
    for i := 0 to |keys|
      invariant forall k | k in keys :: k in filters
      invariant key + Render(filters, keys[i..]) == Render(filters, keys)
    {
      assert keys[i..][1..] == keys[i + 1..];
      AppendPair(key, keys[i], filters[keys[i]], Render(filters, keys[i + 1..]));
      key := key + (keys[i] + ['='] + (filters[keys[i]] + [';']));
    }
    assert keys[|keys|..] == [];
  }
}
