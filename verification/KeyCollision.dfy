/** KeyCollision: what happens when two tuples do share an expectation key. */
module KeyCollision {
  import opened Strings
  import opened Expectations
  import opened SharingTuple
  import opened SharingModel
  import opened SharingUniqueness

  /** Between Reconcile calls, with workload "u" around. */
  ghost predicate Ready(w: World) {
    "u" in w.born && w.held.None? && !w.view.Made? && !w.view.Deleted?
  }

  function Fresh(t: Spec, m: nat): S3pa {
    S3pa(t, [map[m := [Attachment("u", 0)]]], true, Unseen)
  }

  /** A Reconcile call that finds nothing for `t`, creates an attachment and expects it. */
  ghost function Creates(r: Run, t: Spec): (r': Run)
    requires r.Valid() && Ready(r.Last()) && WellFormed(t) && KeyOf(t) !in r.Last().pending
    requires forall n | 0 <= n < |r.Last().s3pas| :: !VisibleFor(r.Last(), t, n)
    ensures r'.Valid() && Ready(r'.Last())
    ensures r'.Last().s3pas == r.Last().s3pas + [Fresh(t, |r.Last().pods|)]
    ensures r'.Last().pending == r.Last().pending + {KeyOf(t)} && r'.Last().used == r.Last().used + {t}
    ensures r'.Last().born == r.Last().born && r'.Last().existing == r.Last().existing
    ensures r'.Last().pods == r.Last().pods + [MpPod(true, false, false, true, Some(|r.Last().s3pas|))]
    ensures r'.Last().view.Idle? && r'.Last().leaked == r.Last().leaked
  {
    Then(Then(Then(Then(r, List(t)), Spawn), Create(t, "u", 0)), SetPending(t))
  }

  /** A Reconcile call that finds the attachment of `t` in the cache and clears the expectation. */
  ghost function Finds(r: Run, t: Spec, n: nat): (r': Run)
    requires r.Valid() && Ready(r.Last()) && WellFormed(t) && VisibleFor(r.Last(), t, n)
    ensures r'.Valid() && Ready(r'.Last())
    ensures r'.Last().s3pas == r.Last().s3pas
    ensures r'.Last().pending == r.Last().pending - {KeyOf(t)} && r'.Last().used == r.Last().used + {t}
    ensures r'.Last().born == r.Last().born && r'.Last().existing == r.Last().existing
    ensures r'.Last().pods == r.Last().pods && r'.Last().leaked == r.Last().leaked
  {
    Then(Then(r, List(t)), Clear(t))
  }

  /** The attachment of `t` is visible, those of `s` are not, and nothing is expected. */
  ghost predicate Forgetful(w: World, s: Spec, t: Spec) {
    && Ready(w) && |w.s3pas| >= 1 && VisibleFor(w, t, 0) && KeyOf(t) !in w.pending && {t} <= w.used <= {s, t}
    && (forall n | 1 <= n < |w.s3pas| :: w.s3pas[n].spec == s && w.s3pas[n].live && w.s3pas[n].cached.Unseen?)
  }

  lemma BecomesForgetful(s: Spec, t: Spec) returns (r: Run)
    requires WellFormed(t)
    ensures r.Valid() && Forgetful(r.Last(), s, t) && |r.Last().s3pas| == 1
  {
    var r0 := Run([INIT], []);
    var r1 := Creates(Then(r0, Appear("u")), t);
    r := Finds(Then(r1, Show(0, 0)), t, 0);
  }

  /** As Forgetful, but the key is expected. */
  ghost predicate Expecting(w: World, s: Spec, t: Spec) {
    && Ready(w) && |w.s3pas| >= 1 && VisibleFor(w, t, 0) && w.used == {s, t}
    && (forall n | 1 <= n < |w.s3pas| :: w.s3pas[n].spec == s && w.s3pas[n].live && w.s3pas[n].cached.Unseen?)
  }

  lemma BecomesExpecting(r: Run, s: Spec, t: Spec) returns (r': Run)
    requires WellFormed(s) && WellFormed(t) && s != t && KeyOf(s) == KeyOf(t)
    requires r.Valid() && Forgetful(r.Last(), s, t)
    ensures r'.Valid() && Expecting(r'.Last(), s, t) && |r'.Last().s3pas| == |r.Last().s3pas| + 1
  {
    r' := Creates(r, s);
  }

  /** The attachment of `s` is created, and finding that of `t` clears the expectation. */
  lemma StaysForgetful(r: Run, s: Spec, t: Spec) returns (r': Run)
    requires WellFormed(s) && WellFormed(t) && s != t && KeyOf(s) == KeyOf(t)
    requires r.Valid() && Forgetful(r.Last(), s, t)
    ensures r'.Valid() && Forgetful(r'.Last(), s, t) && |r'.Last().s3pas| == |r.Last().s3pas| + 1
    ensures r'.Last().used == {s, t}
  {
    r' := BecomesExpecting(r, s, t);
    r' := Finds(r', t, 0);
  }

  /** Two tuples with one key: finding the second clears the expectation of the first, which is created twice. */
  lemma CollidingKeysDuplicate(s: Spec, t: Spec)
    requires WellFormed(s) && WellFormed(t) && s != t && KeyOf(s) == KeyOf(t)
    ensures exists r: Run :: r.Valid() && r.Last().used == {s, t} && !UniqueLive(r.Last())
  {
    var r := BecomesForgetful(s, t);
    r := StaysForgetful(r, s, t);
    r := StaysForgetful(r, s, t);
    var w := r.Last();
    assert w.s3pas[1].spec == w.s3pas[2].spec && w.s3pas[1].live && w.s3pas[2].live;
  }

  ghost predicate AlwaysUnique(tuples: set<Spec>) {
    forall r: Run | r.Valid() && r.Last().used <= tuples :: UniqueLive(r.Last())
  }

  /** The uniqueness of attachments is exactly as good as the expectation keys. */
  lemma UniqueExactlyWhenKeysDistinct(tuples: set<Spec>)
    requires forall t | t in tuples :: WellFormed(t)
    ensures AlwaysUnique(tuples) <==> KeysDistinct(tuples)
  {
    if KeysDistinct(tuples) {
      forall r: Run | r.Valid() && r.Last().used <= tuples ensures UniqueLive(r.Last()) {
        AtMostOneLivePerTuple(r.hist, r.steps, |r.steps|);
      }
    } else {
      var s, t :| s in tuples && t in tuples && KeyOf(s) == KeyOf(t) && s != t;
      CollidingKeysDuplicate(s, t);
      var r: Run :| r.Valid() && r.Last().used == {s, t} && !UniqueLive(r.Last());
      assert r.Last().used <= tuples;
    }
  }

  /** Tuples whose fields have no ';' never collide, so their attachments are unique in every run. */
  lemma CleanTuplesAreUnique(tuples: set<Spec>)
    requires forall t | t in tuples :: WellFormed(t) && CleanSpec(t)
    ensures AlwaysUnique(tuples)
  {
    forall s, t | s in tuples && t in tuples && KeyOf(s) == KeyOf(t) ensures s == t {
      KeyDistinguishesCleanTuples(s, t);
    }
    UniqueExactlyWhenKeysDistinct(tuples);
  }

  /******* Keys do collide *******/

  lemma {:induction false} RenderAppend(f: Filters, ks: seq<string>, ls: seq<string>)
    requires forall k | k in ks + ls :: k in f
    ensures Render(f, ks + ls) == Render(f, ks) + Render(f, ls)
  {
    if ks == [] {
      assert ks + ls == ls;
    } else {
      assert (ks + ls)[1..] == ks[1..] + ls;
      RenderAppend(f, ks[1..], ls);
    }
  }

  lemma {:induction false} RenderSame(f: Filters, g: Filters, ks: seq<string>)
    requires forall k | k in ks :: k in f && k in g && f[k] == g[k]
    ensures Render(f, ks) == Render(g, ks)
  {
    if ks != [] { RenderSame(f, g, ks[1..]); }
  }

  lemma RenderOne(f: Filters, k: string)
    requires k in f
    ensures Render(f, [k]) == k + "=" + f[k] + ";"
  {
    assert Render(f, [k][1..]) == "";
  }

  /** Two keys and what is between them. */
  lemma RenderBetween(f: Filters, p: seq<string>, k: string, m: seq<string>, l: string, q: seq<string>)
    requires forall x | x in p + [k] + m + [l] + q :: x in f
    ensures Render(f, p + [k] + m + [l] + q)
      == Render(f, p) + (k + "=" + f[k] + ";") + Render(f, m) + (l + "=" + f[l] + ";") + Render(f, q)
  {
    RenderAppend(f, p + [k] + m + [l], q);
    RenderAppend(f, p + [k] + m, [l]);
    RenderAppend(f, p + [k], m);
    RenderAppend(f, p, [k]);
    RenderOne(f, k);
    RenderOne(f, l);
  }

  /** The values that make two maps look the same: the one moves text of the other. */
  function Longer(m: string, l: string, v: string, u: string): string {
    v + ";" + m + l + "=" + u
  }

  lemma LongerEither(k: string, m: string, l: string)
    ensures (k + "=" + Longer(m, l, "a", "v") + ";") + m + (l + "=" + "u" + ";")
         == (k + "=" + "a" + ";") + m + (l + "=" + Longer(m, l, "v", "u") + ";")
    ensures Longer(m, l, "a", "v") != "a"
  {
    assert |Longer(m, l, "a", "v")| > 1;
  }

  /** Whatever two fields: with all the others fixed, there are values for which the keys collide. */
  lemma TwoFieldsCollide(f: Filters, k: string, l: string) returns (g: Filters, h: Filters)
    requires k in f && l in f && k != l
    ensures g.Keys == f.Keys && h.Keys == f.Keys && g != h && Key(g) == Key(h)
    ensures forall x | x in f && x != k && x != l :: g[x] == f[x] && h[x] == f[x]
  {
    var ks := Sorted(f.Keys);
    assert k in Elements(ks) && l in Elements(ks);
    var i :| 0 <= i < |ks| && ks[i] == k;
    var j :| 0 <= j < |ks| && ks[j] == l;
    if i < j {
      g, h := OrderedFieldsCollide(f, ks, i, j);
    } else {
      g, h := OrderedFieldsCollide(f, ks, j, i);
    }
  }

  /** What the rendering looks like when only two fields have changed. */
  lemma RenderChanged(f: Filters, g: Filters, p: seq<string>, k: string, mid: seq<string>, l: string, q: seq<string>)
    requires forall x | x in p + mid + q :: x in f && x in g && g[x] == f[x]
    requires k in g && l in g
    ensures forall x | x in p + [k] + mid + [l] + q :: x in g
    ensures Render(g, p + [k] + mid + [l] + q)
      == Render(f, p) + (k + "=" + g[k] + ";") + Render(f, mid) + (l + "=" + g[l] + ";") + Render(f, q)
  {
    forall x | x in p || x in mid || x in q ensures x in p + mid + q {}
    RenderSame(g, f, p);
    RenderSame(g, f, mid);
    RenderSame(g, f, q);
    RenderBetween(g, p, k, mid, l, q);
  }

  /** Text moves from the first of two fields to the second. */
  lemma TextMoves(f: Filters, p: seq<string>, k: string, mid: seq<string>, l: string, q: seq<string>)
    returns (g: Filters, h: Filters)
    requires k in f && l in f && k != l
    requires forall x | x in p + mid + q :: x in f && x != k && x != l
    ensures g.Keys == f.Keys && h.Keys == f.Keys && g[k] != h[k]
    ensures forall x | x in f && x != k && x != l :: g[x] == f[x] && h[x] == f[x]
    ensures forall x | x in p + [k] + mid + [l] + q :: x in f
    ensures Render(g, p + [k] + mid + [l] + q) == Render(h, p + [k] + mid + [l] + q)
  {
    var m := Render(f, mid);
    g := f[k := Longer(m, l, "a", "v")][l := "u"];
    h := f[k := "a"][l := Longer(m, l, "v", "u")];
    RenderChanged(f, g, p, k, mid, l, q);
    RenderChanged(f, h, p, k, mid, l, q);
    LongerEither(k, m, l);
    SameOnceRendered(Render(f, p), Render(f, q),
                     k + "=" + Longer(m, l, "a", "v") + ";", m, l + "=" + "u" + ";",
                     k + "=" + "a" + ";", l + "=" + Longer(m, l, "v", "u") + ";");
  }

  lemma OrderedFieldsCollide(f: Filters, ks: seq<string>, i: nat, j: nat) returns (g: Filters, h: Filters)
    requires ks == Sorted(f.Keys) && i < j < |ks|
    ensures g.Keys == f.Keys && h.Keys == f.Keys && g != h && Key(g) == Key(h)
    ensures forall x | x in f && x != ks[i] && x != ks[j] :: g[x] == f[x] && h[x] == f[x]
  {
    var p, mid, q := ks[..i], ks[i + 1..j], ks[j + 1..];
    Around(ks, i, j);
    forall x | x in p + mid + q ensures x in f && x != ks[i] && x != ks[j] {
      OtherKey(ks, i, j, x);
      assert x in Elements(ks);
    }
    assert ks[i] in Elements(ks) && ks[j] in Elements(ks);
    g, h := TextMoves(f, p, ks[i], mid, ks[j], q);
  }

  lemma Around(ks: seq<string>, i: nat, j: nat)
    requires Ascending(ks) && i < j < |ks|
    ensures ks == ks[..i] + [ks[i]] + ks[i + 1..j] + [ks[j]] + ks[j + 1..] && ks[i] != ks[j]
  {
    DifferentKeys(ks, i, j);
  }

  lemma OtherKey(ks: seq<string>, i: nat, j: nat, x: string)
    requires Ascending(ks) && i < j < |ks| && x in ks[..i] + ks[i + 1..j] + ks[j + 1..]
    ensures x in ks && x != ks[i] && x != ks[j]
  {
    DifferentKeys(ks, i, j);
    OtherPlace(ks, i, j, x);
  }

  lemma OtherPlace(ks: seq<string>, i: nat, j: nat, x: string)
    requires i < j < |ks| && x in ks[..i] + ks[i + 1..j] + ks[j + 1..]
    ensures exists n :: 0 <= n < |ks| && n != i && n != j && ks[n] == x
  {
    if x in ks[..i] {
      var n :| 0 <= n < i && ks[n] == x;
    } else if x in ks[i + 1..j] {
      var n :| i + 1 <= n < j && ks[n] == x;
    } else {
      var n :| j + 1 <= n < |ks| && ks[n] == x;
    }
  }

  lemma SameOnceRendered(p: string, q: string, x: string, m: string, y: string, x': string, y': string)
    requires x + m + y == x' + m + y'
    ensures p + x + m + y + q == p + x' + m + y' + q
  {
    assert p + x + m + y + q == p + (x + m + y) + q;
    assert p + x' + m + y' + q == p + (x' + m + y') + q;
  }

  lemma DifferentKeys(ks: seq<string>, i: nat, j: nat)
    requires Ascending(ks) && i < j < |ks|
    ensures ks[i] != ks[j]
    ensures forall n | 0 <= n < |ks| && n != i && n != j :: ks[n] != ks[i] && ks[n] != ks[j]
  {
    forall a, b | 0 <= a < b < |ks| ensures ks[a] != ks[b] { LessAsymmetric(ks[a], ks[b]); }
  }

  lemma OnlyTheseFields(s: Spec, g: Filters)
    requires g.Keys == FiltersOf(s).Keys
    requires forall x | x in FiltersOf(s) && x != FIELD_MOUNT_OPTIONS && x != FIELD_VOLUME_ID :: g[x] == FiltersOf(s)[x]
    ensures FIELD_MOUNT_OPTIONS in g && FIELD_VOLUME_ID in g
    ensures g == FiltersOf(s.(mountOptions := g[FIELD_MOUNT_OPTIONS], volumeId := g[FIELD_VOLUME_ID]))
  {}

  lemma CollidingTuples(s: Spec) returns (t: Spec, t': Spec)
    ensures t == s.(mountOptions := t.mountOptions, volumeId := t.volumeId)
    ensures t' == s.(mountOptions := t'.mountOptions, volumeId := t'.volumeId)
    ensures t != t' && KeyOf(t) == KeyOf(t')
  {
    var f := FiltersOf(s);
    assert FIELD_MOUNT_OPTIONS[5] != FIELD_VOLUME_ID[5];
    var g, h := TwoFieldsCollide(f, FIELD_MOUNT_OPTIONS, FIELD_VOLUME_ID);
    OnlyTheseFields(s, g);
    OnlyTheseFields(s, h);
    t := s.(mountOptions := g[FIELD_MOUNT_OPTIONS], volumeId := g[FIELD_VOLUME_ID]);
    t' := s.(mountOptions := h[FIELD_MOUNT_OPTIONS], volumeId := h[FIELD_VOLUME_ID]);
  }

  /** For every tuple there are two that differ from it in mount options and volume ID only and share one key;
      so the expectations do not keep attachments unique for all tuples. */
  lemma UniquenessFailsForSomeTuples(s: Spec) returns (t: Spec, t': Spec)
    requires WellFormed(s)
    ensures t == s.(mountOptions := t.mountOptions, volumeId := t.volumeId)
    ensures t' == s.(mountOptions := t'.mountOptions, volumeId := t'.volumeId)
    ensures t != t' && KeyOf(t) == KeyOf(t') && !AlwaysUnique({t, t'})
  {
    t, t' := CollidingTuples(s);
    WellFormedApart(s, t);
    WellFormedApart(s, t');
    assert !KeysDistinct({t, t'}) by { assert t in {t, t'} && t' in {t, t'}; }
    UniqueExactlyWhenKeysDistinct({t, t'});
  }

  lemma WellFormedApart(s: Spec, t: Spec)
    requires WellFormed(s) && t == s.(mountOptions := t.mountOptions, volumeId := t.volumeId)
    ensures WellFormed(t)
  {}
}
