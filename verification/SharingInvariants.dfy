/** SharingInvariants: what holds in every state of every run, whatever is stale and whatever fails. */
module SharingInvariants {
  import opened Strings
  import opened SharingTuple
  import opened SharingModel

  /******* Contents *******/

  /** No workload occurs twice, within a list or across Mountpoint Pods. */
  ghost predicate UniqueUids(a: Attachments) {
    && (forall m, i, j | m in a && 0 <= i < j < |a[m]| :: a[m][i].uid != a[m][j].uid)
    && (forall m, m', i, j |
          m in a && m' in a && 0 <= i < |a[m]| && 0 <= j < |a[m']| && a[m][i].uid == a[m'][j].uid :: m == m')
  }

  /** `r` is what is left of `list`, in order. */
  ghost predicate Thinned(r: seq<Attachment>, list: seq<Attachment>) {
    exists at: seq<nat> :: Embeds(r, list, at)
  }

  ghost predicate Embeds(r: seq<Attachment>, list: seq<Attachment>, at: seq<nat>) {
    && |at| == |r|
    && (forall i | 0 <= i < |r| :: at[i] < |list| && r[i] == list[at[i]])
    && (forall i, j | 0 <= i < j < |r| :: at[i] < at[j])
  }

  lemma EmbedNext(r: seq<Attachment>, list: seq<Attachment>, at: seq<nat>, keep: bool)
    requires list != [] && Embeds(r, list[1..], at)
    ensures Thinned(if keep then [list[0]] + r else r, list)
  {
    var shifted := seq(|at|, i requires 0 <= i < |at| => at[i] + 1);
    if keep {
      assert Embeds([list[0]] + r, list, [0] + shifted);
    } else {
      assert Embeds(r, list, shifted);
    }
  }

  lemma {:induction false} WithoutUidEmbeds(list: seq<Attachment>, uid: string)
    ensures Thinned(WithoutUid(list, uid), list)
  {
    if list == [] {
      assert Embeds([], list, []);
    } else {
      WithoutUidEmbeds(list[1..], uid);
      var at :| Embeds(WithoutUid(list[1..], uid), list[1..], at);
      EmbedNext(WithoutUid(list[1..], uid), list, at, list[0].uid != uid);
    }
  }

  lemma {:induction false} WithoutUidThins(list: seq<Attachment>, uid: string)
    ensures Thinned(WithoutUid(list, uid), list)
    ensures !ListHasUid(WithoutUid(list, uid), uid)
    ensures forall x :: x in WithoutUid(list, uid) <==> x in list && x.uid != uid
  {
    WithoutUidEmbeds(list, uid);
    if list != [] {
      WithoutUidThins(list[1..], uid);
      assert list == [list[0]] + list[1..];
    }
  }

  lemma {:induction false} WithoutThins(list: seq<Attachment>, drop: set<Attachment>)
    ensures Thinned(Without(list, drop), list)
    ensures forall x :: x in Without(list, drop) <==> x in list && x !in drop
  {
    if list == [] {
      assert Embeds([], list, []);
    } else {
      WithoutThins(list[1..], drop);
      var at :| Embeds(Without(list[1..], drop), list[1..], at);
      EmbedNext(Without(list[1..], drop), list, at, list[0] !in drop);
      assert list == [list[0]] + list[1..];
    }
  }

  /** Every list of `b` is what is left of the list of the same Mountpoint Pod in `a`. */
  ghost predicate Shrinks(b: Attachments, a: Attachments) {
    forall m | m in b :: m in a && Thinned(b[m], a[m])
  }

  lemma ShrinkingKeepsUnique(b: Attachments, a: Attachments)
    requires UniqueUids(a) && Shrinks(b, a)
    ensures UniqueUids(b)
  {
    forall m, i, j | m in b && 0 <= i < j < |b[m]| ensures b[m][i].uid != b[m][j].uid {
      var at :| Embeds(b[m], a[m], at);
      assert a[m][at[i]].uid != a[m][at[j]].uid;
    }
    forall m, m', i, j | m in b && m' in b && 0 <= i < |b[m]| && 0 <= j < |b[m']| && b[m][i].uid == b[m'][j].uid
      ensures m == m'
    {
      var at :| Embeds(b[m], a[m], at);
      var at' :| Embeds(b[m'], a[m'], at');
      assert a[m][at[i]].uid == a[m'][at'[j]].uid;
    }
  }

  lemma ThinnedRefl(list: seq<Attachment>)
    ensures Thinned(list, list)
  {
    assert Embeds(list, list, seq(|list|, i => i));
  }

  /** An Update either adds one absent workload or only takes away. */
  lemma ChangedShape(w: World, spec: Spec, base: Attachments, c: Change)
    requires ChangeAllowed(w, spec, base, c)
    ensures c.Remove? || c.DropEmpty? || c.Clean? ==> Shrinks(Changed(w.held, base, c), base)
  {
    var r := Changed(w.held, base, c);
    match c {
      case Remove(m, uid) =>
        forall m' | m' in r ensures Thinned(r[m'], base[m']) {
          ThinnedRefl(base[m']);
          WithoutUidThins(base[m], uid);
        }
      case DropEmpty(m) =>
        forall m' | m' in r ensures Thinned(r[m'], base[m']) { ThinnedRefl(base[m']); }
      case Clean(drop) =>
        forall m' | m' in r ensures Thinned(r[m'], base[m']) { WithoutThins(base[m'], drop); }
      case _ =>
    }
  }

  lemma AddingKeepsUnique(a: Attachments, m: nat, list: seq<Attachment>, x: Attachment)
    requires UniqueUids(a) && !HasUid(a, x.uid)
    requires if m in a then list == a[m] else list == []
    ensures UniqueUids(a[m := list + [x]])
  {
    var b: Attachments := a[m := list + [x]];
    forall m' | m' in a ensures !ListHasUid(a[m'], x.uid) {}
    forall m1, i, j | m1 in b && 0 <= i < j < |b[m1]| ensures b[m1][i].uid != b[m1][j].uid {
      if m1 in a && m1 == m && j == |list| { assert !ListHasUid(a[m], x.uid); }
    }
    forall m1, m2, i, j | m1 in b && m2 in b && 0 <= i < |b[m1]| && 0 <= j < |b[m2]| && b[m1][i].uid == b[m2][j].uid
      ensures m1 == m2
    {}
  }

  /******* States *******/

  ghost predicate Shape(w: World) {
    && (forall n | 0 <= n < |w.s3pas| ::
          && WellFormed(w.s3pas[n].spec)
          && (w.s3pas[n].live ==> !w.s3pas[n].cached.Gone?)
          && (w.s3pas[n].cached.Visible? ==> w.s3pas[n].cached.version < |w.s3pas[n].versions|))
    && (forall m | 0 <= m < |w.pods| && w.pods[m].home.Some? :: w.pods[m].home.value < |w.s3pas|)
    && (w.held.Some? ==> w.held.value < |w.pods| && w.pods[w.held.value].home.None?)
    && w.existing <= w.born
  }

  ghost predicate Homed(w: World, n: nat, a: Attachments) {
    forall m | m in a :: m < |w.pods| && w.pods[m].home == Some(n)
  }

  ghost predicate Recorded(w: World, spec: Spec, a: Attachments) {
    forall m, i | m in a && 0 <= i < |a[m]| :: Record(m, a[m][i].uid, spec) in w.attached && a[m][i].uid in w.born
  }

  /** What holds of every content that attachment `n` ever had. */
  ghost predicate ContentOk(w: World, n: nat, spec: Spec, a: Attachments) {
    Homed(w, n, a) && UniqueUids(a) && Recorded(w, spec, a)
  }

  ghost predicate ContentsOk(w: World) {
    forall n, v | 0 <= n < |w.s3pas| && 0 <= v < |w.s3pas[n].versions| ::
      ContentOk(w, n, w.s3pas[n].spec, w.s3pas[n].versions[v])
  }

  /** Whoever was attached to a Mountpoint Pod has the tuple of the attachment that Pod belongs to. */
  ghost predicate RecordsAgree(w: World) {
    forall r | r in w.attached ::
      && r.mp < |w.pods| && w.pods[r.mp].home.Some? && w.pods[r.mp].home.value < |w.s3pas|
      && w.s3pas[w.pods[r.mp].home.value].spec == r.tuple
  }

  /** Mountpoint Pod `m` is an entry of an attachment that still exists. */
  ghost predicate Listed(w: World, m: nat) {
    m < |w.pods| && w.pods[m].home.Some? && w.pods[m].home.value < |w.s3pas|
    && w.s3pas[w.pods[m].home.value].live && m in w.s3pas[w.pods[m].home.value].Latest()
  }

  /** A Mountpoint Pod that is left behind was never entered anywhere. */
  ghost predicate LeftAreNowhere(w: World) {
    forall m | m in w.leaked :: m < |w.pods| && w.pods[m].home.None? && w.held != Some(m)
  }

  /** Only a Mountpoint Pod that was entered somewhere is ever annotated. */
  ghost predicate AnnotatedAreHomed(w: World) {
    forall m | 0 <= m < |w.pods| && w.pods[m].needsUnmount :: w.pods[m].home.Some?
  }

  /** Who had come by the cleaner's last listing and was not found is gone for good. */
  ghost predicate SeenOk(w: World) {
    w.seen.Some? ==>
      && w.seen.value.existing <= w.seen.value.born <= w.born
      && w.seen.value.born * w.existing <= w.seen.value.existing
  }

  ghost predicate Safe(w: World) {
    Shape(w) && ContentsOk(w) && RecordsAgree(w) && LeftAreNowhere(w) && AnnotatedAreHomed(w) && SeenOk(w)
  }

  /******* One step *******/

  /** A step rewrites no content: each one was there before or is the one that the step wrote. */
  lemma Origin(w: World, s: Step, n: nat, v: nat)
    requires Enabled(w, s)
    requires n < |Apply(w, s).s3pas| && v < |Apply(w, s).s3pas[n].versions|
    ensures
      var content := Apply(w, s).s3pas[n].versions[v];
      || (n < |w.s3pas| && v < |w.s3pas[n].versions| && content == w.s3pas[n].versions[v]
          && Apply(w, s).s3pas[n].spec == w.s3pas[n].spec)
      || (s.Create? && n == |w.s3pas| && Apply(w, s).s3pas[n].spec == s.t
          && content == map[w.held.value := [Attachment(s.uid, s.time)]])
      || (s.Update? && n == s.n && Apply(w, s).s3pas[n].spec == w.s3pas[n].spec
          && content == Changed(w.held, w.s3pas[n].versions[s.k], s.change))
  {}

  /** Homes, records and births are never taken back. */
  lemma Monotone(w: World, s: Step)
    requires Enabled(w, s) && Shape(w)
    ensures |w.pods| <= |Apply(w, s).pods| && |w.s3pas| <= |Apply(w, s).s3pas|
    ensures forall m | 0 <= m < |w.pods| && w.pods[m].home.Some? :: Apply(w, s).pods[m].home == w.pods[m].home
    ensures forall n | 0 <= n < |w.s3pas| :: Apply(w, s).s3pas[n].spec == w.s3pas[n].spec
    ensures w.attached <= Apply(w, s).attached && w.born <= Apply(w, s).born
  {}

  /** Each attachment stays well-formed, and in the cache as long as it lives. */
  lemma ItemStep(w: World, s: Step, n: nat)
    requires Enabled(w, s) && Shape(w) && n < |Apply(w, s).s3pas|
    ensures var a := Apply(w, s).s3pas[n];
      && WellFormed(a.spec) && (a.live ==> !a.cached.Gone?) && (a.cached.Visible? ==> a.cached.version < |a.versions|)
  {}

  lemma HomeStep(w: World, s: Step)
    requires Enabled(w, s) && Shape(w)
    ensures var w' := Apply(w, s);
      && (forall m | 0 <= m < |w'.pods| && w'.pods[m].home.Some? :: w'.pods[m].home.value < |w'.s3pas|)
      && (w'.held.Some? ==> w'.held.value < |w'.pods| && w'.pods[w'.held.value].home.None?)
  {}

  lemma ShapeStep(w: World, s: Step)
    requires Enabled(w, s) && Shape(w)
    ensures Shape(Apply(w, s))
  {
    HomeStep(w, s);
    var w' := Apply(w, s);
    forall n | 0 <= n < |w'.s3pas|
      ensures WellFormed(w'.s3pas[n].spec) && (w'.s3pas[n].live ==> !w'.s3pas[n].cached.Gone?)
      ensures w'.s3pas[n].cached.Visible? ==> w'.s3pas[n].cached.version < |w'.s3pas[n].versions|
    {
      ItemStep(w, s, n);
    }
  }

  lemma NewContentUnique(w: World, spec: Spec, base: Attachments, c: Change)
    requires ChangeAllowed(w, spec, base, c) && UniqueUids(base)
    requires c.AddNew? ==> w.held.value !in base
    ensures UniqueUids(Changed(w.held, base, c))
  {
    match c {
      case Assign(m, uid, time, t) => AddingKeepsUnique(base, m, base[m], Attachment(uid, time));
      case AddNew(uid, time, t) =>
        AddingKeepsUnique(base, w.held.value, [], Attachment(uid, time));
        assert [] + [Attachment(uid, time)] == [Attachment(uid, time)];
      case _ =>
        ChangedShape(w, spec, base, c);
        ShrinkingKeepsUnique(Changed(w.held, base, c), base);
    }
  }

  lemma ShrinkingKeepsRecords(w: World, n: nat, spec: Spec, b: Attachments, a: Attachments)
    requires Shrinks(b, a) && Homed(w, n, a) && Recorded(w, spec, a)
    ensures Homed(w, n, b) && Recorded(w, spec, b)
  {
    forall m, i | m in b && 0 <= i < |b[m]|
      ensures Record(m, b[m][i].uid, spec) in w.attached && b[m][i].uid in w.born
    {
      var at :| Embeds(b[m], a[m], at);
      assert b[m][i] == a[m][at[i]];
    }
  }

  lemma NewContentOk(w: World, s: Step)
    requires Enabled(w, s) && Shape(w) && ContentsOk(w) && s.Update?
    ensures ContentOk(Apply(w, s), s.n, w.s3pas[s.n].spec, Changed(w.held, w.s3pas[s.n].versions[s.k], s.change))
  {
    var spec, base := w.s3pas[s.n].spec, w.s3pas[s.n].versions[s.k];
    Monotone(w, s);
    assert ContentOk(w, s.n, spec, base);
    NewContentUnique(w, spec, base, s.change);
    if !s.change.Assign? && !s.change.AddNew? {
      ChangedShape(w, spec, base, s.change);
      ShrinkingKeepsRecords(w, s.n, spec, Changed(w.held, base, s.change), base);
    }
  }

  lemma ContentsStep(w: World, s: Step)
    requires Enabled(w, s) && Shape(w) && ContentsOk(w)
    ensures ContentsOk(Apply(w, s))
  {
    var w' := Apply(w, s);
    Monotone(w, s);
    forall n, v | 0 <= n < |w'.s3pas| && 0 <= v < |w'.s3pas[n].versions|
      ensures ContentOk(w', n, w'.s3pas[n].spec, w'.s3pas[n].versions[v])
    {
      Origin(w, s, n, v);
      if n < |w.s3pas| && v < |w.s3pas[n].versions| && w'.s3pas[n].versions[v] == w.s3pas[n].versions[v] {
        assert ContentOk(w, n, w.s3pas[n].spec, w.s3pas[n].versions[v]);
      } else if s.Update? {
        NewContentOk(w, s);
      }
    }
  }

  lemma RecordsStep(w: World, s: Step)
    requires Enabled(w, s) && Shape(w) && ContentsOk(w) && RecordsAgree(w)
    ensures RecordsAgree(Apply(w, s))
  {
    Monotone(w, s);
    if s.Update? {
      assert ContentOk(w, s.n, w.s3pas[s.n].spec, w.s3pas[s.n].versions[s.k]);
    }
  }

  lemma LeftStep(w: World, s: Step)
    requires Enabled(w, s) && Shape(w) && LeftAreNowhere(w)
    ensures LeftAreNowhere(Apply(w, s))
  {}

  lemma HomedStep(w: World, s: Step)
    requires Enabled(w, s) && Shape(w) && ContentsOk(w) && AnnotatedAreHomed(w)
    ensures AnnotatedAreHomed(Apply(w, s))
  {
    if s.Annotate? { assert ContentOk(w, s.n, w.s3pas[s.n].spec, w.s3pas[s.n].versions[s.k]); }
  }

  lemma SeenStep(w: World, s: Step)
    requires Enabled(w, s) && Shape(w) && SeenOk(w)
    ensures SeenOk(Apply(w, s))
  {}

  lemma SafeStep(w: World, s: Step)
    requires Enabled(w, s) && Safe(w)
    ensures Safe(Apply(w, s))
  {
    HomedStep(w, s);
    SeenStep(w, s);
    ShapeStep(w, s);
    ContentsStep(w, s);
    RecordsStep(w, s);
    LeftStep(w, s);
  }

  /******* All runs *******/

  lemma {:induction false} RunIsSafe(hist: seq<World>, steps: seq<Step>, i: nat)
    requires IsRun(hist, steps) && i <= |steps|
    ensures Safe(hist[i])
  {
    if i > 0 {
      RunIsSafe(hist, steps, i - 1);
      assert IsStep(hist[i - 1], steps[i - 1], hist[i - 1 + 1]);
      SafeStep(hist[i - 1], steps[i - 1]);
    }
  }

  /** However stale the copies: no content of any attachment ever names a workload twice. */
  lemma NoWorkloadTwice(hist: seq<World>, steps: seq<Step>, i: nat, n: nat, v: nat)
    requires IsRun(hist, steps) && i <= |steps|
    requires n < |hist[i].s3pas| && v < |hist[i].s3pas[n].versions|
    ensures UniqueUids(hist[i].s3pas[n].versions[v])
  {
    RunIsSafe(hist, steps, i);
    assert ContentOk(hist[i], n, hist[i].s3pas[n].spec, hist[i].s3pas[n].versions[v]);
  }

  /** A Mountpoint Pod belongs to one attachment, over all contents that any attachment ever had. */
  lemma OneHome(hist: seq<World>, steps: seq<Step>, i: nat, m: nat, n: nat, v: nat, n': nat, v': nat)
    requires IsRun(hist, steps) && i <= |steps|
    requires n < |hist[i].s3pas| && v < |hist[i].s3pas[n].versions| && m in hist[i].s3pas[n].versions[v]
    requires n' < |hist[i].s3pas| && v' < |hist[i].s3pas[n'].versions| && m in hist[i].s3pas[n'].versions[v']
    ensures n == n'
  {
    RunIsSafe(hist, steps, i);
    assert ContentOk(hist[i], n, hist[i].s3pas[n].spec, hist[i].s3pas[n].versions[v]);
    assert ContentOk(hist[i], n', hist[i].s3pas[n'].spec, hist[i].s3pas[n'].versions[v']);
  }

  /** Sharing isolation: workloads that were ever attached to one Mountpoint Pod had equal tuples. */
  lemma SharingIsolation(hist: seq<World>, steps: seq<Step>, i: nat, r: Record, r': Record)
    requires IsRun(hist, steps) && i <= |steps|
    requires r in hist[i].attached && r' in hist[i].attached && r.mp == r'.mp
    ensures r.tuple == r'.tuple
  {
    RunIsSafe(hist, steps, i);
  }

  /** Every attachment entry was put there for a workload of that tuple, and the log tells. */
  lemma EveryEntryIsRecorded(hist: seq<World>, steps: seq<Step>, i: nat, n: nat, v: nat, m: nat, j: nat)
    requires IsRun(hist, steps) && i <= |steps|
    requires n < |hist[i].s3pas| && v < |hist[i].s3pas[n].versions|
    requires m in hist[i].s3pas[n].versions[v] && j < |hist[i].s3pas[n].versions[v][m]|
    ensures Record(m, hist[i].s3pas[n].versions[v][m][j].uid, hist[i].s3pas[n].spec) in hist[i].attached
  {
    RunIsSafe(hist, steps, i);
    assert ContentOk(hist[i], n, hist[i].s3pas[n].spec, hist[i].s3pas[n].versions[v]);
  }

  /** What that means for the workloads, when each record tells the tuple of the workload and the volume. */
  lemma OnlyThoseWhoMaySharePods(hist: seq<World>, steps: seq<Step>, i: nat, r: Record, r': Record,
                                 w: Workload, pv: Volume, roleArn: string,
                                 w': Workload, pv': Volume, roleArn': string)
    requires IsRun(hist, steps) && i <= |steps|
    requires r in hist[i].attached && Describes(r.tuple, w, pv, roleArn)
    requires r' in hist[i].attached && Describes(r'.tuple, w', pv', roleArn')
    ensures r.mp == r'.mp ==> MayShare(w, pv, roleArn, w', pv', roleArn')
  {
    if r.mp == r'.mp {
      SharingIsolation(hist, steps, i, r, r');
      NewSpecIsDescribed(r.tuple, w, pv, roleArn);
      NewSpecIsDescribed(r'.tuple, w', pv', roleArn');
      SameTupleExactly(w, pv, roleArn, w', pv', roleArn');
    }
  }
}
