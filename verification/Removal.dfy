/** Removal: taking a workload, or all stale workloads, out of an attachment. */
module Removal {
  import opened SharingModel
  import opened SharingInvariants

  /******* One workload *******/

  /** The map without that workload; emptied entries stay. */
  function WithoutUidMap(a: Attachments, uid: string): Attachments {
    map m | m in a :: WithoutUid(a[m], uid)
  }

  /** The map without that workload and without the Mountpoint Pods that serve nobody. */
  function Removed(a: Attachments, uid: string): Attachments {
    map m | m in a && WithoutUid(a[m], uid) != [] :: WithoutUid(a[m], uid)
  }

  lemma {:induction false} WithoutAbsentUid(list: seq<Attachment>, uid: string)
    requires !ListHasUid(list, uid)
    ensures WithoutUid(list, uid) == list
  {
    if list != [] {
      assert list[0].uid != uid;
      assert !ListHasUid(list[1..], uid) by {
        assert forall i | 0 <= i < |list[1..]| :: list[1..][i] == list[i + 1];
      }
      WithoutAbsentUid(list[1..], uid);
    }
  }

  /** Editing the one entry that has the workload is enough, because no workload occurs twice. */
  lemma OneEntryIsEnough(a: Attachments, m: nat, uid: string)
    requires UniqueUids(a) && m in a && ListHasUid(a[m], uid)
    ensures a[m := WithoutUid(a[m], uid)] == WithoutUidMap(a, uid)
  {
    forall m' | m' in a && m' != m ensures WithoutUid(a[m'], uid) == a[m'] {
      assert !ListHasUid(a[m'], uid);
      WithoutAbsentUid(a[m'], uid);
    }
  }

  lemma NothingToRemove(a: Attachments, uid: string)
    requires !HasUid(a, uid)
    ensures WithoutUidMap(a, uid) == a
  {
    forall m | m in a ensures WithoutUid(a[m], uid) == a[m] {
      assert !ListHasUid(a[m], uid);
      WithoutAbsentUid(a[m], uid);
    }
  }

  /** Removal is exact: everybody else stays, in order and under the same Mountpoint Pod. */
  lemma RemovedIsExact(a: Attachments, uid: string)
    ensures !HasUid(Removed(a, uid), uid)
    ensures Shrinks(Removed(a, uid), a)
    ensures forall m, x | m in a && x in a[m] && x.uid != uid :: m in Removed(a, uid) && x in Removed(a, uid)[m]
    ensures forall m | m in Removed(a, uid) :: Removed(a, uid)[m] != []
    ensures Removed(Removed(a, uid), uid) == Removed(a, uid)
  {
    forall m | m in a
      ensures Thinned(WithoutUid(a[m], uid), a[m]) && !ListHasUid(WithoutUid(a[m], uid), uid)
      ensures forall x :: x in WithoutUid(a[m], uid) <==> x in a[m] && x.uid != uid
    {
      WithoutUidThins(a[m], uid);
      WithoutAbsentUid(WithoutUid(a[m], uid), uid);
    }
    forall m | m in Removed(a, uid)
      ensures WithoutUid(Removed(a, uid)[m], uid) == Removed(a, uid)[m]
    {
      WithoutAbsentUid(Removed(a, uid)[m], uid);
    }
  }

  /** The inner loop of the removal. */
  method FilterOut(attachments: seq<Attachment>, uid: string) returns (filtered: seq<Attachment>, found: bool)
    ensures filtered == WithoutUid(attachments, uid)
    ensures found <==> ListHasUid(attachments, uid)
  {
    filtered, found := [], false;
    for i := 0 to |attachments|
      invariant filtered == WithoutUid(attachments[..i], uid)
      invariant found <==> ListHasUid(attachments[..i], uid)
    {
      assert attachments[..i + 1] == attachments[..i] + [attachments[i]];
      WithoutUidOfMore(attachments[..i], attachments[i], uid);
      HasUidNext(attachments, i, uid);
      if attachments[i].uid == uid {
        found := true;
      } else {
        filtered := filtered + [attachments[i]];
      }
    }
    assert attachments[..|attachments|] == attachments;
  }

  lemma {:induction false} WithoutUidOfMore(list: seq<Attachment>, x: Attachment, uid: string)
    ensures WithoutUid(list + [x], uid) == WithoutUid(list, uid) + (if x.uid == uid then [] else [x])
  {
    if list == [] {
      assert list + [x] == [x];
    } else {
      assert (list + [x])[1..] == list[1..] + [x];
      WithoutUidOfMore(list[1..], x, uid);
    }
  }

  lemma HasUidNext(list: seq<Attachment>, i: nat, uid: string)
    requires i < |list|
    ensures ListHasUid(list[..i + 1], uid) <==> ListHasUid(list[..i], uid) || list[i].uid == uid
  {
    var xs, ys := list[..i], list[..i + 1];
    assert ys == xs + [list[i]] && ys[i] == list[i];
    if ListHasUid(ys, uid) && list[i].uid != uid {
      var j :| 0 <= j < |ys| && ys[j].uid == uid;
      assert xs[j].uid == uid;
    }
    if ListHasUid(xs, uid) {
      var j :| 0 <= j < |xs| && xs[j].uid == uid;
      assert ys[j].uid == uid;
    }
  }

  /******* All stale workloads *******/

  /** `staleAttachmentThreshold`, two minutes, in seconds. */
  const STALE_ATTACHMENT_THRESHOLD := 120

  predicate IsStale(x: Attachment, existing: set<string>, now: int) {
    x.uid !in existing && now - x.time > STALE_ATTACHMENT_THRESHOLD
  }

  /** The stale attachments of a map. */
  function StaleOf(a: Attachments, existing: set<string>, now: int): set<Attachment> {
    set m, i | m in a && 0 <= i < |a[m]| && IsStale(a[m][i], existing, now) :: a[m][i]
  }

  function Cleaned(a: Attachments, existing: set<string>, now: int): Attachments {
    CleanMap(a, StaleOf(a, existing, now))
  }

  lemma StaleMember(a: Attachments, existing: set<string>, now: int, m: nat, x: Attachment)
    requires m in a && x in a[m]
    ensures x in StaleOf(a, existing, now) <==> IsStale(x, existing, now)
  {
    var i :| 0 <= i < |a[m]| && a[m][i] == x;
  }

  /** The cleaner keeps an attachment iff its Pod exists or it is young, and keeps the order. */
  lemma CleanedIsExact(a: Attachments, existing: set<string>, now: int)
    ensures Shrinks(Cleaned(a, existing, now), a)
    ensures forall m, x | m in a && x in a[m] ::
      (m in Cleaned(a, existing, now) && x in Cleaned(a, existing, now)[m]) <==>
      (x.uid in existing || now - x.time <= 120)
    ensures forall m | m in Cleaned(a, existing, now) :: Cleaned(a, existing, now)[m] != []
  {
    var drop := StaleOf(a, existing, now);
    forall m | m in a
      ensures Thinned(Without(a[m], drop), a[m])
      ensures forall x | x in a[m] :: x in Without(a[m], drop) <==> !IsStale(x, existing, now)
    {
      WithoutThins(a[m], drop);
      forall x | x in a[m] ensures x in drop <==> IsStale(x, existing, now) { StaleMember(a, existing, now, m, x); }
    }
  }

  lemma {:induction false} WithoutNone(list: seq<Attachment>, drop: set<Attachment>)
    requires forall x | x in list :: x !in drop
    ensures Without(list, drop) == list
  {
    if list != [] {
      assert list[0] in list;
      WithoutNone(list[1..], drop);
    }
  }

  /** For the same Pods and the same time, cleaning again changes nothing. */
  lemma CleaningTwiceIsCleaningOnce(a: Attachments, existing: set<string>, now: int)
    ensures Cleaned(Cleaned(a, existing, now), existing, now) == Cleaned(a, existing, now)
    ensures StaleOf(Cleaned(a, existing, now), existing, now) == {}
  {
    var b := Cleaned(a, existing, now);
    CleanedIsExact(a, existing, now);
    forall m, x | m in b && x in b[m] ensures !IsStale(x, existing, now) {
      WithoutThins(a[m], StaleOf(a, existing, now));
      assert x in a[m];
    }
    forall m | m in b ensures Without(b[m], StaleOf(b, existing, now)) == b[m] {
      forall x | x in b[m] ensures x !in StaleOf(b, existing, now) { StaleMember(b, existing, now, m, x); }
      WithoutNone(b[m], StaleOf(b, existing, now));
    }
  }

  predicate AnyStale(list: seq<Attachment>, existing: set<string>, now: int) {
    exists i | 0 <= i < |list| :: IsStale(list[i], existing, now)
  }

  /** The inner loop of the cleaner. */
  method ValidAttachments(attachments: seq<Attachment>, existing: set<string>, now: int, ghost drop: set<Attachment>)
    returns (valid: seq<Attachment>, modified: bool)
    requires forall x | x in attachments :: x in drop <==> IsStale(x, existing, now)
    ensures valid == Without(attachments, drop)
    ensures modified <==> AnyStale(attachments, existing, now)
  {
    valid, modified := [], false;
    for i := 0 to |attachments|
      invariant valid == Without(attachments[..i], drop)
      invariant modified <==> AnyStale(attachments[..i], existing, now)
    {
      var x := attachments[i];
      assert x in attachments;
      assert attachments[..i + 1] == attachments[..i] + [x];
      WithoutOfMore(attachments[..i], x, drop);
      AnyStaleNext(attachments, i, existing, now);
      if x.uid in existing || !(now - x.time > STALE_ATTACHMENT_THRESHOLD) {
        valid := valid + [x];
      } else {
        modified := true;
      }
    }
    assert attachments[..|attachments|] == attachments;
  }

  lemma {:induction false} WithoutOfMore(list: seq<Attachment>, x: Attachment, drop: set<Attachment>)
    ensures Without(list + [x], drop) == Without(list, drop) + (if x in drop then [] else [x])
  {
    if list == [] {
      assert list + [x] == [x];
    } else {
      assert (list + [x])[1..] == list[1..] + [x];
      WithoutOfMore(list[1..], x, drop);
    }
  }

  lemma AnyStaleNext(list: seq<Attachment>, i: nat, existing: set<string>, now: int)
    requires i < |list|
    ensures AnyStale(list[..i + 1], existing, now)
      <==> AnyStale(list[..i], existing, now) || IsStale(list[i], existing, now)
  {
    var xs, ys := list[..i], list[..i + 1];
    assert ys == xs + [list[i]] && ys[i] == list[i];
    if AnyStale(ys, existing, now) && !IsStale(list[i], existing, now) {
      var j :| 0 <= j < |ys| && IsStale(ys[j], existing, now);
      assert IsStale(xs[j], existing, now);
    }
    if AnyStale(xs, existing, now) {
      var j :| 0 <= j < |xs| && IsStale(xs[j], existing, now);
      assert IsStale(ys[j], existing, now);
    }
  }
}
