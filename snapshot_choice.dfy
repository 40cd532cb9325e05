/** Choosing the snapshot to restore: the describe_db_snapshots answer is
    sorted by SnapshotCreateTime with `reverse=True` and its head taken.
    Python's sort is stable under `reverse=True`, so the head is the FIRST
    snapshot, in answer order, whose key is maximal. */
module SnapshotChoice {
  import opened Wrappers
  import opened Cloud

  /** A sort key: snapshots still being taken carry no creation time and
      sort as older than every timed snapshot. */
  datatype SortKey = Untimed | At(time: int)

  predicate KeyLess(a: SortKey, b: SortKey) {
    b.At? && (a.Untimed? || a.time < b.time)
  }

  predicate KeyLe(a: SortKey, b: SortKey) {
    !KeyLess(b, a)
  }

  function KeyOf(s: Snapshot): SortKey {
    match s.createTime
    case Some(t) => At(t)
    case None => Untimed
  }

  function Keys(snaps: seq<Snapshot>): (r: seq<SortKey>)
    ensures |r| == |snaps| && forall i :: 0 <= i < |snaps| ==> r[i] == KeyOf(snaps[i])
  {
    seq(|snaps|, i requires 0 <= i < |snaps| => KeyOf(snaps[i]))
  }

  /** `k` is where a stable descending sort would put its first element:
      no key beats keys[k], and every earlier key is strictly smaller. */
  ghost predicate IsNewest(keys: seq<SortKey>, k: nat) {
    k < |keys| &&
    (forall j :: 0 <= j < |keys| ==> KeyLe(keys[j], keys[k])) &&
    (forall j :: 0 <= j < k ==> KeyLess(keys[j], keys[k]))
  }

  /** The head of the list after `sort(key=..., reverse=True)`, found by one
      scan that keeps the first maximal key. */
  method NewestIndex(keys: seq<SortKey>) returns (k: nat)
    requires |keys| > 0
    ensures k < |keys|
    ensures forall j :: 0 <= j < |keys| ==> KeyLe(keys[j], keys[k])
    ensures forall j :: 0 <= j < k ==> KeyLess(keys[j], keys[k])
  {
    k := 0;
    var i := 1;
    while i < |keys|
      invariant 1 <= i <= |keys| && k < i
      invariant forall j :: 0 <= j < i ==> KeyLe(keys[j], keys[k])
      invariant forall j :: 0 <= j < k ==> KeyLess(keys[j], keys[k])
    {
      if KeyLess(keys[k], keys[i]) {
        k := i;
      }
      i := i + 1;
    }
  }

  /** The choice is deterministic: no index other than the newest one is
      also newest. */
  lemma NewestIsUnique(keys: seq<SortKey>, k1: nat, k2: nat)
    requires IsNewest(keys, k1) && k2 != k1
    ensures !IsNewest(keys, k2)
  {
    if k1 < k2 < |keys| {
      assert !KeyLess(keys[k1], keys[k2]);
    } else if k2 < k1 {
      assert !KeyLe(keys[k1], keys[k2]);
    }
  }

  /** Of snapshots taken at T-3, T-1 and T-2 the one
      taken at T-1, and only it, is chosen. */
  lemma {:induction false} NewestOfThree(t: int, k: nat)
    ensures IsNewest([At(t - 3), At(t - 1), At(t - 2)], k) <==> k == 1
  {
    var keys := [At(t - 3), At(t - 1), At(t - 2)];
    if k == 0 {
      assert !KeyLe(keys[1], keys[0]);
    } else if k == 1 {
      assert KeyLess(keys[0], keys[1]) && KeyLess(keys[2], keys[1]);
    } else if k == 2 {
      assert !KeyLess(keys[1], keys[2]);
    }
  }

  /** True when some snapshots carry a creation time and others do not. */
  predicate MixedTimes(snaps: seq<Snapshot>) {
    (exists i :: 0 <= i < |snaps| && snaps[i].createTime.Some?) &&
    (exists i :: 0 <= i < |snaps| && snaps[i].createTime.None?)
  }

  /** The sort of datascrubber/__init__.py:195-198 as written: the key
      `x.get('SnapshotCreateTime', 0)` is a datetime for timed snapshots and
      the integer 0 for untimed ones. Python cannot order a datetime against
      an int, so a list holding both kinds raises TypeError; a list of only
      untimed snapshots ties on 0 and yields its first element. */
  method ChooseAsWritten(snaps: seq<Snapshot>) returns (r: Result<nat>)
    requires |snaps| > 0
    ensures r.Err? <==> MixedTimes(snaps)
    ensures r.Err? ==> r.error.TypeError?
    ensures r.Ok? ==> IsNewest(Keys(snaps), r.value)
  {
    if MixedTimes(snaps) {
      return Err(TypeError("'<' not supported between datetime and int"));
    }
    var k := NewestIndex(Keys(snaps));
    return Ok(k);
  }

  /** The discrepancy: a snapshot still being taken next to a finished one
      makes the choice as written raise, while ordering untimed snapshots
      below timed ones picks the finished snapshot. */
  lemma {:induction false} UntimedSnapshotBreaksChoice()
    ensures MixedTimes([Snapshot("creating", None), Snapshot("done", Some(5))])
    ensures IsNewest(Keys([Snapshot("creating", None), Snapshot("done", Some(5))]), 1)
  {
    var snaps := [Snapshot("creating", None), Snapshot("done", Some(5))];
    assert snaps[1].createTime.Some? && snaps[0].createTime.None?;
    assert Keys(snaps) == [Untimed, At(5)];
  }

  /** The sort of snapshot_finder.py:34-37: the key `x['SnapshotCreateTime']`
      raises KeyError on any untimed snapshot, before anything is compared. */
  method ChooseLegacy(snaps: seq<Snapshot>) returns (r: Result<nat>)
    requires |snaps| > 0
    ensures r.Err? <==> exists i :: 0 <= i < |snaps| && snaps[i].createTime.None?
    ensures r.Err? ==> r.error == KeyError("SnapshotCreateTime")
    ensures r.Ok? ==> IsNewest(Keys(snaps), r.value)
  {
    var i := 0;
    while i < |snaps|
      invariant 0 <= i <= |snaps|
      invariant forall j :: 0 <= j < i ==> snaps[j].createTime.Some?
    {
      if snaps[i].createTime.None? {
        return Err(KeyError("SnapshotCreateTime"));
      }
      i := i + 1;
    }
    var k := NewestIndex(Keys(snaps));
    return Ok(k);
  }
}
