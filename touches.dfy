/**
 * The registry of ongoing touches (`ongoingTouches` and its helpers): the
 * records the sketch keeps per contact and the array updates that touch
 * start, move and end events perform on it.
 */
module Touches {
  import opened Options
  import opened Events

  /** The six fields of a browser touch that the sketch keeps. */
  datatype Touch = Touch(
    identifier: int,
    clientX: real,
    clientY: real,
    force: Option<real>,
    touchType: TouchType,
    azimuthAngle: Option<real>)

  /** `copyTouch`: keeps exactly the identifier, position, force, touch type and azimuth. */
  function CopyTouch(t: RawTouch): (c: Touch)
    ensures c.identifier == t.identifier
    ensures c.clientX == t.clientX && c.clientY == t.clientY
    ensures c.force == t.force && c.touchType == t.touchType && c.azimuthAngle == t.azimuthAngle
  {
    Touch(t.identifier, t.clientX, t.clientY, t.force, t.touchType, t.azimuthAngle)
  }

  function Copies(ts: seq<RawTouch>): (cs: seq<Touch>)
    ensures |cs| == |ts|
    ensures forall i :: 0 <= i < |ts| ==> cs[i] == CopyTouch(ts[i])
  {
    seq(|ts|, i requires 0 <= i < |ts| => CopyTouch(ts[i]))
  }

  /** The identifiers of the records, in order. */
  function Ids(ts: seq<Touch>): (ids: seq<int>)
    ensures |ids| == |ts|
    ensures forall i :: 0 <= i < |ts| ==> ids[i] == ts[i].identifier
  {
    seq(|ts|, i requires 0 <= i < |ts| => ts[i].identifier)
  }

  /**
   * What `ongoingTouchIndexById` returns: the first index whose identifier
   * matches, or -1 when no record has that identifier.
   */
  function IndexById(ts: seq<Touch>, id: int): (i: int)
    ensures -1 <= i < |ts|
    ensures i == -1 <==> forall j :: 0 <= j < |ts| ==> ts[j].identifier != id
    ensures 0 <= i ==> ts[i].identifier == id && forall j :: 0 <= j < i ==> ts[j].identifier != id
  {
    if |ts| == 0 then -1
    else if ts[0].identifier == id then 0
    else
      var k := IndexById(ts[1..], id);
      if k == -1 then -1 else k + 1
  }

  /** `handleTouchStart`: every changed touch is appended, in order. */
  function AppendAll(ts: seq<Touch>, changed: seq<RawTouch>): (r: seq<Touch>)
    ensures |r| == |ts| + |changed|
    ensures r[..|ts|] == ts
    ensures r[|ts|..] == Copies(changed)
    ensures forall i :: 0 <= i < |changed| ==> r[|ts| + i] == CopyTouch(changed[i])
  {
    ts + Copies(changed)
  }

  /**
   * One changed touch of `handleTouchMove`: `splice(idx, 1, copy)` when the
   * identifier is registered, nothing otherwise.
   */
  function ReplaceOne(ts: seq<Touch>, t: RawTouch): (r: seq<Touch>)
    ensures |r| == |ts|
    ensures Ids(r) == Ids(ts)
    ensures forall j :: 0 <= j < |ts| && ts[j].identifier != t.identifier ==> r[j] == ts[j]
    ensures var i := IndexById(ts, t.identifier);
      0 <= i ==> r[i] == CopyTouch(t) && forall j :: 0 <= j < |ts| && j != i ==> r[j] == ts[j]
    ensures IndexById(ts, t.identifier) == -1 ==> r == ts
  {
    var idx := IndexById(ts, t.identifier);
    if idx >= 0 then ts[idx := CopyTouch(t)] else ts
  }

  /** All changed touches of a move event, handled first to last. */
  function ReplaceAll(ts: seq<Touch>, changed: seq<RawTouch>): (r: seq<Touch>)
    ensures |r| == |ts|
  {
    if |changed| == 0 then ts
    else ReplaceOne(ReplaceAll(ts, changed[..|changed| - 1]), changed[|changed| - 1])
  }

  /**
   * `splice(idx, 1)` with JavaScript's reading of a negative start: index -1
   * counts from the end, so it removes the last record of a non-empty array.
   */
  function Splice1(ts: seq<Touch>, idx: int): (r: seq<Touch>)
    requires -1 <= idx < |ts|
    ensures |ts| == 0 ==> r == []
    ensures |ts| > 0 ==> |r| == |ts| - 1
    ensures 0 <= idx ==> r[..idx] == ts[..idx] && r[idx..] == ts[idx + 1..]
    ensures idx == -1 && |ts| > 0 ==> r == ts[..|ts| - 1]
    ensures multiset(r) <= multiset(ts)
  {
    if idx >= 0 then
      var r := ts[..idx] + ts[idx + 1..];
      SpliceParts(ts, idx);
      assert r[..idx] == ts[..idx];
      assert r[idx..] == ts[idx + 1..];
      r
    else if |ts| == 0 then ts
    else
      SpliceParts(ts, |ts| - 1);
      ts[..|ts| - 1]
  }

  /** Cutting one record out of a registry leaves a sub-multiset. */
  lemma SpliceParts(ts: seq<Touch>, idx: nat)
    requires idx < |ts|
    ensures multiset(ts[..idx] + ts[idx + 1..]) + multiset{ts[idx]} == multiset(ts)
  {
    assert ts == ts[..idx] + [ts[idx]] + ts[idx + 1..];
  }

  /** The definition of `Splice1`, for callers that keep it hidden. */
  lemma Splice1At(ts: seq<Touch>, idx: int)
    requires -1 <= idx < |ts|
    ensures Splice1(ts, idx) == if idx >= 0 then ts[..idx] + ts[idx + 1..] else if |ts| == 0 then ts else ts[..|ts| - 1]
  {
  }

  /** One changed touch of `handleTouchEnd`. */
  function RemoveOne(ts: seq<Touch>, t: RawTouch): (r: seq<Touch>)
    ensures |ts| > 0 ==> |r| == |ts| - 1
    ensures |ts| == 0 ==> r == []
    ensures multiset(r) <= multiset(ts)
  {
    Splice1(ts, IndexById(ts, t.identifier))
  }

  /** All changed touches of an end event, handled first to last. */
  function RemoveAll(ts: seq<Touch>, changed: seq<RawTouch>): (r: seq<Touch>)
    ensures multiset(r) <= multiset(ts)
  {
    if |changed| == 0 then ts
    else RemoveOne(RemoveAll(ts, changed[..|changed| - 1]), changed[|changed| - 1])
  }

  /** A move event never changes how many records there are nor which identifiers they carry. */
  lemma {:induction false} ReplaceAllKeepsIds(ts: seq<Touch>, changed: seq<RawTouch>)
    ensures |ReplaceAll(ts, changed)| == |ts|
    ensures Ids(ReplaceAll(ts, changed)) == Ids(ts)
  {
    if |changed| > 0 {
      ReplaceAllKeepsIds(ts, changed[..|changed| - 1]);
    }
  }

  /** Before any changed touch is handled, the registry is as it was. */
  lemma NothingHandled(ts: seq<Touch>, changed: seq<RawTouch>)
    ensures ReplaceAll(ts, changed[..0]) == ts && RemoveAll(ts, changed[..0]) == ts
  {
    assert changed[..0] == [];
  }

  /** One more changed touch of a move event is one more `ReplaceOne`, which swaps at the first match. */
  lemma ReplaceAllStep(ts: seq<Touch>, changed: seq<RawTouch>, i: nat)
    requires i < |changed|
    ensures ReplaceAll(ts, changed[..i + 1]) == ReplaceOne(ReplaceAll(ts, changed[..i]), changed[i])
    ensures var mid := ReplaceAll(ts, changed[..i]);
      var k := IndexById(mid, changed[i].identifier);
      ReplaceOne(mid, changed[i]) == if k >= 0 then mid[k := CopyTouch(changed[i])] else mid
  {
    assert changed[..i + 1][..i] == changed[..i];
  }

  /** One more changed touch of an end event is one more `Splice1` at its index. */
  lemma RemoveAllStep(ts: seq<Touch>, changed: seq<RawTouch>, i: nat)
    requires i < |changed|
    ensures var mid := RemoveAll(ts, changed[..i]);
      RemoveAll(ts, changed[..i + 1]) == Splice1(mid, IndexById(mid, changed[i].identifier))
  {
    assert changed[..i + 1][..i] == changed[..i];
  }

  /** A move event whose touches are all unregistered changes nothing. */
  lemma {:induction false} ReplaceAllUnknown(ts: seq<Touch>, changed: seq<RawTouch>)
    requires forall k :: 0 <= k < |changed| ==> IndexById(ts, changed[k].identifier) == -1
    ensures ReplaceAll(ts, changed) == ts
  {
    if |changed| > 0 {
      ReplaceAllUnknown(ts, changed[..|changed| - 1]);
    }
  }

  /** The lookup reads only the identifiers, so registries with the same identifiers agree on it. */
  lemma IndexBySameIds(a: seq<Touch>, b: seq<Touch>, id: int)
    requires Ids(a) == Ids(b)
    ensures IndexById(a, id) == IndexById(b, id)
  {
    assert |a| == |b|;
    assert forall j :: 0 <= j < |a| ==> a[j].identifier == Ids(a)[j] == Ids(b)[j] == b[j].identifier;
  }

  /**
   * A move event leaves every record that is not the first match of some
   * changed touch's identifier as it was.
   */
  lemma {:induction false} ReplaceAllKeepsOthers(ts: seq<Touch>, changed: seq<RawTouch>, j: int)
    requires 0 <= j < |ts|
    requires forall k :: 0 <= k < |changed| ==> IndexById(ts, changed[k].identifier) != j
    ensures |ReplaceAll(ts, changed)| == |ts| && ReplaceAll(ts, changed)[j] == ts[j]
  {
    if |changed| > 0 {
      var prefix := changed[..|changed| - 1];
      var last := changed[|changed| - 1];
      assert forall k :: 0 <= k < |prefix| ==> prefix[k] == changed[k];
      ReplaceAllKeepsOthers(ts, prefix, j);
      ReplaceAllKeepsIds(ts, prefix);
      var mid := ReplaceAll(ts, prefix);
      IndexBySameIds(mid, ts, last.identifier);
    }
  }

  /**
   * A move event swaps in the copy of each registered changed touch at its
   * identifier's first record, unless a later changed touch carries the
   * same identifier and swaps in its own copy there.
   */
  lemma {:induction false} ReplaceAllSwapsIn(ts: seq<Touch>, changed: seq<RawTouch>, k: int)
    requires 0 <= k < |changed| && 0 <= IndexById(ts, changed[k].identifier)
    requires forall l :: k < l < |changed| ==> changed[l].identifier != changed[k].identifier
    ensures |ReplaceAll(ts, changed)| == |ts|
    ensures ReplaceAll(ts, changed)[IndexById(ts, changed[k].identifier)] == CopyTouch(changed[k])
  {
    var prefix := changed[..|changed| - 1];
    var last := changed[|changed| - 1];
    var i := IndexById(ts, changed[k].identifier);
    ReplaceAllKeepsIds(ts, prefix);
    var mid := ReplaceAll(ts, prefix);
    IndexBySameIds(mid, ts, last.identifier);
    if k < |changed| - 1 {
      assert prefix[k] == changed[k];
      ReplaceAllSwapsIn(ts, prefix, k);
      assert mid[i].identifier == changed[k].identifier != last.identifier;
    }
  }

  /** Ending a registered identifier removes its first record and keeps the others in order. */
  lemma RemoveOneFound(ts: seq<Touch>, t: RawTouch)
    requires exists j :: 0 <= j < |ts| && ts[j].identifier == t.identifier
    ensures var i := IndexById(ts, t.identifier);
      0 <= i && RemoveOne(ts, t) == ts[..i] + ts[i + 1..]
    ensures |RemoveOne(ts, t)| == |ts| - 1
    ensures multiset(RemoveOne(ts, t)) + multiset{ts[IndexById(ts, t.identifier)]} == multiset(ts)
  {
    var i := IndexById(ts, t.identifier);
    Splice1At(ts, i);
    SpliceParts(ts, i);
  }

  /**
   * Ending an identifier that is not registered still removes a record: the
   * last one, because `splice(-1, 1)` counts from the end.
   */
  lemma RemoveOneMissing(ts: seq<Touch>, t: RawTouch)
    requires |ts| > 0
    requires forall j :: 0 <= j < |ts| ==> ts[j].identifier != t.identifier
    ensures RemoveOne(ts, t) == ts[..|ts| - 1]
  {
  }

  /** Every changed touch of an end event removes one record while any are left. */
  lemma {:induction false} RemoveAllLength(ts: seq<Touch>, changed: seq<RawTouch>)
    ensures |RemoveAll(ts, changed)| == if |ts| >= |changed| then |ts| - |changed| else 0
  {
    if |changed| > 0 {
      RemoveAllLength(ts, changed[..|changed| - 1]);
    }
  }

  /**
   * An end event whose touches carry distinct registered identifiers removes
   * one record per touch, each carrying that touch's identifier: every record
   * with an identifier no ended touch carries keeps its multiplicity.
   */
  lemma {:induction false} RemoveAllRemovesEnded(ts: seq<Touch>, changed: seq<RawTouch>)
    requires forall k :: 0 <= k < |changed| ==> 0 <= IndexById(ts, changed[k].identifier)
    requires forall k, l :: 0 <= k < l < |changed| ==> changed[k].identifier != changed[l].identifier
    ensures |RemoveAll(ts, changed)| == |ts| - |changed|
    ensures forall x: Touch :: (forall k :: 0 <= k < |changed| ==> changed[k].identifier != x.identifier) ==>
      multiset(RemoveAll(ts, changed))[x] == multiset(ts)[x]
  {
    if |changed| > 0 {
      var prefix := changed[..|changed| - 1];
      var last := changed[|changed| - 1];
      assert forall k :: 0 <= k < |prefix| ==> prefix[k] == changed[k];
      RemoveAllRemovesEnded(ts, prefix);
      var mid := RemoveAll(ts, prefix);
      var first := ts[IndexById(ts, last.identifier)];
      assert multiset(mid)[first] == multiset(ts)[first];
      EndOneMore(mid, last, first);
    }
  }

  /** Ending a registered identifier removes one record, and only records with that identifier lose multiplicity. */
  lemma EndOneMore(mid: seq<Touch>, last: RawTouch, first: Touch)
    requires first in mid && first.identifier == last.identifier
    ensures |RemoveOne(mid, last)| == |mid| - 1
    ensures forall x: Touch :: x.identifier != last.identifier ==> multiset(RemoveOne(mid, last))[x] == multiset(mid)[x]
  {
    RemoveOneFound(mid, last);
    var gone := mid[IndexById(mid, last.identifier)];
    forall x: Touch | x.identifier != last.identifier
      ensures multiset(RemoveOne(mid, last))[x] == multiset(mid)[x]
    {
      assert x != gone;
    }
  }

  /** No two records carry the same identifier, as the browser's ongoing touches do not. */
  predicate DistinctIds(ts: seq<Touch>) {
    forall i, j :: 0 <= i < j < |ts| ==> ts[i].identifier != ts[j].identifier
  }

  /** The identifiers the touches of an event carry. */
  function EndedIds(changed: seq<RawTouch>): (ids: set<int>)
    ensures forall k :: 0 <= k < |changed| ==> changed[k].identifier in ids
    ensures forall id :: id in ids ==> exists k :: 0 <= k < |changed| && changed[k].identifier == id
  {
    set k | 0 <= k < |changed| :: changed[k].identifier
  }

  /** The records whose identifiers are not in `ended`, in their order. */
  function Without(ts: seq<Touch>, ended: set<int>): (r: seq<Touch>)
    ensures forall i :: 0 <= i < |r| ==> r[i].identifier !in ended
  {
    if |ts| == 0 then []
    else (if ts[0].identifier in ended then [] else [ts[0]]) + Without(ts[1..], ended)
  }

  /** Leaving out an identifier no record carries changes nothing. */
  lemma {:induction false} WithoutAbsent(ts: seq<Touch>, ended: set<int>, id: int)
    requires forall j :: 0 <= j < |ts| ==> ts[j].identifier != id
    ensures Without(ts, ended + {id}) == Without(ts, ended)
  {
    if |ts| > 0 {
      WithoutAbsent(ts[1..], ended, id);
    }
  }

  /** In a registry with distinct identifiers, splicing out one more identifier's record leaves it out too. */
  lemma {:induction false} WithoutOneMore(ts: seq<Touch>, ended: set<int>, id: int)
    requires DistinctIds(ts) && id !in ended && 0 <= IndexById(ts, id)
    ensures 0 <= IndexById(Without(ts, ended), id)
    ensures Splice1(Without(ts, ended), IndexById(Without(ts, ended), id)) == Without(ts, ended + {id})
  {
    hide *;
    var more := ended + {id};
    var tail := ts[1..];
    WithoutFirst(ts, ended);
    WithoutFirst(ts, more);
    IndexByIdFirst(ts, id);
    DistinctTail(ts);
    var u := Without(ts, ended);
    var v := Without(tail, ended);
    if ts[0].identifier == id {
      assert ts[0].identifier in more;
      assert Without(ts, more) == Without(tail, more);
      IndexByIdFirst(u, id);
      assert u == [ts[0]] + v;
      assert IndexById(u, id) == 0;
      Splice1At(u, 0);
      assert u[1..] == v;
      WithoutAbsent(tail, ended, id);
      assert Splice1(u, 0) == Without(ts, more);
    } else {
      WithoutOneMore(tail, ended, id);
      var i := IndexById(v, id);
      assert Splice1(v, i) == Without(tail, more);
      if ts[0].identifier in ended {
        assert ts[0].identifier in more;
        assert Without(ts, more) == Without(tail, more);
        assert u == v;
      } else {
        assert ts[0].identifier !in more;
        assert Without(ts, more) == [ts[0]] + Without(tail, more);
        assert u == [ts[0]] + v;
        assert u[1..] == v;
        IndexByIdFirst(u, id);
        assert IndexById(u, id) == i + 1;
        Splice1At(u, i + 1);
        Splice1At(v, i);
        SpliceBehind(ts[0], v, i);
        assert Splice1(u, i + 1) == [ts[0]] + Splice1(v, i);
      }
    }
  }

  /** `Without` unfolded once. */
  lemma WithoutFirst(ts: seq<Touch>, ended: set<int>)
    requires |ts| > 0
    ensures Without(ts, ended) == (if ts[0].identifier in ended then [] else [ts[0]]) + Without(ts[1..], ended)
  {
  }

  /** `IndexById` unfolded once. */
  lemma IndexByIdFirst(ts: seq<Touch>, id: int)
    requires |ts| > 0
    ensures IndexById(ts, id) ==
      if ts[0].identifier == id then 0
      else if IndexById(ts[1..], id) == -1 then -1 else IndexById(ts[1..], id) + 1
  {
  }

  /** The records behind the first one keep distinct identifiers, none of them the first one's. */
  lemma DistinctTail(ts: seq<Touch>)
    requires DistinctIds(ts) && |ts| > 0
    ensures DistinctIds(ts[1..])
    ensures forall j :: 1 <= j < |ts| ==> ts[j].identifier != ts[0].identifier
  {
  }

  /** Cutting a record out behind a first one keeps that first one in front. */
  lemma SpliceBehind(x: Touch, v: seq<Touch>, i: nat)
    requires i < |v|
    ensures ([x] + v)[..i + 1] + ([x] + v)[i + 2..] == [x] + (v[..i] + v[i + 1..])
  {
    assert ([x] + v)[..i + 1] == [x] + v[..i];
    assert ([x] + v)[i + 2..] == v[i + 1..];
  }

  /**
   * In a registry with distinct identifiers, an end event whose touches carry
   * distinct registered identifiers leaves exactly the records of the other
   * identifiers, in their order.
   */
  lemma {:induction false} RemoveAllIsWithout(ts: seq<Touch>, changed: seq<RawTouch>)
    requires DistinctIds(ts)
    requires forall k :: 0 <= k < |changed| ==> 0 <= IndexById(ts, changed[k].identifier)
    requires forall k, l :: 0 <= k < l < |changed| ==> changed[k].identifier != changed[l].identifier
    ensures RemoveAll(ts, changed) == Without(ts, EndedIds(changed))
  {
    hide *;
    if |changed| == 0 {
      NothingHandled(ts, changed);
      assert changed[..0] == changed;
      EndedIdsOfNone(changed);
      WithoutNone(ts);
    } else {
      var prefix := changed[..|changed| - 1];
      var last := changed[|changed| - 1];
      assert forall k :: 0 <= k < |prefix| ==> prefix[k] == changed[k];
      RemoveAllIsWithout(ts, prefix);
      EndedIdsSnoc(changed);
      RemoveAllStep(ts, changed, |changed| - 1);
      assert changed[..|changed| - 1 + 1] == changed;
      assert changed[..|changed| - 1] == prefix;
      WithoutOneMore(ts, EndedIds(prefix), last.identifier);
    }
  }

  /** An event without touches ends no identifier. */
  lemma EndedIdsOfNone(changed: seq<RawTouch>)
    requires |changed| == 0
    ensures EndedIds(changed) == {}
  {
  }

  /**
   * The identifiers of an event are those of all but its last touch, plus the
   * last one's, which is new when the identifiers are distinct.
   */
  lemma EndedIdsSnoc(changed: seq<RawTouch>)
    requires |changed| > 0
    requires forall k, l :: 0 <= k < l < |changed| ==> changed[k].identifier != changed[l].identifier
    ensures EndedIds(changed) == EndedIds(changed[..|changed| - 1]) + {changed[|changed| - 1].identifier}
    ensures changed[|changed| - 1].identifier !in EndedIds(changed[..|changed| - 1])
  {
    var prefix := changed[..|changed| - 1];
    assert forall k :: 0 <= k < |prefix| ==> prefix[k] == changed[k];
  }

  /** Leaving out no identifier keeps every record. */
  lemma {:induction false} WithoutNone(ts: seq<Touch>)
    ensures Without(ts, {}) == ts
  {
    if |ts| > 0 {
      WithoutNone(ts[1..]);
      assert ts == [ts[0]] + ts[1..];
    }
  }
}
