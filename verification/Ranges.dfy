/** Both directory stores keep parts of one list of blocks under increasing numbers, each with the place of its first
    block, in an unordered map. What looking up a block, counting all blocks and dropping the later parts do, whatever
    the parts are stored in. */
module Ranges {
  import opened Numbers
  import opened Sequences

  type Blocks = seq<Bytes>

  /** The first block of a part and how many it has. */
  datatype Range = Range(start: nat, count: nat)

  type Table = map<nat, Range>

  predicate Within(t: Table, id: nat, blockId: nat) {
    id in t && t[id].start <= blockId < t[id].start + t[id].count
  }

  /** The part whose range holds the block, and its place there; (0, 0) when there is none. */
  function Find(t: Table, order: seq<nat>, blockId: nat): (r: (nat, nat))
    ensures r == (0, 0) || (Within(t, r.0, blockId) && r.1 == blockId - t[r.0].start && r.0 in order)
  {
    if order == [] then (0, 0)
    else if Within(t, order[0], blockId) then (order[0], blockId - t[order[0]].start)
    else Find(t, order[1..], blockId)
  }

  function Count(t: Table, order: seq<nat>): nat {
    if order == [] then 0
    else Count(t, order[..|order| - 1]) + (if order[|order| - 1] in t then t[order[|order| - 1]].count else 0)
  }

  function UpTo(order: seq<nat>, id: nat): seq<nat> {
    if order == [] then []
    else if order[0] > id then UpTo(order[1..], id)
    else [order[0]] + UpTo(order[1..], id)
  }

  /** The parts with a number up to `id`. */
  function Below<T>(slots: map<nat, T>, id: nat): map<nat, T> {
    map k | k in slots && k <= id :: slots[k]
  }

  function MaxId(order: seq<nat>): (r: nat)
    ensures forall i | i in order :: i <= r
    ensures r == 0 || r in order
  {
    if order == [] then 0
    else
      var later := MaxId(order[1..]);
      assert forall i | i in order :: i == order[0] || i in order[1..];
      if order[0] >= later then order[0] else later
  }

  /** The numbers of the parts an index file lists. */
  function Ids(entries: seq<(nat, nat)>): (r: seq<nat>)
    ensures |r| == |entries|
  {
    seq(|entries|, i requires 0 <= i < |entries| => entries[i].0)
  }

  predicate Increasing(order: seq<nat>) {
    forall i, j | 0 <= i < j < |order| :: order[i] < order[j]
  }

  function Elements(order: seq<nat>): set<nat> {
    set i | i in order
  }

  // ----- the list behind the parts -----

  function Flat(parts: seq<Blocks>): Blocks {
    if parts == [] then [] else Flat(parts[..|parts| - 1]) + parts[|parts| - 1]
  }

  lemma {:induction false} FlatPrefix(parts: seq<Blocks>, i: nat)
    requires i <= |parts|
    ensures |Flat(parts[..i])| <= |Flat(parts)| && Flat(parts)[..|Flat(parts[..i])|] == Flat(parts[..i])
  {
    if i == |parts| {
      assert parts[..i] == parts;
    } else {
      var shorter := parts[..|parts| - 1];
      FlatPrefix(shorter, i);
      assert shorter[..i] == parts[..i];
    }
  }

  /** Block `k` of part `i` sits behind everything in the parts before. */
  lemma FlatAt(parts: seq<Blocks>, i: nat, k: nat)
    requires i < |parts| && k < |parts[i]|
    ensures |Flat(parts[..i])| + k < |Flat(parts)| && Flat(parts)[|Flat(parts[..i])| + k] == parts[i][k]
    ensures Flat(parts)[..|Flat(parts[..i])| + k] == Flat(parts[..i]) + parts[i][..k]
  {
    FlatPrefix(parts, i + 1);
    var upTo := parts[..i + 1];
    assert upTo[..i] == parts[..i] && upTo[i] == parts[i];
    assert Flat(upTo) == Flat(parts[..i]) + parts[i];
    assert Flat(parts)[|Flat(parts[..i])| + k] == Flat(upTo)[|Flat(parts[..i])| + k];
  }

  lemma FlatNext(parts: seq<Blocks>, i: nat)
    requires i < |parts|
    ensures |Flat(parts[..i + 1])| == |Flat(parts[..i])| + |parts[i]|
  {
    assert parts[..i + 1][..i] == parts[..i];
  }

  lemma FlatSnoc(parts: seq<Blocks>, part: Blocks)
    ensures Flat(parts + [part]) == Flat(parts) + part
  {
    assert (parts + [part])[..|parts|] == parts;
  }

  lemma FlatNothing()
    ensures Flat([]) == []
  {
  }

  lemma FlatGrows(parts: seq<Blocks>, block: Bytes)
    requires |parts| > 0
    ensures Flat(parts[|parts| - 1 := parts[|parts| - 1] + [block]]) == Flat(parts) + [block]
  {
    var n := |parts| - 1;
    assert parts[n := parts[n] + [block]][..n] == parts[..n];
    Assoc(Flat(parts[..n]), parts[n], [block]);
  }

  lemma FlatCut(parts: seq<Blocks>, i: nat, k: nat)
    requires i < |parts| && k < |parts[i]| && |Flat(parts[..i])| + k <= |Flat(parts)|
    ensures Flat(parts[..i + 1][i := parts[i][..k]]) == Flat(parts)[..|Flat(parts[..i])| + k]
  {
    FlatAt(parts, i, k);
    assert parts[..i + 1][i := parts[i][..k]][..i] == parts[..i];
  }

  lemma RangesApart(parts: seq<Blocks>, i: nat, j: nat)
    requires i < j <= |parts|
    ensures |Flat(parts[..i + 1])| <= |Flat(parts[..j])|
  {
    FlatPrefix(parts[..j], i + 1);
    assert parts[..j][..i + 1] == parts[..i + 1];
  }

  /** A block below the total lies in some part. */
  lemma {:induction false} PartOf(parts: seq<Blocks>, blockId: nat) returns (i: nat)
    requires blockId < |Flat(parts)|
    ensures i < |parts| && |Flat(parts[..i])| <= blockId < |Flat(parts[..i])| + |parts[i]|
  {
    var shorter := parts[..|parts| - 1];
    if blockId < |Flat(shorter)| {
      i := PartOf(shorter, blockId);
      assert shorter[..i] == parts[..i];
    } else {
      i := |parts| - 1;
    }
  }

  // ----- a table that lays out a list -----

  ghost predicate LaidAt(t: Table, order: seq<nat>, parts: seq<Blocks>, i: nat)
    requires i < |order| == |parts|
  {
    0 < order[i] && order[i] in t && t[order[i]] == Range(|Flat(parts[..i])|, |parts[i]|)
  }

  /** The parts, in order, make up the list; each starts where those before it end. */
  ghost predicate Laid(t: Table, order: seq<nat>, parts: seq<Blocks>) {
    && |order| == |parts| && Increasing(order) && Elements(order) == t.Keys
    && forall i: nat | i < |parts| :: LaidAt(t, order, parts, i)
  }

  lemma LaidEmpty()
    ensures Laid(map[], [], []) && Flat([]) == []
  {
  }

  lemma LaidSlot(t: Table, order: seq<nat>, parts: seq<Blocks>, i: nat)
    requires Laid(t, order, parts) && i < |order|
    ensures |order| == |parts| && 0 < order[i] && order[i] in t
    ensures t[order[i]] == Range(|Flat(parts[..i])|, |parts[i]|)
  {
    assert LaidAt(t, order, parts, i);
  }

  lemma LaidPlace(t: Table, order: seq<nat>, parts: seq<Blocks>, id: nat) returns (i: nat)
    requires Laid(t, order, parts) && id in t
    ensures i < |order| == |parts| && order[i] == id && id > 0
  {
    hide Flat, Increasing;
    assert id in Elements(order);
    i :| i < |order| && order[i] == id;
    LaidSlot(t, order, parts, i);
  }

  /** At most one range holds a block, so the order in which the parts are visited does not matter. */
  lemma LookupUnique(t: Table, order: seq<nat>, parts: seq<Blocks>, id: nat, other: nat, blockId: nat)
    requires Laid(t, order, parts) && Within(t, id, blockId) && Within(t, other, blockId)
    ensures id == other
  {
    hide Flat, Laid;
    var i := LaidPlace(t, order, parts, id);
    var j := LaidPlace(t, order, parts, other);
    LaidSlot(t, order, parts, i);
    LaidSlot(t, order, parts, j);
    FlatNext(parts, i);
    FlatNext(parts, j);
    if i < j {
      RangesApart(parts, i, j);
    } else if j < i {
      RangesApart(parts, j, i);
    }
  }

  lemma {:induction false} FindsIn(t: Table, order: seq<nat>, id: nat, blockId: nat)
    requires id in order && Within(t, id, blockId)
    ensures Within(t, Find(t, order, blockId).0, blockId)
    ensures Find(t, order, blockId).1 == blockId - t[Find(t, order, blockId).0].start
  {
    if !Within(t, order[0], blockId) {
      FindsIn(t, order[1..], id, blockId);
    }
  }

  lemma FoundIsTheOne(t: Table, order: seq<nat>, parts: seq<Blocks>, id: nat, blockId: nat)
    requires Laid(t, order, parts) && Within(t, id, blockId)
    ensures Find(t, order, blockId) == (id, blockId - t[id].start)
  {
    hide Flat, Find, Laid;
    var i := LaidPlace(t, order, parts, id);
    FindsIn(t, order, id, blockId);
    LookupUnique(t, order, parts, Find(t, order, blockId).0, id, blockId);
  }

  /** The lookup finds a block exactly when it is below the total, and then at its place. */
  lemma FindMeaning(t: Table, order: seq<nat>, parts: seq<Blocks>, blockId: nat) returns (i: nat)
    requires Laid(t, order, parts)
    ensures blockId < |Flat(parts)| ==> i < |parts| == |order| && Find(t, order, blockId) == (order[i], blockId - |Flat(parts[..i])|)
    ensures blockId < |Flat(parts)| ==> |Flat(parts[..i])| <= blockId < |Flat(parts[..i])| + |parts[i]|
    ensures blockId >= |Flat(parts)| ==> Find(t, order, blockId) == (0, 0)
  {
    hide Flat, Find, Laid;
    i := 0;
    if blockId < |Flat(parts)| {
      i := PartOf(parts, blockId);
      LaidLength(t, order, parts);
      LaidWithin(t, order, parts, i, blockId);
      FoundIsTheOne(t, order, parts, order[i], blockId);
    } else if Find(t, order, blockId) != (0, 0) {
      BeyondAll(t, order, parts, Find(t, order, blockId).0, blockId);
      assert false;
    }
  }

  lemma LaidLength(t: Table, order: seq<nat>, parts: seq<Blocks>)
    requires Laid(t, order, parts)
    ensures |order| == |parts| == |t| && Increasing(order) && Elements(order) == t.Keys
    ensures forall id | id in t :: id > 0
  {
    hide Flat;
    DistinctSize(order);
    forall id | id in t ensures id > 0 {
      var i := LaidPlace(t, order, parts, id);
    }
  }

  lemma LaidWithin(t: Table, order: seq<nat>, parts: seq<Blocks>, i: nat, blockId: nat)
    requires Laid(t, order, parts) && i < |parts| == |order|
    requires |Flat(parts[..i])| <= blockId < |Flat(parts[..i])| + |parts[i]|
    ensures Within(t, order[i], blockId) && t[order[i]].start == |Flat(parts[..i])|
  {
    hide Flat, Laid;
    LaidSlot(t, order, parts, i);
  }

  lemma BeyondAll(t: Table, order: seq<nat>, parts: seq<Blocks>, id: nat, blockId: nat)
    requires Laid(t, order, parts) && id in t && blockId >= |Flat(parts)|
    ensures !Within(t, id, blockId)
  {
    hide Flat, Laid;
    var i := LaidPlace(t, order, parts, id);
    LaidSlot(t, order, parts, i);
    FlatNext(parts, i);
    FlatPrefix(parts, i + 1);
  }

  lemma {:induction false} CountUpTo(t: Table, order: seq<nat>, parts: seq<Blocks>, i: nat)
    requires Laid(t, order, parts) && i <= |parts| == |order|
    ensures Count(t, order[..i]) == |Flat(parts[..i])|
  {
    hide Flat, Laid;
    if i > 0 {
      CountUpTo(t, order, parts, i - 1);
      LaidSlot(t, order, parts, i - 1);
      FlatNext(parts, i - 1);
      assert order[..i][..i - 1] == order[..i - 1];
    } else {
      assert parts[..0] == [];
      FlatNothing();
    }
  }

  /** Counting the blocks of all parts gives the length of the list. */
  lemma CountAll(t: Table, order: seq<nat>, parts: seq<Blocks>)
    requires Laid(t, order, parts)
    ensures Count(t, order) == |Flat(parts)|
  {
    hide Flat, Laid, Count;
    LaidLength(t, order, parts);
    CountUpTo(t, order, parts, |parts|);
    assert order[..|parts|] == order && parts[..|parts|] == parts;
  }

  // ----- changes of the table -----

  /** A new, still empty part behind all others. */
  lemma LaidAdded(t: Table, order: seq<nat>, parts: seq<Blocks>, id: nat)
    requires Laid(t, order, parts) && id > 0 && forall k | k in t :: k < id
    ensures Laid(t[id := Range(|Flat(parts)|, 0)], order + [id], parts + [[]])
  {
    hide Flat, LaidAt, Elements;
    var u, longer, next := t[id := Range(|Flat(parts)|, 0)], parts + [[]], order + [id];
    LaidLength(t, order, parts);
    forall i: nat | i < |longer| ensures LaidAt(u, next, longer, i) {
      LaidAddedAt(t, order, parts, id, i);
    }
    assert Increasing(next) by {
      forall i: nat | i < |order| ensures order[i] < id {
        LaidSlot(t, order, parts, i);
      }
    }
    assert Elements(next) == u.Keys by { OneMore(order, id); }
  }

  lemma OneMore(order: seq<nat>, id: nat)
    ensures Elements(order + [id]) == Elements(order) + {id}
  {
    var next := order + [id];
    assert next[..|order|] == order && next[..|order| + 1] == next;
    MoreElements(next, |order|);
  }

  lemma LaidAddedAt(t: Table, order: seq<nat>, parts: seq<Blocks>, id: nat, i: nat)
    requires Laid(t, order, parts) && id > 0 && id !in t && i <= |parts| == |order|
    ensures LaidAt(t[id := Range(|Flat(parts)|, 0)], order + [id], parts + [[]], i)
  {
    hide Flat, Laid;
    assert (parts + [[]])[..i] == parts[..i];
    if i < |parts| {
      LaidSlot(t, order, parts, i);
    } else {
      assert parts[..i] == parts;
    }
  }

  /** The last part grows or shrinks. */
  lemma LaidLast(t: Table, order: seq<nat>, parts: seq<Blocks>, n: nat, part: Blocks)
    requires Laid(t, order, parts) && n + 1 == |parts| == |order| && order[n] in t
    ensures Laid(t[order[n] := Range(t[order[n]].start, |part|)], order, parts[n := part])
  {
    hide Flat;
    var u, changed := t[order[n] := Range(t[order[n]].start, |part|)], parts[n := part];
    LaidLength(t, order, parts);
    forall i: nat | i < |parts| ensures LaidAt(u, order, changed, i) {
      LaidSlot(t, order, parts, i);
      assert changed[..i] == parts[..i];
    }
  }

  /** The parts behind number `i` are dropped. */
  lemma LaidCut(t: Table, order: seq<nat>, parts: seq<Blocks>, i: nat)
    requires Laid(t, order, parts) && i < |parts| == |order|
    ensures Laid(Below(t, order[i]), UpTo(order, order[i]), parts[..i + 1])
    ensures UpTo(order, order[i]) == order[..i + 1]
  {
    hide Flat, UpTo;
    var u, kept, first := Below(t, order[i]), parts[..i + 1], order[..i + 1];
    LaidLength(t, order, parts);
    UpToPlace(order, i);
    forall j: nat | j < |kept| ensures LaidAt(u, first, kept, j) {
      LaidSlot(t, order, parts, j);
      assert kept[..j] == parts[..j];
    }
    CutKeys(order, i);
  }

  lemma CutKeys(order: seq<nat>, i: nat)
    requires Increasing(order) && i < |order|
    ensures Elements(order[..i + 1]) == set k | k in Elements(order) && k <= order[i]
  {
    forall k | k in Elements(order) && k <= order[i] ensures k in order[..i + 1] {
      var j: nat :| j < |order| && order[j] == k;
      assert order[..i + 1][j] == k;
    }
  }

  lemma {:induction false} UpToNothing(order: seq<nat>, id: nat)
    requires forall j | 0 <= j < |order| :: order[j] > id
    ensures UpTo(order, id) == []
  {
    if order != [] {
      UpToNothing(order[1..], id);
    }
  }

  /** In an increasing order, the identifiers up to the one at place `i` are the first `i + 1`. */
  lemma {:induction false} UpToPlace(order: seq<nat>, i: nat)
    requires Increasing(order) && i < |order|
    ensures UpTo(order, order[i]) == order[..i + 1]
    decreases i
  {
    if i == 0 {
      UpToNothing(order[1..], order[0]);
    } else {
      assert order[1..][i - 1] == order[i];
      assert order[1..][..i] == order[1..i + 1];
      UpToPlace(order[1..], i - 1);
    }
  }

  lemma LaidCleared(t: Table, order: seq<nat>, parts: seq<Blocks>)
    requires Laid(t, order, parts)
    ensures UpTo(order, 0) == [] && forall k | k in t :: k > 0
  {
    hide Flat, UpTo;
    LaidLength(t, order, parts);
    forall j: nat | j < |order| ensures order[j] > 0 {
      LaidSlot(t, order, parts, j);
    }
    UpToNothing(order, 0);
  }

  lemma MoreElements(order: seq<nat>, n: nat)
    requires n < |order|
    ensures Elements(order[..n + 1]) == Elements(order[..n]) + {order[n]}
  {
    assert order[..n + 1] == order[..n] + [order[n]];
  }

  lemma {:induction false} DistinctSize(order: seq<nat>)
    requires Increasing(order)
    ensures |Elements(order)| == |order|
  {
    hide Elements;
    if order == [] {
      NoElements();
    } else {
      var n := |order| - 1;
      DistinctSize(order[..n]);
      MoreElements(order, n);
      assert order[..n + 1] == order;
      NotEarlier(order, n);
    }
  }

  lemma NoElements()
    ensures Elements([]) == {}
  {
  }

  lemma NotEarlier(order: seq<nat>, n: nat)
    requires Increasing(order) && n < |order|
    ensures order[n] !in Elements(order[..n])
  {
  }

  // ----- visiting the parts in any order -----

  ghost function Sum(t: Table, ids: set<nat>): nat
    requires ids <= t.Keys
  {
    if ids == {} then 0
    else
      var id :| id in ids;
      t[id].count + Sum(t, ids - {id})
  }

  lemma {:induction false} SumRemove(t: Table, ids: set<nat>, id: nat)
    requires id in ids && ids <= t.Keys
    ensures Sum(t, ids) == t[id].count + Sum(t, ids - {id})
    decreases |ids|
  {
    var picked :| picked in ids && Sum(t, ids) == t[picked].count + Sum(t, ids - {picked});
    if picked != id {
      SumRemove(t, ids - {picked}, id);
      SumRemove(t, ids - {id}, picked);
      assert ids - {picked} - {id} == ids - {id} - {picked};
    }
  }

  lemma {:induction false} SumInOrder(t: Table, order: seq<nat>)
    requires Increasing(order) && Elements(order) <= t.Keys
    ensures Sum(t, Elements(order)) == Count(t, order)
  {
    if order == [] {
      NoElements();
    } else {
      var n := |order| - 1;
      MoreElements(order, n);
      assert order[..n + 1] == order;
      SumInOrder(t, order[..n]);
      SumRemove(t, Elements(order), order[n]);
      NotEarlier(order, n);
      assert Elements(order) - {order[n]} == Elements(order[..n]);
    }
  }

  function Without(order: seq<nat>, gone: set<nat>): (r: seq<nat>)
    ensures forall i | i in r :: i in order && i !in gone
  {
    if order == [] then []
    else if order[0] in gone then Without(order[1..], gone)
    else [order[0]] + Without(order[1..], gone)
  }

  lemma {:induction false} WithoutNone(order: seq<nat>)
    ensures Without(order, {}) == order
  {
    if order != [] {
      WithoutNone(order[1..]);
    }
  }

  lemma {:induction false} WithoutOneMore(order: seq<nat>, gone: set<nat>, id: nat)
    ensures Without(Without(order, gone), {id}) == Without(order, gone + {id})
  {
    if order != [] {
      WithoutOneMore(order[1..], gone, id);
    }
  }

  lemma {:induction false} WithoutLater(order: seq<nat>, gone: set<nat>, id: nat)
    requires forall j: nat | j < |order| :: order[j] in gone <==> order[j] > id
    ensures Without(order, gone) == UpTo(order, id)
  {
    if order != [] {
      WithoutLater(order[1..], gone, id);
    }
  }

  function Later<T>(slots: map<nat, T>, id: nat): set<nat> {
    set i | i in slots && i > id
  }

  /** Erasing the later parts one by one, in any order, leaves those up to `id`. */
  lemma LaterGone<T>(slots: map<nat, T>, order: seq<nat>, id: nat)
    requires Elements(order) == slots.Keys
    ensures Without(order, Later(slots, id)) == UpTo(order, id)
    ensures slots - Later(slots, id) == Below(slots, id)
  {
    forall j: nat | j < |order| ensures order[j] in Later(slots, id) <==> order[j] > id {
      assert order[j] in Elements(order);
    }
    WithoutLater(order, Later(slots, id), id);
  }

  lemma {:induction false} UpToElements(order: seq<nat>, id: nat)
    ensures forall i :: i in UpTo(order, id) <==> i in order && i <= id
    ensures Increasing(order) ==> Increasing(UpTo(order, id))
  {
    if order != [] {
      UpToElements(order[1..], id);
      var kept := UpTo(order[1..], id);
      assert forall i :: i in order <==> i == order[0] || i in order[1..];
      forall j: nat | j < |kept| && Increasing(order) ensures order[0] < kept[j] {
        assert kept[j] in order[1..];
      }
    }
  }

  lemma OrderKept(order: seq<nat>, id: nat)
    requires Increasing(order)
    ensures Increasing(UpTo(order, id)) && Elements(UpTo(order, id)) == set i | i in Elements(order) && i <= id
  {
    UpToElements(order, id);
  }
}
