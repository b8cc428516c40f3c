/** The search's `neighbours` variable: a JavaScript `Map` from target id to a cost and a leg.
    A `set` on a present key replaces the value and keeps the key's position; a `set` on a new key
    appends. Iteration follows insertion order. */
module NeighbourMap {
  import opened Options
  import opened Transit
  import opened Legs

  /** One entry: the target, the candidate cost of reaching it, and the leg text (absent for
      legs the itinerary does not narrate). */
  datatype Entry = Entry(target: Id, cost: real, text: Option<Leg>)

  /** The keys of a map: the targets of its entries (`Neighbours.TargetsOf` is the same set for a
      list of offers). */
  function Keys(m: seq<Entry>): (r: set<Id>) {
    set k | 0 <= k < |m| :: m[k].target
  }

  /** The keys of a concatenation. */
  lemma KeysConcat(a: seq<Entry>, b: seq<Entry>)
    ensures Keys(a + b) == Keys(a) + Keys(b)
  {
    var ab := a + b;
    forall x | x in Keys(a) + Keys(b)
      ensures x in Keys(ab)
    {
      if x in Keys(a) {
        var k :| 0 <= k < |a| && a[k].target == x;
        assert ab[k].target == x;
      } else {
        var k :| 0 <= k < |b| && b[k].target == x;
        assert ab[|a| + k].target == x;
      }
    }
  }

  /** The key of a one-entry map. */
  lemma KeysSingle(e: Entry)
    ensures Keys([e]) == {e.target}
  {
    assert [e][0].target == e.target;
  }

  /** The keys of a map with a first entry. */
  lemma KeysCons(m: seq<Entry>)
    requires |m| > 0
    ensures Keys(m) == {m[0].target} + Keys(m[1..])
  {
    assert m == [m[0]] + m[1..];
    KeysConcat([m[0]], m[1..]);
    KeysSingle(m[0]);
  }

  /** A map never holds two entries for one key. */
  predicate Distinct(m: seq<Entry>) {
    forall j, k | 0 <= j < k < |m| :: m[j].target != m[k].target
  }

  /** `m.set(e.target, e)`. */
  function Put(m: seq<Entry>, e: Entry): (r: seq<Entry>)
    requires Distinct(m)
    ensures Keys(r) == Keys(m) + {e.target}
    ensures e.target !in Keys(m) ==> r == m + [e]
    ensures e.target in Keys(m) ==> |r| == |m| && forall k | 0 <= k < |m| :: r[k].target == m[k].target
    ensures forall k | 0 <= k < |r| :: r[k] == e || (r[k].target != e.target && r[k] in m)
    ensures Distinct(r)
    decreases |m|
  {
    if |m| == 0 then
      KeysSingle(e);
      [e]
    else if m[0].target == e.target then
      assert m == [m[0]] + m[1..];
      KeysConcat([m[0]], m[1..]);
      KeysConcat([e], m[1..]);
      KeysSingle(e);
      KeysSingle(m[0]);
      [e] + m[1..]
    else
      assert m == [m[0]] + m[1..];
      KeysConcat([m[0]], m[1..]);
      var r := [m[0]] + Put(m[1..], e);
      KeysConcat([m[0]], Put(m[1..], e));
      KeysSingle(m[0]);
      r
  }

  /** A sequence of `set` calls, in order. */
  function PutAll(m: seq<Entry>, es: seq<Entry>): (r: seq<Entry>)
    requires Distinct(m)
    ensures Keys(r) == Keys(m) + Keys(es)
    ensures Distinct(r)
    ensures forall k | 0 <= k < |r| :: r[k] in m || r[k] in es
    decreases |es|
  {
    if |es| == 0 then m
    else
      KeysConcat([es[0]], es[1..]);
      assert [es[0]] + es[1..] == es;
      var m1 := Put(m, es[0]);
      var r := PutAll(m1, es[1..]);
      assert forall k | 0 <= k < |m1| :: m1[k] in m || m1[k] in es;
      assert forall e | e in es[1..] :: e in es;
      r
  }

  /** `m.get(key)`. */
  function Get(m: seq<Entry>, key: Id): (r: Option<Entry>)
    ensures r.Some? <==> key in Keys(m)
    ensures r.Some? ==> r.value in m && r.value.target == key
    decreases |m|
  {
    if |m| == 0 then None
    else if m[0].target == key then Some(m[0])
    else Get(m[1..], key)
  }

  /** The last of a series of `set` calls on `key`. */
  function LastSet(es: seq<Entry>, key: Id): (r: Option<Entry>)
    ensures r.Some? <==> key in Keys(es)
    ensures r.Some? ==> r.value in es && r.value.target == key
    decreases |es|
  {
    if |es| == 0 then None
    else if es[|es| - 1].target == key then Some(es[|es| - 1])
    else LastSet(es[..|es| - 1], key)
  }

  /** After a single `set`, reading the key gives the value just set; other keys are untouched. */
  lemma {:induction false} GetPut(m: seq<Entry>, e: Entry, key: Id)
    requires Distinct(m)
    ensures Get(Put(m, e), key) == if key == e.target then Some(e) else Get(m, key)
    decreases |m|
  {
    if |m| > 0 && m[0].target != e.target {
      GetPut(m[1..], e, key);
    }
  }

  /** The last `set` wins: reading a key after a series of `set` calls gives the value of the
      last call on that key, even when an earlier call offered a lower cost; keys never set keep
      their old value. */
  lemma {:induction false} GetPutAll(m: seq<Entry>, es: seq<Entry>, key: Id)
    requires Distinct(m)
    ensures Get(PutAll(m, es), key) == if key in Keys(es) then LastSet(es, key) else Get(m, key)
    decreases |es|
  {
    if |es| > 0 {
      var front := es[..|es| - 1];
      var e := es[|es| - 1];
      assert es == front + [e];
      KeysConcat(front, [e]);
      PutAllSnoc(m, front, e);
      GetPut(PutAll(m, front), e, key);
      GetPutAll(m, front, key);
    }
  }

  /** `PutAll` over a list that ends in `e` is `Put` of `e` after the rest. */
  lemma {:induction false} PutAllSnoc(m: seq<Entry>, es: seq<Entry>, e: Entry)
    requires Distinct(m)
    ensures PutAll(m, es + [e]) == Put(PutAll(m, es), e)
    decreases |es|
  {
    if |es| == 0 {
      assert es + [e] == [e];
    } else {
      assert (es + [e])[1..] == es[1..] + [e];
      PutAllSnoc(Put(m, es[0]), es[1..], e);
    }
  }
}
