/** The search's queue: `q.sort((a, b) => costs.get(b)! - costs.get(a)!).pop()`.
    The sort is stable (as JavaScript's `Array.prototype.sort` is required to be) and puts the
    queue in descending order of recorded cost; `pop` then takes the last element. */
module Queue {
  import opened Transit

  /** Every queued id has a recorded cost. */
  predicate Costed(q: seq<Id>, costs: map<Id, real>) {
    forall k | 0 <= k < |q| :: q[k] in costs
  }

  /** Descending order of recorded cost. */
  predicate SortedDesc(q: seq<Id>, costs: map<Id, real>)
    requires Costed(q, costs)
  {
    forall j, k | 0 <= j < k < |q| :: costs[q[j]] >= costs[q[k]]
  }

  /** Stable insertion of `x`, which comes after every element of `s` in the original queue:
      it is placed after all elements that cost at least as much. */
  function Insert(s: seq<Id>, x: Id, costs: map<Id, real>): (r: seq<Id>)
    requires Costed(s, costs) && x in costs
    ensures Costed(r, costs)
    ensures multiset(r) == multiset(s) + multiset{x}
    decreases |s|
  {
    if |s| == 0 then [x]
    else if costs[s[0]] < costs[x] then [x] + s
    else
      assert s == [s[0]] + s[1..];
      [s[0]] + Insert(s[1..], x, costs)
  }

  /** Insertion keeps a list in descending order. */
  lemma {:induction false} InsertSorted(s: seq<Id>, x: Id, costs: map<Id, real>)
    requires Costed(s, costs) && x in costs && SortedDesc(s, costs)
    ensures SortedDesc(Insert(s, x, costs), costs)
    decreases |s|
  {
    if |s| > 0 {
      if costs[s[0]] < costs[x] {
        forall k | 0 <= k < |s| ensures costs[x] >= costs[s[k]] {
          if k > 0 { assert costs[s[0]] >= costs[s[k]]; }
        }
        assert Insert(s, x, costs) == [x] + s;
      } else {
        var t := Insert(s[1..], x, costs);
        assert SortedDesc(s[1..], costs);
        InsertSorted(s[1..], x, costs);
        forall k | 0 <= k < |t| ensures costs[s[0]] >= costs[t[k]] {
          assert t[k] in multiset(t);
          if t[k] != x {
            assert t[k] in multiset(s[1..]);
            var j :| 0 <= j < |s[1..]| && s[1..][j] == t[k];
            assert s[j + 1] == t[k];
          }
        }
        assert Insert(s, x, costs) == [s[0]] + t;
      }
    }
  }

  /** The stable descending sort of the queue. */
  function SortDesc(q: seq<Id>, costs: map<Id, real>): (r: seq<Id>)
    requires Costed(q, costs)
    ensures Costed(r, costs)
    ensures multiset(r) == multiset(q)
    ensures SortedDesc(r, costs)
    decreases |q|
  {
    if |q| == 0 then []
    else
      assert q == q[..|q| - 1] + [q[|q| - 1]];
      var s := SortDesc(q[..|q| - 1], costs);
      InsertSorted(s, q[|q| - 1], costs);
      Insert(s, q[|q| - 1], costs)
  }

  /** The result of `pop` after the sort: the popped id and the queue left behind. */
  datatype Popped = Popped(top: Id, rest: seq<Id>)

  /** Sort the queue and pop its last element. */
  function Extract(q: seq<Id>, costs: map<Id, real>): (r: Popped)
    requires |q| > 0 && Costed(q, costs)
    ensures r.top in q
    ensures multiset(r.rest) + multiset{r.top} == multiset(q)
    ensures |r.rest| == |q| - 1
    ensures Costed(r.rest, costs)
    ensures forall k | 0 <= k < |q| :: costs[r.top] <= costs[q[k]]
  {
    var s := SortDesc(q, costs);
    PopSorted(q, s, costs);
    Popped(s[|s| - 1], s[..|s| - 1])
  }

  /** The last element of a sorted permutation of `q` is a cheapest element of `q`, and the
      front part is a permutation of the rest. */
  lemma PopSorted(q: seq<Id>, s: seq<Id>, costs: map<Id, real>)
    requires |q| > 0 && Costed(q, costs) && Costed(s, costs)
    requires multiset(s) == multiset(q) && SortedDesc(s, costs)
    ensures |s| == |q|
    ensures s[|s| - 1] in q
    ensures multiset(s[..|s| - 1]) + multiset{s[|s| - 1]} == multiset(q)
    ensures forall k | 0 <= k < |q| :: costs[s[|s| - 1]] <= costs[q[k]]
  {
    assert |s| == |multiset(s)| == |multiset(q)| == |q|;
    assert s == s[..|s| - 1] + [s[|s| - 1]];
    assert s[|s| - 1] in multiset(q);
    forall k | 0 <= k < |q| ensures costs[s[|s| - 1]] <= costs[q[k]] {
      assert q[k] in multiset(s);
      var j :| 0 <= j < |s| && s[j] == q[k];
      if j < |s| - 1 {
        assert costs[s[j]] >= costs[s[|s| - 1]];
      }
    }
  }

  /** `k` is the last position of the queue holding a minimal cost. */
  predicate LastMinimum(q: seq<Id>, costs: map<Id, real>, k: int)
    requires Costed(q, costs)
  {
    && 0 <= k < |q|
    && (forall j | 0 <= j < |q| :: costs[q[k]] <= costs[q[j]])
    && (forall j | k < j < |q| :: costs[q[k]] < costs[q[j]])
  }

  /** An element that costs no more than anything in a sorted list is inserted at its end. */
  lemma {:induction false} InsertCheapest(s: seq<Id>, x: Id, costs: map<Id, real>)
    requires Costed(s, costs) && x in costs
    requires forall k | 0 <= k < |s| :: costs[x] <= costs[s[k]]
    ensures Insert(s, x, costs) == s + [x]
    decreases |s|
  {
    if |s| > 0 {
      InsertCheapest(s[1..], x, costs);
      assert s == [s[0]] + s[1..];
    }
  }

  /** Inserting an element that costs more than the last of a sorted list keeps that last element. */
  lemma {:induction false} InsertKeepsLast(s: seq<Id>, x: Id, costs: map<Id, real>)
    requires Costed(s, costs) && x in costs && |s| > 0 && SortedDesc(s, costs)
    requires costs[s[|s| - 1]] < costs[x]
    ensures var r := Insert(s, x, costs); |r| == |s| + 1 && r[|r| - 1] == s[|s| - 1]
    decreases |s|
  {
    if costs[s[0]] >= costs[x] {
      assert |s| > 1;
      assert SortedDesc(s[1..], costs);
      InsertKeepsLast(s[1..], x, costs);
    }
  }

  /** Tie-breaking: the popped element is the LAST queue position holding a minimal cost,
      because the stable sort keeps equally cheap elements in queue order. */
  lemma ExtractLastMinimum(q: seq<Id>, costs: map<Id, real>)
    requires |q| > 0 && Costed(q, costs)
    ensures exists k :: LastMinimum(q, costs, k) && Extract(q, costs).top == q[k]
  {
    var k := PoppedPosition(q, costs);
  }

  /** The position of the popped element, found by induction on the queue's length. */
  lemma {:induction false} PoppedPosition(q: seq<Id>, costs: map<Id, real>) returns (k: int)
    requires |q| > 0 && Costed(q, costs)
    ensures LastMinimum(q, costs, k) && Extract(q, costs).top == q[k]
    decreases |q|
  {
    var n := |q|;
    var front := q[..n - 1];
    SortDescSnoc(q, costs);
    if forall i | 0 <= i < n - 1 :: costs[q[n - 1]] <= costs[q[i]] {
      PopCheapestLast(q, costs);
      k := n - 1;
    } else {
      var j :| 0 <= j < n - 1 && costs[q[n - 1]] > costs[q[j]];
      k := PoppedPosition(front, costs);
      PopDearerLast(q, costs, k, j);
    }
  }

  /** When the last element costs no more than any other, it is the one popped. */
  lemma PopCheapestLast(q: seq<Id>, costs: map<Id, real>)
    requires |q| > 0 && Costed(q, costs)
    requires forall i | 0 <= i < |q| - 1 :: costs[q[|q| - 1]] <= costs[q[i]]
    ensures LastMinimum(q, costs, |q| - 1) && Extract(q, costs).top == q[|q| - 1]
  {
    var n := |q|;
    var front := q[..n - 1];
    var s := SortDesc(front, costs);
    SortDescSnoc(q, costs);
    forall i | 0 <= i < |front| ensures costs[q[n - 1]] <= costs[front[i]] {
      assert front[i] == q[i];
    }
    CheapestStaysCheapest(front, s, q[n - 1], costs);
    InsertCheapest(s, q[n - 1], costs);
    assert Insert(s, q[n - 1], costs) == s + [q[n - 1]];
    forall i | 0 <= i < n ensures costs[q[n - 1]] <= costs[q[i]] {
      if i < n - 1 { assert q[i] == front[i]; }
    }
  }

  /** When some earlier element is cheaper than the last, the front part's popped element is
      popped. */
  lemma PopDearerLast(q: seq<Id>, costs: map<Id, real>, k: int, j: int)
    requires |q| > 1 && Costed(q, costs)
    requires 0 <= j < |q| - 1 && costs[q[|q| - 1]] > costs[q[j]]
    requires LastMinimum(q[..|q| - 1], costs, k) && Extract(q[..|q| - 1], costs).top == q[..|q| - 1][k]
    ensures LastMinimum(q, costs, k) && Extract(q, costs).top == q[k]
  {
    var n := |q|;
    var front := q[..n - 1];
    var s := SortDesc(front, costs);
    var r := Insert(s, q[n - 1], costs);
    assert Extract(q, costs).top == r[|r| - 1] && |s| > 0 && s[|s| - 1] == front[k] by {
      SortDescSnoc(q, costs);
    }
    assert costs[s[|s| - 1]] < costs[q[n - 1]] by {
      assert front[k] == q[k] && front[j] == q[j];
    }
    InsertKeepsLast(s, q[n - 1], costs);
    assert front[k] == q[k];
    LastMinimumExtends(q, costs, k, j);
  }

  /** How the sort of a queue relates to the sort of its front part. */
  lemma SortDescSnoc(q: seq<Id>, costs: map<Id, real>)
    requires |q| > 0 && Costed(q, costs)
    ensures Costed(q[..|q| - 1], costs)
    ensures SortDesc(q, costs) == Insert(SortDesc(q[..|q| - 1], costs), q[|q| - 1], costs)
    ensures Extract(q, costs).top == SortDesc(q, costs)[|SortDesc(q, costs)| - 1]
    ensures |q| > 1 ==>
              (Extract(q[..|q| - 1], costs).top == SortDesc(q[..|q| - 1], costs)[|SortDesc(q[..|q| - 1], costs)| - 1])
  {
  }

  /** A last minimum of the front part stays the last minimum when a dearer element is appended. */
  lemma LastMinimumExtends(q: seq<Id>, costs: map<Id, real>, k: int, j: int)
    requires |q| > 1 && Costed(q, costs)
    requires LastMinimum(q[..|q| - 1], costs, k)
    requires 0 <= j < |q| - 1 && costs[q[|q| - 1]] > costs[q[j]]
    ensures LastMinimum(q, costs, k)
  {
    var front := q[..|q| - 1];
    assert forall i | 0 <= i < |q| - 1 :: q[i] == front[i];
    assert costs[q[k]] <= costs[q[j]];
  }

  /** A lower bound on the elements of a list is a lower bound on any permutation of it. */
  lemma CheapestStaysCheapest(front: seq<Id>, s: seq<Id>, x: Id, costs: map<Id, real>)
    requires Costed(front, costs) && Costed(s, costs) && x in costs
    requires multiset(s) == multiset(front)
    requires forall k | 0 <= k < |front| :: costs[x] <= costs[front[k]]
    ensures forall k | 0 <= k < |s| :: costs[x] <= costs[s[k]]
  {
    forall k | 0 <= k < |s| ensures costs[x] <= costs[s[k]] {
      assert s[k] in multiset(front);
      var j :| 0 <= j < |front| && front[j] == s[k];
    }
  }
}
