/** What the limits buy the encoder: it terminates on every object graph, does
    bounded work, and refuses every graph that reaches a cycle. */
module EncodeLimits {
  import opened Results
  import opened Values
  import opened Packets

  // ---------- Work ----------

  /** The number of `walk` calls and the deepest `depth` argument of a run,
      calls that raise included. */
  datatype Cost = Cost(calls: nat, deepest: nat) {
    function Then(other: Cost): Cost {
      Cost(calls + other.calls, if deepest < other.deepest then other.deepest else deepest)
    }
  }

  function WalkCost<R>(c: Codec, h: Heap<R>, r: R, depth: nat, st: EncodeState): Cost
    decreases c.Room(depth), 0
  {
    var here := Cost(1, depth);
    if depth > c.limits.maxTreeDepth || st.elements + 1 > c.limits.maxContainerElements then here
    else
      var st1 := st.(elements := st.elements + 1);
      var o := h.view(r);
      if o.OList? || o.OTuple? then here.Then(WalkAllCost(c, h, o.items, depth + 1, st1))
      else if o.ODict? then here.Then(WalkPairsCost(c, h, o.entries, depth + 1, st1))
      else if o.OInstance? && o.pyType in c.byType && o.fields.Some? && StringKeyed(h, o.fields.value) then
        here.Then(WalkCost(c, h, o.fields.value, depth + 1, st1))
      else here
  }

  function WalkAllCost<R>(c: Codec, h: Heap<R>, rs: seq<R>, depth: nat, st: EncodeState): Cost
    decreases c.Room(depth), 1, |rs|
  {
    if rs == [] then Cost(0, 0)
    else
      var first := WalkCost(c, h, rs[0], depth, st);
      var j := Walk(c, h, rs[0], depth, st);
      if j.Err? then first else first.Then(WalkAllCost(c, h, rs[1..], depth, j.value.1))
  }

  function WalkPairsCost<R>(c: Codec, h: Heap<R>, ps: seq<(R, R)>, depth: nat, st: EncodeState): Cost
    decreases c.Room(depth), 1, |ps|
  {
    if ps == [] then Cost(0, 0)
    else
      var key := WalkCost(c, h, ps[0].0, depth, st);
      var k := Walk(c, h, ps[0].0, depth, st);
      if k.Err? then key
      else
        var val := WalkCost(c, h, ps[0].1, depth, k.value.1);
        var v := Walk(c, h, ps[0].1, depth, k.value.1);
        if v.Err? then key.Then(val)
        else key.Then(val).Then(WalkPairsCost(c, h, ps[1..], depth, v.value.1))
  }

  /** An accepted walk counts one element per call; a refused one stops within
      one call of the element limit. */
  ghost predicate CostFits<T>(c: Codec, cost: Cost, before: nat, res: Result<(T, EncodeState)>) {
    && cost.deepest <= c.limits.maxTreeDepth + 1
    && match res
       case Ok((_, st)) => st.elements == before + cost.calls <= c.limits.maxContainerElements
       case Err(_) => before + cost.calls <= c.limits.maxContainerElements + 1
  }

  lemma {:induction false} WalkBounded<R>(c: Codec, h: Heap<R>, r: R, depth: nat, st: EncodeState)
    requires st.elements <= c.limits.maxContainerElements && depth <= c.limits.maxTreeDepth + 1
    ensures CostFits(c, WalkCost(c, h, r, depth, st), st.elements, Walk(c, h, r, depth, st))
    decreases c.Room(depth), 0
  {
    if depth <= c.limits.maxTreeDepth && st.elements + 1 <= c.limits.maxContainerElements {
      var st1 := st.(elements := st.elements + 1);
      var o := h.view(r);
      if o.OList? || o.OTuple? {
        WalkAllBounded(c, h, o.items, depth + 1, st1);
      } else if o.ODict? {
        WalkPairsBounded(c, h, o.entries, depth + 1, st1);
      } else if o.OInstance? {
        if o.pyType in c.byType && o.fields.Some? {
          WalkBounded(c, h, o.fields.value, depth + 1, st1);
        }
      } else {
        LeafCounts(c, o, st1);
      }
    }
  }

  lemma LeafCounts<R>(c: Codec, o: PyObj<R>, st: EncodeState)
    requires IsLeaf(o)
    ensures EncodeLeaf(c, o, st).Ok? ==> EncodeLeaf(c, o, st).value.1.elements == st.elements
  {
  }

  lemma {:induction false} WalkAllBounded<R>(c: Codec, h: Heap<R>, rs: seq<R>, depth: nat, st: EncodeState)
    requires st.elements <= c.limits.maxContainerElements && depth <= c.limits.maxTreeDepth + 1
    ensures CostFits(c, WalkAllCost(c, h, rs, depth, st), st.elements, WalkAll(c, h, rs, depth, st))
    decreases c.Room(depth), 1, |rs|
  {
    hide Walk;
    if rs != [] {
      WalkBounded(c, h, rs[0], depth, st);
      var j := Walk(c, h, rs[0], depth, st);
      if j.Ok? {
        WalkAllBounded(c, h, rs[1..], depth, j.value.1);
      }
    }
  }

  lemma {:induction false} WalkPairsBounded<R>(c: Codec, h: Heap<R>, ps: seq<(R, R)>, depth: nat, st: EncodeState)
    requires st.elements <= c.limits.maxContainerElements && depth <= c.limits.maxTreeDepth + 1
    ensures CostFits(c, WalkPairsCost(c, h, ps, depth, st), st.elements, WalkPairs(c, h, ps, depth, st))
    decreases c.Room(depth), 1, |ps|
  {
    hide Walk;
    if ps != [] {
      WalkBounded(c, h, ps[0].0, depth, st);
      var k := Walk(c, h, ps[0].0, depth, st);
      if k.Ok? {
        WalkBounded(c, h, ps[0].1, depth, k.value.1);
        var v := Walk(c, h, ps[0].1, depth, k.value.1);
        if v.Ok? {
          WalkPairsBounded(c, h, ps[1..], depth, v.value.1);
        }
      }
    }
  }

  /** Whatever the graph, `encode` makes at most one call more than the element
      limit and never goes deeper than one past the depth limit. */
  lemma EncodeBounded<R>(c: Codec, h: Heap<R>, root: R)
    ensures WalkCost(c, h, root, 0, EMPTY_STATE).calls <= c.limits.maxContainerElements + 1
    ensures WalkCost(c, h, root, 0, EMPTY_STATE).deepest <= c.limits.maxTreeDepth + 1
  {
    WalkBounded(c, h, root, 0, EMPTY_STATE);
  }

  // ---------- Cycles ----------

  ghost predicate RefersTo<R>(o: PyObj<R>, x: R) {
    match o
    case OList(items) => x in items
    case OTuple(items) => x in items
    case ODict(entries) => exists i | 0 <= i < |entries| :: entries[i].0 == x || entries[i].1 == x
    case OInstance(_, fields) => fields == Some(x)
    case _ => false
  }

  /** Each object on the path refers to the next one. */
  ghost predicate IsPath<R>(h: Heap<R>, path: seq<R>) {
    path != [] && forall i | 0 <= i < |path| - 1 :: RefersTo(h.view(path[i]), path[i + 1])
  }

  lemma {:induction false} WalkAllVisits<R>(c: Codec, h: Heap<R>, rs: seq<R>, depth: nat, st: EncodeState, x: R)
    returns (st': EncodeState)
    requires WalkAll(c, h, rs, depth, st).Ok? && x in rs
    ensures Walk(c, h, x, depth, st').Ok?
    decreases |rs|
  {
    hide Walk;
    if x == rs[0] {
      st' := st;
    } else {
      st' := WalkAllVisits(c, h, rs[1..], depth, Walk(c, h, rs[0], depth, st).value.1, x);
    }
  }

  lemma {:induction false} WalkPairsVisits<R>(
    c: Codec, h: Heap<R>, ps: seq<(R, R)>, depth: nat, st: EncodeState, i: nat, x: R)
    returns (st': EncodeState)
    requires WalkPairs(c, h, ps, depth, st).Ok? && i < |ps| && (ps[i].0 == x || ps[i].1 == x)
    ensures Walk(c, h, x, depth, st').Ok?
    decreases |ps|
  {
    hide Walk;
    var k := Walk(c, h, ps[0].0, depth, st);
    var v := Walk(c, h, ps[0].1, depth, k.value.1);
    if i > 0 {
      st' := WalkPairsVisits(c, h, ps[1..], depth, v.value.1, i - 1, x);
    } else {
      st' := if ps[0].0 == x then st else k.value.1;
    }
  }

  /** Every path from an accepted object ends within the depth limit. */
  lemma {:induction false} PathsBounded<R>(c: Codec, h: Heap<R>, path: seq<R>, depth: nat, st: EncodeState)
    requires IsPath(h, path) && Walk(c, h, path[0], depth, st).Ok?
    ensures depth + |path| <= c.limits.maxTreeDepth + 1
    decreases |path|
  {
    if |path| > 1 {
      var o, next := h.view(path[0]), path[1];
      assert RefersTo(h.view(path[0]), path[0 + 1]);
      var st1 := st.(elements := st.elements + 1);
      var st2: EncodeState;
      if o.OList? || o.OTuple? {
        st2 := WalkAllVisits(c, h, o.items, depth + 1, st1, next);
      } else if o.ODict? {
        var i :| 0 <= i < |o.entries| && (o.entries[i].0 == next || o.entries[i].1 == next);
        st2 := WalkPairsVisits(c, h, o.entries, depth + 1, st1, i, next);
      } else {
        st2 := st1;
      }
      assert IsPath(h, path[1..]) by {
        forall i | 0 <= i < |path[1..]| - 1
          ensures RefersTo(h.view(path[1..][i]), path[1..][i + 1])
        {
          assert RefersTo(h.view(path[i + 1]), path[i + 1 + 1]);
        }
      }
      PathsBounded(c, h, path[1..], depth + 1, st2);
    }
  }

  lemma JoinPaths<R>(h: Heap<R>, a: seq<R>, b: seq<R>)
    requires IsPath(h, a) && IsPath(h, b) && a[|a| - 1] == b[0]
    ensures IsPath(h, a + b[1..])
  {
    var p := a + b[1..];
    forall i | 0 <= i < |p| - 1
      ensures RefersTo(h.view(p[i]), p[i + 1])
    {
      if i >= |a| - 1 {
        var k := i - (|a| - 1);
        assert RefersTo(h.view(b[k]), b[k + 1]);
        assert p[i] == b[k] && p[i + 1] == b[k + 1];
      }
    }
  }

  /** A path that enters a cycle can be made as long as one likes. */
  lemma {:induction false} GoRound<R>(h: Heap<R>, path: seq<R>, cycle: seq<R>, n: nat) returns (longer: seq<R>)
    requires IsPath(h, path) && IsPath(h, cycle) && |cycle| > 1
    requires path[|path| - 1] == cycle[0] == cycle[|cycle| - 1]
    ensures IsPath(h, longer) && longer[0] == path[0] && |longer| >= n
    ensures longer[|longer| - 1] == cycle[0]
    decreases n
  {
    if n == 0 {
      longer := path;
    } else {
      var shorter := GoRound(h, path, cycle, n - 1);
      JoinPaths(h, shorter, cycle);
      longer := shorter + cycle[1..];
    }
  }

  /** A graph in which a cycle can be reached is always refused. */
  lemma CyclesRefused<R>(c: Codec, h: Heap<R>, path: seq<R>, cycle: seq<R>)
    requires IsPath(h, path) && IsPath(h, cycle) && |cycle| > 1
    requires path[|path| - 1] == cycle[0] == cycle[|cycle| - 1]
    ensures Encode(c, h, path[0]).Err?
  {
    var longer := GoRound(h, path, cycle, c.limits.maxTreeDepth + 2);
    if Encode(c, h, path[0]).Ok? {
      PathsBounded(c, h, longer, 0, EMPTY_STATE);
    }
  }
}
