/** The order in which a catalog push sends its feature groups: every group after the groups it includes. */
module Groups {
  import opened Wrappers

  datatype FeatureGroup = FeatureGroup(id: string, caption: string, includes: seq<string>, features: seq<string>)

  datatype GroupError = Undefined(id: string) | Cycle(id: string)

  type Graph = map<string, FeatureGroup>

  // ----- the include graph

  /** Groups by identifier; a later group replaces an earlier one of the same name. */
  function Collect(groups: seq<FeatureGroup>): (g: Graph)
    ensures forall id :: id in g ==> g[id].id == id && g[id] in groups
    ensures forall i :: 0 <= i < |groups| ==> groups[i].id in g
  {
    if |groups| == 0 then map[]
    else Collect(groups[..|groups| - 1])[groups[|groups| - 1].id := groups[|groups| - 1]]
  }

  lemma {:induction false} CollectLast(groups: seq<FeatureGroup>, i: nat)
    requires i < |groups| && forall j :: i < j < |groups| ==> groups[j].id != groups[i].id
    ensures groups[i].id in Collect(groups) && Collect(groups)[groups[i].id] == groups[i]
  {
    if i < |groups| - 1 {
      CollectLast(groups[..|groups| - 1], i);
    }
  }

  ghost predicate WellKeyed(g: Graph) {
    forall id :: id in g ==> g[id].id == id
  }

  ghost predicate Includes(g: Graph, from: string, to: string) {
    from in g && to in g[from].includes
  }

  /** Each name includes the next. */
  ghost predicate Walk(g: Graph, w: seq<string>) {
    forall i :: 0 <= i < |w| - 1 ==> Includes(g, w[i], w[i + 1])
  }

  ghost predicate ClosedWalk(g: Graph, id: string, w: seq<string>) {
    |w| >= 2 && w[0] == id && w[|w| - 1] == id && Walk(g, w)
  }

  ghost predicate Acyclic(g: Graph) {
    forall id, w :: !ClosedWalk(g, id, w)
  }

  ghost predicate AllDefined(g: Graph) {
    forall from, to :: Includes(g, from, to) ==> to in g
  }

  /** Why an order cannot exist. */
  ghost predicate Witnessed(g: Graph, e: GroupError) {
    match e
    case Undefined(id) => id !in g && exists from :: Includes(g, from, id)
    case Cycle(id) => exists w :: ClosedWalk(g, id, w)
  }

  // ----- orders

  ghost predicate Listed(order: seq<FeatureGroup>, id: string) {
    exists j :: 0 <= j < |order| && order[j].id == id
  }

  /** Distinct groups of the graph, each after everything it includes. */
  ghost predicate Topological(g: Graph, order: seq<FeatureGroup>) {
    && (forall i, j :: 0 <= i < j < |order| ==> order[i].id != order[j].id)
    && (forall i :: 0 <= i < |order| ==> order[i].id in g && g[order[i].id] == order[i])
    && (forall i, to :: 0 <= i < |order| && to in order[i].includes ==> Listed(order[..i], to))
  }

  lemma ListedMonotone(order: seq<FeatureGroup>, more: seq<FeatureGroup>, id: string)
    requires Listed(order, id)
    ensures Listed(order + more, id)
  {
    var j :| 0 <= j < |order| && order[j].id == id;
    assert (order + more)[j].id == id;
  }

  lemma TopologicalAppend(g: Graph, order: seq<FeatureGroup>, group: FeatureGroup)
    requires Topological(g, order)
    requires group.id in g && g[group.id] == group && !Listed(order, group.id)
    requires forall to :: to in group.includes ==> Listed(order, to)
    ensures Topological(g, order + [group])
  {
    var next := order + [group];
    forall i, to | 0 <= i < |next| && to in next[i].includes
      ensures Listed(next[..i], to)
    {
      if i < |order| {
        assert next[..i] == order[..i] && next[i] == order[i];
      } else {
        assert next[..i] == order;
      }
    }
    forall i, j | 0 <= i < j < |next|
      ensures next[i].id != next[j].id
    {
      if j == |order| {
        assert order[i].id == next[i].id;
      }
    }
  }

  lemma WalkPrefix(g: Graph, w: seq<string>)
    requires Walk(g, w) && |w| > 0
    ensures Walk(g, w[..|w| - 1])
  {
  }

  /** Along a walk, positions in a topological order fall. */
  lemma {:induction false} WalkDescends(g: Graph, order: seq<FeatureGroup>, w: seq<string>, p: nat) returns (q: nat)
    requires Topological(g, order) && Walk(g, w) && |w| > 0
    requires p < |order| && order[p].id == w[0]
    ensures q < |order| && order[q].id == w[|w| - 1]
    ensures |w| > 1 ==> q < p
    ensures |w| == 1 ==> q == p
  {
    if |w| == 1 {
      q := p;
    } else {
      var init := w[..|w| - 1];
      WalkPrefix(g, w);
      var r := WalkDescends(g, order, init, p);
      assert Includes(g, w[|w| - 2], w[|w| - 1]);
      assert Listed(order[..r], w[|w| - 1]);
      q :| 0 <= q < r && order[..r][q].id == w[|w| - 1];
    }
  }

  /** A complete order exists only over a graph with no dangling include and no cycle. */
  lemma OrderedMeansAcyclic(g: Graph, order: seq<FeatureGroup>)
    requires Topological(g, order) && forall id :: id in g ==> Listed(order, id)
    ensures AllDefined(g) && Acyclic(g)
  {
    forall from, to | Includes(g, from, to)
      ensures to in g
    {
      var i :| 0 <= i < |order| && order[i].id == from;
      assert Listed(order[..i], to);
    }
    forall id, w
      ensures !ClosedWalk(g, id, w)
    {
      if ClosedWalk(g, id, w) {
        assert Includes(g, w[0], w[1]);
        var p :| 0 <= p < |order| && order[p].id == id;
        var q := WalkDescends(g, order, w, p);
      }
    }
  }

  // ----- the depth-first traversal

  class Traversal {
    var visiting: set<string>
    var visited: set<string>
    var ordered: seq<FeatureGroup>

    constructor ()
      ensures visiting == {} && visited == {} && ordered == []
    {
      visiting, visited, ordered := {}, {}, [];
    }

    ghost predicate Valid(g: Graph)
      reads this
    {
      && WellKeyed(g) && Topological(g, ordered)
      && (forall id :: id in visited <==> Listed(ordered, id))
      && visiting !! visited
    }

    /** `stack` is the chain of calls in progress; `visiting` holds exactly its members. */
    method Visit(id: string, g: Graph, ghost stack: seq<string>) returns (r: Result<(), GroupError>)
      requires Valid(g) && visiting <= g.Keys
      requires forall x :: x in visiting <==> x in stack
      requires Walk(g, stack + [id]) && (stack == [] ==> id in g)
      modifies this
      ensures r.Ok? ==> Valid(g) && visiting == old(visiting) && old(visited) <= visited && id in visited
      ensures r.Err? ==> Witnessed(g, r.error)
      decreases g.Keys - visiting
    {
      if id !in g {
        assert Includes(g, (stack + [id])[|stack| - 1], (stack + [id])[|stack|]);
        return Err(Undefined(id));
      }
      var group := g[id];
      if group.id in visited {
        return Ok(());
      }
      if group.id in visiting {
        CycleOnStack(g, stack, id);
        return Err(Cycle(id));
      }
      visiting := visiting + {group.id};
      ghost var deeper := stack + [id];
      for i := 0 to |group.includes|
        invariant Valid(g) && visiting == old(visiting) + {id} && old(visited) <= visited
        invariant forall j :: 0 <= j < i ==> group.includes[j] in visited
      {
        var included := group.includes[i];
        WalkExtends(g, deeper, included);
        var sub := Visit(included, g, deeper);
        if sub.Err? {
          return sub;
        }
      }
      visiting := visiting - {group.id};
      visited := visited + {group.id};
      TopologicalAppend(g, ordered, group);
      ListedAfterAppend(ordered, group);
      ordered := ordered + [group];
      return Ok(());
    }
  }

  lemma ListedAfterAppend(order: seq<FeatureGroup>, group: FeatureGroup)
    ensures forall id :: Listed(order + [group], id) <==> Listed(order, id) || id == group.id
  {
    assert (order + [group])[|order|].id == group.id;
    forall id | Listed(order, id)
      ensures Listed(order + [group], id)
    {
      ListedMonotone(order, [group], id);
    }
  }

  lemma WalkExtends(g: Graph, w: seq<string>, to: string)
    requires Walk(g, w) && |w| > 0 && Includes(g, w[|w| - 1], to)
    ensures Walk(g, w + [to])
  {
  }

  /** Meeting a name already on the stack closes a walk. */
  lemma CycleOnStack(g: Graph, stack: seq<string>, id: string)
    requires Walk(g, stack + [id]) && id in stack
    ensures exists w :: ClosedWalk(g, id, w)
  {
    var i :| 0 <= i < |stack| && stack[i] == id;
    var w := stack[i..] + [id];
    assert w == (stack + [id])[i..];
    assert ClosedWalk(g, id, w);
  }

  /** The push order, or the reason there is none. */
  method OrderedGroups(groups: seq<FeatureGroup>) returns (r: Result<seq<FeatureGroup>, GroupError>)
    ensures r.Ok? <==> AllDefined(Collect(groups)) && Acyclic(Collect(groups))
    ensures r.Ok? ==> Topological(Collect(groups), r.value)
    ensures r.Ok? ==> forall id :: id in Collect(groups) <==> Listed(r.value, id)
    ensures r.Err? ==> Witnessed(Collect(groups), r.error)
  {
    var g := Collect(groups);
    var t := new Traversal();
    var todo := g.Keys;
    while todo != {}
      invariant t.Valid(g) && t.visiting == {}
      invariant todo <= g.Keys && g.Keys - todo <= t.visited
      decreases todo
    {
      var id :| id in todo;
      var sub := t.Visit(id, g, []);
      if sub.Err? {
        return Err(sub.error);
      }
      todo := todo - {id};
    }
    OrderedMeansAcyclic(g, t.ordered);
    return Ok(t.ordered);
  }
}
