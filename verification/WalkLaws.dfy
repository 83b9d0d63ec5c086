/** When the walk ends, in which order it delegates, and what a failure or incapable peers do to it. */
module WalkLaws {
  import opened Values
  import opened Walk

  // ---------------------------------------------------------------- termination

  /** The walk with a bound on its depth of recursion, for any delegate; None when the bound is hit. */
  function Bounded(d: Delegate, log: seq<Json>, node: Json, fuel: nat): Option<Walked<Json>>
    decreases fuel
  {
    if fuel == 0 then None
    else
      match Transform(d, log, node)
      case Fail(message, log') => Some(Aborted(message, log'))
      case Go(t, log') =>
        match BoundedAll(d, log', Children(t), fuel - 1)
        case None => None
        case Some(Aborted(message, log'')) => Some(Aborted(message, log''))
        case Some(Finished(children, log'')) =>
          if |children| == |Children(t)| then Some(Finished(Rebuild(t, children), log'')) else None
  }

  function BoundedAll(d: Delegate, log: seq<Json>, nodes: seq<Json>, fuel: nat): Option<Walked<seq<Json>>>
    decreases fuel
  {
    if nodes == [] then Some(Finished([], log))
    else if fuel == 0 then None
    else
      match Bounded(d, log, nodes[0], fuel - 1)
      case None => None
      case Some(Aborted(message, log')) => Some(Aborted(message, log'))
      case Some(Finished(first, log')) =>
        match BoundedAll(d, log', nodes[1..], fuel - 1)
        case None => None
        case Some(Aborted(message, log'')) => Some(Aborted(message, log''))
        case Some(Finished(others, log'')) => Some(Finished([first] + others, log''))
  }

  predicate EndsBy(d: Delegate, log: seq<Json>, node: Json, fuel: nat)
    requires Tame(d)
  {
    Bounded(d, log, node, fuel) == Some(Walk.Walk(d, log, node))
  }

  predicate AllEndBy(d: Delegate, log: seq<Json>, nodes: seq<Json>, fuel: nat)
    requires Tame(d)
  {
    BoundedAll(d, log, nodes, fuel) == Some(WalkAll(d, log, nodes))
  }

  /** With a tame delegate some depth is enough, and so is any greater one. */
  lemma {:induction false} Terminates(d: Delegate, log: seq<Json>, node: Json) returns (fuel: nat)
    requires Tame(d)
    ensures forall f: nat :: f >= fuel ==> EndsBy(d, log, node, f)
    decreases CodeCount(node), Size(node), 1
  {
    match Transform(d, log, node)
    case Fail(_, _) => fuel := 1;
    case Go(t, log') =>
      ChildrenMeasure(t);
      var k := AllTerminate(d, log', Children(t));
      fuel := k + 1;
      forall f: nat | f >= fuel ensures EndsBy(d, log, node, f) {
        assert AllEndBy(d, log', Children(t), f - 1);
      }
  }

  lemma {:induction false} AllTerminate(d: Delegate, log: seq<Json>, nodes: seq<Json>) returns (fuel: nat)
    requires Tame(d)
    ensures forall f: nat :: f >= fuel ==> AllEndBy(d, log, nodes, f)
    decreases CodeSum(nodes), SizeSum(nodes), 0
  {
    if nodes == [] { return 0; }
    var k := Terminates(d, log, nodes[0]);
    var l := 0;
    var first := Walk.Walk(d, log, nodes[0]);
    if first.Finished? { l := AllTerminate(d, first.log, nodes[1..]); }
    fuel := k + l + 1;
    forall f: nat | f >= fuel ensures AllEndBy(d, log, nodes, f) {
      assert EndsBy(d, log, nodes[0], f - 1);
      if first.Finished? { assert AllEndBy(d, first.log, nodes[1..], f - 1); }
    }
  }

  /** A peer that returns the node it was given inside another code node. */
  const Nesting: Delegate := (log: seq<Json>, node: Json) =>
    Done(Obj([Entry("content", node), Entry("type", Str("CodeChunk"))]))

  lemma NestingIsCode(node: Json)
    ensures var t := Obj([Entry("content", node), Entry("type", Str("CodeChunk"))]);
      IsCode(t) && Children(t) == [node, Str("CodeChunk")]
  {
    var e := [Entry("content", node), Entry("type", Str("CodeChunk"))];
    assert e[..1] == [Entry("content", node)];
    assert e[1..] == [Entry("type", Str("CodeChunk"))];
    assert EntryValues(e[1..]) == [Str("CodeChunk")];
  }

  /** Without tameness the walk need not end: with that peer no depth of recursion is enough. */
  lemma {:induction false} NestingNeverEnds(log: seq<Json>, node: Json, fuel: nat)
    requires IsCode(node)
    ensures Bounded(Nesting, log, node, fuel) == None
    decreases fuel
  {
    NestingIsCode(node);
    if fuel > 2 { NestingNeverEnds(log + [node], node, fuel - 2); }
  }

  /** The walk of a list, with the walk of its first node written out. */
  lemma Unfold(d: Delegate, log: seq<Json>, nodes: seq<Json>)
    requires Tame(d) && nodes != []
    ensures WalkAll(d, log, nodes) ==
      match Transform(d, log, nodes[0])
      case Fail(message, log') => Aborted(message, log')
      case Go(t, log') =>
        match WalkAll(d, log', Children(t))
        case Aborted(message, log'') => Aborted(message, log'')
        case Finished(children, log'') =>
          match WalkAll(d, log'', nodes[1..])
          case Aborted(message, last) => Aborted(message, last)
          case Finished(others, last) => Finished([Rebuild(t, children)] + others, last)
  {
    match Transform(d, log, nodes[0])
    case Fail(_, _) =>
    case Go(t, log') => ChildrenMeasure(t); assert Walk.Walk(d, log, nodes[0]) == WalkChildren(d, log', t);
  }

  // ---------------------------------------------------------------- order

  lemma {:induction false} SumsConcat(a: seq<Json>, b: seq<Json>)
    ensures CodeSum(a + b) == CodeSum(a) + CodeSum(b)
    ensures SizeSum(a + b) == SizeSum(a) + SizeSum(b)
  {
    if a == [] {
      assert a + b == b;
    } else {
      assert (a + b)[1..] == a[1..] + b;
      SumsConcat(a[1..], b);
    }
  }

  /** What stands directly in an array or an object, in the order of the document. */
  function Parts(node: Json): seq<Json> {
    match node
    case Arr(items) => items
    case Obj(entries) => seq(|entries|, i requires 0 <= i < |entries| => entries[i].value)
    case _ => []
  }

  lemma {:induction false} PartsAreChildren(node: Json)
    ensures Children(node) == Parts(node)
  {
    if node.Obj? {
      forall i | 0 <= i < |node.entries| ensures EntryValues(node.entries)[i] == node.entries[i].value {
        ValueAt(node.entries, i);
      }
    }
  }

  /**
   * Depth-first pre-order by a worklist: the next node is taken from the front and transformed,
   * and the children of the result go back to the front. The result lists what was delegated.
   */
  function Visit(d: Delegate, log: seq<Json>, stack: seq<Json>): seq<Json>
    requires Tame(d)
    decreases CodeSum(stack), SizeSum(stack)
  {
    if stack == [] then log
    else
      match Transform(d, log, stack[0])
      case Fail(_, log') => log'
      case Go(t, log') =>
        ChildrenMeasure(t);
        PartsAreChildren(t);
        SumsConcat(Parts(t), stack[1..]);
        Visit(d, log', Parts(t) + stack[1..])
  }

  lemma {:induction false} VisitAgrees(d: Delegate, log: seq<Json>, nodes: seq<Json>, others: seq<Json>)
    requires Tame(d)
    ensures Visit(d, log, nodes + others) ==
      match WalkAll(d, log, nodes)
      case Finished(_, log') => Visit(d, log', others)
      case Aborted(_, log') => log'
    decreases CodeSum(nodes), SizeSum(nodes)
  {
    if nodes == [] {
      assert nodes + others == others;
    } else {
      assert (nodes + others)[1..] == nodes[1..] + others;
      Unfold(d, log, nodes);
      match Transform(d, log, nodes[0])
      case Fail(_, _) =>
      case Go(t, log') =>
        ChildrenMeasure(t);
        PartsAreChildren(t);
        VisitAgrees(d, log', Children(t), nodes[1..] + others);
        match WalkAll(d, log', Children(t))
        case Aborted(_, _) =>
        case Finished(_, log'') => VisitAgrees(d, log'', nodes[1..], others);
    }
  }

  /** Nodes are delegated in depth-first pre-order, each after the ones before it were answered. */
  lemma DelegatesInPreorder(d: Delegate, node: Json)
    requires Tame(d)
    ensures Walk.Walk(d, [], node).log == Visit(d, [], [node])
  {
    VisitAgrees(d, [], [node], []);
    assert [node] + [] == [node];
  }

  /** The delegate whose failures count as incapacity. */
  function Lenient(d: Delegate): Delegate {
    (log: seq<Json>, node: Json) => if d(log, node).Failed? then Incapable else d(log, node)
  }

  predicate Handled(d: Delegate, log: seq<Json>, from: nat, to: nat)
    requires to <= |log|
  {
    forall i :: from <= i < to ==> !d(log[..i], log[i]).Failed?
  }

  /** What the log says about failures: the last delegation of an aborted walk failed, and no other. */
  predicate Accounts<T>(d: Delegate, log: seq<Json>, w: Walked<T>) {
    && log <= w.log
    && match w
       case Finished(_, log') => Handled(d, log', |log|, |log'|)
       case Aborted(message, log') =>
         && |log| < |log'|
         && Handled(d, log', |log|, |log'| - 1)
         && d(log'[..|log'| - 1], log'[|log'| - 1]) == Failed(message)
  }

  lemma {:induction false} LogsGrow(d: Delegate, log: seq<Json>, nodes: seq<Json>)
    requires Tame(d)
    ensures log <= WalkAll(d, log, nodes).log
    decreases CodeSum(nodes), SizeSum(nodes)
  {
    if nodes != [] {
      Unfold(d, log, nodes);
      match Transform(d, log, nodes[0])
      case Fail(_, _) =>
      case Go(t, log') =>
        ChildrenMeasure(t);
        LogsGrow(d, log', Children(t));
        var w := WalkAll(d, log', Children(t));
        if w.Finished? { LogsGrow(d, w.log, nodes[1..]); }
    }
  }

  lemma HandledMore(d: Delegate, a: seq<Json>, b: seq<Json>, from: nat, to: nat)
    requires a <= b && to <= |a| && Handled(d, a, from, to)
    ensures Handled(d, b, from, to)
  {
    forall i | from <= i < to ensures !d(b[..i], b[i]).Failed? { assert a[..i] == b[..i]; }
  }

  /** Accounts of the parts of a walk make an account of the whole. */
  lemma Joined<T, U>(d: Delegate, log: seq<Json>, w: Walked<T>, w': Walked<U>)
    requires w.Finished? && Accounts(d, log, w) && Accounts(d, w.log, w')
    ensures Accounts(d, log, w')
  {
    HandledMore(d, w.log, w'.log, |log|, |w.log|);
  }

  lemma {:induction false} FailuresAccounted(d: Delegate, log: seq<Json>, nodes: seq<Json>)
    requires Tame(d)
    ensures Accounts(d, log, WalkAll(d, log, nodes))
    decreases CodeSum(nodes), SizeSum(nodes)
  {
    if nodes != [] {
      Unfold(d, log, nodes);
      StepAccounted(d, log, nodes[0]);
      match Transform(d, log, nodes[0])
      case Fail(_, _) =>
      case Go(t, log') =>
        ChildrenMeasure(t);
        FailuresAccounted(d, log', Children(t));
        var w := WalkAll(d, log', Children(t));
        Joined(d, log, Finished(t, log'), w);
        if w.Finished? {
          FailuresAccounted(d, w.log, nodes[1..]);
          Joined(d, log, w, WalkAll(d, w.log, nodes[1..]));
        }
    }
  }

  lemma StepAccounted(d: Delegate, log: seq<Json>, node: Json)
    ensures match Transform(d, log, node)
      case Fail(message, log') => Accounts<Json>(d, log, Aborted(message, log'))
      case Go(t, log') => Accounts(d, log, Finished(t, log'))
  {
    if IsCode(node) { assert (log + [node])[..|log|] == log; }
  }

  lemma LenientTame(d: Delegate)
    requires Tame(d)
    ensures Tame(Lenient(d))
  {
    forall log, n | IsCode(n) && Lenient(d)(log, n).Done?
      ensures CodeBelow(Lenient(d)(log, n).node) < CodeCount(n)
    {
      assert d(log, n).Done?;
    }
  }

  /** Up to its failure, a walk that aborts goes as the lenient walk does. */
  lemma {:induction false} AbortedIsPrefix(d: Delegate, log: seq<Json>, nodes: seq<Json>)
    requires Tame(d) && Tame(Lenient(d))
    ensures match WalkAll(d, log, nodes)
      case Finished(_, _) => WalkAll(Lenient(d), log, nodes) == WalkAll(d, log, nodes)
      case Aborted(_, log') => log' <= WalkAll(Lenient(d), log, nodes).log
    decreases CodeSum(nodes), SizeSum(nodes)
  {
    if nodes != [] {
      Unfold(d, log, nodes);
      Unfold(Lenient(d), log, nodes);
      var whole := WalkAll(Lenient(d), log, nodes);
      match Transform(Lenient(d), log, nodes[0])
      case Fail(_, _) =>
      case Go(t, log') =>
        ChildrenMeasure(t);
        LogsGrow(Lenient(d), log', Children(t));
        var lenient := WalkAll(Lenient(d), log', Children(t));
        if lenient.Finished? { LogsGrow(Lenient(d), lenient.log, nodes[1..]); }
        assert log' <= lenient.log <= whole.log;
        if Transform(d, log, nodes[0]).Go? {
          AbortedIsPrefix(d, log', Children(t));
          var w := WalkAll(d, log', Children(t));
          if w.Finished? { AbortedIsPrefix(d, w.log, nodes[1..]); }
        }
    }
  }

  lemma Single(d: Delegate, node: Json)
    requires Tame(d)
    ensures WalkAll(d, [], [node]) ==
      match Walk.Walk(d, [], node)
      case Finished(v, log) => Finished([v], log)
      case Aborted(message, log) => Aborted(message, log)
    ensures WalkAll(d, [], [node]).Finished? ==>
      WalkAll(d, [], [node]).value[0] == Walk.Walk(d, [], node).value
  {
    assert [node][1..] == [];
    match Walk.Walk(d, [], node)
    case Aborted(_, _) =>
    case Finished(v, log) =>
      assert WalkAll(d, log, [node][1..]) == Finished([], log);
      assert [v] + [] == [v];
  }

  /**
   * If a peer fails for another reason than incapacity, the walk ends with that failure, and what
   * was delegated is exactly the beginning of the order in which everything would have been.
   */
  lemma FailureStopsTheWalk(d: Delegate, node: Json)
    requires Tame(d)
    ensures Tame(Lenient(d))
    ensures var w, whole := Walk.Walk(d, [], node), Walk.Walk(Lenient(d), [], node);
      match w
      case Finished(_, log) => whole == w && Handled(d, log, 0, |log|)
      case Aborted(message, log) =>
        && 0 < |log| && log <= whole.log && Handled(d, log, 0, |log| - 1)
        && d(log[..|log| - 1], log[|log| - 1]) == Failed(message)
  {
    LenientTame(d);
    FailuresAccounted(d, [], [node]);
    AbortedIsPrefix(d, [], [node]);
    Single(d, node);
    Single(Lenient(d), node);
  }

  // ---------------------------------------------------------------- neutrality

  /** The type of a node is the value of the last entry with that key: here, one of the two kinds of code. */
  predicate TypedCode(node: Json) {
    node.Obj? && exists i :: 0 <= i < |node.entries| && LastType(node.entries, i) && NamesCode(node.entries[i].value)
  }

  predicate NamesCode(value: Json) { value.Str? && (value.s == "CodeChunk" || value.s == "CodeExpression") }

  predicate LastType(entries: seq<Entry>, i: nat)
    requires i < |entries|
  {
    entries[i].key == "type" && forall j :: i < j < |entries| ==> entries[j].key != "type"
  }

  lemma CodeByType(node: Json)
    ensures IsCode(node) <==> TypedCode(node)
  {
    if node.Obj? {
      var entries := node.entries;
      if "type" in Fields(entries) {
        var k := FieldAt(entries, "type");
        assert LastType(entries, k);
      } else {
        forall i | 0 <= i < |entries| ensures entries[i].key != "type" { HasField(entries, i); }
      }
    }
  }

  /** The code nodes of a document in pre-order, nested ones included. */
  function CodeNodes(node: Json): seq<Json>
    decreases node, 0
  {
    (if TypedCode(node) then [node] else []) +
    match node
    case Arr(items) => CodeNodesOf(items)
    case Obj(entries) => CodeNodesIn(entries)
    case _ => []
  }

  function CodeNodesOf(nodes: seq<Json>): seq<Json>
    decreases nodes, 1
  {
    if nodes == [] then [] else CodeNodes(nodes[0]) + CodeNodesOf(nodes[1..])
  }

  function CodeNodesIn(entries: seq<Entry>): seq<Json>
    decreases entries, 1
  {
    if entries == [] then [] else CodeNodes(entries[0].value) + CodeNodesIn(entries[1..])
  }

  lemma {:induction false} CodeNodesOfValues(entries: seq<Entry>)
    ensures CodeNodesOf(EntryValues(entries)) == CodeNodesIn(entries)
  {
    if entries != [] { CodeNodesOfValues(entries[1..]); }
  }

  /** The node itself, and then what is below it. */
  lemma CodeNodesBelow(node: Json)
    ensures CodeNodes(node) == (if IsCode(node) then [node] else []) + CodeNodesOf(Children(node))
  {
    CodeByType(node);
    if node.Obj? { CodeNodesOfValues(node.entries); }
  }

  lemma {:induction false} WalkIsNeutral(d: Delegate, log: seq<Json>, nodes: seq<Json>)
    requires Tame(d) && forall l, n :: d(l, n) == Incapable
    ensures WalkAll(d, log, nodes) == Finished(nodes, log + CodeNodesOf(nodes))
    decreases SizeSum(nodes)
  {
    if nodes == [] {
      assert log + [] == log;
    } else {
      var node := nodes[0];
      var own := if IsCode(node) then [node] else [];
      var below, after := CodeNodesOf(Children(node)), CodeNodesOf(nodes[1..]);
      ChildrenMeasure(node);
      CodeNodesBelow(node);
      WalkIsNeutral(d, log + own, Children(node));
      WalkIsNeutral(d, log + own + below, nodes[1..]);
      IncapableFirst(d, log, nodes, own, below, after);
      Reassociate(log, own, below, after);
    }
  }

  /** The walk of a list whose first node, and everything below it, is beyond the peers. */
  lemma IncapableFirst(d: Delegate, log: seq<Json>, nodes: seq<Json>, own: seq<Json>, below: seq<Json>, after: seq<Json>)
    requires Tame(d) && nodes != [] && d(log, nodes[0]) == Incapable
    requires own == if IsCode(nodes[0]) then [nodes[0]] else []
    requires WalkAll(d, log + own, Children(nodes[0])) == Finished(Children(nodes[0]), log + own + below)
    requires WalkAll(d, log + own + below, nodes[1..]) == Finished(nodes[1..], log + own + below + after)
    ensures WalkAll(d, log, nodes) == Finished(nodes, log + own + below + after)
  {
    IncapableStep(d, log, nodes[0]);
    Unfold(d, log, nodes);
    RebuildSame(nodes[0]);
    assert [nodes[0]] + nodes[1..] == nodes;
  }

  lemma IncapableStep(d: Delegate, log: seq<Json>, node: Json)
    requires d(log, node) == Incapable
    ensures Transform(d, log, node) == Go(node, log + if IsCode(node) then [node] else [])
  {
    assert log + [] == log;
  }

  lemma Reassociate(a: seq<Json>, b: seq<Json>, c: seq<Json>, e: seq<Json>)
    ensures a + b + c + e == a + (b + c + e)
  {}

  /** If no peer is capable, every code node is tried, and the document comes back unchanged. */
  lemma NoPeerNoChange(d: Delegate, node: Json)
    requires forall l, n :: d(l, n) == Incapable
    ensures Tame(d) && Walk.Walk(d, [], node) == Finished(node, CodeNodes(node))
  {
    WalkIsNeutral(d, [], [node]);
    assert CodeNodesOf([node]) == CodeNodes(node) by { assert [node][1..] == []; }
    assert [] + CodeNodes(node) == CodeNodes(node);
    Single(d, node);
  }
}
