/** What a second walk of the same document changes. */
module WalkTwice {
  import opened Values
  import opened Walk
  import opened WalkLaws

  /** A delegate whose answers do not depend on what was delegated before. */
  function Pure(f: Json -> Answer): Delegate { (log: seq<Json>, node: Json) => f(node) }

  /** The transformer as a function of the node; only meant where `f` does not fail. */
  function Result(f: Json -> Answer, node: Json): Json {
    if IsCode(node) && f(node).Done? then f(node).node else node
  }

  // ---------------------------------------------------------------- the first walk

  /** Transforming the node does not fail, twice is as once, and no code node is strictly inside the result. */
  predicate CalmAt(f: Json -> Answer, node: Json) {
    var t := Result(f, node);
    && !f(node).Failed?
    && (IsCode(t) ==> !f(t).Failed? && Result(f, t) == t)
    && CodeBelow(t) == 0
  }

  /** So it is for each outermost code node. */
  predicate Calm(f: Json -> Answer, nodes: seq<Json>)
    decreases SizeSum(nodes)
  {
    nodes == [] ||
    (ChildrenMeasure(nodes[0]);
     && (if IsCode(nodes[0]) then CalmAt(f, nodes[0]) else Calm(f, Children(nodes[0])))
     && Calm(f, nodes[1..]))
  }

  /** The document with each outermost code node replaced by its result. */
  function Replaced(f: Json -> Answer, node: Json): Json
    decreases Size(node), 1
  {
    ChildrenMeasure(node);
    if IsCode(node) then Result(f, node) else Rebuild(node, ReplacedAll(f, Children(node)))
  }

  function ReplacedAll(f: Json -> Answer, nodes: seq<Json>): (r: seq<Json>)
    ensures |r| == |nodes|
    decreases SizeSum(nodes), 0
  {
    if nodes == [] then [] else [Replaced(f, nodes[0])] + ReplacedAll(f, nodes[1..])
  }

  lemma {:induction false} ReplacedAt(f: Json -> Answer, nodes: seq<Json>, i: nat)
    requires i < |nodes|
    ensures ReplacedAll(f, nodes)[i] == Replaced(f, nodes[i])
  {
    if i > 0 { ReplacedAt(f, nodes[1..], i - 1); }
  }

  /** Where there are no code nodes there is nothing to replace. */
  lemma {:induction false} NoCodeNoChange(f: Json -> Answer, nodes: seq<Json>)
    requires CodeSum(nodes) == 0
    ensures Calm(f, nodes) && ReplacedAll(f, nodes) == nodes
    decreases SizeSum(nodes)
  {
    if nodes != [] {
      ChildrenMeasure(nodes[0]);
      NoCodeNoChange(f, Children(nodes[0]));
      NoCodeNoChange(f, nodes[1..]);
      RebuildSame(nodes[0]);
      assert [nodes[0]] + nodes[1..] == nodes;
    }
  }

  lemma {:induction false} WalkReplaces(f: Json -> Answer, log: seq<Json>, nodes: seq<Json>)
    requires Tame(Pure(f)) && Calm(f, nodes)
    ensures WalkAll(Pure(f), log, nodes).Finished? && WalkAll(Pure(f), log, nodes).value == ReplacedAll(f, nodes)
    decreases CodeSum(nodes), SizeSum(nodes)
  {
    if nodes != [] {
      var node := nodes[0];
      var step, t := Transform(Pure(f), log, node), Result(f, node);
      assert step == Go(t, step.log);
      ChildrenMeasure(node);
      ChildrenMeasure(t);
      Unfold(Pure(f), log, nodes);
      if IsCode(node) {
        NoCodeNoChange(f, Children(t));
        RebuildSame(t);
      }
      WalkReplaces(f, step.log, Children(t));
      WalkReplaces(f, WalkAll(Pure(f), step.log, Children(t)).log, nodes[1..]);
    }
  }

  lemma OneReplaces(f: Json -> Answer, node: Json)
    requires Tame(Pure(f)) && Calm(f, [node])
    ensures Walk.Walk(Pure(f), [], node).Finished? && Walk.Walk(Pure(f), [], node).value == Replaced(f, node)
  {
    WalkReplaces(f, [], [node]);
    Single(Pure(f), node);
    assert ReplacedAll(f, [node]) == [Replaced(f, node)];
  }

  // ---------------------------------------------------------------- the second walk

  /** An object whose type is a code node that turns into the name of a code type. */
  predicate Promoted(f: Json -> Answer, node: Json) {
    && !IsCode(node) && node.Obj? && "type" in Fields(node.entries)
    && IsCode(Fields(node.entries)["type"])
    && CodeName(Result(f, Fields(node.entries)["type"]))
  }

  lemma {:induction false} ValuesOfWith(entries: seq<Entry>, values: seq<Json>)
    requires |entries| == |values|
    ensures EntryValues(WithValues(entries, values)) == values
  {
    if entries != [] { ValuesOfWith(entries[1..], values[1..]); }
  }

  /** A walk makes a code node of an object just if it is promoted. */
  lemma PromotedIsCode(f: Json -> Answer, node: Json)
    requires !IsCode(node)
    ensures IsCode(Replaced(f, node)) <==> Promoted(f, node)
  {
    if node.Obj? {
      var values := ReplacedAll(f, EntryValues(node.entries));
      var rebuilt := WithValues(node.entries, values);
      assert Replaced(f, node) == Obj(rebuilt);
      if "type" in Fields(rebuilt) {
        var k := FieldAt(rebuilt, "type");
        HasField(node.entries, k);
      }
      if "type" in Fields(node.entries) {
        var i := FieldAt(node.entries, "type");
        HasField(rebuilt, i);
        var k := FieldAt(rebuilt, "type");
        assert node.entries[k].key == "type" && rebuilt[i].key == "type";
        assert i == k;
        ValueAt(node.entries, i);
        ReplacedAt(f, EntryValues(node.entries), i);
        NameIsResult(f, node.entries[i].value);
      }
    }
  }

  /** A type name after the walk was one before, or is the result of a code node. */
  lemma NameIsResult(f: Json -> Answer, node: Json)
    ensures CodeName(Replaced(f, node)) <==> CodeName(if IsCode(node) then Result(f, node) else node)
  {}

  /** Each outermost promoted object, as rebuilt, is a code node that transforming leaves alone. */
  predicate Settled(f: Json -> Answer, nodes: seq<Json>)
    decreases SizeSum(nodes)
  {
    nodes == [] ||
    (ChildrenMeasure(nodes[0]);
     && (if IsCode(nodes[0]) then true
         else if Promoted(f, nodes[0]) then Result(f, Replaced(f, nodes[0])) == Replaced(f, nodes[0])
         else Settled(f, Children(nodes[0])))
     && Settled(f, nodes[1..]))
  }

  lemma {:induction false} RebuildChildren(node: Json, children: seq<Json>)
    requires |children| == |Children(node)|
    ensures Children(Rebuild(node, children)) == children
  {
    if node.Obj? { ValuesOfWith(node.entries, children); }
  }

  lemma CodeStays(f: Json -> Answer, node: Json)
    requires IsCode(node) && CalmAt(f, node)
    ensures Replaced(f, Replaced(f, node)) == Replaced(f, node)
  {
    var t := Result(f, node);
    ChildrenMeasure(t);
    NoCodeNoChange(f, Children(t));
    RebuildSame(t);
  }

  lemma OthersStay(f: Json -> Answer, node: Json)
    requires !IsCode(node) && !Promoted(f, node)
    ensures var below := ReplacedAll(f, Children(node));
      Replaced(f, Replaced(f, node)) == Replaced(f, node) <==> ReplacedAll(f, below) == below
  {
    var below := ReplacedAll(f, Children(node));
    PromotedIsCode(f, node);
    RebuildChildren(node, below);
    RebuildChildren(Replaced(f, node), ReplacedAll(f, below));
    RebuildSame(Replaced(f, node));
  }

  lemma {:induction false} TwiceIsOnce(f: Json -> Answer, nodes: seq<Json>)
    requires Calm(f, nodes)
    ensures ReplacedAll(f, ReplacedAll(f, nodes)) == ReplacedAll(f, nodes) <==> Settled(f, nodes)
    decreases SizeSum(nodes)
  {
    if nodes != [] {
      var node := nodes[0];
      ChildrenMeasure(node);
      TwiceIsOnce(f, nodes[1..]);
      if IsCode(node) {
        CodeStays(f, node);
      } else if Promoted(f, node) {
        PromotedIsCode(f, node);
      } else {
        TwiceIsOnce(f, Children(node));
        OthersStay(f, node);
      }
      ReplacedCons(f, nodes);
    }
  }

  lemma ReplacedCons(f: Json -> Answer, nodes: seq<Json>)
    requires nodes != []
    ensures var r, rest := ReplacedAll(f, nodes), ReplacedAll(f, nodes[1..]);
      ReplacedAll(f, r) == r <==>
        Replaced(f, Replaced(f, nodes[0])) == Replaced(f, nodes[0]) && ReplacedAll(f, rest) == rest
  {
    var r, rest := ReplacedAll(f, nodes), ReplacedAll(f, nodes[1..]);
    assert r[0] == Replaced(f, nodes[0]) && r[1..] == rest;
    assert ReplacedAll(f, r)[0] == Replaced(f, r[0]) && ReplacedAll(f, r)[1..] == ReplacedAll(f, rest);
    assert r == [r[0]] + rest;
  }

  /**
   * As long as the outermost code nodes are calm, in the document and in what it becomes, walking
   * twice is walking once if and only if each object that the first walk made a code node is one
   * that transforming leaves alone.
   */
  lemma WalkIsIdempotent(f: Json -> Answer, node: Json)
    requires Tame(Pure(f)) && Calm(f, [node]) && Calm(f, [Replaced(f, node)])
    ensures var once := Walk.Walk(Pure(f), [], node);
      && once.Finished? && once.value == Replaced(f, node)
      && var twice := Walk.Walk(Pure(f), [], once.value);
         twice.Finished? && (twice.value == once.value <==> Settled(f, [node]))
  {
    OneReplaces(f, node);
    OneReplaces(f, Replaced(f, node));
    TwiceIsOnce(f, [node]);
    assert ReplacedAll(f, [node]) == [Replaced(f, node)];
    assert ReplacedAll(f, [Replaced(f, node)]) == [Replaced(f, Replaced(f, node))];
  }

  /** The transformer never fails, is idempotent, and gives nothing with code nodes strictly inside. */
  ghost predicate Gentle(f: Json -> Answer) { forall n :: IsCode(n) ==> CalmAt(f, n) }

  /** With such a transformer the walk ends, and every document is calm. */
  lemma {:induction false} GentleIsCalm(f: Json -> Answer, nodes: seq<Json>)
    requires Gentle(f)
    ensures Tame(Pure(f)) && Calm(f, nodes)
    decreases SizeSum(nodes)
  {
    forall log, n | IsCode(n) && Pure(f)(log, n).Done? ensures CodeBelow(Pure(f)(log, n).node) < CodeCount(n) {
      assert CalmAt(f, n);
    }
    if nodes != [] {
      ChildrenMeasure(nodes[0]);
      GentleIsCalm(f, Children(nodes[0]));
      GentleIsCalm(f, nodes[1..]);
    }
  }

  /** For every document: walking twice is walking once if and only if the document is settled. */
  lemma GentleIsIdempotent(f: Json -> Answer, node: Json)
    requires Gentle(f)
    ensures Tame(Pure(f))
    ensures var once := Walk.Walk(Pure(f), [], node);
      && once.Finished?
      && var twice := Walk.Walk(Pure(f), [], once.value);
         twice.Finished? && (twice.value == once.value <==> Settled(f, [node]))
  {
    GentleIsCalm(f, [node]);
    GentleIsCalm(f, [Replaced(f, node)]);
    WalkIsIdempotent(f, node);
  }

  const CODE := Obj([Entry("type", Str("CodeExpression"))])

  /** A peer that answers everything with the name of a code type. */
  const Naming: Json -> Answer := (n: Json) => Done(Str("CodeChunk"))

  /** Walking an object whose only entry is a type. */
  lemma WalkOfType(log: seq<Json>, value: Json)
    requires Tame(Pure(Naming))
    ensures var node := Obj([Entry("type", value)]);
      Walk.Walk(Pure(Naming), log, node) ==
        if CodeName(value) then Finished(Str("CodeChunk"), log + [node])
        else
          match Walk.Walk(Pure(Naming), log, value)
          case Finished(v, log') => Finished(Obj([Entry("type", v)]), log')
          case Aborted(message, log') => Aborted(message, log')
  {
    var d, e := Pure(Naming), Entry("type", value);
    OneField(e);
    assert [value][1..] == [] && [e][1..] == [];
    if CodeName(value) {
      assert WalkAll(d, log + [Obj([e])], []) == Finished([], log + [Obj([e])]);
      assert Walk.Walk(d, log, Obj([e])) == WalkChildren(d, log + [Obj([e])], Str("CodeChunk"));
    } else {
      assert Walk.Walk(d, log, Obj([e])) == WalkChildren(d, log, Obj([e]));
      var w := Walk.Walk(d, log, value);
      if w.Finished? {
        assert WalkAll(d, w.log, []) == Finished([], w.log) && [w.value] + [] == [w.value];
        assert WalkAll(d, log, [value]) == Finished([w.value], w.log);
        assert WithValues([e], [w.value]) == [Entry("type", w.value)];
      } else {
        assert WalkAll(d, log, [value]) == Aborted(w.message, w.log);
      }
    }
  }

  /**
   * An object of which the first walk makes a code node, and which the second one delegates. As an
   * element of an array the same type name does no harm.
   */
  lemma TypeNameBreaksIdempotence()
    ensures var node := Obj([Entry("type", CODE)]); var once := Walk.Walk(Pure(Naming), [], node);
      && Gentle(Naming) && Tame(Pure(Naming))
      && !Settled(Naming, [node]) && Settled(Naming, [Arr([CODE])])
      && once.Finished? && once.value == Obj([Entry("type", Str("CodeChunk"))])
      && Walk.Walk(Pure(Naming), [], once.value).Finished?
      && Walk.Walk(Pure(Naming), [], once.value).value == Str("CodeChunk")
  {
    var node := Obj([Entry("type", CODE)]);
    GentleIsCalm(Naming, [node]);
    WalkOfType([], Str("CodeExpression"));
    WalkOfType([], CODE);
    WalkOfType([], Str("CodeChunk"));
    GentleIsIdempotent(Naming, node);
    ListIsSettled();
  }

  lemma ListIsSettled()
    ensures Settled(Naming, [Arr([CODE])])
  {
    OneField(CODE.entries[0]);
    assert IsCode(CODE) && [CODE][1..] == [] && [Arr([CODE])][1..] == [];
    assert Settled(Naming, [CODE]);
  }

  lemma OneField(e: Entry)
    ensures Fields([e]) == map[e.key := e.value] && EntryValues([e]) == [e.value]
  {
    assert [e][..0] == [] && [e][1..] == [];
  }
}
