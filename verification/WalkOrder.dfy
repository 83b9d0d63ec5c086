/** The walk of a document, part by part, in the words of the document itself. */
module WalkOrder {
  import opened Values
  import opened Walk
  import opened WalkLaws

  lemma {:induction false} WalkAllConcat(d: Delegate, log: seq<Json>, xs: seq<Json>, ys: seq<Json>)
    requires Tame(d)
    ensures WalkAll(d, log, xs + ys) ==
      match WalkAll(d, log, xs)
      case Aborted(message, log') => Aborted(message, log')
      case Finished(vs, log') =>
        match WalkAll(d, log', ys)
        case Aborted(message, log'') => Aborted(message, log'')
        case Finished(ws, log'') => Finished(vs + ws, log'')
    decreases |xs|
  {
    if xs == [] {
      assert xs + ys == ys;
      var w := WalkAll(d, log, ys);
      if w.Finished? { assert [] + w.value == w.value; }
    } else {
      assert (xs + ys)[1..] == xs[1..] + ys;
      var first := Walk.Walk(d, log, xs[0]);
      if first.Finished? {
        WalkAllConcat(d, first.log, xs[1..], ys);
        var rest := WalkAll(d, first.log, xs[1..]);
        if rest.Finished? {
          var last := WalkAll(d, rest.log, ys);
          if last.Finished? { assert [first.value] + (rest.value + last.value) == [first.value] + rest.value + last.value; }
        }
      }
    }
  }

  /**
   * An array is walked from its first part to its last: the second part goes on where the first one
   * ended, and not at all if that aborted.
   */
  lemma ArrayInOrder(d: Delegate, log: seq<Json>, xs: seq<Json>, ys: seq<Json>)
    requires Tame(d)
    ensures var whole, first := Walk.Walk(d, log, Arr(xs + ys)), Walk.Walk(d, log, Arr(xs));
      match first
      case Aborted(_, _) => whole == first
      case Finished(a, log') =>
        a.Arr? &&
        match Walk.Walk(d, log', Arr(ys))
        case Aborted(message, last) => whole == Aborted(message, last)
        case Finished(b, last) => b.Arr? && whole == Finished(Arr(a.items + b.items), last)
  {
    WalkAllConcat(d, log, xs, ys);
    ArrayWalk(d, log, xs + ys);
    ArrayWalk(d, log, xs);
    var w := WalkAll(d, log, xs);
    if w.Finished? { ArrayWalk(d, w.log, ys); }
  }

  lemma ArrayWalk(d: Delegate, log: seq<Json>, items: seq<Json>)
    requires Tame(d)
    ensures Walk.Walk(d, log, Arr(items)) ==
      match WalkAll(d, log, items)
      case Aborted(message, log') => Aborted(message, log')
      case Finished(vs, log') => Finished(Arr(vs), log')
  {
    assert Transform(d, log, Arr(items)) == Go(Arr(items), log);
  }

  /** The walk of an array of one node is the walk of that node; an empty one is left alone. */
  lemma ArrayOfOne(d: Delegate, log: seq<Json>, node: Json)
    requires Tame(d)
    ensures Walk.Walk(d, log, Arr([])) == Finished(Arr([]), log)
    ensures Walk.Walk(d, log, Arr([node])) ==
      match Walk.Walk(d, log, node)
      case Aborted(message, log') => Aborted(message, log')
      case Finished(v, log') => Finished(Arr([v]), log')
  {
    ArrayWalk(d, log, []);
    ArrayWalk(d, log, [node]);
    assert [node][1..] == [];
    var w := Walk.Walk(d, log, node);
    if w.Finished? {
      assert WalkAll(d, w.log, []) == Finished([], w.log);
      assert [w.value] + [] == [w.value];
    }
  }

  // ---------------------------------------------------------------- objects

  lemma {:induction false} ValuesConcat(es: seq<Entry>, fs: seq<Entry>)
    ensures EntryValues(es + fs) == EntryValues(es) + EntryValues(fs)
  {
    if es == [] {
      assert es + fs == fs;
    } else {
      assert (es + fs)[1..] == es[1..] + fs;
      ValuesConcat(es[1..], fs);
    }
  }

  lemma WithConcat(es: seq<Entry>, fs: seq<Entry>, vs: seq<Json>, ws: seq<Json>)
    requires |es| == |vs| && |fs| == |ws|
    ensures WithValues(es + fs, vs + ws) == WithValues(es, vs) + WithValues(fs, ws)
  {}

  /** So are the entries of an object, and they keep their keys and places. */
  lemma ObjectInOrder(d: Delegate, log: seq<Json>, es: seq<Entry>, fs: seq<Entry>)
    requires Tame(d)
    ensures var whole, first := WalkChildren(d, log, Obj(es + fs)), WalkChildren(d, log, Obj(es));
      match first
      case Aborted(_, _) => whole == first
      case Finished(a, log') =>
        a.Obj? &&
        match WalkChildren(d, log', Obj(fs))
        case Aborted(message, last) => whole == Aborted(message, last)
        case Finished(b, last) => b.Obj? && whole == Finished(Obj(a.entries + b.entries), last)
  {
    ValuesConcat(es, fs);
    WalkAllConcat(d, log, EntryValues(es), EntryValues(fs));
    var first := WalkAll(d, log, EntryValues(es));
    if first.Finished? {
      var second := WalkAll(d, first.log, EntryValues(fs));
      if second.Finished? { WithConcat(es, fs, first.value, second.value); }
    }
  }

  lemma ObjectOfOne(d: Delegate, log: seq<Json>, e: Entry)
    requires Tame(d)
    ensures WalkChildren(d, log, Obj([])) == Finished(Obj([]), log)
    ensures WalkChildren(d, log, Obj([e])) ==
      match Walk.Walk(d, log, e.value)
      case Aborted(message, log') => Aborted(message, log')
      case Finished(v, log') => Finished(Obj([Entry(e.key, v)]), log')
  {
    assert [e][1..] == [] && EntryValues([e]) == [e.value] && [e.value][1..] == [];
    var w := Walk.Walk(d, log, e.value);
    if w.Finished? {
      assert WalkAll(d, w.log, []) == Finished([], w.log) && [w.value] + [] == [w.value];
      assert WalkAll(d, log, [e.value]) == Finished([w.value], w.log);
      assert WithValues([e], [w.value]) == [Entry(e.key, w.value)];
    } else {
      assert WalkAll(d, log, [e.value]) == Aborted(w.message, w.log);
    }
  }

  // ---------------------------------------------------------------- which nodes are delegated

  /**
   * A node is delegated exactly if its last `type` is one of the two kinds of code: such a node is
   * the next one in the log, and the walk goes on below its result; any other is walked as it is.
   */
  lemma CodeIsDelegated(d: Delegate, log: seq<Json>, node: Json)
    requires Tame(d)
    ensures Walk.Walk(d, log, node) ==
      if TypedCode(node) then
        match d(log, node)
        case Failed(message) => Aborted(message, log + [node])
        case Incapable => WalkChildren(d, log + [node], node)
        case Done(t) => WalkChildren(d, log + [node], t)
      else WalkChildren(d, log, node)
  {
    CodeByType(node);
  }

  lemma PrimitiveStays(d: Delegate, log: seq<Json>, node: Json)
    requires Tame(d) && !node.Arr? && !node.Obj?
    ensures Walk.Walk(d, log, node) == WalkChildren(d, log, node) == Finished(node, log)
  {}

  /** No object of the document has the type of code. */
  predicate Prose(node: Json)
    decreases node, 0
  {
    !TypedCode(node) &&
    match node
    case Arr(items) => ProseOf(items)
    case Obj(entries) => ProseIn(entries)
    case _ => true
  }

  predicate ProseOf(nodes: seq<Json>)
    decreases nodes, 1
  {
    nodes == [] || (Prose(nodes[0]) && ProseOf(nodes[1..]))
  }

  predicate ProseIn(entries: seq<Entry>)
    decreases entries, 1
  {
    entries == [] || (Prose(entries[0].value) && ProseIn(entries[1..]))
  }

  lemma {:induction false} ProseOfValues(entries: seq<Entry>)
    requires ProseIn(entries)
    ensures ProseOf(EntryValues(entries))
  {
    if entries != [] { ProseOfValues(entries[1..]); }
  }

  lemma {:induction false} ProseStaysAll(d: Delegate, log: seq<Json>, nodes: seq<Json>)
    requires Tame(d) && ProseOf(nodes)
    ensures WalkAll(d, log, nodes) == Finished(nodes, log)
    decreases SizeSum(nodes)
  {
    if nodes != [] {
      var node := nodes[0];
      CodeByType(node);
      ChildrenMeasure(node);
      if node.Obj? { ProseOfValues(node.entries); }
      ProseStaysAll(d, log, Children(node));
      ProseStaysAll(d, log, nodes[1..]);
      Unfold(d, log, nodes);
      RebuildSame(node);
      assert [node] + nodes[1..] == nodes;
    }
  }

  /** A document without code comes back unchanged, and nothing is delegated. */
  lemma ProseStays(d: Delegate, node: Json)
    requires Tame(d) && Prose(node)
    ensures Walk.Walk(d, [], node) == Finished(node, [])
  {
    assert [node][1..] == [];
    ProseStaysAll(d, [], [node]);
    Single(d, node);
  }
}
