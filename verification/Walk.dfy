/** The walk of src/base/Manager.ts, with which `compile` and `execute` delegate the code nodes of a document. */
module Walk {
  import opened Values

  predicate CodeName(j: Json) { j == Str("CodeChunk") || j == Str("CodeExpression") }

  predicate IsCode(node: Json) {
    node.Obj? && "type" in Fields(node.entries) && CodeName(Fields(node.entries)["type"])
  }

  // ---------------------------------------------------------------- documents as trees

  function Children(node: Json): seq<Json> {
    match node
    case Arr(items) => items
    case Obj(entries) => EntryValues(entries)
    case _ => []
  }

  function EntryValues(entries: seq<Entry>): (r: seq<Json>)
    ensures |r| == |entries|
  {
    if entries == [] then [] else [entries[0].value] + EntryValues(entries[1..])
  }

  lemma {:induction false} ValueAt(entries: seq<Entry>, i: nat)
    requires i < |entries|
    ensures EntryValues(entries)[i] == entries[i].value
  {
    if i > 0 { ValueAt(entries[1..], i - 1); }
  }

  function WithValues(entries: seq<Entry>, values: seq<Json>): (r: seq<Entry>)
    requires |entries| == |values|
    ensures |r| == |entries|
    ensures forall i :: 0 <= i < |r| ==> r[i] == Entry(entries[i].key, values[i])
  {
    if entries == [] then [] else [Entry(entries[0].key, values[0])] + WithValues(entries[1..], values[1..])
  }

  /** The node with its children replaced: a new array, or a new object with the same keys in the same order. */
  function Rebuild(node: Json, children: seq<Json>): Json
    requires |children| == |Children(node)|
  {
    match node
    case Arr(_) => Arr(children)
    case Obj(entries) => Obj(WithValues(entries, children))
    case _ => node
  }

  /** The number of code nodes in a document, and strictly below its root. */
  function CodeCount(node: Json): nat { (if IsCode(node) then 1 else 0) + CodeBelow(node) }

  function CodeBelow(node: Json): nat
    decreases node, 0
  {
    match node
    case Arr(items) => CodeSum(items)
    case Obj(entries) => CodeEntries(entries)
    case _ => 0
  }

  function CodeSum(nodes: seq<Json>): nat
    decreases nodes, 1
  {
    if nodes == [] then 0
    else (if IsCode(nodes[0]) then 1 else 0) + CodeBelow(nodes[0]) + CodeSum(nodes[1..])
  }

  function CodeEntries(entries: seq<Entry>): nat
    decreases entries, 1
  {
    if entries == [] then 0
    else (if IsCode(entries[0].value) then 1 else 0) + CodeBelow(entries[0].value) + CodeEntries(entries[1..])
  }

  lemma {:induction false} EntriesMeasure(entries: seq<Entry>)
    ensures SizeSum(EntryValues(entries)) == SizeEntries(entries)
    ensures CodeSum(EntryValues(entries)) == CodeEntries(entries)
  {
    if entries != [] { EntriesMeasure(entries[1..]); }
  }

  lemma ChildrenMeasure(node: Json)
    ensures CodeSum(Children(node)) == CodeBelow(node)
    ensures SizeSum(Children(node)) < Size(node)
  {
    if node.Obj? { EntriesMeasure(node.entries); }
  }

  lemma {:induction false} RebuildSame(node: Json)
    ensures Rebuild(node, Children(node)) == node
  {
    if node.Obj? { EntriesSame(node.entries); }
  }

  lemma {:induction false} EntriesSame(entries: seq<Entry>)
    ensures WithValues(entries, EntryValues(entries)) == entries
  {
    if entries != [] { EntriesSame(entries[1..]); }
  }

  // ---------------------------------------------------------------- the walk

  /** What delegating a node gives. */
  datatype Answer = Done(node: Json) | Incapable | Failed(message: string)

  /** The peers: the answer may depend on everything that was delegated before. */
  type Delegate = (seq<Json>, Json) -> Answer

  /** The log lists the nodes delegated so far, in order. */
  datatype Walked<T> = Finished(value: T, log: seq<Json>) | Aborted(message: string, log: seq<Json>)

  /** Every transformed code node has fewer code nodes below its root than the original contained. */
  ghost predicate Tame(d: Delegate) {
    forall log, n :: IsCode(n) && d(log, n).Done? ==> CodeBelow(d(log, n).node) < CodeCount(n)
  }

  datatype Step = Go(node: Json, log: seq<Json>) | Fail(message: string, log: seq<Json>)

  /** The transformer of `compile` and `execute`: a code node that no peer is capable of stays as it is. */
  function Transform(d: Delegate, log: seq<Json>, node: Json): Step {
    if !IsCode(node) then Go(node, log)
    else
      match d(log, node)
      case Failed(message) => Fail(message, log + [node])
      case Incapable => Go(node, log + [node])
      case Done(t) => Go(t, log + [node])
  }

  /** Transforms the node, then walks the children of the result, one after the other. */
  function Walk(d: Delegate, log: seq<Json>, node: Json): Walked<Json>
    requires Tame(d)
    decreases CodeCount(node), Size(node), 1
  {
    match Transform(d, log, node)
    case Fail(message, log') => Aborted(message, log')
    case Go(t, log') => WalkChildren(d, log', t)
  }

  function WalkChildren(d: Delegate, log: seq<Json>, node: Json): Walked<Json>
    requires Tame(d)
    decreases CodeBelow(node), Size(node), 0
  {
    ChildrenMeasure(node);
    match WalkAll(d, log, Children(node))
    case Finished(children, log') => Finished(Rebuild(node, children), log')
    case Aborted(message, log') => Aborted(message, log')
  }

  function WalkAll(d: Delegate, log: seq<Json>, nodes: seq<Json>): (r: Walked<seq<Json>>)
    requires Tame(d)
    ensures r.Finished? ==> |r.value| == |nodes|
    decreases CodeSum(nodes), SizeSum(nodes), 0
  {
    if nodes == [] then Finished([], log)
    else
      match Walk(d, log, nodes[0])
      case Aborted(message, log') => Aborted(message, log')
      case Finished(first, log') =>
        match WalkAll(d, log', nodes[1..])
        case Aborted(message, log'') => Aborted(message, log'')
        case Finished(others, log'') => Finished([first] + others, log'')
  }
}
