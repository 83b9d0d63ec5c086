/** `pipe` of src/base/Worker.ts: an interpreter of pipelines, which may be nested in one another. */
module Pipeline {
  import opened Values
  import opened Executor

  /** A run of a pipeline: its outcome, and the methods invoked so far, in order. */
  datatype Run = Run(outcome: Outcome, log: seq<Invocation>)

  /** The methods other than `pipe`: what they do may depend on everything invoked before. */
  type Methods = (seq<Invocation>, Invocation) -> Outcome

  datatype Spec = Spec(methodName: string, params: Params) | NotIterable

  const NOT_ITERABLE := Threw(OtherError("spec is not iterable", None))
  const NOT_AN_ARRAY := Threw(OtherError("calls.reduce is not a function", None))

  /** A call is the name of a method, or an array of a name and, possibly, parameters. */
  function SpecOf(call: Json): Spec {
    match call
    case Str(name) => Spec(name, map[])
    case Arr(items) =>
      Spec(if |items| > 0 && items[0].Str? then items[0].s else "",
           if |items| > 1 then Spread(items[1]) else map[])
    case _ => NotIterable
  }

  /** A parameter is no larger than the value that was spread. */
  lemma SpreadIsSmall(value: Json, key: string)
    requires key in Spread(value)
    ensures Size(Spread(value)[key]) <= Size(value)
  {
    match value
    case Obj(entries) =>
      FieldIsSmall(entries, key);
    case Arr(items) =>
      var i := IndexedOf(items, key);
      SizeOfItem(items, i);
    case Str(s) => var i := IndexedOf(seq(|s|, i requires 0 <= i < |s| => Str([s[i]])), key);
    case _ =>
  }

  lemma NestedIsSmaller(call: Json, key: string)
    requires SpecOf(call).Spec? && key in SpecOf(call).params
    ensures Size(SpecOf(call).params[key]) < Size(call)
  {
    if call.Arr? && |call.items| > 1 {
      SpreadIsSmall(call.items[1], key);
      SizeOfItem(call.items, 1);
    }
  }

  /** The result of one call becomes the positional parameter 0 of the next. */
  function Piped(v: Option<Json>, params: Params): Params { Put(map[], "0", v) + params }

  lemma CallsAreNested(v: Option<Json>, call: Json)
    requires SpecOf(call).Spec?
    ensures var d := Dispatch(SpecOf(call).methodName, Piped(v, SpecOf(call).params));
      d.Invoke? && d.invocation.Pipe? ==> Size(d.invocation.calls) < Size(call)
  {
    var Spec(name, params) := SpecOf(call);
    var d := Dispatch(name, Piped(v, params));
    if d.Invoke? && d.invocation.Pipe? {
      var key := if "calls" in Piped(v, params) then "calls" else "1";
      assert key != "0";
      assert key in params && d.invocation.calls == params[key];
      NestedIsSmaller(call, key);
    }
  }

  predicate Iterable(call: Json) { SpecOf(call).Spec? }

  predicate AllIterable(calls: seq<Json>) { forall call <- calls :: Iterable(call) }

  /** The promise that a pipeline starts from. */
  function Resolved(v: Option<Json>, log: seq<Invocation>): Run { Run(Returned(v), log) }

  /**
   * A pipeline is a fold over promises, all of which are made before any of them settles. The run
   * that goes with a promise says how it settles, and what the calls up to it invoke.
   */
  function PipeAll(methods: Methods, prev: Run, calls: seq<Json>): Run
    decreases SizeSum(calls), 1
  {
    if calls == [] then prev else PipeAll(methods, Link(methods, prev, calls[0]), calls[1..])
  }

  /** A call is taken apart before the previous promise is awaited: one that is not iterable fails in any case. */
  function Link(methods: Methods, prev: Run, call: Json): Run
    decreases Size(call), 1
  {
    if !Iterable(call) then Run(NOT_ITERABLE, prev.log)
    else
      match prev.outcome
      case Threw(_) => prev
      case Returned(v) => Step(methods, prev.log, v, call)
  }

  function Step(methods: Methods, log: seq<Invocation>, v: Option<Json>, call: Json): Run
    requires Iterable(call)
    decreases Size(call), 0
  {
    var Spec(name, params) := SpecOf(call);
    CallsAreNested(v, call);
    match Dispatch(name, Piped(v, params))
    case Refuse(thrown) => Run(Threw(thrown), log)
    case Invoke(i) =>
      if i.Pipe? then PipeOf(methods, log, i.node, i.calls) else Run(methods(log, i), log + [i])
  }

  function PipeOf(methods: Methods, log: seq<Invocation>, node: Json, calls: Json): Run
    decreases Size(calls), 1
  {
    if calls.Arr? then PipeAll(methods, Resolved(Some(node), log), calls.items) else Run(NOT_AN_ARRAY, log)
  }

  /** The first argument of a method; a manifest has none. */
  function FirstOf(i: Invocation): Option<Json> {
    match i
    case Manifest => None
    case Decode(source, _) => Some(source)
    case Cancel(job) => Some(job)
    case _ => Some(i.node)
  }

  function FirstName(i: Invocation): string {
    match i
    case Decode(_, _) => "source"
    case Cancel(_) => "job"
    case _ => "node"
  }

  lemma DispatchNamed(v: Json, i: Invocation)
    requires !i.Pipe?
    ensures Dispatch(MethodOf(i), ParamsOf(i)["0" := v]) == Invoke(i)
  {
    NoPositions(i);
    DispatchByName(i);
  }

  lemma DispatchFirst(v: Json, i: Invocation)
    requires !i.Pipe? && FirstOf(i) == Some(v)
    ensures Dispatch(MethodOf(i), (ParamsOf(i) - {FirstName(i)})["0" := v]) == Invoke(i)
  {
    NoPositions(i);
    DispatchByName(i);
  }

  /**
   * The value is passed to the method as its first argument. The other ones may be given by name;
   * naming the first one as well overrides the value.
   */
  lemma ValueIsFirstArgument(methods: Methods, log: seq<Invocation>, v: Json, i: Invocation, entries: seq<Entry>)
    requires !i.Pipe?
    requires Fields(entries) == ParamsOf(i) || (FirstOf(i) == Some(v) && Fields(entries) == ParamsOf(i) - {FirstName(i)})
    ensures Step(methods, log, Some(v), Arr([Str(MethodOf(i)), Obj(entries)])) == Run(methods(log, i), log + [i])
  {
    var call := Arr([Str(MethodOf(i)), Obj(entries)]);
    assert SpecOf(call) == Spec(MethodOf(i), Fields(entries));
    NoPositions(i);
    assert Piped(Some(v), Fields(entries)) == Fields(entries)["0" := v];
    if Fields(entries) == ParamsOf(i) { DispatchNamed(v, i); } else { DispatchFirst(v, i); }
  }

  /** The name of a method alone is a call without parameters. */
  lemma NameAlone(methods: Methods, prev: Run, name: string)
    ensures Link(methods, prev, Str(name)) == Link(methods, prev, Arr([Str(name)]))
    ensures Link(methods, prev, Str(name)) == Link(methods, prev, Arr([Str(name), Obj([])]))
  {
    assert Iterable(Str(name)) && Iterable(Arr([Str(name)])) && Iterable(Arr([Str(name), Obj([])]));
    assert SpecOf(Arr([Str(name)])) == SpecOf(Str(name)) == SpecOf(Arr([Str(name), Obj([])]));
    if prev.outcome.Returned? {
      SameSpec(methods, prev.log, prev.outcome.value, Str(name), Arr([Str(name)]));
      SameSpec(methods, prev.log, prev.outcome.value, Str(name), Arr([Str(name), Obj([])]));
    }
  }

  /** An array that does not begin with the name of a method is a call of an unknown one. */
  lemma NamelessFails(methods: Methods, log: seq<Invocation>, v: Option<Json>, items: seq<Json>)
    requires items == [] || !items[0].Str?
    ensures Link(methods, Resolved(v, log), Arr(items)).log == log
    ensures var o := Link(methods, Resolved(v, log), Arr(items)).outcome; o.Threw? && o.thrown.MethodUnknownError?
  {
    RefusedExactly("", Piped(v, SpecOf(Arr(items)).params));
  }

  /** What a call does depends on its method and parameters only. */
  lemma SameSpec(methods: Methods, log: seq<Invocation>, v: Option<Json>, a: Json, b: Json)
    requires Iterable(a) && SpecOf(a) == SpecOf(b)
    ensures Step(methods, log, v, a) == Step(methods, log, v, b)
  {}

  /** A call that names the first position itself does not get the value in the pipe. */
  lemma PositionOverrides(methods: Methods, log: seq<Invocation>, v: Option<Json>, w: Option<Json>, call: Json)
    requires Iterable(call) && "0" in SpecOf(call).params
    ensures Step(methods, log, v, call) == Step(methods, log, w, call)
  {
    assert Piped(v, SpecOf(call).params) == SpecOf(call).params == Piped(w, SpecOf(call).params);
  }

  lemma NoPositions(i: Invocation)
    ensures "0" !in ParamsOf(i)
  {
    assert |"0"| == 1 && |"node"| == 4 && |"source"| == 6 && |"job"| == 3 && |"format"| == 6 && |"dest"| == 4;
    assert |"query"| == 5 && |"lang"| == 4 && |"session"| == 7 && |"claims"| == 6 && |"calls"| == 5;
  }

  // ---------------------------------------------------------------- composition

  /** Once a promise is rejected nothing more is invoked; the rejection is passed on, or replaced by one more. */
  lemma {:induction false} FailureStays(methods: Methods, prev: Run, calls: seq<Json>)
    requires prev.outcome.Threw?
    ensures PipeAll(methods, prev, calls) == Run(if AllIterable(calls) then prev.outcome else NOT_ITERABLE, prev.log)
    decreases |calls|
  {
    if calls != [] {
      var next := Link(methods, prev, calls[0]);
      assert next == Run(if Iterable(calls[0]) then prev.outcome else NOT_ITERABLE, prev.log);
      FailureStays(methods, next, calls[1..]);
      AllIterableCons(calls);
    }
  }

  lemma AllIterableCons(calls: seq<Json>)
    requires calls != []
    ensures AllIterable(calls) <==> Iterable(calls[0]) && AllIterable(calls[1..])
  {
    assert calls == [calls[0]] + calls[1..];
  }

  lemma {:induction false} PipeAppend(methods: Methods, prev: Run, xs: seq<Json>, ys: seq<Json>)
    ensures PipeAll(methods, prev, xs + ys) == PipeAll(methods, PipeAll(methods, prev, xs), ys)
    decreases |xs|
  {
    if xs == [] {
      assert xs + ys == ys;
    } else {
      assert (xs + ys)[1..] == xs[1..] + ys;
      PipeAppend(methods, Link(methods, prev, xs[0]), xs[1..], ys);
    }
  }

  /** Sequential composition: the second pipeline starts from the first one's result, and not at all if it failed. */
  function Then(methods: Methods, first: Run, ys: seq<Json>): Run {
    match first.outcome
    case Returned(v) => PipeAll(methods, Resolved(v, first.log), ys)
    case Threw(_) => first
  }

  /**
   * A pipeline is the sequential composition of its parts, exactly unless the first part fails and
   * the second holds a call that is not iterable, which then replaces the failure. What is invoked
   * is the same even so: after a failure, nothing.
   */
  lemma PipeConcat(methods: Methods, prev: Run, xs: seq<Json>, ys: seq<Json>)
    ensures var first := PipeAll(methods, prev, xs); var whole := PipeAll(methods, prev, xs + ys);
      && whole.log == Then(methods, first, ys).log
      && (whole == Then(methods, first, ys) <==>
            first.outcome.Returned? || first.outcome == NOT_ITERABLE || AllIterable(ys))
      && (first.outcome.Threw? && !AllIterable(ys) ==> whole.outcome == NOT_ITERABLE)
  {
    PipeAppend(methods, prev, xs, ys);
    var first := PipeAll(methods, prev, xs);
    match first.outcome
    case Returned(v) => assert Resolved(v, first.log) == first;
    case Threw(_) => FailureStays(methods, first, ys);
  }

  /** A method that does not exist, and then a number: the code fails with the number, not with the method. */
  lemma LaterCallReplacesFailure(methods: Methods, v: Json)
    ensures var first := PipeAll(methods, Resolved(Some(v), []), [Str("foo")]);
      && first == Run(Threw(MethodUnknownError("foo")), [])
      && PipeAll(methods, Resolved(Some(v), []), [Str("foo")] + [Num(1.0)]) == Run(NOT_ITERABLE, [])
      && Then(methods, first, [Num(1.0)]) == first
  {
    var prev := Resolved(Some(v), []);
    assert [Str("foo")][1..] == [] && [Num(1.0)][1..] == [];
    assert PipeAll(methods, prev, [Str("foo")]) == Link(methods, prev, Str("foo"));
    PipeAppend(methods, prev, [Str("foo")], [Num(1.0)]);
    var first := PipeAll(methods, prev, [Str("foo")]);
    assert PipeAll(methods, first, [Num(1.0)]) == Link(methods, first, Num(1.0));
  }

  // ---------------------------------------------------------------- flattening

  /** A nested pipeline whose only parameter is `calls`. */
  function Nested(call: Json): Option<seq<Json>> {
    match call
    case Arr(items) =>
      if |items| == 2 && items[0] == Str("pipe") && items[1].Obj? && |items[1].entries| == 1
         && items[1].entries[0].key == "calls" && items[1].entries[0].value.Arr?
      then Some(items[1].entries[0].value.items)
      else None
    case _ => None
  }

  lemma NestedSize(call: Json)
    requires Nested(call).Some?
    ensures SizeSum(Nested(call).value) < Size(call)
    ensures SpecOf(call) == Spec("pipe", map["calls" := Arr(Nested(call).value)])
  {
    var e := call.items[1].entries;
    SizeOfItem(call.items, 1);
    SizeOfEntry(e, 0);
    assert e[..0] == [];
    assert Fields(e) == map["calls" := Arr(Nested(call).value)];
  }

  /** Inlines nested pipelines, at any depth. */
  function Flatten(calls: seq<Json>): seq<Json>
    decreases SizeSum(calls)
  {
    if calls == [] then []
    else
      (match Nested(calls[0])
       case Some(inner) => NestedSize(calls[0]); Flatten(inner)
       case None => [calls[0]])
      + Flatten(calls[1..])
  }

  /** Whenever a nested pipeline is entered, at any depth, the value entering it is defined. */
  predicate EntersDefined(methods: Methods, prev: Run, calls: seq<Json>)
    decreases SizeSum(calls)
  {
    calls == [] ||
    (&& (prev.outcome.Returned? ==>
           match Nested(calls[0])
           case Some(inner) =>
             NestedSize(calls[0]);
             prev.outcome.value.Some? && EntersDefined(methods, prev, inner)
           case None => true)
     && EntersDefined(methods, Link(methods, prev, calls[0]), calls[1..]))
  }

  lemma StepNested(methods: Methods, log: seq<Invocation>, node: Json, call: Json)
    requires Nested(call).Some?
    ensures Link(methods, Resolved(Some(node), log), call) ==
      PipeAll(methods, Resolved(Some(node), log), Nested(call).value)
  {
    NestedSize(call);
    var params := Piped(Some(node), map["calls" := Arr(Nested(call).value)]);
    assert params == map["0" := node, "calls" := Arr(Nested(call).value)];
    assert |"node"| == 4 && |"0"| == 1;
    assert Dispatch("pipe", params) == Invoke(Pipe(node, Arr(Nested(call).value)));
    assert Link(methods, Resolved(Some(node), log), call) == Step(methods, log, Some(node), call);
    assert Step(methods, log, Some(node), call) == PipeOf(methods, log, node, Arr(Nested(call).value));
  }

  /** A call that is not iterable is not a nested pipeline, so it is still there. */
  lemma {:induction false} FlattenKeepsBad(calls: seq<Json>)
    ensures AllIterable(Flatten(calls)) ==> AllIterable(calls)
    decreases SizeSum(calls)
  {
    if calls != [] {
      FlattenKeepsBad(calls[1..]);
      AllIterableCons(calls);
      match Nested(calls[0])
      case Some(inner) =>
        NestedSize(calls[0]);
        IterableParts(Flatten(inner), Flatten(calls[1..]));
      case None => IterableParts([calls[0]], Flatten(calls[1..]));
    }
  }

  lemma IterableParts(xs: seq<Json>, ys: seq<Json>)
    ensures AllIterable(xs + ys) <==> AllIterable(xs) && AllIterable(ys)
  {
    forall x | x in xs || x in ys ensures x in xs + ys {}
  }

  /** A pipeline can only succeed if everything in it, at any depth, is iterable. */
  lemma {:induction false} SuccessIsIterable(methods: Methods, prev: Run, calls: seq<Json>)
    requires EntersDefined(methods, prev, calls) && PipeAll(methods, prev, calls).outcome.Returned?
    ensures prev.outcome.Returned? && AllIterable(Flatten(calls))
    decreases SizeSum(calls)
  {
    if calls != [] {
      var next := Link(methods, prev, calls[0]);
      SuccessIsIterable(methods, next, calls[1..]);
      match Nested(calls[0])
      case Some(inner) =>
        NestedSize(calls[0]);
        StepNested(methods, prev.log, prev.outcome.value.value, calls[0]);
        SuccessIsIterable(methods, prev, inner);
        IterableParts(Flatten(inner), Flatten(calls[1..]));
      case None => IterableParts([calls[0]], Flatten(calls[1..]));
    }
  }

  /** The flattened pipeline: the same invocations, and the same outcome if all its calls are iterable. */
  function Flattened(methods: Methods, prev: Run, calls: seq<Json>): Run {
    var r := PipeAll(methods, prev, calls);
    Run(if AllIterable(Flatten(calls)) then r.outcome else NOT_ITERABLE, r.log)
  }

  lemma FlattenAfterFailure(methods: Methods, prev: Run, calls: seq<Json>)
    requires prev.outcome.Threw?
    ensures PipeAll(methods, prev, Flatten(calls)) == Flattened(methods, prev, calls)
  {
    FailureStays(methods, prev, calls);
    FailureStays(methods, prev, Flatten(calls));
    FlattenKeepsBad(calls);
  }

  lemma {:induction false} FlattenLaw(methods: Methods, prev: Run, calls: seq<Json>)
    requires EntersDefined(methods, prev, calls)
    ensures PipeAll(methods, prev, Flatten(calls)) == Flattened(methods, prev, calls)
    decreases SizeSum(calls)
  {
    if prev.outcome.Threw? {
      FlattenAfterFailure(methods, prev, calls);
    } else if calls != [] {
      var next := Link(methods, prev, calls[0]);
      FlattenLaw(methods, next, calls[1..]);
      match Nested(calls[0])
      case Some(inner) =>
        NestedSize(calls[0]);
        StepNested(methods, prev.log, prev.outcome.value.value, calls[0]);
        FlattenLaw(methods, prev, inner);
        FlattenNested(methods, prev, calls, inner);
      case None => FlattenPlain(methods, prev, calls);
    }
  }

  lemma FlattenPlain(methods: Methods, prev: Run, calls: seq<Json>)
    requires calls != [] && Nested(calls[0]) == None
    requires var next := Link(methods, prev, calls[0]);
      PipeAll(methods, next, Flatten(calls[1..])) == Flattened(methods, next, calls[1..])
    ensures PipeAll(methods, prev, Flatten(calls)) == Flattened(methods, prev, calls)
  {
    assert ([calls[0]] + Flatten(calls[1..]))[1..] == Flatten(calls[1..]);
    IterableParts([calls[0]], Flatten(calls[1..]));
    if !Iterable(calls[0]) { FailureStays(methods, Link(methods, prev, calls[0]), calls[1..]); }
  }

  lemma FlattenNested(methods: Methods, prev: Run, calls: seq<Json>, inner: seq<Json>)
    requires calls != [] && Nested(calls[0]) == Some(inner) && EntersDefined(methods, prev, inner)
    requires Link(methods, prev, calls[0]) == PipeAll(methods, prev, inner)
    requires PipeAll(methods, prev, Flatten(inner)) == Flattened(methods, prev, inner)
    requires var next := Link(methods, prev, calls[0]);
      PipeAll(methods, next, Flatten(calls[1..])) == Flattened(methods, next, calls[1..])
    ensures PipeAll(methods, prev, Flatten(calls)) == Flattened(methods, prev, calls)
  {
    var r := PipeAll(methods, prev, inner);
    PipeAppend(methods, prev, Flatten(inner), Flatten(calls[1..]));
    IterableParts(Flatten(inner), Flatten(calls[1..]));
    if !AllIterable(Flatten(inner)) {
      if r.outcome.Returned? { SuccessIsIterable(methods, prev, inner); }
      FailureStays(methods, r, calls[1..]);
      FailureStays(methods, Run(NOT_ITERABLE, r.log), Flatten(calls[1..]));
    }
  }

  /**
   * Inlining nested pipelines never changes what is invoked. It changes the outcome exactly if an
   * inlined call is not iterable and the outcome was something else, that is, if it was never
   * reached.
   */
  lemma FlattenPreserves(methods: Methods, prev: Run, calls: seq<Json>)
    requires EntersDefined(methods, prev, calls)
    ensures var r := PipeAll(methods, prev, calls); var flat := PipeAll(methods, prev, Flatten(calls));
      && flat.log == r.log
      && (flat == r <==> AllIterable(Flatten(calls)) || r.outcome == NOT_ITERABLE)
      && (!AllIterable(Flatten(calls)) ==> flat.outcome == NOT_ITERABLE)
  {
    FlattenLaw(methods, prev, calls);
  }

  predicate NeverUndefined(r: Run) { r.outcome != Returned(None) }

  lemma {:induction false} AlwaysDefined(methods: Methods, prev: Run, calls: seq<Json>)
    requires NeverUndefined(prev) && forall l, i :: methods(l, i) != Returned(None)
    ensures EntersDefined(methods, prev, calls) && NeverUndefined(PipeAll(methods, prev, calls))
    decreases SizeSum(calls), 1
  {
    if calls != [] {
      if Nested(calls[0]).Some? {
        NestedSize(calls[0]);
        AlwaysDefined(methods, prev, Nested(calls[0]).value);
      }
      LinkDefined(methods, prev, calls[0]);
      AlwaysDefined(methods, Link(methods, prev, calls[0]), calls[1..]);
    }
  }

  lemma {:induction false} LinkDefined(methods: Methods, prev: Run, call: Json)
    requires NeverUndefined(prev) && forall l, i :: methods(l, i) != Returned(None)
    ensures NeverUndefined(Link(methods, prev, call))
    decreases Size(call), 0
  {
    if Iterable(call) && prev.outcome.Returned? {
      var v := prev.outcome.value;
      CallsAreNested(v, call);
      assert Link(methods, prev, call) == Step(methods, prev.log, v, call);
      var d := Dispatch(SpecOf(call).methodName, Piped(v, SpecOf(call).params));
      if d.Invoke? && d.invocation.Pipe? {
        var i := d.invocation;
        assert Step(methods, prev.log, v, call) == PipeOf(methods, prev.log, i.node, i.calls);
        if i.calls.Arr? { AlwaysDefined(methods, Resolved(Some(i.node), prev.log), i.calls.items); }
      }
    }
  }

  /** With methods that never return `undefined`, nothing but the iterability of the calls matters. */
  lemma FlattenPreservesDefined(methods: Methods, node: Json, calls: seq<Json>)
    requires forall l, i :: methods(l, i) != Returned(None)
    ensures var prev := Resolved(Some(node), []); var r := PipeAll(methods, prev, calls);
      && PipeAll(methods, prev, Flatten(calls)).log == r.log
      && (PipeAll(methods, prev, Flatten(calls)) == r <==> AllIterable(Flatten(calls)) || r.outcome == NOT_ITERABLE)
  {
    AlwaysDefined(methods, Resolved(Some(node), []), calls);
    FlattenPreserves(methods, Resolved(Some(node), []), calls);
  }

  /** Nothing is left to inline. */
  lemma {:induction false} FlattenIsFlat(calls: seq<Json>)
    ensures forall call <- Flatten(calls) :: Nested(call) == None
    decreases SizeSum(calls)
  {
    if calls != [] {
      if Nested(calls[0]).Some? {
        NestedSize(calls[0]);
        FlattenIsFlat(Nested(calls[0]).value);
      }
      FlattenIsFlat(calls[1..]);
    }
  }

  /** The nested pipeline with these calls. */
  function Nest(calls: seq<Json>): Json { Arr([Str("pipe"), Obj([Entry("calls", Arr(calls))])]) }

  lemma NestIsNested(calls: seq<Json>)
    ensures Nested(Nest(calls)) == Some(calls)
    ensures Flatten([Nest(calls)]) == Flatten(calls)
  {
    assert [Nest(calls)][1..] == [];
    assert Flatten(calls) + [] == Flatten(calls);
  }

  /** An inner call that is not iterable is not reached behind a failure, unless it is inlined. */
  lemma FlattenReachesBadCall(methods: Methods, v: Json)
    ensures var prev := Resolved(Some(v), []); var calls := [Str("foo"), Nest([Num(1.0)])];
      && Flatten(calls) == [Str("foo"), Num(1.0)]
      && PipeAll(methods, prev, calls) == Run(Threw(MethodUnknownError("foo")), [])
      && PipeAll(methods, prev, Flatten(calls)) == Run(NOT_ITERABLE, [])
  {
    var prev, calls := Resolved(Some(v), []), [Str("foo"), Nest([Num(1.0)])];
    assert calls[1..] == [Nest([Num(1.0)])] && [Num(1.0)][1..] == [];
    NestIsNested([Num(1.0)]);
    assert Flatten([Num(1.0)]) == [Num(1.0)];
    assert [Str("foo")] + [Num(1.0)] == [Str("foo"), Num(1.0)];
    var first := Link(methods, prev, Str("foo"));
    assert first == Run(Threw(MethodUnknownError("foo")), []);
    FailureStays(methods, first, calls[1..]);
    assert Iterable(Nest([Num(1.0)])) && !Iterable(Num(1.0));
    LaterCallReplacesFailure(methods, v);
  }

  // ---------------------------------------------------------------- flattening behind `undefined`

  const NO_NODE := Threw(ParamRequiredError("node"))

  lemma NodeIsGiven(methodName: string, params: Params)
    requires "0" in params
    ensures Dispatch(methodName, params) != Refuse(ParamRequiredError("node"))
  {
    assert |"source"| == 6 && |"query"| == 5 && |"calls"| == 5 && |"job"| == 3 && |"node"| == 4;
  }

  lemma {:induction false} LogGrows(methods: Methods, prev: Run, calls: seq<Json>)
    ensures prev.log <= PipeAll(methods, prev, calls).log
    decreases SizeSum(calls), 1
  {
    if calls != [] {
      LinkGrows(methods, prev, calls[0]);
      LogGrows(methods, Link(methods, prev, calls[0]), calls[1..]);
    }
  }

  lemma {:induction false} LinkGrows(methods: Methods, prev: Run, call: Json)
    ensures prev.log <= Link(methods, prev, call).log
    decreases Size(call), 0
  {
    if Iterable(call) && prev.outcome.Returned? {
      var v := prev.outcome.value;
      CallsAreNested(v, call);
      assert Link(methods, prev, call) == Step(methods, prev.log, v, call);
      var d := Dispatch(SpecOf(call).methodName, Piped(v, SpecOf(call).params));
      if d.Invoke? && d.invocation.Pipe? {
        var i := d.invocation;
        assert Step(methods, prev.log, v, call) == PipeOf(methods, prev.log, i.node, i.calls);
        if i.calls.Arr? { LogGrows(methods, Resolved(Some(i.node), prev.log), i.calls.items); }
      }
    }
  }

  /** The run has a defined value, or failed with something else than a missing node. */
  predicate HasNode(r: Run) { r.outcome != NO_NODE && r.outcome != Returned(None) }

  /** A pipeline that starts from a value and invokes nothing is never refused for its missing node. */
  lemma {:induction false} NodeStays(methods: Methods, prev: Run, calls: seq<Json>)
    requires HasNode(prev) && PipeAll(methods, prev, calls).log == prev.log
    ensures HasNode(PipeAll(methods, prev, calls))
    decreases SizeSum(calls), 1
  {
    if calls != [] {
      var next := Link(methods, prev, calls[0]);
      LinkGrows(methods, prev, calls[0]);
      LogGrows(methods, next, calls[1..]);
      LinkNode(methods, prev, calls[0]);
      NodeStays(methods, next, calls[1..]);
    }
  }

  lemma {:induction false} LinkNode(methods: Methods, prev: Run, call: Json)
    requires HasNode(prev) && Link(methods, prev, call).log == prev.log
    ensures HasNode(Link(methods, prev, call))
    decreases Size(call), 1
  {
    if Iterable(call) && prev.outcome.Returned? {
      StepNode(methods, prev.log, prev.outcome.value, call);
    }
  }

  /** A call that invokes nothing: either it is refused, or it starts a pipeline from a node. */
  lemma {:induction false} StepNode(methods: Methods, log: seq<Invocation>, v: Option<Json>, call: Json)
    requires Iterable(call) && Step(methods, log, v, call).log == log
    ensures v.Some? ==> HasNode(Step(methods, log, v, call))
    ensures v.None? ==> HasNode(Step(methods, log, v, call)) || RefusedForNode(call)
    decreases Size(call), 0
  {
    CallsAreNested(v, call);
    var name, params := SpecOf(call).methodName, Piped(v, SpecOf(call).params);
    var d := Dispatch(name, params);
    if d.Refuse? {
      if v.Some? { NodeIsGiven(name, params); }
    } else if d.invocation.Pipe? {
      var i := d.invocation;
      assert Step(methods, log, v, call) == PipeOf(methods, log, i.node, i.calls);
      if i.calls.Arr? { NodeStays(methods, Resolved(Some(i.node), log), i.calls.items); }
    }
  }

  /** With no value in the pipe, the call is refused for its missing node. */
  predicate RefusedForNode(call: Json) {
    Iterable(call) && Dispatch(SpecOf(call).methodName, Piped(None, SpecOf(call).params)) == Refuse(ParamRequiredError("node"))
  }

  lemma {:induction false} BadCallFails(methods: Methods, prev: Run, calls: seq<Json>)
    requires !AllIterable(calls)
    ensures PipeAll(methods, prev, calls).outcome == NOT_ITERABLE
    decreases |calls|
  {
    AllIterableCons(calls);
    var next := Link(methods, prev, calls[0]);
    if AllIterable(calls[1..]) { FailureStays(methods, next, calls[1..]); } else { BadCallFails(methods, next, calls[1..]); }
  }

  lemma NestedRefused(methods: Methods, log: seq<Invocation>, calls: seq<Json>)
    requires calls != [] && Nested(calls[0]).Some?
    ensures PipeAll(methods, Resolved(None, log), calls) == Run(if AllIterable(calls) then NO_NODE else NOT_ITERABLE, log)
  {
    NestedSize(calls[0]);
    var inner := Arr(Nested(calls[0]).value);
    var params := Piped(None, map["calls" := inner]);
    assert params == map["calls" := inner];
    assert |"node"| == 4 && |"calls"| == 5 && |"0"| == 1;
    assert Dispatch("pipe", params) == Refuse(ParamRequiredError("node"));
    assert Link(methods, Resolved(None, log), calls[0]) == Run(NO_NODE, log);
    FailureStays(methods, Run(NO_NODE, log), calls[1..]);
    AllIterableCons(calls);
  }

  lemma FirstRefused(methods: Methods, log: seq<Invocation>, calls: seq<Json>)
    requires AllIterable(calls)
    ensures PipeAll(methods, Resolved(None, log), calls) == Run(NO_NODE, log) <==> calls != [] && RefusedForNode(calls[0])
  {
    if calls != [] {
      var prev := Resolved(None, log);
      var next, all := Link(methods, prev, calls[0]), PipeAll(methods, prev, calls);
      AllIterableCons(calls);
      LinkGrows(methods, prev, calls[0]);
      LogGrows(methods, next, calls[1..]);
      if RefusedForNode(calls[0]) {
        FailureStays(methods, next, calls[1..]);
      } else if all.log == log {
        assert next.log == log;
        StepNode(methods, log, None, calls[0]);
        NodeStays(methods, next, calls[1..]);
      }
    }
  }

  /**
   * A nested pipeline that `undefined` enters is refused for its missing node, and so is everything
   * behind it. Inlining it gives the same exactly if the first call that is then left is refused for
   * that reason too; or, where some call is not iterable, if one is not even without inlining, and
   * nothing is invoked before the first of them.
   */
  lemma FlattenBehindUndefined(methods: Methods, log: seq<Invocation>, calls: seq<Json>)
    requires calls != [] && Nested(calls[0]).Some?
    ensures var prev, cs := Resolved(None, log), Flatten(calls); var flat := PipeAll(methods, prev, cs);
      flat == PipeAll(methods, prev, calls) <==>
        if AllIterable(cs) then cs != [] && RefusedForNode(cs[0]) else !AllIterable(calls) && flat.log == log
  {
    var cs := Flatten(calls);
    NestedRefused(methods, log, calls);
    FlattenKeepsBad(calls);
    if AllIterable(cs) { FirstRefused(methods, log, cs); } else { BadCallFails(methods, Resolved(None, log), cs); }
  }

  /** The value entering a nested pipeline must be defined: an empty one is not the same as nothing. */
  lemma FlattenNeedsAValue(methods: Methods)
    ensures var prev := Resolved(None, []);
      && PipeAll(methods, prev, Flatten([Nest([])])) == Run(Returned(None), [])
      && PipeAll(methods, prev, [Nest([])]) == Run(Threw(ParamRequiredError("node")), [])
  {
    var call := Nest([]);
    NestedSize(call);
    NestIsNested([]);
    assert [call][1..] == [];
    var params := Piped(None, map["calls" := Arr([])]);
    assert params == map["calls" := Arr([])];
    assert |"node"| == 4 && |"calls"| == 5 && |"0"| == 1;
    assert Dispatch("pipe", params) == Refuse(ParamRequiredError("node"));
    assert Link(methods, Resolved(None, []), call) == Run(Threw(ParamRequiredError("node")), []);
  }
}
