/** Closures that call Python from Bonobo: bonobo/pybonobo.c.

    Signals are emitted by GObject, which invalidates a closure once and does not invoke it afterwards.
    Between the beginning and the end of an invocation the Python function runs, and anything may
    happen, the invalidation of the running closure included.
 */
module Closure {
  import opened Options
  import opened PyHeap
  import opened PyTuples

  /** PyGClosure; `swaps` is its derivative_flag. */
  datatype Closure = Closure(callback: Option<Ref>, extraArgs: Option<Ref>, swapData: Option<Ref>, swaps: bool)

  /** An invocation: the Python function, which it borrows from the closure, and the tuple it is called
      with. */
  datatype Frame = Running(callee: Ref, params: Ref) | Done

  datatype State = State(heap: Heap<Body>, closures: seq<Closure>, frames: seq<Frame>)

  /** What `pyg_value_as_pyobject` makes of a parameter. */
  datatype Conversion = NewObject | Shared(o: Ref) | Fails

  datatype GValue = GValue(holdsCorbaException: bool, conversion: Conversion)

  datatype Event =
    | PyAlloc(body: Body)
    | PyTake(o: Ref)
    | PyDrop(o: Ref)
    /** `extraArgs` None stands for NULL and for Py_None. */
    | New(callback: Ref, extraArgs: Option<Ref>, swapData: Option<Ref>)
    | Invalidate(c: nat)
    | Invoke(c: nat, values: seq<GValue>)
    | Return(f: nat, result: Option<Ref>)

  // ------------------------------------------------------------------ what records hold

  function OptSeq(o: Option<Ref>): seq<Ref> {
    if o.Some? then [o.value] else []
  }

  /** The references of a closure, in the reverse of the order in which it gives them back. */
  function Refs(c: Closure): seq<Ref> {
    OptSeq(c.swapData) + OptSeq(c.extraArgs) + OptSeq(c.callback)
  }

  function ClosureBag(c: Closure): multiset<Ref> {
    multiset(Refs(c))
  }

  function FrameBag(f: Frame): multiset<Ref> {
    if f.Running? then multiset{f.params} else multiset{}
  }

  function Held(s: State): multiset<Ref> {
    Total(ClosureBag, s.closures) + Total(FrameBag, s.frames)
  }

  const INVALID := Closure(None, None, None, false)

  predicate IsLive(c: Closure) {
    c.callback.Some?
  }

  predicate IsTuple(h: Heap<Body>, o: Ref) {
    o < |h| && h[o].body.Tuple?
  }

  /** A live closure has its swap data if it swaps, and its extra arguments are a tuple. */
  predicate ClosureFits(h: Heap<Body>, c: Closure) {
    if IsLive(c) then (c.swaps <==> c.swapData.Some?) && (c.extraArgs.Some? ==> IsTuple(h, c.extraArgs.value))
    else c.extraArgs.None? && c.swapData.None?
  }

  ghost predicate Fits(s: State) {
    && (forall i :: 0 <= i < |s.closures| ==> ClosureFits(s.heap, s.closures[i]))
    && (forall i :: 0 <= i < |s.frames| && s.frames[i].Running? ==> IsTuple(s.heap, s.frames[i].params))
  }

  ghost predicate Inv(s: State) {
    Balanced(s.heap, Held(s)) && Fits(s)
  }

  // ------------------------------------------------------------------ pybonobo_closure_new

  /** Extra arguments that are not a tuple are wrapped in one. */
  function ExtraHeap(h: Heap<Body>, extra: Option<Ref>): Heap<Body> {
    var r := Retain(h, Opt(extra));
    if extra.Some? && !IsTuple(h, extra.value) then Alloc(r, Tuple([extra.value]), false) else r
  }

  function ExtraArgs(h: Heap<Body>, extra: Option<Ref>): Option<Ref> {
    if extra.Some? && !IsTuple(h, extra.value) then Some(|h|) else extra
  }

  function NewHeap(h: Heap<Body>, callback: Ref, extra: Option<Ref>, swap: Option<Ref>): Heap<Body> {
    Retain(ExtraHeap(Retain(h, multiset{callback}), extra), Opt(swap))
  }

  function NewClosure(h: Heap<Body>, callback: Ref, extra: Option<Ref>, swap: Option<Ref>): Closure {
    Closure(Some(callback), ExtraArgs(h, extra), swap, swap.Some?)
  }

  /** The arguments a caller of `pybonobo_closure_new` asks to be appended. */
  function Extras(h: Heap<Body>, extra: Option<Ref>): seq<Ref> {
    if extra.None? then [] else if IsTuple(h, extra.value) then h[extra.value].body.items else [extra.value]
  }

  // ------------------------------------------------------------------ pybonobo_closure_marshal

  /** The parameters Python gets to see: all but a trailing CORBA exception. */
  function Visible(values: seq<GValue>): seq<GValue>
    requires values != []
  {
    if values[|values| - 1].holdsCorbaException then values[..|values| - 1] else values
  }

  datatype Built = Built(heap: Heap<Body>, items: seq<Ref>, complete: bool)

  /** The tuple after `n` parameters, the swap data in place of the first one. */
  function Convert(h: Heap<Body>, swap: Option<Ref>, values: seq<GValue>, n: nat): Built
    requires n <= |values|
  {
    if n == 0 then Built(h, [], true)
    else
      var b := Convert(h, swap, values, n - 1);
      if !b.complete then b else ConvertOne(b, if n == 1 then swap else None, values[n - 1].conversion)
  }

  function ConvertOne(b: Built, swap: Option<Ref>, conversion: Conversion): Built {
    if swap.Some? then Built(Retain(b.heap, multiset{swap.value}), b.items + [swap.value], true)
    else
      match conversion
      case NewObject => Built(Alloc(b.heap, Plain, false), b.items + [|b.heap|], true)
      case Shared(o) => Built(Retain(b.heap, multiset{o}), b.items + [o], true)
      case Fails => b.(complete := false)
  }

  /** What an invocation does before it calls Python: the heap, and the tuple it calls Python with,
      or None after a failed conversion. */
  datatype Prepared = Prepared(heap: Heap<Body>, params: Option<Ref>)

  function Drop(h: Heap<Body>, o: Ref): (r: Option<Heap<Body>>)
    ensures r.Some? ==> |r.value| == |h|
    ensures r.Some? ==> forall i :: 0 <= i < |h| ==> r.value[i].outside == h[i].outside && r.value[i].body == h[i].body
  {
    DropAll(h, [o])
  }

  function Concat(h: Heap<Body>, params: Ref, extra: Ref): Option<Prepared>
    requires IsTuple(h, params) && IsTuple(h, extra)
  {
    var all := h[params].body.items + h[extra].body.items;
    var r := Drop(Alloc(Retain(h, multiset(all)), Tuple(all), false), params);
    if r.None? then None else Some(Prepared(r.value, Some(|h|)))
  }

  /** None: the invocation hits a reference that is gone. */
  function Prepare(h: Heap<Body>, c: Closure, values: seq<GValue>): Option<Prepared> {
    var b := Convert(h, if c.swaps then c.swapData else None, values, |values|);
    Finish(Alloc(b.heap, Tuple(b.items), false), |b.heap|, b.complete, c.extraArgs)
  }

  function Finish(h: Heap<Body>, params: Ref, complete: bool, extra: Option<Ref>): Option<Prepared>
    requires IsTuple(h, params)
  {
    if !complete then
      var r := Drop(h, params);
      if r.None? then None else Some(Prepared(r.value, None))
    else if extra.None? then Some(Prepared(h, Some(params)))
    else if !IsTuple(h, extra.value) then None
    else Concat(h, params, extra.value)
  }

  /** `g_return_if_fail (pc->swap_data != NULL)` fails: the function returns at once, with the lock held. */
  predicate BailsOut(c: Closure, values: seq<GValue>) {
    c.swaps && c.swapData.None? && values != []
  }

  // ------------------------------------------------------------------ steps

  ghost predicate Enabled(s: State, e: Event) {
    match e
    case PyAlloc(body) => body.Tuple? ==> forall i :: 0 <= i < |body.items| ==> Alive(s.heap, body.items[i])
    case PyTake(o) => Alive(s.heap, o)
    case PyDrop(o) => o < |s.heap| && s.heap[o].outside > 0
    case New(callback, extra, swap) =>
      && Alive(s.heap, callback)
      && (extra.Some? ==> Alive(s.heap, extra.value)) && (swap.Some? ==> Alive(s.heap, swap.value))
    case Invalidate(c) => c < |s.closures|
    case Invoke(c, values) => c < |s.closures| && IsLive(s.closures[c]) && values != [] && CanConvert(s.heap, values)
    case Return(f, result) => f < |s.frames| && s.frames[f].Running? && (result.Some? ==> Alive(s.heap, result.value))
  }

  ghost predicate CanConvert(h: Heap<Body>, values: seq<GValue>) {
    forall i :: 0 <= i < |values| && values[i].conversion.Shared? ==> Alive(h, values[i].conversion.o)
  }

  function WithHeap(s: State, h: Option<Heap<Body>>): Option<State> {
    if h.None? then None else Some(s.(heap := h.value))
  }

  function NewFrame(c: Closure, params: Option<Ref>): Frame {
    if c.callback.Some? && params.Some? then Running(c.callback.value, params.value) else Done
  }

  function InvokeStep(s: State, c: nat, values: seq<GValue>): Option<State>
    requires c < |s.closures| && ClosureFits(s.heap, s.closures[c]) && values != []
  {
    if BailsOut(s.closures[c], Visible(values)) then None
    else
      var p := Prepare(s.heap, s.closures[c], Visible(values));
      if p.None? then None
      else Some(State(p.value.heap, s.closures, s.frames + [NewFrame(s.closures[c], p.value.params)]))
  }

  /** The result, which Python handed over, and the tuple are given back, whatever the result was used for. */
  function ReturnStep(s: State, f: nat, result: Option<Ref>): Option<State>
    requires f < |s.frames| && s.frames[f].Running?
  {
    var h := DropAll(Retain(s.heap, Opt(result)), [s.frames[f].params] + OptSeq(result));
    WithHeap(s.(frames := s.frames[f := Done]), h)
  }

  /** None: a reference was used or given back that no longer existed, or the lock was left held. */
  ghost function Step(s: State, e: Event): Option<State>
    requires Inv(s) && Enabled(s, e)
  {
    match e
    case PyAlloc(body) =>
      Some(s.(heap := Alloc(Retain(s.heap, if body.Tuple? then multiset(body.items) else multiset{}), body, true)))
    case PyTake(o) => Some(s.(heap := Adopt(s.heap, multiset{o})))
    case PyDrop(o) => WithHeap(s, Drop(Hand(s.heap, o), o))
    case New(callback, extra, swap) =>
      Some(s.(heap := NewHeap(s.heap, callback, extra, swap),
              closures := s.closures + [NewClosure(s.heap, callback, extra, swap)]))
    case Invalidate(c) =>
      WithHeap(s.(closures := s.closures[c := INVALID.(swaps := s.closures[c].swaps)]), DropAll(s.heap,
          Refs(s.closures[c])))
    case Invoke(c, values) => InvokeStep(s, c, values)
    case Return(f, result) => ReturnStep(s, f, result)
  }
}
