/** What holds over every run of Closure. */
module ClosureSafety {
  import opened Options
  import opened PyHeap
  import opened PyTuples
  import opened Closure

  /** Objects keep what they are, dead or alive. */
  ghost predicate BodiesStay(h: Heap<Body>, g: Heap<Body>) {
    |h| <= |g| && forall o :: 0 <= o < |h| ==> g[o].body == h[o].body
  }

  lemma FitsStays(h: Heap<Body>, g: Heap<Body>, c: Closure)
    requires BodiesStay(h, g) && ClosureFits(h, c)
    ensures ClosureFits(g, c)
  {
  }

  lemma AllFit(s: State, t: State)
    requires Fits(s) && BodiesStay(s.heap, t.heap) && t.closures == s.closures && t.frames == s.frames
    ensures Fits(t)
  {
    hide ClosureFits;
    forall i | 0 <= i < |t.closures| ensures ClosureFits(t.heap, t.closures[i]) {
      FitsStays(s.heap, t.heap, s.closures[i]);
    }
  }

  /** A dropped object leaves the bodies and the references outside alone. */
  lemma DropKeeps(h: Heap<Body>, held: multiset<Ref>, work: seq<Ref>)
    requires Balanced(h, held + multiset(work))
    ensures DropAll(h, work).Some?
    ensures Balanced(DropAll(h, work).value, held) && BodiesStay(h, DropAll(h, work).value)
  {
    hide Balanced, CountAll;
    DropBalances(h, held, work);
  }

  // ------------------------------------------------------------------ building the tuple

  lemma ConvertOneBalances(b: Built, held: multiset<Ref>, swap: Option<Ref>, conversion: Conversion)
    requires Balanced(b.heap, held + multiset(b.items))
    requires swap.Some? ==> Alive(b.heap, swap.value)
    requires conversion.Shared? ==> Alive(b.heap, conversion.o)
    ensures var r := ConvertOne(b, swap, conversion);
            Balanced(r.heap, held + multiset(r.items)) && BodiesStay(b.heap, r.heap) && KeepAlive(b.heap, r.heap)
  {
    hide Balanced, Retain;
    var r := ConvertOne(b, swap, conversion);
    var all := held + multiset(b.items);
    if swap.Some? {
      RetainBalances(b.heap, all, multiset{swap.value});
      OneMore(held, b.items, swap.value);
    } else if conversion.NewObject? {
      assert all + multiset{} == all;
      AllocBalances(b.heap, all, multiset{}, Plain, false);
      OneMore(held, b.items, |b.heap|);
    } else if conversion.Shared? {
      RetainBalances(b.heap, all, multiset{conversion.o});
      OneMore(held, b.items, conversion.o);
    }
  }

  lemma OneMore(held: multiset<Ref>, items: seq<Ref>, o: Ref)
    ensures held + multiset(items + [o]) == held + multiset(items) + multiset{o}
  {
  }

  ghost predicate KeepAlive(h: Heap<Body>, g: Heap<Body>) {
    |h| <= |g| && forall o :: 0 <= o < |h| ==> h[o].rc <= g[o].rc
  }

  lemma {:induction false} ConvertBalances(h: Heap<Body>, held: multiset<Ref>, swap: Option<Ref>, values: seq<GValue>,
      n: nat)
    requires Balanced(h, held) && n <= |values| && CanConvert(h, values)
    requires swap.Some? ==> Alive(h, swap.value)
    ensures var b := Convert(h, swap, values, n);
            Balanced(b.heap, held + multiset(b.items)) && BodiesStay(h, b.heap) && KeepAlive(h, b.heap)
  {
    hide Balanced, ConvertOne;
    if n == 0 {
      assert held + multiset([]) == held;
    } else {
      ConvertBalances(h, held, swap, values, n - 1);
      var b := Convert(h, swap, values, n - 1);
      if b.complete {
        ConvertOneBalances(b, held, if n == 1 then swap else None, values[n - 1].conversion);
      }
    }
  }

  /** A tuple takes over the references to its items. */
  lemma TupleBalances(h: Heap<Body>, held: multiset<Ref>, items: seq<Ref>)
    requires Balanced(h, held + multiset(items))
    ensures Balanced(Alloc(h, Tuple(items), false), held + multiset{|h|})
  {
    hide Balanced;
    AllocBalances(h, held, multiset(items), Tuple(items), false);
  }

  lemma ConcatBalances(h: Heap<Body>, held: multiset<Ref>, params: Ref, extra: Ref)
    requires Balanced(h, held + multiset{params}) && extra in held && IsTuple(h, params) && IsTuple(h, extra)
    ensures var p := Concat(h, params, extra);
            && p.Some? && p.value.params == Some(|h|)
            && Balanced(p.value.heap, held + multiset{|h|}) && BodiesStay(h, p.value.heap)
            && |p.value.heap| == |h| + 1 && p.value.heap[|h|].body == Tuple(h[params].body.items + h[extra].body.items)
  {
    hide Balanced, Retain;
    var before := held + multiset{params};
    assert extra in before && params in before;
    BalancedIsAlive(h, before);
    ItemsAreAlive(h, before, params);
    ItemsAreAlive(h, before, extra);
    var all := h[params].body.items + h[extra].body.items;
    RetainBalances(h, before, multiset(all));
    TupleBalances(Retain(h, multiset(all)), before, all);
    var g := Alloc(Retain(h, multiset(all)), Tuple(all), false);
    assert before + multiset{|h|} == held + multiset{|h|} + multiset([params]);
    DropKeeps(g, held + multiset{|h|}, [params]);
  }

  lemma FinishBalances(h: Heap<Body>, held: multiset<Ref>, params: Ref, complete: bool, extra: Option<Ref>)
    requires Balanced(h, held + multiset{params}) && IsTuple(h, params)
    requires extra.Some? ==> extra.value in held && IsTuple(h, extra.value)
    ensures var p := Finish(h, params, complete, extra);
            && p.Some? && Balanced(p.value.heap, held + Opt(p.value.params)) && BodiesStay(h, p.value.heap)
            && (p.value.params.Some? ==> IsTuple(p.value.heap, p.value.params.value))
            && (p.value.params.Some? <==> complete)
  {
    hide Balanced, Concat;
    if !complete {
      assert multiset([params]) == multiset{params} && held + multiset{} == held;
      DropKeeps(h, held, [params]);
    } else if extra.Some? {
      ConcatBalances(h, held, params, extra.value);
    }
  }

  /** What an invocation holds when it calls Python is its tuple; if a conversion failed, nothing. */
  lemma PrepareBalances(h: Heap<Body>, held: multiset<Ref>, c: Closure, values: seq<GValue>)
    requires Balanced(h, held) && ClosureBag(c) <= held && ClosureFits(h, c) && CanConvert(h, values)
    ensures var p := Prepare(h, c, values);
            && p.Some? && Balanced(p.value.heap, held + Opt(p.value.params)) && BodiesStay(h, p.value.heap)
            && (p.value.params.Some? ==> IsTuple(p.value.heap, p.value.params.value))
            && (p.value.params.Some? <==> Convert(h, if c.swaps then c.swapData else None, values, |values|).complete)
  {
    hide Balanced, Convert, Finish, ClosureBag;
    InBag(c, held);
    BalancedIsAlive(h, held);
    var swap := if c.swaps then c.swapData else None;
    ConvertBalances(h, held, swap, values, |values|);
    var b := Convert(h, swap, values, |values|);
    TupleBalances(b.heap, held, b.items);
    FinishBalances(Alloc(b.heap, Tuple(b.items), false), held, |b.heap|, b.complete, c.extraArgs);
  }

  lemma InBag(c: Closure, held: multiset<Ref>)
    requires ClosureBag(c) <= held
    ensures c.swapData.Some? ==> c.swapData.value in held
    ensures c.extraArgs.Some? ==> c.extraArgs.value in held
    ensures c.callback.Some? ==> c.callback.value in held
  {
    hide ClosureBag;
    BagParts(c);
  }

  lemma BagParts(c: Closure)
    ensures ClosureBag(c) == Opt(c.swapData) + Opt(c.extraArgs) + Opt(c.callback)
  {
  }

  // ------------------------------------------------------------------ steps keep the invariant

  lemma ClosureIsHeld(s: State, c: nat)
    requires c < |s.closures|
    ensures ClosureBag(s.closures[c]) <= Held(s)
  {
    TotalUpdate(ClosureBag, s.closures, c, s.closures[c]);
  }

  lemma HeldWithFrame(s: State, h: Heap<Body>, f: Frame)
    ensures Held(State(h, s.closures, s.frames + [f])) == Held(s) + FrameBag(f)
  {
    TotalAppend(FrameBag, s.frames, f);
  }

  lemma HeldWithClosure(s: State, h: Heap<Body>, c: Closure)
    ensures Held(State(h, s.closures + [c], s.frames)) == Held(s) + ClosureBag(c)
  {
    TotalAppend(ClosureBag, s.closures, c);
  }

  lemma HeldWithoutFrame(s: State, h: Heap<Body>, f: nat)
    requires f < |s.frames|
    ensures Held(State(h, s.closures, s.frames[f := Done])) + FrameBag(s.frames[f]) == Held(s)
  {
    TotalUpdate(FrameBag, s.frames, f, Done);
  }

  lemma HeldWithoutClosure(s: State, h: Heap<Body>, c: nat, x: Closure)
    requires c < |s.closures| && ClosureBag(x) == multiset{}
    ensures Held(State(h, s.closures[c := x], s.frames)) + ClosureBag(s.closures[c]) == Held(s)
  {
    TotalUpdate(ClosureBag, s.closures, c, x);
  }

  lemma InvalidHoldsNothing(swaps: bool)
    ensures ClosureBag(INVALID.(swaps := swaps)) == multiset{}
  {
  }

  /** No live closure lacks its swap data, so the early return without cleanup is out of reach until the
      closure is invalidated. */
  lemma NoBailOut(h: Heap<Body>, c: Closure, values: seq<GValue>)
    requires ClosureFits(h, c)
    ensures BailsOut(c, values) <==> !IsLive(c) && c.swaps && values != []
  {
  }

  lemma InvokeKeeps(s: State, c: nat, values: seq<GValue>)
    requires Inv(s) && Enabled(s, Invoke(c, values))
    ensures ClosureFits(s.heap, s.closures[c])
    ensures var t := InvokeStep(s, c, values);
            && t.Some? && Inv(t.value) && BodiesStay(s.heap, t.value.heap)
            && |t.value.frames| == |s.frames| + 1
            && Held(t.value) == Held(s) + FrameBag(t.value.frames[|s.frames|])
  {
    hide Balanced, Prepare, Held, ClosureBag;
    var rec := s.closures[c];
    NoBailOut(s.heap, rec, Visible(values));
    ClosureIsHeld(s, c);
    VisibleConverts(s.heap, values);
    PrepareBalances(s.heap, Held(s), rec, Visible(values));
    var p := Prepare(s.heap, rec, Visible(values)).value;
    var f := NewFrame(rec, p.params);
    HeldWithFrame(s, p.heap, f);
    AllFit(s, State(p.heap, s.closures, s.frames));
  }

  lemma VisibleConverts(h: Heap<Body>, values: seq<GValue>)
    requires values != [] && CanConvert(h, values)
    ensures CanConvert(h, Visible(values))
  {
  }

  lemma ReturnKeeps(s: State, f: nat, result: Option<Ref>)
    requires f < |s.frames| && s.frames[f].Running? && (result.Some? ==> Alive(s.heap, result.value)) && Inv(s)
    ensures var t := ReturnStep(s, f, result);
            && t.Some? && Inv(t.value) && BodiesStay(s.heap, t.value.heap)
            && Held(t.value) + FrameBag(s.frames[f]) == Held(s)
  {
    hide Balanced, Held, Retain;
    var t0 := s.(frames := s.frames[f := Done]);
    HeldWithoutFrame(s, s.heap, f);
    RetainBalances(s.heap, Held(s), Opt(result));
    ReturnBag(Held(t0), s.frames[f].params, result);
    DropKeeps(Retain(s.heap, Opt(result)), Held(t0), [s.frames[f].params] + OptSeq(result));
    var t := ReturnStep(s, f, result).value;
    HeldWithoutFrame(s, t.heap, f);
    SameHeld(t0, t.heap);
    AllFit(s, State(t.heap, s.closures, s.frames));
  }

  lemma SameHeld(s: State, h: Heap<Body>)
    ensures Held(s.(heap := h)) == Held(s)
  {
  }

  lemma ReturnBag(held: multiset<Ref>, params: Ref, result: Option<Ref>)
    ensures held + multiset{params} + Opt(result) == held + multiset([params] + OptSeq(result))
  {
  }

  lemma InvalidateKeeps(s: State, c: nat)
    requires Inv(s) && c < |s.closures|
    ensures var t := Step(s, Invalidate(c));
            && t.Some? && Inv(t.value) && BodiesStay(s.heap, t.value.heap)
            && Held(t.value) + ClosureBag(s.closures[c]) == Held(s)
  {
    hide Balanced, Held, Refs;
    var x := INVALID.(swaps := s.closures[c].swaps);
    InvalidHoldsNothing(s.closures[c].swaps);
    HeldWithoutClosure(s, s.heap, c, x);
    var t0 := s.(closures := s.closures[c := x]);
    DropKeeps(s.heap, Held(t0), Refs(s.closures[c]));
    var t := Step(s, Invalidate(c)).value;
    SameHeld(t0, t.heap);
    AllFit(s, State(t.heap, s.closures, s.frames));
  }

  lemma ExtraBalances(h: Heap<Body>, held: multiset<Ref>, extra: Option<Ref>)
    requires Balanced(h, held) && (extra.Some? ==> Alive(h, extra.value))
    ensures var g, e := ExtraHeap(h, extra), ExtraArgs(h, extra);
            Balanced(g, held + Opt(e)) && BodiesStay(h, g) && KeepAlive(h, g) && (e.Some? ==> IsTuple(g, e.value))
  {
    hide Balanced, Retain;
    RetainBalances(h, held, Opt(extra));
    if extra.Some? && !IsTuple(h, extra.value) {
      assert multiset([extra.value]) == multiset{extra.value};
      TupleBalances(Retain(h, Opt(extra)), held, [extra.value]);
    }
  }

  lemma NewHeapBalances(h: Heap<Body>, held: multiset<Ref>, callback: Ref, extra: Option<Ref>, swap: Option<Ref>)
    requires Balanced(h, held) && Alive(h, callback)
    requires (extra.Some? ==> Alive(h, extra.value)) && (swap.Some? ==> Alive(h, swap.value))
    ensures var g, c := NewHeap(h, callback, extra, swap), NewClosure(h, callback, extra, swap);
            Balanced(g, held + ClosureBag(c)) && BodiesStay(h, g) && ClosureFits(g, c)
  {
    hide Balanced, Retain, ClosureBag, ExtraHeap, ExtraArgs, KeepAlive, Opt;
    var h1 := Retain(h, multiset{callback});
    RetainBalances(h, held, multiset{callback});
    var held1 := held + multiset{callback};
    SameTuple(h, h1, extra);
    NewBag(held, h, callback, extra, swap);
    ExtraBalances(h1, held1, extra);
    SwapIsAlive(h, callback, extra, swap);
    RetainBalances(ExtraHeap(h1, extra), held1 + Opt(ExtraArgs(h1, extra)), Opt(swap));
  }

  lemma SameTuple(h: Heap<Body>, g: Heap<Body>, extra: Option<Ref>)
    requires |g| == |h| && forall i :: 0 <= i < |h| ==> g[i].body == h[i].body
    ensures ExtraArgs(h, extra) == ExtraArgs(g, extra)
  {
  }

  lemma SwapIsAlive(h: Heap<Body>, callback: Ref, extra: Option<Ref>, swap: Option<Ref>)
    requires swap.Some? ==> Alive(h, swap.value)
    ensures AllAlive(ExtraHeap(Retain(h, multiset{callback}), extra), Opt(swap))
  {
  }

  lemma NewBag(held: multiset<Ref>, h: Heap<Body>, callback: Ref, extra: Option<Ref>, swap: Option<Ref>)
    ensures var c := NewClosure(h, callback, extra, swap);
            held + ClosureBag(c) == held + multiset{callback} + Opt(c.extraArgs) + Opt(swap)
  {
  }

  lemma NewKeeps(s: State, callback: Ref, extra: Option<Ref>, swap: Option<Ref>)
    requires Inv(s) && Enabled(s, New(callback, extra, swap))
    ensures var t := Step(s, New(callback, extra, swap));
            && t.Some? && Inv(t.value) && BodiesStay(s.heap, t.value.heap)
            && |t.value.closures| == |s.closures| + 1
            && Held(t.value) == Held(s) + ClosureBag(t.value.closures[|s.closures|])
  {
    hide Balanced, Held, NewHeap, ClosureBag, NewClosure, ClosureFits;
    NewHeapBalances(s.heap, Held(s), callback, extra, swap);
    var g, c := NewHeap(s.heap, callback, extra, swap), NewClosure(s.heap, callback, extra, swap);
    HeldWithClosure(s, g, c);
    AllFit(s, State(g, s.closures, s.frames));
  }

  lemma PyKeeps(s: State, e: Event)
    requires Inv(s) && Enabled(s, e) && (e.PyAlloc? || e.PyTake? || e.PyDrop?)
    ensures var t := Step(s, e);
            t.Some? && Inv(t.value) && BodiesStay(s.heap, t.value.heap) && Held(t.value) == Held(s)
  {
    hide Balanced, Held, Retain;
    match e
    case PyAlloc(body) =>
      var items := if body.Tuple? then multiset(body.items) else multiset{};
      RetainBalances(s.heap, Held(s), items);
      AllocBalances(Retain(s.heap, items), Held(s), items, body, true);
      SameHeld(s, Step(s, e).value.heap);
      AllFit(s, Step(s, e).value);
    case PyTake(o) =>
      AdoptBalances(s.heap, Held(s), o);
      SameHeld(s, Step(s, e).value.heap);
      AllFit(s, Step(s, e).value);
    case PyDrop(o) =>
      HandBalances(s.heap, Held(s), o);
      assert multiset([o]) == multiset{o};
      DropKeeps(Hand(s.heap, o), Held(s), [o]);
      SameHeld(s, Step(s, e).value.heap);
      AllFit(s, Step(s, e).value);
  }

  /** No step uses or gives back a reference that is gone or leaves early with the lock held, and
      every count stays what the program, the tuples, the closures and the running invocations hold. */
  lemma StepKeeps(s: State, e: Event)
    requires Inv(s) && Enabled(s, e)
    ensures Step(s, e).Some? && Inv(Step(s, e).value) && BodiesStay(s.heap, Step(s, e).value.heap)
  {
    hide Inv, InvokeStep, ReturnStep, NewHeap, NewClosure, Refs;
    match e
    case New(callback, extra, swap) => NewKeeps(s, callback, extra, swap);
    case Invalidate(c) => InvalidateKeeps(s, c);
    case Invoke(c, values) => InvokeKeeps(s, c, values);
    case Return(f, result) => ReturnKeeps(s, f, result);
    case _ => PyKeeps(s, e);
  }

  // ------------------------------------------------------------------ whole runs

  ghost predicate Run(states: seq<State>, events: seq<Event>) {
    && |states| == |events| + 1
    && Inv(states[0])
    && (forall i :: 0 <= i < |events| ==>
          Enabled(states[i], events[i]) && (Inv(states[i]) ==> Step(states[i], events[i]) == Some(states[i + 1])))
  }

  lemma {:induction false} RunKeeps(states: seq<State>, events: seq<Event>, i: nat)
    requires Run(states, events) && i <= |events|
    ensures Inv(states[i])
    ensures i < |events| ==> Step(states[i], events[i]) == Some(states[i + 1])
  {
    hide Inv, Enabled, Step;
    if i > 0 {
      RunKeeps(states, events, i - 1);
      StepKeeps(states[i - 1], events[i - 1]);
    }
  }

  /** When every closure was invalidated and no invocation runs, this module holds no reference. */
  lemma QuietHoldsNothing(s: State)
    requires Inv(s)
    requires forall i :: 0 <= i < |s.closures| ==> !IsLive(s.closures[i])
    requires forall i :: 0 <= i < |s.frames| ==> s.frames[i] == Done
    ensures Held(s) == multiset{} && Conserved(s.heap, InTuples(s.heap))
  {
    hide InTuples, Conserved;
    TotalOfNothing(ClosureBag, s.closures);
    TotalOfNothing(FrameBag, s.frames);
    assert multiset{} + InTuples(s.heap) == InTuples(s.heap);
  }

  /** Creating a closure and invalidating it restores every count, the one of an extra argument that
      is not a tuple included; the tuple made for such an argument dies. */
  lemma NewThenInvalidate(h: Heap<Body>, callback: Ref, extra: Option<Ref>, swap: Option<Ref>)
    requires Alive(h, callback) && (extra.Some? ==> Alive(h, extra.value)) && (swap.Some? ==> Alive(h, swap.value))
    ensures DropAll(NewHeap(h, callback, extra, swap), Refs(NewClosure(h, callback, extra, swap)))
         == Some(if extra.None? || IsTuple(h, extra.value) then h else Wrapped(h, extra.value, 0))
  {
    hide CountAll, Retain, NewHeap, DropAll, Refs, NewClosure, Wrapped;
    RefsOfNew(h, callback, extra, swap);
    if extra.Some? && !IsTuple(h, extra.value) {
      // callback, then the wrapping tuple, then in turn its item and the swap data
      WrappedHeap(h, callback, extra.value, swap);
      WrappedDrop(h, callback, extra.value, OptSeq(swap));
    } else {
      PlainHeap(h, callback, extra, swap);
      DropUndoesRetain(h, Refs(NewClosure(h, callback, extra, swap)));
    }
  }

  lemma RefsOfNew(h: Heap<Body>, callback: Ref, extra: Option<Ref>, swap: Option<Ref>)
    requires Alive(h, callback) && (extra.Some? ==> Alive(h, extra.value)) && (swap.Some? ==> Alive(h, swap.value))
    ensures var refs := Refs(NewClosure(h, callback, extra, swap));
            if extra.Some? && !IsTuple(h, extra.value) then refs == OptSeq(swap) + [|h|] + [callback]
            else forall i :: 0 <= i < |refs| ==> Alive(h, refs[i])
    ensures forall i :: 0 <= i < |OptSeq(swap)| ==> Alive(h, OptSeq(swap)[i])
  {
  }

  lemma PlainHeap(h: Heap<Body>, callback: Ref, extra: Option<Ref>, swap: Option<Ref>)
    requires extra.Some? ==> IsTuple(h, extra.value)
    ensures NewHeap(h, callback, extra, swap) == Retain(h, multiset(Refs(NewClosure(h, callback, extra, swap))))
  {
    hide Retain, ExtraHeap, ExtraArgs, Refs, Opt;
    PlainExtra(h, Retain(h, multiset{callback}), extra);
    PlainBag(h, callback, extra, swap);
    RetainTwice(h, multiset{callback}, Opt(extra));
    RetainTwice(h, multiset{callback} + Opt(extra), Opt(swap));
  }

  lemma PlainExtra(h: Heap<Body>, g: Heap<Body>, extra: Option<Ref>)
    requires extra.Some? ==> IsTuple(h, extra.value)
    requires |g| == |h| && forall i :: 0 <= i < |h| ==> g[i].body == h[i].body
    ensures ExtraHeap(g, extra) == Retain(g, Opt(extra)) && ExtraArgs(h, extra) == extra
  {
    hide Retain;
  }

  lemma PlainBag(h: Heap<Body>, callback: Ref, extra: Option<Ref>, swap: Option<Ref>)
    requires ExtraArgs(h, extra) == extra
    ensures multiset(Refs(NewClosure(h, callback, extra, swap))) == multiset{callback} + Opt(extra) + Opt(swap)
  {
    hide ExtraArgs;
  }

  /** The heap with the wrapping tuple, `rc` its count. */
  function Wrapped(h: Heap<Body>, extra: Ref, rc: nat): Heap<Body> {
    h + [Obj(rc, 0, Tuple([extra]))]
  }

  lemma WrappedHeap(h: Heap<Body>, callback: Ref, extra: Ref, swap: Option<Ref>)
    requires Alive(h, callback) && Alive(h, extra) && !IsTuple(h, extra)
    ensures NewHeap(h, callback, Some(extra), swap)
         == Retain(Wrapped(h, extra, 1), multiset(OptSeq(swap) + [extra]) + multiset{callback})
  {
    hide Retain;
    var bag := multiset{callback} + Opt(Some(extra));
    WrappedBag(callback, extra, swap);
    RetainTwice(h, multiset{callback}, Opt(Some(extra)));
    AllocRetain(h, bag, Tuple([extra]));
    RetainTwice(Wrapped(h, extra, 1), bag, Opt(swap));
  }

  lemma WrappedBag(callback: Ref, extra: Ref, swap: Option<Ref>)
    ensures multiset(OptSeq(swap) + [extra]) + multiset{callback} == multiset{callback} + Opt(Some(extra)) + Opt(swap)
  {
  }

  lemma AllocRetain(h: Heap<Body>, bag: multiset<Ref>, body: Body)
    requires |h| !in bag
    ensures Alloc(Retain(h, bag), body, false) == Retain(h + [Obj(1, 0, body)], bag)
  {
  }

  lemma WrappedDrop(h: Heap<Body>, callback: Ref, extra: Ref, sw: seq<Ref>)
    requires Alive(h, callback) && Alive(h, extra) && forall i :: 0 <= i < |sw| ==> Alive(h, sw[i])
    ensures DropAll(Retain(Wrapped(h, extra, 1), multiset(sw + [extra]) + multiset{callback}), sw + [|h|] + [callback])
         == Some(Wrapped(h, extra, 0))
  {
    hide Retain, CountAll, DropAll, Wrapped, Less;
    var bag := multiset(sw + [extra]);
    var w := Wrapped(h, extra, 1);
    WrappedIsAlive(h, extra, 1, callback);
    LessOfRetain(w, bag, callback);
    var g := Retain(w, bag + multiset{callback});
    DropPlain(g, sw + [|h|], callback);
    WorkIsAlive(h, extra, sw);
    WrapperDies(h, extra, bag);
    DropDyingTuple(Retain(w, bag), sw, |h|);
    DropUndoesRetain(Wrapped(h, extra, 0), sw + [extra]);
  }

  /** Dropping the last of the work when something else holds it too. */
  lemma DropPlain(h: Heap<Body>, rest: seq<Ref>, o: Ref)
    requires Alive(h, o) && h[o].rc > 1
    ensures DropAll(h, rest + [o]) == DropAll(Less(h, o), rest)
  {
    assert (rest + [o])[..|rest|] == rest && rest + [] == rest;
  }

  lemma DropDyingTuple(h: Heap<Body>, rest: seq<Ref>, o: Ref)
    requires Alive(h, o) && h[o].rc == 1 && h[o].body.Tuple?
    ensures DropAll(h, rest + [o]) == DropAll(Less(h, o), rest + h[o].body.items)
  {
    assert (rest + [o])[..|rest|] == rest;
  }

  lemma WrappedIsAlive(h: Heap<Body>, extra: Ref, rc: nat, o: Ref)
    requires Alive(h, o)
    ensures Alive(Wrapped(h, extra, rc), o)
  {
  }

  lemma WorkIsAlive(h: Heap<Body>, extra: Ref, sw: seq<Ref>)
    requires Alive(h, extra) && forall i :: 0 <= i < |sw| ==> Alive(h, sw[i])
    ensures |h| !in multiset(sw + [extra])
    ensures forall i :: 0 <= i < |sw + [extra]| ==> Alive(Wrapped(h, extra, 0), (sw + [extra])[i])
  {
  }

  lemma WrapperDies(h: Heap<Body>, extra: Ref, bag: multiset<Ref>)
    requires |h| !in bag
    ensures var g := Retain(Wrapped(h, extra, 1), bag);
            && Alive(g, |h|) && g[|h|].rc == 1 && g[|h|].body == Tuple([extra])
            && Less(g, |h|) == Retain(Wrapped(h, extra, 0), bag)
  {
  }

  // ------------------------------------------------------------------ what the callable receives

  /** Item `i` of the tuple: the swap data for parameter 0 if there is any, else what the conversion gave. */
  ghost predicate IsArgument(h: Heap<Body>, swap: Option<Ref>, values: seq<GValue>, items: seq<Ref>, i: nat)
    requires i < |values| && i < |items|
  {
    if i == 0 && swap.Some? then items[i] == swap.value
    else
      match values[i].conversion
      case Shared(o) => items[i] == o
      case NewObject => items[i] >= |h| && forall j :: 0 <= j < i ==> items[j] < items[i]
      case Fails => false
  }

  ghost predicate AreArguments(h: Heap<Body>, swap: Option<Ref>, values: seq<GValue>, items: seq<Ref>) {
    |items| == |values| && forall i :: 0 <= i < |values| ==> IsArgument(h, swap, values, items, i)
  }

  lemma {:induction false} ConvertedItems(h: Heap<Body>, swap: Option<Ref>, values: seq<GValue>, n: nat)
    requires n <= |values| && CanConvert(h, values) && (swap.Some? ==> Alive(h, swap.value))
    requires Convert(h, swap, values, n).complete
    ensures var b := Convert(h, swap, values, n);
            && |b.heap| >= |h| && |b.items| == n
            && (forall i :: 0 <= i < n ==> b.items[i] < |b.heap|)
            && (forall i :: 0 <= i < n ==> IsArgument(h, swap, values, b.items, i))
  {
    if n > 0 {
      ConvertedItems(h, swap, values, n - 1);
      var a, b := Convert(h, swap, values, n - 1), Convert(h, swap, values, n);
      assert b.items == a.items + [b.items[n - 1]];
      forall i | 0 <= i < n ensures IsArgument(h, swap, values, b.items, i) {
        if i < n - 1 {
          assert IsArgument(h, swap, values, a.items, i);
        }
      }
    }
  }

  /** The conversions succeed exactly if none that is needed fails; the one of a swapped parameter is not. */
  lemma {:induction false} CompleteIff(h: Heap<Body>, swap: Option<Ref>, values: seq<GValue>, n: nat)
    requires n <= |values|
    ensures Convert(h, swap, values, n).complete
       <==> forall i :: 0 <= i < n && !(i == 0 && swap.Some?) ==> !values[i].conversion.Fails?
  {
    if n > 0 {
      CompleteIff(h, swap, values, n - 1);
    }
  }

  /** The call's tuple consists of the arguments made from `values` and of `extras`. */
  ghost predicate CalledWith(h: Heap<Body>, swap: Option<Ref>, values: seq<GValue>, extras: seq<Ref>, tuple: seq<Ref>) {
    exists items :: AreArguments(h, swap, values, items) && tuple == items + extras
  }

  predicate NoneFails(values: seq<GValue>, swap: Option<Ref>) {
    forall i :: 0 <= i < |values| && !(i == 0 && swap.Some?) ==> !values[i].conversion.Fails?
  }

  /** The tuple of a call with the first `n` of `values`: the swap data for item 0 if there is any, the
      converted parameters, and `extras`. */
  ghost predicate IsCall(h: Heap<Body>, swap: Option<Ref>, values: seq<GValue>, n: nat,
                         extras: seq<Ref>, tuple: seq<Ref>)
    requires n <= |values|
  {
    && |tuple| == n + |extras| && tuple[n..] == extras
    && forall i :: 0 <= i < n ==> IsArgument(h, swap, values, tuple, i)
  }

  /** What invoking a closure in state `s` comes to in state `t`: the callable is called with the first `n`
      parameters, exactly if no conversion that is needed fails. */
  ghost predicate Receives(s: State, values: seq<GValue>, n: nat, t: State,
                           callable: Ref, swap: Option<Ref>, extras: seq<Ref>)
    requires n <= |values|
  {
    && |t.frames| == |s.frames| + 1
    && var f := t.frames[|s.frames|];
       && (f.Running? <==> forall i :: 0 <= i < n && !(i == 0 && swap.Some?) ==> !values[i].conversion.Fails?)
       && (f.Running? ==>
             f.callee == callable && IsTuple(t.heap, f.params)
             && IsCall(s.heap, swap, values, n, extras, t.heap[f.params].body.items))
  }

  /** The parameters that count: all but the last one if that is a CORBA exception. */
  lemma InvokePasses(s: State, c: nat, values: seq<GValue>, t: State)
    requires Inv(s) && Enabled(s, Invoke(c, values)) && Step(s, Invoke(c, values)) == Some(t)
    ensures c < |s.closures| && s.closures[c].callback.Some? && values != []
    ensures Receives(s, values, if values[|values| - 1].holdsCorbaException then |values| - 1 else |values|,
                     t, s.closures[c].callback.value, s.closures[c].swapData, Extras(s.heap, s.closures[c].extraArgs))
  {
    hide Balanced, Convert, Finish, Held, AreArguments, Refs, CanConvert, Extras, CalledWith, IsCall;
    var rec := s.closures[c];
    InvokeKeeps(s, c, values);
    var vs := Visible(values);
    VisibleConverts(s.heap, values);
    PreparePasses(s, rec, vs, c);
    var p := Prepare(s.heap, rec, vs).value;
    if p.params.Some? {
      CalledIsCall(s.heap, rec.swapData, values, Extras(s.heap, rec.extraArgs), p.heap[p.params.value].body.items);
    }
  }

  lemma CalledIsCall(h: Heap<Body>, swap: Option<Ref>, values: seq<GValue>, extras: seq<Ref>, tuple: seq<Ref>)
    requires values != [] && CalledWith(h, swap, Visible(values), extras, tuple)
    ensures IsCall(h, swap, values, |Visible(values)|, extras, tuple)
  {
    var vs := Visible(values);
    var items :| AreArguments(h, swap, vs, items) && tuple == items + extras;
    forall i | 0 <= i < |vs| ensures IsArgument(h, swap, values, tuple, i) {
      assert IsArgument(h, swap, vs, items, i);
    }
  }

  lemma PreparePasses(s: State, rec: Closure, vs: seq<GValue>, c: nat)
    requires Inv(s) && c < |s.closures| && rec == s.closures[c] && IsLive(rec) && CanConvert(s.heap, vs)
    ensures var p := Prepare(s.heap, rec, vs);
            && p.Some? && (p.value.params.Some? <==> NoneFails(vs, rec.swapData))
            && (p.value.params.Some? ==>
                  IsTuple(p.value.heap, p.value.params.value)
                  && CalledWith(s.heap, rec.swapData, vs, Extras(s.heap, rec.extraArgs),
                                p.value.heap[p.value.params.value].body.items))
  {
    hide Balanced, Convert, Finish, Held, AreArguments, Refs, CanConvert, Extras;
    var h := s.heap;
    CompleteIff(h, rec.swapData, vs, |vs|);
    ClosureIsHeld(s, c);
    InBag(rec, Held(s));
    BalancedIsAlive(h, Held(s));
    var b := Convert(h, rec.swapData, vs, |vs|);
    ConvertBalances(h, Held(s), rec.swapData, vs, |vs|);
    FinishPasses(h, b, Held(s), rec.extraArgs);
    if b.complete {
      ConvertedAreArguments(h, rec.swapData, vs);
    }
  }

  lemma ConvertedAreArguments(h: Heap<Body>, swap: Option<Ref>, vs: seq<GValue>)
    requires CanConvert(h, vs) && (swap.Some? ==> Alive(h, swap.value))
    requires Convert(h, swap, vs, |vs|).complete
    ensures AreArguments(h, swap, vs, Convert(h, swap, vs, |vs|).items)
  {
    ConvertedItems(h, swap, vs, |vs|);
  }

  lemma FinishPasses(h: Heap<Body>, b: Built, held: multiset<Ref>, extra: Option<Ref>)
    requires Balanced(b.heap, held + multiset(b.items)) && BodiesStay(h, b.heap)
    requires extra.Some? ==> extra.value in held && IsTuple(h, extra.value)
    ensures var p := Finish(Alloc(b.heap, Tuple(b.items), false), |b.heap|, b.complete, extra);
            && p.Some? && (p.value.params.Some? <==> b.complete)
            && (b.complete ==> IsTuple(p.value.heap, p.value.params.value)
                               && p.value.heap[p.value.params.value].body.items == b.items + Extras(h, extra))
  {
    hide Balanced, Concat;
    TupleBalances(b.heap, held, b.items);
    var g := Alloc(b.heap, Tuple(b.items), false);
    FinishBalances(g, held, |b.heap|, b.complete, extra);
    if b.complete && extra.Some? {
      ConcatBalances(g, held, |b.heap|, extra.value);
    }
  }

  // ------------------------------------------------------------------ a closure over its life

  /** Closure `c` is as it was made until it is invalidated, and so are its extra arguments. */
  lemma {:induction false} ClosureStays(states: seq<State>, events: seq<Event>, i: nat, j: nat, c: nat)
    requires Run(states, events) && i <= j <= |events| && c < |states[i].closures|
    requires forall k :: i <= k < j ==> events[k] != Invalidate(c)
    ensures Inv(states[i]) && Inv(states[j]) && BodiesStay(states[i].heap, states[j].heap)
    ensures c < |states[j].closures| && states[j].closures[c] == states[i].closures[c]
    decreases j
  {
    hide Inv, Enabled, Step, BodiesStay;
    RunKeeps(states, events, i);
    if i < j {
      ClosureStays(states, events, i, j - 1, c);
      StepOfRun(states, events, j - 1, c);
      Transitive(states[i].heap, states[j - 1].heap, states[j].heap);
    } else {
      SameBodies(states[i].heap);
    }
  }

  lemma SameBodies(h: Heap<Body>)
    ensures BodiesStay(h, h)
  {
  }

  lemma StepOfRun(states: seq<State>, events: seq<Event>, k: nat, c: nat)
    requires Run(states, events) && k < |events| && c < |states[k].closures| && events[k] != Invalidate(c)
    ensures Inv(states[k + 1]) && BodiesStay(states[k].heap, states[k + 1].heap)
    ensures c < |states[k + 1].closures| && states[k + 1].closures[c] == states[k].closures[c]
  {
    hide Inv, Enabled, Step, BodiesStay;
    RunKeeps(states, events, k);
    RunKeeps(states, events, k + 1);
    RunEnables(states, events, k);
    OneStep(states[k], events[k], c);
  }

  lemma RunEnables(states: seq<State>, events: seq<Event>, k: nat)
    requires Run(states, events) && k < |events|
    ensures Enabled(states[k], events[k])
  {
  }

  lemma Transitive(a: Heap<Body>, b: Heap<Body>, c: Heap<Body>)
    requires BodiesStay(a, b) && BodiesStay(b, c)
    ensures BodiesStay(a, c)
  {
  }

  lemma OneStep(s: State, e: Event, c: nat)
    requires Inv(s) && Enabled(s, e) && c < |s.closures| && e != Invalidate(c)
    ensures Step(s, e).Some? && BodiesStay(s.heap, Step(s, e).value.heap)
    ensures c < |Step(s, e).value.closures| && Step(s, e).value.closures[c] == s.closures[c]
  {
    hide Inv, DropAll, NewHeap, NewClosure, Prepare, BailsOut, Balanced, Refs, BodiesStay, ClosureFits, Retain, Alloc,
        Adopt, Hand;
    StepKeeps(s, e);
  }

  // ------------------------------------------------------------------ the callable

  ghost predicate InClosure(s: State, o: Ref) {
    exists c :: 0 <= c < |s.closures| && o in ClosureBag(s.closures[c])
  }

  ghost predicate InTuple(s: State, o: Ref) {
    exists t :: 0 <= t < |s.heap| && o in TupleBag(s.heap[t])
  }

  ghost predicate IsParams(s: State, o: Ref) {
    exists f :: 0 <= f < |s.frames| && o in FrameBag(s.frames[f])
  }

  lemma AliveIffHeld(s: State, o: Ref)
    requires Inv(s) && o < |s.heap|
    ensures Alive(s.heap, o) <==> s.heap[o].outside > 0 || InClosure(s, o) || InTuple(s, o) || IsParams(s, o)
  {
    hide Fits, ClosureBag, FrameBag, TupleBag;
    TotalHas(ClosureBag, s.closures, o);
    TotalHas(FrameBag, s.frames, o);
    TotalHas(TupleBag, s.heap, o);
    assert s.heap[o].rc == s.heap[o].outside + (Held(s) + InTuples(s.heap))[o];
  }

  /** The callable of a closure, be it running or not, is alive as long as the closure is not invalidated,
      and afterwards if and only if the program has a reference of its own or another closure, a live
      tuple or a running call has one.  A callable that invalidates its own closure is on its own. */
  lemma CallableAliveIff(states: seq<State>, events: seq<Event>, i: nat, k: nat)
    requires Run(states, events) && i < k <= |events| && events[i].New?
    ensures var s, callable := states[k], events[i].callback;
            && callable < |s.heap|
            && (Alive(s.heap, callable) <==>
                  s.heap[callable].outside > 0 || InClosure(s, callable) || InTuple(s, callable) || IsParams(s,
                      callable))
            && ((forall j :: i < j < k ==> events[j] != Invalidate(|states[i].closures|)) ==> InClosure(s, callable))
  {
    hide Inv, Step, InClosure, InTuple, IsParams, BodiesStay, ClosureBag;
    RunKeeps(states, events, i);
    RunKeeps(states, events, k);
    assert Enabled(states[i], events[i]);
    HeapsGrow(states, events, i, k);
    AliveIffHeld(states[k], events[i].callback);
    if forall j :: i < j < k ==> events[j] != Invalidate(|states[i].closures|) {
      ExtrasOfNew(states[i], events[i], states[i + 1]);
      ClosureStays(states, events, i + 1, k, |states[i].closures|);
      CallbackInBag(states[k].closures[|states[i].closures|]);
      InClosureBy(states[k], events[i].callback, |states[i].closures|);
    }
  }

  lemma InClosureBy(s: State, o: Ref, c: nat)
    requires c < |s.closures| && o in ClosureBag(s.closures[c])
    ensures InClosure(s, o)
  {
  }

  lemma CallbackInBag(c: Closure)
    requires c.callback.Some?
    ensures c.callback.value in ClosureBag(c)
  {
    InBag(c, ClosureBag(c));
  }

  lemma {:induction false} HeapsGrow(states: seq<State>, events: seq<Event>, i: nat, k: nat)
    requires Run(states, events) && i <= k <= |events|
    ensures |states[i].heap| <= |states[k].heap|
    decreases k
  {
    hide Inv, Step, Enabled, BodiesStay;
    if i < k {
      HeapsGrow(states, events, i, k - 1);
      RunKeeps(states, events, k - 1);
      RunEnables(states, events, k - 1);
      StepKeeps(states[k - 1], events[k - 1]);
      Grows(states[k - 1].heap, states[k].heap);
    }
  }

  lemma Grows(h: Heap<Body>, g: Heap<Body>)
    requires BodiesStay(h, g)
    ensures |h| <= |g|
  {
  }

  /** Between its making and its invalidation a closure calls the callable it was made with, exactly if no
      needed conversion fails, with: its swap data in place of parameter 0, the converted parameters
      without a trailing CORBA exception, and the extra arguments it was made with, whatever the program
      did to its own references meanwhile. */
  lemma CallReceives(states: seq<State>, events: seq<Event>, i: nat, j: nat)
    requires Run(states, events) && i < j < |events| && events[i].New?
    requires events[j].Invoke? && events[j].c == |states[i].closures| && events[j].values != []
    requires forall k :: i < k < j ==> events[k] != Invalidate(|states[i].closures|)
    ensures var values := events[j].values;
            Receives(states[j], values, if values[|values| - 1].holdsCorbaException then |values| - 1 else |values|,
                     states[j + 1], events[i].callback, events[i].swapData, Extras(states[i].heap, events[i].extraArgs))
  {
    hide Inv, Step, Receives, Enabled, BodiesStay;
    var c := |states[i].closures|;
    RunKeeps(states, events, i);
    RunKeeps(states, events, j);
    ExtrasOfNew(states[i], events[i], states[i + 1]);
    ClosureStays(states, events, i + 1, j, c);
    ExtrasStay(states[i + 1].heap, states[j].heap, states[j].closures[c].extraArgs);
    InvokePasses(states[j], c, events[j].values, states[j + 1]);
  }

  lemma ExtrasStay(h: Heap<Body>, g: Heap<Body>, extra: Option<Ref>)
    requires BodiesStay(h, g) && (extra.Some? ==> extra.value < |h|)
    ensures Extras(g, extra) == Extras(h, extra)
  {
  }

  lemma ExtrasOfNew(s: State, e: Event, t: State)
    requires Inv(s) && Enabled(s, e) && e.New? && Step(s, e) == Some(t)
    ensures |t.closures| == |s.closures| + 1
    ensures var rec := t.closures[|s.closures|];
            && rec.swapData == e.swapData && rec.callback == Some(e.callback)
            && Extras(t.heap, rec.extraArgs) == Extras(s.heap, e.extraArgs)
            && (rec.extraArgs.Some? ==> IsTuple(t.heap, rec.extraArgs.value))
  {
    hide Inv, Retain, Balanced;
    NewKeeps(s, e.callback, e.extraArgs, e.swapData);
    ExtrasOfHeap(s.heap, e.callback, e.extraArgs, e.swapData);
  }

  lemma ExtrasOfHeap(h: Heap<Body>, callback: Ref, extra: Option<Ref>, swap: Option<Ref>)
    requires extra.Some? ==> extra.value < |h|
    ensures var g, e := NewHeap(h, callback, extra, swap), ExtraArgs(h, extra);
            Extras(g, e) == Extras(h, extra) && (e.Some? ==> IsTuple(g, e.value))
  {
    hide Retain;
  }
}
