/** `pybonobo_closure_new`, `pybonobo_closure_invalidate` and `pybonobo_closure_marshal`, statement by
    statement, each proved to take its step of Closure. */
module ClosureModule {
  import opened Options
  import opened PyHeap
  import opened PyTuples
  import opened Closure
  import opened ClosureSafety

  /** One turn of the loop that fills the tuple of parameters. */
  method FillItem(b: Built, swap: Option<Ref>, conversion: Conversion) returns (r: Built)
    requires swap.Some? ==> Alive(b.heap, swap.value)
    requires conversion.Shared? ==> Alive(b.heap, conversion.o)
    ensures r == ConvertOne(b, swap, conversion)
  {
    hide Retain;
    if swap.Some? {
      var heap := IncRef(b.heap, swap.value);
      return Built(heap, b.items + [swap.value], true);
    }
    match conversion {
      case NewObject =>
        r := Built(Alloc(b.heap, Plain, false), b.items + [|b.heap|], true);
      case Shared(o) =>
        var heap := IncRef(b.heap, o);
        r := Built(heap, b.items + [o], true);
      case Fails =>
        r := b.(complete := false);
    }
  }

  /** The loop; a failed conversion leaves it. */
  method FillTuple(h: Heap<Body>, swap: Option<Ref>, values: seq<GValue>, ghost held: multiset<Ref>) returns (b: Built)
    requires Balanced(h, held) && CanConvert(h, values) && (swap.Some? ==> Alive(h, swap.value))
    ensures b == Convert(h, swap, values, |values|)
  {
    hide Balanced, ConvertOne, BodiesStay;
    var i := 0;
    b := Built(h, [], true);
    while i < |values|
      invariant 0 <= i <= |values|
      invariant b == Convert(h, swap, values, i) && b.complete
    {
      ConvertBalances(h, held, swap, values, i);
      b := FillItem(b, if i == 0 then swap else None, values[i].conversion);
      i := i + 1;
      if !b.complete {
        FailureLasts(h, swap, values, i);
        return;
      }
    }
  }

  lemma {:induction false} FailureLasts(h: Heap<Body>, swap: Option<Ref>, values: seq<GValue>, n: nat)
    requires n <= |values| && !Convert(h, swap, values, n).complete
    ensures Convert(h, swap, values, |values|) == Convert(h, swap, values, n)
    decreases |values| - n
  {
    if n < |values| {
      FailureLasts(h, swap, values, n + 1);
    }
  }

  /** The marshaller up to the call of the callable. */
  method BuildCall(h: Heap<Body>, c: Closure, values: seq<GValue>, ghost held: multiset<Ref>) returns (p: Prepared)
    requires Balanced(h, held) && ClosureBag(c) <= held && ClosureFits(h, c) && IsLive(c)
    requires values != [] && CanConvert(h, values)
    ensures Prepare(h, c, Visible(values)) == Some(p)
  {
    hide Balanced, Convert, ClosureBag, Concat;
    VisibleConverts(h, values);
    InBag(c, held);
    BalancedIsAlive(h, held);
    PrepareBalances(h, held, c, Visible(values));
    var params := values;
    if values[|values| - 1].holdsCorbaException {
      params := values[..|values| - 1];
    }
    var b := FillTuple(h, if c.swaps then c.swapData else None, params, held);
    var heap, tuple := Alloc(b.heap, Tuple(b.items), false), |b.heap|;
    if !b.complete {
      return Prepared(Drop(heap, tuple).value, None);
    }
    if c.extraArgs.None? {
      return Prepared(heap, Some(tuple));
    }
    p := Concat(heap, tuple, c.extraArgs.value).value; // PySequence_Concat, DECREF
  }

  function Lock(f: Frame): nat {
    if f.Running? then 1 else 0
  }

  /** How often the lock was taken and not given back. */
  function Locks(frames: seq<Frame>): nat {
    if frames == [] then 0 else Locks(frames[..|frames| - 1]) + Lock(frames[|frames| - 1])
  }

  lemma LocksAppend(frames: seq<Frame>, f: Frame)
    ensures Locks(frames + [f]) == Locks(frames) + Lock(f)
  {
    assert (frames + [f])[..|frames|] == frames;
  }

  lemma {:induction false} LocksUpdate(frames: seq<Frame>, i: nat, f: Frame)
    requires i < |frames|
    ensures Locks(frames[i := f]) == Locks(frames) - Lock(frames[i]) + Lock(f)
    decreases |frames|
  {
    var n := |frames| - 1;
    if i == n {
      assert frames[i := f][..n] == frames[..n];
    } else {
      LocksUpdate(frames[..n], i, f);
      assert frames[i := f][..n] == frames[..n][i := f];
    }
  }

  /** XDECREF. */
  method XDrop(h: Heap<Body>, o: Option<Ref>) returns (r: Heap<Body>)
    requires DropAll(h, OptSeq(o)).Some?
    ensures DropAll(h, OptSeq(o)) == Some(r)
  {
    r := h;
    if o.Some? {
      r := Drop(h, o.value).value;
    }
  }

  /** The marshaller from the return of the callable on.  `ev` says that there is a CORBA environment,
      `pythonException` what pyorbit_check_python_ex answers, `wantsValue` that GObject wants the result.
      Every way out drops the result, if there is one, and the tuple, and gives back the lock once. */
  method EndCall(h: Heap<Body>, lock: nat, params: Ref, result: Option<Ref>,
                 ev: bool, pythonException: bool, wantsValue: bool)
    returns (r: Heap<Body>, left: nat, value: Option<Ref>)
    requires lock > 0 && DropAll(h, [params] + OptSeq(result)).Some?
    requires DropAll(h, OptSeq(result)).Some?
    ensures DropAll(h, [params] + OptSeq(result)) == Some(r) && left == lock - 1
    ensures value == if wantsValue && !(ev && pythonException) then result else None
  {
    hide DropAll;
    DropInTurn(h, [params], OptSeq(result));
    DropNothing(h);
    value := None;
    r := h;
    if ev {
      if pythonException {
        r := XDrop(r, result);
        r := Drop(r, params).value;
        left := lock - 1;
        return;
      }
    } else {
      if result.None? { // PyErr_Print
        r := Drop(r, params).value;
        left := lock - 1;
        return;
      }
    }
    if result.None? { // PyErr_Print
      r := Drop(r, params).value;
      left := lock - 1;
      return;
    }
    if wantsValue {
      value := result;
    }
    r := Drop(r, result.value).value;
    r := Drop(r, params).value;
    left := lock - 1;
  }

  lemma DropNothing(h: Heap<Body>)
    ensures DropAll(h, []) == Some(h)
  {
  }

  class Module {
    var heap: Heap<Body>
    var closures: seq<Closure>
    var frames: seq<Frame>
    var lock: nat // PyGILState_Ensure calls not yet released

    ghost function St(): State
      reads this
    {
      State(heap, closures, frames)
    }

    /** The lock was taken once for each invocation in progress. */
    ghost predicate Valid()
      reads this
    {
      Inv(St()) && lock == Locks(frames)
    }

    constructor (interpreter: Heap<Body>)
      requires Balanced(interpreter, multiset{})
      ensures Valid() && St() == State(interpreter, [], [])
    {
      heap, closures, frames, lock := interpreter, [], [], 0;
      new;
      assert Held(St()) == multiset{};
    }

    method ClosureNew(callback: Ref, extra: Option<Ref>, swap: Option<Ref>) returns (c: nat)
      requires Valid() && Enabled(St(), New(callback, extra, swap))
      modifies this
      ensures Valid() && c == |old(closures)| && Takes(old(St()), New(callback, extra, swap), St())
    {
      hide Inv, NewHeap, NewClosure, Takes, Enabled, Locks;
      NewFacts(St(), callback, extra, swap);
      var record;
      heap, record := MakeClosure(heap, callback, extra, swap);
      c := |closures|;
      closures := closures + [record];
    }

    /** XDECREF of the three objects; the C fields become NULL, the swap flag stays. */
    method ClosureInvalidate(c: nat)
      requires Valid() && c < |closures|
      modifies this
      ensures Valid() && lock == old(lock) && Takes(old(St()), Invalidate(c), St())
    {
      hide Inv, Refs, Takes, DropAll, Locks;
      InvalidateFacts(St(), c);
      heap := DropAll(heap, Refs(closures[c])).value;
      closures := closures[c := Closure(None, None, None, closures[c].swaps)];
    }

    /** The lock is kept for the call, or given back if a conversion failed. */
    method MarshalBegin(c: nat, values: seq<GValue>) returns (f: nat)
      requires Valid() && Enabled(St(), Invoke(c, values))
      modifies this
      ensures Valid() && f == |old(frames)| && Takes(old(St()), Invoke(c, values), St())
    {
      hide Inv, Prepare, Balanced, CanConvert, Takes, Enabled, Held, ClosureBag, ClosureFits, Visible, Locks;
      MarshalFacts(St(), c, values);
      lock := lock + 1;
      var p := BuildCall(heap, closures[c], values, Held(St()));
      heap := p.heap;
      f := |frames|;
      if p.params.Some? {
        var frame := Running(closures[c].callback.value, p.params.value);
        LocksAppend(frames, frame);
        frames := frames + [frame];
      } else {
        LocksAppend(frames, Done);
        lock := lock - 1;
        frames := frames + [Done];
      }
    }

    method MarshalEnd(f: nat, result: Option<Ref>, ev: bool, pythonException: bool, wantsValue: bool)
      returns (value: Option<Ref>)
      requires Valid() && Enabled(St(), Return(f, result))
      modifies this
      ensures Valid() && lock == old(lock) - 1 && Takes(old(St()), Return(f, result), St())
      ensures value == if wantsValue && !(ev && pythonException) then result else None
    {
      hide Inv, Retain, DropAll, Takes, Enabled, Locks;
      ReturnFacts(St(), f, result);
      LocksUpdate(frames, f, Done);
      heap := XIncRef(heap, result); // by the callable
      heap, lock, value := EndCall(heap, lock, frames[f].params, result, ev, pythonException, wantsValue);
      frames := frames[f := Done];
    }
  }

  method MakeClosure(h: Heap<Body>, callback: Ref, extra: Option<Ref>, swap: Option<Ref>)
    returns (r: Heap<Body>, c: Closure)
    requires Alive(h, callback)
    requires (extra.Some? ==> Alive(h, extra.value)) && (swap.Some? ==> Alive(h, swap.value))
    ensures r == NewHeap(h, callback, extra, swap) && c == NewClosure(h, callback, extra, swap)
  {
    hide Retain;
    Nothing(Retain(h, multiset{callback}));
    Nothing(ExtraHeap(Retain(h, multiset{callback}), extra));
    r := IncRef(h, callback);
    c := Closure(Some(callback), None, None, false);
    if extra.Some? {
      var e := extra.value;
      r := IncRef(r, e);
      if !IsTuple(h, e) {
        r, e := Alloc(r, Tuple([e]), false), |r|;
      }
      c := c.(extraArgs := Some(e));
    }
    if swap.Some? {
      r := IncRef(r, swap.value);
      c := c.(swapData := swap, swaps := true);
    }
  }

  ghost predicate Takes(s: State, e: Event, t: State) {
    Inv(s) && Enabled(s, e) && Step(s, e) == Some(t)
  }

  lemma NewFacts(s: State, callback: Ref, extra: Option<Ref>, swap: Option<Ref>)
    requires Inv(s) && Enabled(s, New(callback, extra, swap))
    ensures Alive(s.heap, callback)
    ensures (extra.Some? ==> Alive(s.heap, extra.value)) && (swap.Some? ==> Alive(s.heap, swap.value))
    ensures var t := State(NewHeap(s.heap, callback, extra, swap),
                           s.closures + [NewClosure(s.heap, callback, extra, swap)], s.frames);
            Inv(t) && Takes(s, New(callback, extra, swap), t)
  {
    hide Inv, NewHeap, NewClosure;
    NewKeeps(s, callback, extra, swap);
  }

  lemma InvalidateFacts(s: State, c: nat)
    requires Inv(s) && c < |s.closures|
    ensures var h := DropAll(s.heap, Refs(s.closures[c]));
            && h.Some?
            && var t := State(h.value, s.closures[c := INVALID.(swaps := s.closures[c].swaps)], s.frames);
               Inv(t) && Takes(s, Invalidate(c), t)
  {
    hide Inv, Refs, DropAll;
    InvalidateKeeps(s, c);
  }

  lemma ReturnFacts(s: State, f: nat, result: Option<Ref>)
    requires Inv(s) && Enabled(s, Return(f, result))
    ensures f < |s.frames| && s.frames[f].Running? && (result.Some? ==> Alive(s.heap, result.value))
    ensures var h := DropAll(Retain(s.heap, Opt(result)), [s.frames[f].params] + OptSeq(result));
            && h.Some? && DropAll(Retain(s.heap, Opt(result)), OptSeq(result)).Some?
            && var t := State(h.value, s.closures, s.frames[f := Done]);
               Inv(t) && Takes(s, Return(f, result), t)
  {
    hide Inv, Retain, DropAll;
    ReturnKeeps(s, f, result);
    ResultDrops(s, result);
  }

  lemma ResultDrops(s: State, result: Option<Ref>)
    requires Inv(s) && (result.Some? ==> Alive(s.heap, result.value))
    ensures DropAll(Retain(s.heap, Opt(result)), OptSeq(result)).Some?
  {
    hide Balanced, Retain, Held;
    RetainBalances(s.heap, Held(s), Opt(result));
    assert Opt(result) == multiset(OptSeq(result));
    DropBalances(Retain(s.heap, Opt(result)), Held(s), OptSeq(result));
  }

  lemma MarshalFacts(s: State, c: nat, values: seq<GValue>)
    requires Inv(s) && Enabled(s, Invoke(c, values))
    ensures c < |s.closures| && IsLive(s.closures[c]) && values != [] && CanConvert(s.heap, values)
    ensures Balanced(s.heap, Held(s)) && ClosureBag(s.closures[c]) <= Held(s) && ClosureFits(s.heap, s.closures[c])
    ensures var p := Prepare(s.heap, s.closures[c], Visible(values));
            && p.Some?
            && var t := State(p.value.heap, s.closures, s.frames + [NewFrame(s.closures[c], p.value.params)]);
               Inv(t) && Takes(s, Invoke(c, values), t)
  {
    hide Balanced, Prepare, Held, ClosureBag, CanConvert, ClosureFits, Visible;
    ClosureIsHeld(s, c);
    LiveFits(s, c);
    NoBailOut(s.heap, s.closures[c], Visible(values));
    InvokeKeeps(s, c, values);
  }

  lemma LiveFits(s: State, c: nat)
    requires Inv(s) && c < |s.closures|
    ensures ClosureFits(s.heap, s.closures[c])
  {
    hide Balanced, ClosureFits;
  }
}
