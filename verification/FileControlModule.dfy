/** `pygvhandle_file_control`, `pygvfs_async_file_control`, `do_file_control` and the two functions
    GnomeVFS calls at the end of an asynchronous request, one INCREF, DECREF and assignment at a time,
    each proved to take its step of FileControl. */
module FileControlModule {
  import opened Options
  import opened VfsErrors
  import opened PyHeap
  import opened FileControl

  /** What `do_file_control` does to the record: the tuple takes a reference nobody releases, and a
      result replaces the argument. */
  method CallPython(h: Heap<Body>, op: Operation, outcome: Outcome) returns (r: Heap<Body>, after: Operation)
    requires op.magic == IN && Alive(h, op.data) && (outcome.Returns? ==> Alive(h, outcome.result))
    ensures outcome.Fails? ==> r == Retain(h, multiset{op.data}) && after == op
    ensures outcome.Returns? ==>
              && Covers(Retain(Retain(h, multiset{op.data}), multiset{outcome.result}), multiset{op.data})
              && r == Release(Retain(Retain(h, multiset{op.data}), multiset{outcome.result}), multiset{op.data})
              && after == Operation(OUT, outcome.result)
  {
    r := IncRef(h, op.data);
    after := op;
    if outcome.Returns? {
      r := IncRef(r, outcome.result);
      after := after.(magic := OUT);
      r := DecRef(r, op.data);
      after := after.(data := outcome.result);
    }
  }

  class Module {
    var heap: Heap<Body>
    var cells: seq<Cell>
    ghost var leaked: multiset<Ref>

    ghost function St(): State
      reads this
    {
      State(heap, cells, leaked)
    }

    ghost predicate Valid()
      reads this
    {
      Inv(St())
    }

    constructor ()
      ensures Valid() && St() == State([], [], multiset{})
    {
      heap, cells, leaked := [], [], multiset{};
    }

    /** The record on the stack, before the library call. */
    method SyncBegin(input: Ref) returns (i: nat)
      requires Valid() && Alive(heap, input)
      modifies this
      ensures Valid() && i == |old(cells)| && Takes(old(St()), BeginSync(input), St())
    {
      hide Inv, Retain;
      BeginFacts(St(), Cell(true, input, Some(Operation(IN, input)), None));
      BagOfSync(input);
      heap := IncRef(heap, input);
      i := |cells|;
      cells := cells + [Cell(true, input, Some(Operation(IN, input)), None)];
    }

    /** The result check that follows the library call is missing: only the magic number decides. */
    method SyncEnd(i: nat) returns (r: Reply)
      requires Valid() && HasOperation(St(), i) && cells[i].sync
      modifies this
      ensures Valid() && Takes(old(St()), EndSync(i), St())
      ensures r == EndSyncReply(old(St()), i)
    {
      hide Inv, Release, Covers;
      EndFacts(St(), i);
      var op := cells[i].operation.value;
      if op.magic == OUT {
        heap := Hand(heap, op.data);
        r := Result(op.data);
      } else {
        heap := DecRef(heap, cells[i].input);
        r := TypeError;
      }
      cells := cells[i := Without(cells[i])];
    }

    method AsyncBegin(input: Ref, func: Ref, data: Option<Ref>) returns (i: nat)
      requires Valid() && Alive(heap, input) && Alive(heap, func) && AliveOpt(heap, data)
      modifies this
      ensures Valid() && i == |old(cells)| && Takes(old(St()), BeginAsync(input, func, data), St())
    {
      hide Inv, Retain, CellBag;
      var c := Cell(false, input, Some(Operation(IN, input)), Some(Callback(func, data)));
      BagOfAsync(input, func, data);
      BeginFacts(St(), c);
      heap := RetainRequest(heap, input, func, data);
      i := |cells|;
      cells := cells + [c];
    }

    /** `do_file_control` on the record of call `i`. */
    method DoFileControl(i: nat, outcome: Outcome) returns (code: Code)
      requires Valid() && Enabled(St(), PythonMethod(i, outcome))
      modifies this
      ensures Valid() && Takes(old(St()), PythonMethod(i, outcome), St())
      ensures code == OK <==> old(cells)[i].operation.value.magic == IN && outcome.Returns?
      ensures old(cells)[i].operation.value.magic == IN && outcome.Fails? ==> code == BridgeCode(Some(outcome.raised))
    {
      hide Inv, Retain, Release, Covers;
      PythonFacts(St(), i, outcome);
      var op := cells[i].operation.value;
      if op.magic != IN {
        return ERROR_NOT_SUPPORTED;
      }
      var after;
      leaked := leaked + multiset{op.data};
      heap, after := CallPython(heap, op, outcome);
      PutOperationBack(cells, i);
      cells := cells[i := cells[i].(operation := Some(after))];
      if outcome.Fails? {
        NeverLost(Some(outcome.raised));
        return BridgeCode(Some(outcome.raised));
      }
      return OK;
    }

    /** `pygvfs_async_file_control_callback`: the function gets the result or None. */
    method FileControlCallback(i: nat) returns (callee: Ref, passed: Option<Ref>, data: Option<Ref>)
      requires Valid() && HasOperation(St(), i) && cells[i].callback.Some?
      modifies this
      ensures Valid() && Takes(old(St()), Deliver(i), St())
      ensures passed == Passed(old(St()), i)
      ensures callee == old(cells)[i].callback.value.func && data == old(cells)[i].callback.value.data
    {
      hide Inv, Release, Covers, CallbackBag;
      DeliverFacts(St(), i);
      var op, callback := cells[i].operation.value, cells[i].callback.value;
      passed := if op.magic == OUT then Some(op.data) else None;
      callee, data := callback.func, callback.data;
      heap := ReleaseCallback(heap, callback);
      cells := cells[i := cells[i].(callback := None)];
    }

    /** `pygvfs_operation_data_free`. */
    method OperationDataFree(i: nat)
      requires Valid() && Enabled(St(), Destroy(i))
      modifies this
      ensures Valid() && Takes(old(St()), Destroy(i), St())
    {
      hide Inv, Release, Covers;
      DestroyFacts(St(), i);
      var op := cells[i].operation.value;
      if op.magic == OUT {
        heap := DecRef(heap, op.data);
      } else {
        leaked := leaked + multiset{op.data};
      }
      cells := cells[i := Without(cells[i])];
    }
  }

  method RetainRequest(h: Heap<Body>, input: Ref, func: Ref, data: Option<Ref>) returns (r: Heap<Body>)
    requires Alive(h, input) && Alive(h, func) && AliveOpt(h, data)
    ensures r == Retain(h, CellBag(Cell(false, input, Some(Operation(IN, input)), Some(Callback(func, data)))))
  {
    hide Retain;
    r := IncRef(h, func);
    r := XIncRef(r, data);
    r := IncRef(r, input);
    RetainTwice(h, multiset{func}, Opt(data));
    RetainTwice(h, multiset{func} + Opt(data), multiset{input});
    BagOfAsync(input, func, data);
  }

  method ReleaseCallback(h: Heap<Body>, c: Callback) returns (r: Heap<Body>)
    requires Covers(h, CallbackBag(c))
    ensures r == Release(h, CallbackBag(c))
  {
    hide Release, Covers;
    SwapBag(c);
    ReleaseTwice(h, Opt(c.data), multiset{c.func});
    r := XDecRef(h, c.data);
    r := DecRef(r, c.func);
  }

  lemma SwapBag(c: Callback)
    ensures CallbackBag(c) == Opt(c.data) + multiset{c.func}
  {
  }

  lemma BagOfSync(input: Ref)
    ensures CellBag(Cell(true, input, Some(Operation(IN, input)), None)) == multiset{input}
  {
  }

  lemma BagOfAsync(input: Ref, func: Ref, data: Option<Ref>)
    ensures CellBag(Cell(false, input, Some(Operation(IN, input)), Some(Callback(func, data))))
         == multiset{func} + Opt(data) + multiset{input}
  {
  }

  lemma PutOperationBack(cells: seq<Cell>, i: nat)
    requires i < |cells|
    ensures cells[i := cells[i].(operation := cells[i].operation)] == cells
  {
  }

  lemma BeginFacts(s: State, c: Cell)
    requires Inv(s) && AllAlive(s.heap, CellBag(c)) && c.operation == Some(Operation(IN, c.input))
    requires c.sync ==> c.callback.None?
    ensures Inv(Begin(s, c))
  {
    hide Inv;
    BeginKeeps(s, c);
  }

  lemma EndFacts(s: State, i: nat)
    requires Inv(s) && Enabled(s, EndSync(i))
    ensures Inv(Step(s, EndSync(i))) && Alive(s.heap, s.cells[i].operation.value.data)
    ensures s.cells[i].operation.value.magic == IN ==> Covers(s.heap, multiset{s.cells[i].input})
  {
    EndSyncKeeps(s, i);
  }

  lemma PythonFacts(s: State, i: nat, outcome: Outcome)
    requires Inv(s) && Enabled(s, PythonMethod(i, outcome))
    ensures Inv(Step(s, PythonMethod(i, outcome))) && Alive(s.heap, s.cells[i].operation.value.data)
  {
    hide Inv;
    PythonKeeps(s, i, outcome);
  }

  lemma DeliverFacts(s: State, i: nat)
    requires Inv(s) && Enabled(s, Deliver(i))
    ensures Inv(Step(s, Deliver(i))) && Covers(s.heap, CallbackBag(s.cells[i].callback.value))
  {
    hide Inv, Covers;
    DeliverKeeps(s, i);
  }

  lemma DestroyFacts(s: State, i: nat)
    requires Inv(s) && Enabled(s, Destroy(i))
    ensures Inv(Step(s, Destroy(i))) && Covers(s.heap, multiset{s.cells[i].operation.value.data})
  {
    DestroyKeeps(s, i);
  }
}
