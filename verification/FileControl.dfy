/** The hand-off record of file_control (`PyGVFSOperationData`): gnomevfs/gnome-vfs-python-method.c
    (`do_file_control`), gnomevfs/vfs-handle.c (`pygvhandle_file_control`) and
    gnomevfs/vfs-async-handle.c (`pygvfs_async_file_control`, its callback and its destructor).

    The record carries a Python object across GnomeVFS under a magic number: IN while it is the
    argument, OUT once a Python method has replaced it by a result.  GnomeVFS decides whether and when
    a Python method sees the record.
 */
module FileControl {
  import opened Options
  import opened VfsErrors
  import opened PyHeap

  datatype Body = Object

  datatype Magic = IN | OUT

  datatype Operation = Operation(magic: Magic, data: Ref)

  datatype Callback = Callback(func: Ref, data: Option<Ref>)

  /** A call of file_control.  A synchronous one keeps its record on the stack and has no callback;
      an asynchronous one frees record and callback structure separately. */
  datatype Cell = Cell(sync: bool, input: Ref, operation: Option<Operation>, callback: Option<Callback>)

  /** `leaked` are references nobody will ever give back. */
  datatype State = State(heap: Heap<Body>, cells: seq<Cell>, leaked: multiset<Ref>)

  datatype Outcome = Returns(result: Ref) | Fails(raised: Class)

  datatype Event =
    | PyAlloc
    | PyTake(o: Ref)
    | PyDrop(o: Ref)
    | BeginSync(input: Ref)
    | BeginAsync(input: Ref, func: Ref, data: Option<Ref>)
    | PythonMethod(cell: nat, outcome: Outcome)
    | EndSync(cell: nat)
    | Deliver(cell: nat)
    | Destroy(cell: nat)

  datatype Reply = Result(o: Ref) | TypeError

  function CallbackBag(c: Callback): multiset<Ref> {
    multiset{c.func} + Opt(c.data)
  }

  /** An operation record owns one reference to what it names. */
  function CellBag(c: Cell): multiset<Ref> {
    (if c.operation.Some? then multiset{c.operation.value.data} else multiset{})
    + (if c.callback.Some? then CallbackBag(c.callback.value) else multiset{})
  }

  function Held(s: State): multiset<Ref> {
    Total(CellBag, s.cells) + s.leaked
  }

  predicate AliveOpt(h: Heap<Body>, o: Option<Ref>) {
    o.Some? ==> Alive(h, o.value)
  }

  predicate HasOperation(s: State, i: nat) {
    i < |s.cells| && s.cells[i].operation.Some?
  }

  predicate Enabled(s: State, e: Event) {
    match e
    case PyAlloc => true
    case PyTake(o) => Alive(s.heap, o)
    case PyDrop(o) => o < |s.heap| && s.heap[o].outside > 0
    case BeginSync(input) => Alive(s.heap, input)
    case BeginAsync(input, func, data) => Alive(s.heap, input) && Alive(s.heap, func) && AliveOpt(s.heap, data)
    case PythonMethod(i, outcome) => HasOperation(s, i) && (outcome.Returns? ==> Alive(s.heap, outcome.result))
    case EndSync(i) => HasOperation(s, i) && s.cells[i].sync
    case Deliver(i) => HasOperation(s, i) && s.cells[i].callback.Some?
    case Destroy(i) => HasOperation(s, i) && !s.cells[i].sync
  }

  // ------------------------------------------------------------------ steps

  function Begin(s: State, c: Cell): State {
    s.(heap := Retain(s.heap, CellBag(c)), cells := s.cells + [c])
  }

  /** `do_file_control`: the argument tuple built for the call is never released and keeps a reference
      to the argument; a returned object takes the argument's place. */
  function PythonStep(s: State, i: nat, outcome: Outcome): State
    requires HasOperation(s, i) && (s.cells[i].operation.value.magic == IN
            ==> Alive(s.heap, s.cells[i].operation.value.data))
  {
    var Operation(magic, data) := s.cells[i].operation.value;
    if magic != IN then s
    else
      var called := s.(heap := Retain(s.heap, multiset{data}), leaked := s.leaked + multiset{data});
      match outcome
      case Fails(_) => called
      case Returns(result) =>
        called.(heap := Release(Retain(called.heap, multiset{result}), multiset{data}),
                cells := s.cells[i := s.cells[i].(operation := Some(Operation(OUT, result)))])
  }

  function EndSyncReply(s: State, i: nat): Reply
    requires HasOperation(s, i)
  {
    var Operation(magic, data) := s.cells[i].operation.value;
    if magic == OUT then Result(data) else TypeError
  }

  function Without(c: Cell): Cell {
    c.(operation := None)
  }

  /** `pygvhandle_file_control` after the library call: hand the result to the caller, or drop the
      argument and raise. */
  function EndSyncStep(s: State, i: nat): State
    requires HasOperation(s, i) && Alive(s.heap, s.cells[i].operation.value.data)
    requires s.cells[i].operation.value.magic == IN ==> Alive(s.heap, s.cells[i].input)
  {
    var Operation(magic, data) := s.cells[i].operation.value;
    s.(heap := if magic == OUT then Hand(s.heap, data) else Release(s.heap, multiset{s.cells[i].input}),
       cells := s.cells[i := Without(s.cells[i])])
  }

  /** A reference changes hands: the program owns it now. */
  function Hand(h: Heap<Body>, o: Ref): Heap<Body>
    requires o < |h|
  {
    h[o := h[o].(outside := h[o].outside + 1)]
  }

  /** The callback gives back its function and its data. */
  function DeliverStep(s: State, i: nat): State
    requires i < |s.cells| && s.cells[i].callback.Some? && Covers(s.heap, CallbackBag(s.cells[i].callback.value))
  {
    s.(heap := Release(s.heap, CallbackBag(s.cells[i].callback.value)),
       cells := s.cells[i := s.cells[i].(callback := None)])
  }

  /** What the Python callback function receives: the result, or None (`Option.None`). */
  function Passed(s: State, i: nat): Option<Ref>
    requires HasOperation(s, i)
  {
    if s.cells[i].operation.value.magic == OUT then Some(s.cells[i].operation.value.data) else None
  }

  /** `pygvfs_operation_data_free` releases a result; an argument it forgets. */
  function DestroyStep(s: State, i: nat): State
    requires HasOperation(s, i) && Alive(s.heap, s.cells[i].operation.value.data)
  {
    var Operation(magic, data) := s.cells[i].operation.value;
    s.(heap := if magic == OUT then Release(s.heap, multiset{data}) else s.heap,
       cells := s.cells[i := Without(s.cells[i])],
       leaked := if magic == OUT then s.leaked else s.leaked + multiset{data})
  }

  predicate CellFits(c: Cell) {
    && (c.operation.Some? && c.operation.value.magic == IN ==> c.operation.value.data == c.input)
    && (c.sync ==> c.callback.None?)
  }

  ghost predicate CellsFit(cells: seq<Cell>) {
    forall i :: 0 <= i < |cells| ==> CellFits(cells[i])
  }

  ghost predicate Inv(s: State) {
    Conserved(s.heap, Held(s)) && CellsFit(s.cells)
  }

  lemma BagIsHeld(s: State, i: nat)
    requires i < |s.cells|
    ensures CellBag(s.cells[i]) <= Total(CellBag, s.cells) <= Held(s)
  {
    hide CellBag;
    TotalUpdate(CellBag, s.cells, i, s.cells[i]);
  }

  lemma CoveredPart(h: Heap<Body>, held: multiset<Ref>, bag: multiset<Ref>)
    requires Conserved(h, held) && bag <= held
    ensures AllAlive(h, bag) && Covers(h, bag)
  {
    assert forall o :: o in bag ==> o in held && bag[o] <= held[o];
  }

  lemma BagParts(c: Cell)
    ensures c.operation.Some? ==> c.operation.value.data in CellBag(c)
    ensures c.callback.Some? ==> CallbackBag(c.callback.value) <= CellBag(c)
  {
  }

  lemma OperationIsAlive(s: State, i: nat)
    requires Inv(s) && i < |s.cells|
    ensures CellBag(s.cells[i]) <= Total(CellBag, s.cells) <= Held(s)
    ensures AllAlive(s.heap, CellBag(s.cells[i])) && Covers(s.heap, CellBag(s.cells[i]))
    ensures s.cells[i].operation.Some? ==> Alive(s.heap, s.cells[i].operation.value.data)
    ensures s.cells[i].callback.Some? ==> Covers(s.heap, CallbackBag(s.cells[i].callback.value))
  {
    hide Conserved, CellBag, CallbackBag, Held, Covers, CellFits;
    BagIsHeld(s, i);
    BagParts(s.cells[i]);
    CoveredPart(s.heap, Held(s), CellBag(s.cells[i]));
    if s.cells[i].callback.Some? {
      CoveredPart(s.heap, Held(s), CallbackBag(s.cells[i].callback.value));
    }
  }

  ghost function Step(s: State, e: Event): State
    requires Inv(s) && Enabled(s, e)
  {
    match e
    case PyAlloc => s.(heap := Alloc(s.heap, Object, true))
    case PyTake(o) => s.(heap := Adopt(s.heap, multiset{o}))
    case PyDrop(o) => s.(heap := s.heap[o := Obj(s.heap[o].rc - 1, s.heap[o].outside - 1, Object)])
    case BeginSync(input) => Begin(s, Cell(true, input, Some(Operation(IN, input)), None))
    case BeginAsync(input, func, data) => Begin(s, Cell(false, input, Some(Operation(IN, input)), Some(Callback(func,
        data))))
    case PythonMethod(i, outcome) =>
      OperationIsAlive(s, i);
      PythonStep(s, i, outcome)
    case EndSync(i) =>
      OperationIsAlive(s, i);
      EndSyncStep(s, i)
    case Deliver(i) =>
      OperationIsAlive(s, i);
      DeliverStep(s, i)
    case Destroy(i) =>
      OperationIsAlive(s, i);
      DestroyStep(s, i)
  }

  // ------------------------------------------------------------------ conservation

  lemma Exchange(total: multiset<Ref>, before: multiset<Ref>, after: multiset<Ref>, gone: multiset<Ref>,
      added: multiset<Ref>)
    requires before <= total && gone <= before && after == before - gone + added
    ensures total - before + after == total - gone + added
  {
  }

  /** A cell that gives back `gone` and takes `added` does the same to the total. */
  lemma CellHeld(cells: seq<Cell>, i: nat, c: Cell, gone: multiset<Ref>, added: multiset<Ref>)
    requires i < |cells| && gone <= CellBag(cells[i]) && CellBag(c) == CellBag(cells[i]) - gone + added
    ensures gone <= Total(CellBag, cells)
    ensures Total(CellBag, cells[i := c]) == Total(CellBag, cells) - gone + added
  {
    hide CellBag;
    TotalUpdate(CellBag, cells, i, c);
    Exchange(Total(CellBag, cells), CellBag(cells[i]), CellBag(c), gone, added);
  }

  /** The references of the state after cell `i` became `c` and `lost` were leaked. */
  lemma NewHeld(s: State, i: nat, c: Cell, gone: multiset<Ref>, added: multiset<Ref>, lost: multiset<Ref>)
    requires i < |s.cells| && gone <= CellBag(s.cells[i]) && CellBag(c) == CellBag(s.cells[i]) - gone + added
    ensures gone <= Held(s)
    ensures Total(CellBag, s.cells[i := c]) + (s.leaked + lost) == Held(s) + lost + added - gone
  {
    hide CellBag;
    CellHeld(s.cells, i, c, gone, added);
  }

  lemma BeginKeeps(s: State, c: Cell)
    requires Inv(s) && AllAlive(s.heap, CellBag(c))
    requires c.operation == Some(Operation(IN, c.input)) && (c.sync ==> c.callback.None?)
    ensures Inv(Begin(s, c))
  {
    TotalAppend(CellBag, s.cells, c);
    RetainConserves(s.heap, Held(s), CellBag(c));
    assert Held(Begin(s, c)) == Held(s) + CellBag(c);
  }

  lemma CallPythonKeeps(s: State, i: nat)
    requires Inv(s) && HasOperation(s, i)
    ensures var data := s.cells[i].operation.value.data;
            Inv(s.(heap := Retain(s.heap, multiset{data}), leaked := s.leaked + multiset{data}))
  {
    OperationIsAlive(s, i);
    hide CellBag;
    var data := s.cells[i].operation.value.data;
    RetainConserves(s.heap, Held(s), multiset{data});
    assert Total(CellBag, s.cells) + (s.leaked + multiset{data}) == Held(s) + multiset{data};
  }

  lemma DataIsHeld(s: State, i: nat)
    requires Inv(s) && HasOperation(s, i)
    ensures s.cells[i].operation.value.data in Held(s) && Alive(s.heap, s.cells[i].operation.value.data)
    ensures s.cells[i].operation.value.magic == IN ==> s.cells[i].operation.value.data == s.cells[i].input
  {
    OperationIsAlive(s, i);
    assert s.cells[i].operation.value.data in CellBag(s.cells[i]);
  }

  /** `Inv` of a state whose cell `i` became `c`. */
  lemma UpdateKeeps(s: State, i: nat, c: Cell, h: Heap<Body>, gone: multiset<Ref>, added: multiset<Ref>,
      lost: multiset<Ref>)
    requires Inv(s) && i < |s.cells| && CellFits(c)
    requires gone <= CellBag(s.cells[i]) && CellBag(c) == CellBag(s.cells[i]) - gone + added
    requires Conserved(h, Held(s) + lost + added - gone)
    ensures Inv(State(h, s.cells[i := c], s.leaked + lost))
  {
    hide Conserved, CellBag, CellFits;
    NewHeld(s, i, c, gone, added, lost);
  }

  lemma BagOfOut(c: Cell, result: Ref)
    requires c.operation.Some?
    ensures multiset{c.operation.value.data} <= CellBag(c)
    ensures CellBag(c.(operation := Some(Operation(OUT, result))))
         == CellBag(c) - multiset{c.operation.value.data} + multiset{result}
    ensures CellBag(Without(c)) == CellBag(c) - multiset{c.operation.value.data} + multiset{}
  {
  }

  lemma BagOfDelivered(c: Cell)
    requires c.callback.Some?
    ensures CallbackBag(c.callback.value) <= CellBag(c)
    ensures CellBag(c.(callback := None)) == CellBag(c) - CallbackBag(c.callback.value) + multiset{}
  {
  }

  lemma NothingLost(a: multiset<Ref>)
    ensures a + multiset{} == a
  {
  }

  lemma ReplaceKeeps(s: State, i: nat, result: Ref)
    requires Inv(s) && HasOperation(s, i) && Alive(s.heap, result)
    ensures var data := s.cells[i].operation.value.data;
            && Covers(Retain(s.heap, multiset{result}), multiset{data})
            && Inv(s.(heap := Release(Retain(s.heap, multiset{result}), multiset{data}),
                      cells := s.cells[i := s.cells[i].(operation := Some(Operation(OUT, result)))]))
  {
    hide Conserved, CellBag, Retain, Release, Covers, Held;
    var data := s.cells[i].operation.value.data;
    var c := s.cells[i].(operation := Some(Operation(OUT, result)));
    NothingLost(s.leaked);
    NothingLost(Held(s));
    BagOfOut(s.cells[i], result);
    DataIsHeld(s, i);
    SwapHeap(s.heap, Held(s), data, result);
    UpdateKeeps(s, i, c, Release(Retain(s.heap, multiset{result}), multiset{data}), multiset{data}, multiset{result},
        multiset{});
  }

  lemma SwapHeap(h: Heap<Body>, held: multiset<Ref>, data: Ref, result: Ref)
    requires Conserved(h, held) && data in held && Alive(h, result)
    ensures Covers(Retain(h, multiset{result}), multiset{data})
    ensures Conserved(Release(Retain(h, multiset{result}), multiset{data}), held + multiset{result} - multiset{data})
  {
    hide Retain, Release;
    RetainConserves(h, held, multiset{result});
    ReleaseConserves(Retain(h, multiset{result}), held + multiset{result}, multiset{data});
  }

  lemma PythonKeeps(s: State, i: nat, outcome: Outcome)
    requires Inv(s) && Enabled(s, PythonMethod(i, outcome))
    ensures Alive(s.heap, s.cells[i].operation.value.data) && Inv(PythonStep(s, i, outcome))
  {
    hide Inv, Retain, Release, Covers;
    OperationIsAlive(s, i);
    var Operation(magic, data) := s.cells[i].operation.value;
    if magic == IN {
      CallPythonKeeps(s, i);
      if outcome.Returns? {
        ReplaceKeeps(s.(heap := Retain(s.heap, multiset{data}), leaked := s.leaked + multiset{data}), i,
            outcome.result);
      }
    }
  }

  lemma HandConserves(h: Heap<Body>, held: multiset<Ref>, o: Ref)
    requires Conserved(h, held) && o in held
    ensures Conserved(Hand(h, o), held - multiset{o})
  {
  }

  /** An operation record that goes gives up its reference; where the reference goes is `h`. */
  lemma WithoutKeeps(s: State, i: nat, h: Heap<Body>, lost: multiset<Ref>)
    requires Inv(s) && HasOperation(s, i)
    requires Conserved(h, Held(s) + lost - multiset{s.cells[i].operation.value.data})
    ensures Inv(State(h, s.cells[i := Without(s.cells[i])], s.leaked + lost))
  {
    hide Conserved, CellBag, Held;
    BagOfOut(s.cells[i], 0);
    NothingLost(Held(s) + lost);
    UpdateKeeps(s, i, Without(s.cells[i]), h, multiset{s.cells[i].operation.value.data}, multiset{}, lost);
  }

  lemma EndSyncKeeps(s: State, i: nat)
    requires Inv(s) && HasOperation(s, i)
    ensures Alive(s.heap, s.cells[i].operation.value.data)
    ensures s.cells[i].operation.value.magic == IN ==> Alive(s.heap, s.cells[i].input)
    ensures Inv(EndSyncStep(s, i))
  {
    hide Conserved, Release, Hand;
    var data := s.cells[i].operation.value.data;
    DataIsHeld(s, i);
    HandConserves(s.heap, Held(s), data);
    ReleaseConserves(s.heap, Held(s), multiset{data});
    assert Held(s) + multiset{} == Held(s) && s.leaked + multiset{} == s.leaked;
    WithoutKeeps(s, i, EndSyncStep(s, i).heap, multiset{});
  }

  lemma DestroyKeeps(s: State, i: nat)
    requires Inv(s) && HasOperation(s, i)
    ensures Alive(s.heap, s.cells[i].operation.value.data) && Inv(DestroyStep(s, i))
  {
    hide Conserved, Release;
    var data := s.cells[i].operation.value.data;
    DataIsHeld(s, i);
    if s.cells[i].operation.value.magic == OUT {
      ReleaseConserves(s.heap, Held(s), multiset{data});
      assert Held(s) + multiset{} == Held(s) && s.leaked + multiset{} == s.leaked;
      WithoutKeeps(s, i, Release(s.heap, multiset{data}), multiset{});
    } else {
      assert Held(s) + multiset{data} - multiset{data} == Held(s);
      WithoutKeeps(s, i, s.heap, multiset{data});
    }
  }

  lemma DeliverKeeps(s: State, i: nat)
    requires Inv(s) && Enabled(s, Deliver(i))
    ensures Covers(s.heap, CallbackBag(s.cells[i].callback.value)) && Inv(DeliverStep(s, i))
  {
    hide Release, CallbackBag, CellBag, Conserved, Covers, Held;
    var gone := CallbackBag(s.cells[i].callback.value);
    var c := s.cells[i].(callback := None);
    NothingLost(s.leaked);
    NothingLost(Held(s));
    BagOfDelivered(s.cells[i]);
    OperationIsAlive(s, i);
    ReleaseConserves(s.heap, Held(s), gone);
    UpdateKeeps(s, i, c, Release(s.heap, gone), gone, multiset{}, multiset{});
  }

  lemma PyKeeps(s: State, e: Event)
    requires Inv(s) && Enabled(s, e) && (e.PyAlloc? || e.PyTake? || e.PyDrop?)
    ensures Inv(Step(s, e))
  {
    if e.PyAlloc? { AllocConserves(s.heap, Held(s), Object, true); }
    if e.PyTake? { AdoptConserves(s.heap, Held(s), multiset{e.o}); }
  }

  /** Every count is the references outside, those of the records, and the leaked ones. */
  lemma StepKeeps(s: State, e: Event)
    requires Inv(s) && Enabled(s, e)
    ensures Inv(Step(s, e))
  {
    hide Inv;
    match e
    case BeginSync(input) => BeginSyncKeeps(s, input);
    case BeginAsync(input, func, data) => BeginAsyncKeeps(s, input, func, data);
    case PythonMethod(i, outcome) => PythonKeeps(s, i, outcome);
    case EndSync(i) => EndSyncKeeps(s, i);
    case Deliver(i) => DeliverKeeps(s, i);
    case Destroy(i) => DestroyKeeps(s, i);
    case _ => PyKeeps(s, e);
  }

  lemma BeginSyncKeeps(s: State, input: Ref)
    requires Inv(s) && Alive(s.heap, input)
    ensures Inv(Begin(s, Cell(true, input, Some(Operation(IN, input)), None)))
  {
    hide Inv;
    BeginKeeps(s, Cell(true, input, Some(Operation(IN, input)), None));
  }

  lemma BeginAsyncKeeps(s: State, input: Ref, func: Ref, data: Option<Ref>)
    requires Inv(s) && Alive(s.heap, input) && Alive(s.heap, func) && AliveOpt(s.heap, data)
    ensures Inv(Begin(s, Cell(false, input, Some(Operation(IN, input)), Some(Callback(func, data)))))
  {
    hide Inv;
    BeginKeeps(s, Cell(false, input, Some(Operation(IN, input)), Some(Callback(func, data))));
  }

  // ------------------------------------------------------------------ what a call passes on

  /** A synchronous call begins with its argument at IN and nothing to call back; an asynchronous one has a
      callback with the given function and data. */
  lemma BeginMakes(s: State, e: Event)
    requires Inv(s) && Enabled(s, e) && (e.BeginSync? || e.BeginAsync?)
    ensures var t := Step(s, e);
            && |t.cells| == |s.cells| + 1 && t.cells[..|s.cells|] == s.cells && t.leaked == s.leaked
            && var c := t.cells[|s.cells|];
               && c.input == e.input && c.operation == Some(Operation(IN, e.input)) && c.sync == e.BeginSync?
               && c.callback == if e.BeginSync? then None else Some(Callback(e.func, e.data))
  {
    hide Conserved, Retain;
  }

  /** The callback function gets what the first Python method that succeeded returned, and None if none did. */
  lemma CallbackGetsFirstResult(states: seq<State>, events: seq<Event>, from: nat, till: nat, c: nat)
    requires Run(states, events) && from < till < |events| && events[till] == Deliver(c)
    requires (events[from].BeginAsync? || events[from].BeginSync?) && c == |states[from].cells|
    requires forall k :: from < k <= till ==> HasOperation(states[k], c)
    ensures HasOperation(states[till], c)
    ensures Passed(states[till], c) == FirstResult(events, from + 1, till, c)
  {
    hide Inv, Step, Enabled;
    RunKeeps(states, events, from);
    RunKeeps(states, events, till);
    BeginMakes(states[from], events[from]);
    RecordNamesFirstResult(states, events, from + 1, till, c);
  }

  // ------------------------------------------------------------------ what is leaked, and when

  predicate ReachesPython(s: State, e: Event)
    requires Enabled(s, e)
  {
    e.PythonMethod? && s.cells[e.cell].operation.value.magic == IN
  }

  predicate DestroysArgument(s: State, e: Event)
    requires Enabled(s, e)
  {
    e.Destroy? && s.cells[e.cell].operation.value.magic == IN
  }

  /** A reference to the argument is lost once when a Python method is called with it, and once more
      when an asynchronous record is destroyed before a Python method succeeded; never otherwise. */
  lemma LeaksExactly(s: State, e: Event)
    requires Inv(s) && Enabled(s, e)
    ensures Step(s, e).leaked
         == s.leaked
            + if ReachesPython(s, e) || DestroysArgument(s, e) then multiset{s.cells[e.cell].input} else multiset{}
  {
    hide Inv, Retain, Release, Adopt, Alloc, CellBag, CallbackBag, Covers, AllAlive, Held;
    assert s.leaked + multiset{} == s.leaked;
    if ReachesPython(s, e) || DestroysArgument(s, e) {
      DataIsHeld(s, e.cell);
    }
  }

  // ------------------------------------------------------------------ the magic number

  /** Only a successful Python method turns IN into OUT, and then the record names its result;
      OUT is final, and while a record lives it names its argument or that result. */
  lemma MagicMoves(s: State, e: Event, t: State, i: nat)
    requires Inv(s) && Enabled(s, e) && t == Step(s, e)
    requires HasOperation(s, i) && HasOperation(t, i)
    ensures t.cells[i].input == s.cells[i].input
    ensures var before, after := s.cells[i].operation.value, t.cells[i].operation.value;
            after == if e.PythonMethod? && e.cell == i && e.outcome.Returns? && before.magic == IN
                     then Operation(OUT, e.outcome.result) else before
  {
    hide Conserved, Retain, Release, Adopt;
  }

  /** The synchronous call returns what the Python method returned, with the record's reference, or
      raises TypeError and gives the argument's reference back, whatever the library call said. */
  lemma EndSyncSettles(s: State, i: nat, t: State)
    requires Inv(s) && Enabled(s, EndSync(i)) && t == Step(s, EndSync(i))
    ensures i < |s.cells| && s.cells[i].operation.Some? && |t.heap| == |s.heap|
    ensures var Operation(magic, data) := s.cells[i].operation.value;
            && data < |s.heap|
            && (magic == OUT ==> EndSyncReply(s, i) == Result(data) && t.heap == Hand(s.heap, data))
            && (magic == IN ==> EndSyncReply(s, i) == TypeError && data == s.cells[i].input
                                && t.heap[data].rc == s.heap[data].rc - 1
                                && t.heap[data].outside == s.heap[data].outside)
            && t.leaked == s.leaked && !HasOperation(t, i)
  {
    hide Conserved, Covers, Release, CellBag;
    DataIsHeld(s, i);
    DataIsCovered(s, i);
    ReleaseOne(s.heap, s.cells[i].operation.value.data);
  }

  lemma DataIsCovered(s: State, i: nat)
    requires Inv(s) && HasOperation(s, i)
    ensures Covers(s.heap, multiset{s.cells[i].operation.value.data})
  {
    hide Conserved;
    DataIsHeld(s, i);
  }

  lemma ReleaseOne(h: Heap<Body>, o: Ref)
    requires Covers(h, multiset{o})
    ensures o < |h| && Release(h, multiset{o})[o] == h[o].(rc := h[o].rc - 1)
  {
    assert o in multiset{o};
  }

  ghost predicate Takes(s: State, e: Event, t: State) {
    Inv(s) && Enabled(s, e) && t == Step(s, e)
  }

  // ------------------------------------------------------------------ whole runs

  ghost predicate Run(states: seq<State>, events: seq<Event>) {
    && |states| == |events| + 1
    && Inv(states[0])
    && (forall i :: 0 <= i < |events| ==>
          Enabled(states[i], events[i]) && (Inv(states[i]) ==> states[i + 1] == Step(states[i], events[i])))
  }

  lemma {:induction false} RunKeeps(states: seq<State>, events: seq<Event>, i: nat)
    requires Run(states, events) && i <= |events|
    ensures Inv(states[i])
    ensures i < |events| ==> states[i + 1] == Step(states[i], events[i])
  {
    if i > 0 {
      RunKeeps(states, events, i - 1);
      StepKeeps(states[i - 1], events[i - 1]);
    }
  }

  // ------------------------------------------------------------------ what a whole run leaks

  /** Before the module was used nothing was leaked. */
  predicate Initial(s: State) {
    s.cells == [] && s.leaked == multiset{}
  }

  /** The event loses a reference to `o`: it calls a Python method with a record that holds `o` at IN, or
      destroys such a record of an asynchronous call. */
  predicate Loses(s: State, e: Event, o: Ref) {
    (e.PythonMethod? || e.Destroy?) && HasOperation(s, e.cell) && s.cells[e.cell].operation.value == Operation(IN, o)
  }

  /** How many of the events before `n` lost a reference to `o`. */
  function Lost(states: seq<State>, events: seq<Event>, n: nat, o: Ref): nat
    requires n <= |events| < |states|
  {
    if n == 0 then 0 else Lost(states, events, n - 1, o) + if Loses(states[n - 1], events[n - 1], o) then 1 else 0
  }

  lemma {:induction false} LedgerIsLost(states: seq<State>, events: seq<Event>, n: nat, o: Ref)
    requires Run(states, events) && Initial(states[0]) && n <= |events|
    ensures states[n].leaked[o] == Lost(states, events, n, o)
  {
    hide Inv, Step, Enabled;
    if n > 0 {
      LedgerIsLost(states, events, n - 1, o);
      RunKeeps(states, events, n - 1);
      StepLoses(states[n - 1], events[n - 1], o);
    }
  }

  lemma StepLoses(s: State, e: Event, o: Ref)
    requires Inv(s) && Enabled(s, e)
    ensures Step(s, e).leaked[o] == s.leaked[o] + if Loses(s, e, o) then 1 else 0
  {
    hide Inv, Step;
    LeaksExactly(s, e);
    if ReachesPython(s, e) || DestroysArgument(s, e) {
      LostIsInput(s, e.cell);
    }
  }

  lemma LostIsInput(s: State, i: nat)
    requires Inv(s) && HasOperation(s, i) && s.cells[i].operation.value.magic == IN
    ensures s.cells[i].operation.value == Operation(IN, s.cells[i].input)
  {
    DataIsHeld(s, i);
  }

  /** At every moment of every run an object's count is the references outside, those of the records and
      callbacks of calls in progress, and one for each earlier event that called a Python method with it
      as the argument or destroyed an asynchronous record still holding it as the argument. */
  lemma CountsOverRuns(states: seq<State>, events: seq<Event>, n: nat, o: Ref)
    requires Run(states, events) && Initial(states[0]) && n <= |events| && o < |states[n].heap|
    ensures states[n].heap[o].rc
         == states[n].heap[o].outside + Total(CellBag, states[n].cells)[o] + Lost(states, events, n, o)
  {
    RunKeeps(states, events, n);
    LedgerIsLost(states, events, n, o);
  }

  /** When all calls are settled, exactly the references so lost are missing. */
  lemma SettledRunLeaksExactly(states: seq<State>, events: seq<Event>, n: nat, o: Ref)
    requires Run(states, events) && Initial(states[0]) && n <= |events| && o < |states[n].heap|
    requires forall i :: 0 <= i < |states[n].cells| ==>
               states[n].cells[i].operation.None? && states[n].cells[i].callback.None?
    ensures states[n].heap[o].rc - states[n].heap[o].outside == Lost(states, events, n, o)
  {
    CountsOverRuns(states, events, n, o);
    TotalOfNothing(CellBag, states[n].cells);
  }

  /** The first result a Python method returned for call `c` among `events[from..till]`. */
  function FirstResult(events: seq<Event>, from: nat, till: nat, c: nat): Option<Ref>
    requires from <= till <= |events|
  {
    if from == till then None
    else
      var earlier := FirstResult(events, from, till - 1, c);
      var e := events[till - 1];
      if earlier.None? && e.PythonMethod? && e.cell == c && e.outcome.Returns? then Some(e.outcome.result) else earlier
  }

  /** Over any run the record of a call that began at `from` names the first result a Python method
      returned for it, under OUT, or, if there was none, the argument, under IN. */
  lemma {:induction false} RecordNamesFirstResult(states: seq<State>, events: seq<Event>, from: nat, till: nat, c: nat)
    requires Run(states, events) && from <= till <= |events|
    requires forall k :: from <= k <= till ==> HasOperation(states[k], c)
    requires HasOperation(states[from], c) && HasOperation(states[till], c)
    requires states[from].cells[c].operation.value.magic == IN
    ensures states[till].cells[c].input == states[from].cells[c].input
    ensures var r := FirstResult(events, from, till, c);
            states[till].cells[c].operation.value
            == if r.Some? then Operation(OUT, r.value) else Operation(IN, states[from].cells[c].input)
    decreases till - from
  {
    hide Inv, Step, Enabled;
    RunKeeps(states, events, from);
    if from == till {
      ArgumentUnderIn(states[from], c);
    } else {
      RecordNamesFirstResult(states, events, from, till - 1, c);
      RunKeeps(states, events, till - 1);
      MagicMoves(states[till - 1], events[till - 1], states[till], c);
    }
  }

  lemma ArgumentUnderIn(s: State, i: nat)
    requires Inv(s) && HasOperation(s, i) && s.cells[i].operation.value.magic == IN
    ensures s.cells[i].operation.value.data == s.cells[i].input
  {
  }
}
