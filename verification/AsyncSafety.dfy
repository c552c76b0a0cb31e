/** What every step of the asynchronous request machine keeps, and what follows for whole runs. */
module AsyncSafety {
  import opened Options
  import opened VfsErrors
  import opened PyHeap
  import opened AsyncMachine

  // ------------------------------------------------------------------ a record or activation

  lemma InvRecord(s: State, n: nat)
    requires Inv(s) && n < |s.records| && s.records[n].Live?
    ensures RecordFits(s, n)
    ensures NotifyBag(s.records[n].notify) <= Total(RecordBag, s.records) <= Held(s)
    ensures AllAlive(s.heap, NotifyBag(s.records[n].notify))
  {
    TotalUpdate(RecordBag, s.records, n, Freed);
    var bag := NotifyBag(s.records[n].notify);
    forall o | o in bag ensures Alive(s.heap, o) {
      assert bag[o] <= Held(s)[o];
    }
  }

  lemma InvReturnIsSafe(s: State, f: nat)
    requires Inv(s) && f < |s.frames| && s.frames[f].Active?
    ensures ReturnIsSafe(s, f)
    ensures Given(s, f) <= Held(s)
  {
    assert FrameFits(s, f);
    TotalUpdate(FrameBag, s.frames, f, Done);
    if s.frames[f].last {
      assert RecordFits(s, s.frames[f].record);
      InvRecord(s, s.frames[f].record);
    }
    GivenIsHeld(s, f);
    ReleaseConserves(s.heap, Held(s), Given(s, f));
  }

  lemma GivenIsHeld(s: State, f: nat)
    requires f < |s.frames| && s.frames[f].Active?
    requires s.frames[f].last ==> s.frames[f].record < |s.records| && s.records[s.frames[f].record].Live?
    requires s.frames[f].last ==> NotifyBag(s.records[s.frames[f].record].notify) <= Total(RecordBag, s.records)
    requires FrameBag(s.frames[f]) <= Total(FrameBag, s.frames)
    ensures Given(s, f) <= Held(s)
  {
  }

  // ------------------------------------------------------------------ the tables stay consistent

  ghost predicate KeepsHandles(h: Heap<Body>, h': Heap<Body>) {
    forall o :: IsHandle(h, o) ==> IsHandle(h', o)
  }

  lemma HeapChangeFits(s: State, h: Heap<Body>)
    requires Fits(s) && KeepsHandles(s.heap, h)
    ensures Fits(s.(heap := h))
  {
    var t := s.(heap := h);
    forall n | 0 <= n < |t.records| && t.records[n].Live? ensures RecordFits(t, n) {
      assert RecordFits(s, n);
    }
    forall f | 0 <= f < |t.frames| && t.frames[f].Active? ensures FrameFits(t, f) {
      assert FrameFits(s, f);
    }
    forall b | 0 <= b < |t.blocks| && t.blocks[b].InUse? ensures BlockFits(t, b) {
      assert BlockFits(s, b);
    }
  }

  ghost predicate BufferFits(n: Notify, buffer: Buffer, block: nat) {
    && (n.origin == WRITE ==> n.extra.Some? && buffer == StringOf(n.extra.value))
    && (n.origin != WRITE ==> n.extra.None? && !buffer.StringOf?)
    && (buffer.Malloced? ==> n.origin == READ && buffer.block == block)
  }

  lemma RegisterFits(s: State, n: Notify, buffer: Buffer)
    requires Fits(s) && IsHandle(s.heap, n.self) && BufferFits(n, buffer, |s.blocks|)
    ensures Fits(Register(WithBlock(s, buffer), n, buffer))
  {
    var t := Register(WithBlock(s, buffer), n, buffer);
    forall m | 0 <= m < |t.records| && t.records[m].Live? ensures RecordFits(t, m) {
      if m < |s.records| { assert RecordFits(s, m); }
    }
    forall f | 0 <= f < |t.frames| && t.frames[f].Active? ensures FrameFits(t, f) {
      assert FrameFits(s, f);
    }
    forall b | 0 <= b < |t.blocks| && t.blocks[b].InUse? ensures BlockFits(t, b) {
      if b < |s.blocks| { assert BlockFits(s, b); }
    }
  }

  lemma DeliverFits(s: State, n: nat, f: Frame)
    requires Fits(s) && n < |s.records| && s.records[n].Live? && s.records[n].phase.Waiting?
    requires f.Active? && f.record == n
    ensures Fits(Begun(s, n, f))
  {
    var t := Begun(s, n, f);
    forall m | 0 <= m < |t.records| && t.records[m].Live? ensures RecordFits(t, m) {
      assert RecordFits(s, m);
    }
    forall g | 0 <= g < |t.frames| && t.frames[g].Active? ensures FrameFits(t, g) {
      if g < |s.frames| { assert FrameFits(s, g); }
    }
    forall b | 0 <= b < |t.blocks| && t.blocks[b].InUse? ensures BlockFits(t, b) {
      assert BlockFits(s, b);
    }
  }

  lemma ReturnFits(s: State, f: nat)
    requires Fits(s) && ReturnIsSafe(s, f)
    ensures Fits(ReturnStep(s, f))
  {
    var t := ReturnStep(s, f);
    assert FrameFits(s, f);
    if s.frames[f].last {
      assert RecordFits(s, s.frames[f].record);
    }
    forall m | 0 <= m < |t.records| && t.records[m].Live? ensures RecordFits(t, m) {
      assert RecordFits(s, m);
    }
    forall g | 0 <= g < |t.frames| && t.frames[g].Active? ensures FrameFits(t, g) {
      assert FrameFits(s, g);
    }
    forall b | 0 <= b < |t.blocks| && t.blocks[b].InUse? ensures BlockFits(t, b) {
      assert BlockFits(s, b);
    }
  }

  // ------------------------------------------------------------------ the counts stay right

  lemma AllocKeeps(s: State, body: Body)
    requires Inv(s)
    ensures Inv(s.(heap := Alloc(s.heap, body, true)))
  {
    AllocConserves(s.heap, Held(s), body, true);
    HeapChangeFits(s, Alloc(s.heap, body, true));
  }

  lemma SetFdKeeps(s: State, self: Ref, fd: Option<Job>)
    requires Inv(s) && IsHandle(s.heap, self)
    ensures Inv(s.(heap := SetBody(s.heap, self, Handle(fd))))
  {
    SetBodyConserves(s.heap, Held(s), self, Handle(fd));
    HeapChangeFits(s, SetBody(s.heap, self, Handle(fd)));
  }

  lemma RegisterKeeps(s: State, n: Notify, buffer: Buffer)
    requires Inv(s)
    requires AllAlive(s.heap, NotifyBag(n)) && IsHandle(s.heap, n.self) && BufferFits(n, buffer, |s.blocks|)
    ensures Inv(Register(WithBlock(s, buffer), n, buffer))
  {
    hide NotifyBag, Fits, Conserved;
    RegisterFits(s, n, buffer);
    RegisterHolds(s, n, buffer);
    RetainConserves(s.heap, Held(s), NotifyBag(n));
  }

  lemma RegisterHolds(s: State, n: Notify, buffer: Buffer)
    ensures Held(Register(WithBlock(s, buffer), n, buffer)) == Held(s) + NotifyBag(n)
  {
    TotalAppend(RecordBag, s.records, Live(n, buffer, Waiting));
  }

  lemma StartKeeps(s: State, origin: Origin, func: Ref, data: Option<Ref>, job: Job)
    requires Inv(s) && StartsRequest(origin) && Alive(s.heap, func) && AliveOpt(s.heap, data)
    ensures Inv(StartStep(s, origin, func, data, job))
  {
    hide Inv;
    AllocKeeps(s, Handle(None));
    var a := s.(heap := Alloc(s.heap, Handle(None), true));
    var n := Notify(func, |s.heap|, data, origin, None);
    RegisterKeeps(a, n, NoBuffer);
    SetFdKeeps(Register(a, n, NoBuffer), |s.heap|, Some(job));
  }

  lemma CloseKeeps(s: State, self: Ref, func: Ref, data: Option<Ref>)
    requires Inv(s) && CallOn(s, self, func, data)
    ensures Inv(CloseStep(s, self, func, data))
  {
    hide Inv;
    var n := Notify(func, self, data, CLOSE, None);
    RegisterKeeps(s, n, NoBuffer);
    SetFdKeeps(Register(s, n, NoBuffer), self, None);
  }

  lemma ReadKeeps(s: State, self: Ref, bytes: nat, func: Ref, data: Option<Ref>)
    requires Inv(s) && CallOn(s, self, func, data)
    ensures Inv(ReadStep(s, self, bytes, func, data))
  {
    hide Inv;
    RegisterKeeps(s, Notify(func, self, data, READ, None), ReadBuffer(s, bytes));
  }

  lemma WriteKeeps(s: State, self: Ref, text: Ref, func: Ref, data: Option<Ref>)
    requires Inv(s) && CallOn(s, self, func, data) && Alive(s.heap, text)
    ensures Inv(WriteStep(s, self, text, func, data))
  {
    hide Inv;
    RegisterKeeps(s, Notify(func, self, data, WRITE, Some(text)), StringOf(text));
  }

  lemma TakeKeeps(s: State, o: Ref)
    requires Inv(s) && Alive(s.heap, o)
    ensures Inv(s.(heap := Adopt(s.heap, multiset{o})))
  {
    AdoptConserves(s.heap, Held(s), multiset{o});
    HeapChangeFits(s, Adopt(s.heap, multiset{o}));
  }

  lemma DropKeeps(s: State, o: Ref)
    requires Inv(s) && Enabled(s, PyDrop(o))
    ensures s.heap[o].rc > 0 && Inv(DropStep(s, o))
  {
    assert s.heap[o].rc == s.heap[o].outside + Held(s)[o];
    HeapChangeFits(s, DropStep(s, o).heap);
  }

  lemma {:induction false} ExceptionsAreBuiltins(batch: seq<Code>)
    ensures forall o :: o in Exceptions(batch) ==> o < BUILTINS
  {
    if batch != [] {
      ExceptionsAreBuiltins(batch[..|batch| - 1]);
    }
  }

  ghost predicate GoodHeap(h: Heap<Body>, held: multiset<Ref>) {
    Conserved(h, held) && BuiltinsStay(h)
  }

  lemma ClosedIsGood(h: Heap<Body>, held: multiset<Ref>, n: Notify, result: Code)
    requires GoodHeap(h, held) && IsHandle(h, n.self)
    ensures GoodHeap(Closed(h, n, result), held) && KeepsHandles(h, Closed(h, n, result))
    ensures |Closed(h, n, result)| == |h|
    ensures forall o :: Alive(h, o) ==> Alive(Closed(h, n, result), o)
  {
  }

  lemma ListedIsGood(h: Heap<Body>, held: multiset<Ref>, n: Notify, batch: seq<Code>)
    requires GoodHeap(h, held)
    ensures GoodHeap(Listed(h, n, batch), held) && KeepsHandles(h, Listed(h, n, batch))
    ensures |Listed(h, n, batch)| == |h|
    ensures forall o :: Alive(h, o) ==> Alive(Listed(h, n, batch), o)
  {
    ExceptionsAreBuiltins(batch);
    AdoptConserves(h, held, Exceptions(batch));
  }

  lemma BuiltIsGood(h: Heap<Body>, held: multiset<Ref>, n: Notify)
    requires GoodHeap(h, held)
    ensures GoodHeap(Built(h, n), held + Opt(ValueOf(n, |h|))) && KeepsHandles(h, Built(h, n))
    ensures forall o :: Alive(h, o) || o in Opt(ValueOf(n, |h|)) ==> Alive(Built(h, n), o)
  {
    AllocConserves(h, held, Plain, false);
  }

  lemma PreparedIsGood(h: Heap<Body>, held: multiset<Ref>, n: Notify, result: Code, batch: seq<Code>)
    requires GoodHeap(h, held) && IsHandle(h, n.self)
    ensures var p := Prepared(h, n, result, batch);
            && GoodHeap(p, held + Opt(ValueOf(n, |h|))) && KeepsHandles(h, p)
            && (forall o :: Alive(h, o) || o in Opt(ValueOf(n, |h|)) ==> Alive(p, o))
  {
    hide GoodHeap, Closed, Listed, Built;
    ClosedIsGood(h, held, n, result);
    ListedIsGood(Closed(h, n, result), held, n, batch);
    BuiltIsGood(Listed(Closed(h, n, result), n, batch), held, n);
  }

  lemma FrameHeldIs(n: Notify, result: Code, newRef: Ref)
    ensures var exception, value := Opt(ExceptionOf(n, result)), Opt(ValueOf(n, newRef));
            FrameHeld(n, result, newRef) == exception + value + multiset{n.self} + value + exception + Opt(n.data)
  {
  }

  /** The references an activation takes are to objects that are alive, its own new value aside. */
  lemma TakenIsAlive(h: Heap<Body>, held: multiset<Ref>, n: Notify, result: Code)
    requires GoodHeap(h, held) && NotifyBag(n) <= held
    ensures forall o :: o in FrameHeld(n, result, |h|) ==> Alive(h, o) || o in Opt(ValueOf(n, |h|))
    ensures Opt(ValueOf(n, |h|)) <= FrameHeld(n, result, |h|)
  {
    hide FrameHeld, GoodHeap, NotifyBag, ExceptionOf, ValueOf;
    FrameHeldIs(n, result, |h|);
    NamedIsAlive(h, held, n);
    ExceptionIsAlive(h, held, n, result);
  }

  lemma NamedIsAlive(h: Heap<Body>, held: multiset<Ref>, n: Notify)
    requires GoodHeap(h, held) && NotifyBag(n) <= held
    ensures Alive(h, n.self) && AliveOpt(h, n.data)
  {
    assert NotifyBag(n)[n.self] > 0;
    assert n.data.Some? ==> NotifyBag(n)[n.data.value] > 0;
  }

  lemma ExceptionIsAlive(h: Heap<Body>, held: multiset<Ref>, n: Notify, result: Code)
    requires GoodHeap(h, held)
    ensures AliveOpt(h, ExceptionOf(n, result)) && |h| >= BUILTINS
  {
  }

  /** The heap handed to the Python function owes the activation exactly its locals and arguments. */
  lemma HeapAtCallIsGood(h: Heap<Body>, held: multiset<Ref>, n: Notify, result: Code, batch: seq<Code>)
    requires GoodHeap(h, held) && NotifyBag(n) <= held && IsHandle(h, n.self)
    ensures var h' := HeapAtCall(h, n, result, batch);
            GoodHeap(h', held + FrameHeld(n, result, |h|)) && KeepsHandles(h, h')
  {
    hide Prepared, FrameHeld, ValueOf, NotifyBag;
    var p := Prepared(h, n, result, batch);
    var value := Opt(ValueOf(n, |h|));
    var held' := FrameHeld(n, result, |h|);
    PreparedIsGood(h, held, n, result, batch);
    TakenIsAlive(h, held, n, result);
    RetainConserves(p, held + value, held' - value);
    assert held + value + (held' - value) == held + held';
  }

  lemma DeliverKeeps(s: State, n: nat, result: Code, batch: seq<Code>)
    requires Inv(s) && Enabled(s, Deliver(n, result, batch))
    ensures s.records[n].notify.self < |s.heap| && Inv(DeliverStep(s, n, result, batch))
  {
    InvRecord(s, n);
    var notify := s.records[n].notify;
    var f := NewFrame(n, notify, result, |s.heap|);
    var t := DeliverStep(s, n, result, batch);
    DeliverHeld(s, n, f);
    HeapAtCallIsGood(s.heap, Held(s), notify, result, batch);
    HeapChangeFits(s, t.heap);
    DeliverFits(s.(heap := t.heap), n, f);
  }

  lemma DeliverHeld(s: State, n: nat, f: Frame)
    requires n < |s.records| && s.records[n].Live? && f.Active?
    ensures Held(Begun(s, n, f)) == Held(s) + FrameBag(f)
  {
    TotalAppend(FrameBag, s.frames, f);
    TotalUpdate(RecordBag, s.records, n, s.records[n].(phase := Finishing(|s.frames|)));
  }

  lemma ReturnHeld(s: State, f: nat)
    requires ReturnIsSafe(s, f)
    ensures Held(ReturnStep(s, f)) == Held(s) - Given(s, f)
  {
    hide Covers, NotifyBag, Held, Release, FrameBag, Given;
    var n := s.frames[f].record;
    GivenParts(s, f);
    HeldWithoutFrame(s, f);
    if s.frames[f].last {
      HeldWithoutBoth(s, f, n);
    }
    HeldOf(ReturnStep(s, f));
  }

  lemma HeldOf(s: State)
    ensures Held(s) == Total(RecordBag, s.records) + Total(FrameBag, s.frames)
  {
  }

  lemma GivenParts(s: State, f: nat)
    requires ReturnIsSafe(s, f)
    ensures Given(s, f)
         == FrameBag(s.frames[f]) + if s.frames[f].last then NotifyBag(s.records[s.frames[f].record].notify)
             else multiset{}
  {
  }

  lemma HeldWithoutFrame(s: State, f: nat)
    requires f < |s.frames|
    ensures Total(RecordBag, s.records) + Total(FrameBag, s.frames[f := Done])
            == Held(s) - (FrameBag(s.frames[f]) + multiset{})
  {
    hide FrameBag, RecordBag;
    NothingHeld();
    TotalUpdate(FrameBag, s.frames, f, Done);
    var records := Total(RecordBag, s.records);
    SplitDifference(records, Total(FrameBag, s.frames), multiset{}, FrameBag(s.frames[f]));
    assert records - multiset{} == records;
  }

  lemma NothingHeld()
    ensures FrameBag(Done) == multiset{} && RecordBag(Freed) == multiset{}
  {
  }

  lemma HeldWithoutBoth(s: State, f: nat, n: nat)
    requires f < |s.frames| && n < |s.records| && s.records[n].Live?
    ensures Total(RecordBag, s.records[n := Freed]) + Total(FrameBag, s.frames[f := Done])
         == Held(s) - (FrameBag(s.frames[f]) + NotifyBag(s.records[n].notify))
  {
    hide FrameBag, NotifyBag;
    NothingHeld();
    TotalUpdate(FrameBag, s.frames, f, Done);
    TotalUpdate(RecordBag, s.records, n, Freed);
    SplitDifference(Total(RecordBag, s.records), Total(FrameBag, s.frames), RecordBag(s.records[n]),
        FrameBag(s.frames[f]));
  }

  lemma ReturnKeeps(s: State, f: nat)
    requires Inv(s) && Enabled(s, Return(f))
    ensures ReturnIsSafe(s, f) && Inv(ReturnStep(s, f))
  {
    hide Fits, NotifyBag, Held;
    InvReturnIsSafe(s, f);
    ReturnFits(s, f);
    ReturnHeld(s, f);
    ReleaseConserves(s.heap, Held(s), Given(s, f));
  }

  /** In a state of the invariant every step the environment may take touches live memory only. */
  lemma EnabledIsSafe(s: State, e: Event)
    requires Inv(s) && Enabled(s, e)
    ensures Safe(s, e)
  {
    match e
    case PyDrop(o) => DropKeeps(s, o);
    case Deliver(n, _, _) => InvRecord(s, n);
    case Return(f) => InvReturnIsSafe(s, f);
    case _ =>
  }

  /** The invariant survives every step of the module, of the interpreter and of GnomeVFS. */
  lemma StepKeeps(s: State, e: Event)
    requires Inv(s) && Enabled(s, e)
    ensures Safe(s, e) && Inv(Step(s, e))
  {
    EnabledIsSafe(s, e);
    if ReplyTo(s, e) == Accepted {
      match e
      case PyAlloc(body) => AllocKeeps(s, body);
      case PyTake(o) => TakeKeeps(s, o);
      case PyDrop(o) => DropKeeps(s, o);
      case Start(origin, _, func, data, job) => StartKeeps(s, origin, func, data, job);
      case Close(self, func, data) => CloseKeeps(s, self, func, data);
      case Read(self, bytes, func, data) => ReadKeeps(s, self, bytes, func, data);
      case Write(self, text, func, data) => WriteKeeps(s, self, text, func, data);
      case Cancel(self) => SetFdKeeps(s, self, None);
      case Deliver(n, result, batch) => DeliverKeeps(s, n, result, batch);
      case Return(f) => ReturnKeeps(s, f);
    }
  }

  // ------------------------------------------------------------------ whole runs

  lemma InitialIsGood(s: State)
    requires Initial(s)
    ensures Inv(s)
  {
    assert Held(s) == multiset{};
  }

  lemma {:induction false} RunKeeps(states: seq<State>, events: seq<Event>, i: nat)
    requires Run(states, events) && i <= |events|
    ensures Inv(states[i])
    ensures i < |events| ==> Safe(states[i], events[i]) && states[i + 1] == Step(states[i], events[i])
  {
    if i == 0 {
      InitialIsGood(states[0]);
    } else {
      RunKeeps(states, events, i - 1);
      StepKeeps(states[i - 1], events[i - 1]);
    }
    if i < |events| {
      EnabledIsSafe(states[i], events[i]);
    }
  }

  /** Conservation: at every moment of every run an object's count is its outside references plus
      the places of live notify records and active callbacks that name it. */
  lemma CountsOverRuns(states: seq<State>, events: seq<Event>, i: nat, o: Ref)
    requires Run(states, events) && i <= |events| && o < |states[i].heap|
    ensures states[i].heap[o].rc
         == states[i].heap[o].outside + Total(RecordBag, states[i].records)[o] + Total(FrameBag, states[i].frames)[o]
  {
    RunKeeps(states, events, i);
  }

  /** Nothing a pending callback will touch has been freed: the function, the handle, the data, the
      string being written; and the block being read into belongs to this request alone. */
  lemma PendingIsLive(states: seq<State>, events: seq<Event>, i: nat, n: nat)
    requires Run(states, events) && i <= |events|
    requires n < |states[i].records| && states[i].records[n].Live?
    ensures var s := states[i]; var Live(notify, buffer, _) := s.records[n];
            && Alive(s.heap, notify.func) && Alive(s.heap, notify.self) && AliveOpt(s.heap, notify.data)
            && IsHandle(s.heap, notify.self)
            && (notify.origin == WRITE ==> buffer.StringOf? && Alive(s.heap, buffer.text))
            && (buffer.Malloced? ==>
                  && notify.origin == READ
                  && buffer.block < |s.blocks| && s.blocks[buffer.block] == InUse(n)
                  && (forall m :: 0 <= m < |s.records| && m != n && s.records[m].Live? ==>
                        s.records[m].buffer != buffer))
  {
    RunKeeps(states, events, i);
    var s := states[i];
    InvRecord(s, n);
    var notify := s.records[n].notify;
    assert notify.func in NotifyBag(notify) && notify.self in NotifyBag(notify);
    assert notify.data.Some? ==> notify.data.value in NotifyBag(notify);
    assert notify.extra.Some? ==> notify.extra.value in NotifyBag(notify);
    forall m | 0 <= m < |s.records| && m != n && s.records[m].Live?
      ensures s.records[m].buffer.Malloced? ==> s.records[m].buffer != s.records[n].buffer
    {
      assert RecordFits(s, m);
    }
  }

  /** What is gone stays gone: freed records, returned callbacks, released blocks, closed handles
      and objects whose count reached 0. */
  ghost predicate OneWay(s: State, t: State) {
    && |s.records| <= |t.records| && |s.frames| <= |t.frames| && |s.blocks| <= |t.blocks| && |s.heap| <= |t.heap|
    && (forall n :: 0 <= n < |s.records| && s.records[n].Freed? ==> t.records[n].Freed?)
    && (forall f :: 0 <= f < |s.frames| && s.frames[f].Done? ==> t.frames[f].Done?)
    && (forall b :: 0 <= b < |s.blocks| && s.blocks[b].Released? ==> t.blocks[b].Released?)
    && HeapOneWay(s.heap, t.heap)
  }

  ghost predicate HeapOneWay(h: Heap<Body>, h': Heap<Body>) {
    && |h| <= |h'|
    && (forall o :: 0 <= o < |h| && h[o].body.Handle? ==> h'[o].body.Handle?)
    && (forall o :: 0 <= o < |h| && h[o].body == Handle(None) ==> h'[o].body == Handle(None))
    && (forall o :: 0 <= o < |h| && h[o].rc == 0 ==> h'[o].rc == 0)
  }

  lemma RetainOneWay(h: Heap<Body>, bag: multiset<Ref>)
    requires forall o :: o in bag && o < |h| ==> Alive(h, o)
    ensures HeapOneWay(h, Retain(h, bag))
  {
  }

  lemma HeapAtCallOneWay(h: Heap<Body>, held: multiset<Ref>, n: Notify, result: Code, batch: seq<Code>)
    requires GoodHeap(h, held) && NotifyBag(n) <= held && IsHandle(h, n.self)
    ensures HeapOneWay(h, HeapAtCall(h, n, result, batch))
  {
    hide FrameHeld, NotifyBag, ResultCheck, Exceptions, Exception, ClosesHandle;
    ExceptionsAreBuiltins(batch);
    var p := Prepared(h, n, result, batch);
    assert HeapOneWay(h, p);
    PreparedIsGood(h, held, n, result, batch);
    TakenIsAlive(h, held, n, result);
    RetainOneWay(p, FrameHeld(n, result, |h|) - Opt(ValueOf(n, |h|)));
  }

  lemma RegisterOneWay(s: State, n: Notify, buffer: Buffer)
    requires AllAlive(s.heap, NotifyBag(n))
    ensures OneWay(s, Register(WithBlock(s, buffer), n, buffer))
  {
    RetainOneWay(s.heap, NotifyBag(n));
  }

  lemma StartOneWay(s: State, origin: Origin, func: Ref, data: Option<Ref>, job: Job)
    requires Alive(s.heap, func) && AliveOpt(s.heap, data)
    ensures OneWay(s, StartStep(s, origin, func, data, job))
  {
    hide Register, OneWay;
    var a := s.(heap := Alloc(s.heap, Handle(None), true));
    AllocOneWay(s, Handle(None));
    NewRecordIsAlive(s.heap, func, data, origin);
    RegisterOneWay(a, Notify(func, |s.heap|, data, origin, None), NoBuffer);
    var r := Register(a, Notify(func, |s.heap|, data, origin, None), NoBuffer);
    OneWayTransitive(s, a, r);
    OpenOneWay(s, a, r, job);
  }

  lemma AllocOneWay(s: State, body: Body)
    ensures OneWay(s, s.(heap := Alloc(s.heap, body, true)))
  {
  }

  lemma NewRecordIsAlive(h: Heap<Body>, func: Ref, data: Option<Ref>, origin: Origin)
    requires Alive(h, func) && AliveOpt(h, data)
    ensures AllAlive(Alloc(h, Handle(None), true), NotifyBag(Notify(func, |h|, data, origin, None)))
  {
  }

  /** The handle that GnomeVFS opens did not exist before. */
  lemma OpenOneWay(s: State, a: State, r: State, job: Job)
    requires OneWay(s, r) && OneWay(a, r) && |a.heap| == |s.heap| + 1
    ensures |s.heap| < |r.heap| && OneWay(s, r.(heap := SetBody(r.heap, |s.heap|, Handle(Some(job)))))
  {
  }

  lemma CloseOneWay(s: State, self: Ref, func: Ref, data: Option<Ref>)
    requires CallOn(s, self, func, data)
    ensures OneWay(s, CloseStep(s, self, func, data))
  {
    RegisterOneWay(s, Notify(func, self, data, CLOSE, None), NoBuffer);
  }

  lemma ReadOneWay(s: State, self: Ref, bytes: nat, func: Ref, data: Option<Ref>)
    requires CallOn(s, self, func, data)
    ensures OneWay(s, ReadStep(s, self, bytes, func, data))
  {
    RegisterOneWay(s, Notify(func, self, data, READ, None), ReadBuffer(s, bytes));
  }

  lemma WriteOneWay(s: State, self: Ref, text: Ref, func: Ref, data: Option<Ref>)
    requires CallOn(s, self, func, data) && Alive(s.heap, text)
    ensures OneWay(s, WriteStep(s, self, text, func, data))
  {
    RegisterOneWay(s, Notify(func, self, data, WRITE, Some(text)), StringOf(text));
  }

  lemma ReturnOneWay(s: State, f: nat)
    requires ReturnIsSafe(s, f)
    ensures OneWay(s, ReturnStep(s, f))
  {
    hide Given, Covers;
    assert ReturnStep(s, f).heap == Release(s.heap, Given(s, f));
  }

  lemma InvGoodHeap(s: State)
    requires Inv(s)
    ensures GoodHeap(s.heap, Held(s))
  {
  }

  lemma HeapOnlyOneWay(s: State, h: Heap<Body>)
    requires HeapOneWay(s.heap, h)
    ensures OneWay(s, s.(heap := h))
  {
  }

  lemma DeliverOneWay(s: State, n: nat, result: Code, batch: seq<Code>)
    requires Inv(s) && Enabled(s, Deliver(n, result, batch))
    ensures s.records[n].notify.self < |s.heap| && OneWay(s, DeliverStep(s, n, result, batch))
  {
    hide Inv, HeapAtCall, HeapOneWay, NotifyBag;
    InvRecord(s, n);
    InvGoodHeap(s);
    HeapAtCallOneWay(s.heap, Held(s), s.records[n].notify, result, batch);
    BegunOneWay(s, n, NewFrame(n, s.records[n].notify, result, |s.heap|), DeliverStep(s, n, result, batch).heap);
  }

  lemma BegunOneWay(s: State, n: nat, f: Frame, h: Heap<Body>)
    requires n < |s.records| && s.records[n].Live? && f.Active? && HeapOneWay(s.heap, h)
    ensures OneWay(s, Begun(s, n, f).(heap := h))
  {
  }

  lemma HeapOneWayCases(s: State, e: Event)
    requires Enabled(s, e) && Safe(s, e)
    requires e.PyAlloc? || e.PyTake? || e.PyDrop? || e.Cancel?
    ensures OneWay(s, Step(s, e))
  {
    hide OneWay;
    HeapOnlyOneWay(s, Step(s, e).heap);
  }

  lemma StepOneWay(s: State, e: Event)
    requires Inv(s) && Enabled(s, e)
    ensures Safe(s, e) && OneWay(s, Step(s, e))
  {
    hide Inv, Safe, OneWay, StartStep, CloseStep, ReadStep, WriteStep, DeliverStep, ReturnStep;
    EnabledIsSafe(s, e);
    if ReplyTo(s, e) == Accepted {
      match e
      case Start(origin, _, func, data, job) => StartOneWay(s, origin, func, data, job);
      case Close(self, func, data) => CloseOneWay(s, self, func, data);
      case Read(self, bytes, func, data) => ReadOneWay(s, self, bytes, func, data);
      case Write(self, text, func, data) => WriteOneWay(s, self, text, func, data);
      case Deliver(n, result, batch) => DeliverOneWay(s, n, result, batch);
      case Return(f) => InvReturnIsSafe(s, f); ReturnOneWay(s, f);
      case _ => HeapOneWayCases(s, e);
    } else {
      OneWayReflexive(s);
    }
  }

  lemma OneWayReflexive(s: State)
    ensures OneWay(s, s)
  {
  }

  lemma OneWayTransitive(s: State, t: State, u: State)
    requires OneWay(s, t) && OneWay(t, u)
    ensures OneWay(s, u)
  {
  }

  lemma {:induction false} RunOneWay(states: seq<State>, events: seq<Event>, i: nat, j: nat)
    requires Run(states, events) && i <= j <= |events|
    ensures OneWay(states[i], states[j])
    decreases j - i
  {
    hide Inv, Step, Safe, Enabled, OneWay;
    if i < j {
      RunOneWay(states, events, i, j - 1);
      RunKeeps(states, events, j - 1);
      StepOneWay(states[j - 1], events[j - 1]);
      OneWayTransitive(states[i], states[j - 1], states[j]);
    } else {
      OneWayReflexive(states[i]);
    }
  }

  /** A handle closed at some moment of a run is closed, and still a handle, at every later one. */
  lemma ClosedStaysClosed(states: seq<State>, events: seq<Event>, i: nat, j: nat, h: Ref)
    requires Run(states, events) && i <= j <= |events|
    requires IsHandle(states[i].heap, h) && !AsyncMachine.IsOpen(states[i].heap, h)
    ensures IsHandle(states[j].heap, h) && !AsyncMachine.IsOpen(states[j].heap, h)
  {
    RunOneWay(states, events, i, j);
    assert states[i].heap[h].body == Handle(None);
  }

  /** Once a handle was closed, by whatever and however long ago, every read, write and close on it
      raises ValueError and leaves the state as it is: no record, no count changed. */
  lemma ClosedIsInert(states: seq<State>, events: seq<Event>, i: nat, j: nat)
    requires Run(states, events) && i <= j < |events|
    requires events[j].Close? || events[j].Read? || events[j].Write?
    requires IsHandle(states[i].heap, events[j].self) && !AsyncMachine.IsOpen(states[i].heap, events[j].self)
    ensures Enabled(states[j], events[j])
    ensures ReplyTo(states[j], events[j]) == ValueError && states[j + 1] == states[j]
  {
    hide Inv, Safe, IsHandle;
    ClosedStaysClosed(states, events, i, j, events[j].self);
    RunKeeps(states, events, j);
  }

  /** A record is freed by the return of the callback that announced it, and by nothing else;
      until then it keeps naming the same objects. */
  lemma FreedByItsCallback(s: State, e: Event, t: State, n: nat)
    requires Inv(s) && Enabled(s, e) && Safe(s, e) && t == Step(s, e)
    requires n < |s.records| && s.records[n].Live?
    ensures n < |t.records|
    ensures t.records[n].Freed? <==> e.Return? && s.frames[e.frame].last && s.frames[e.frame].record == n
    ensures t.records[n].Live? ==>
              t.records[n].notify == s.records[n].notify && t.records[n].buffer == s.records[n].buffer
  {
    hide Inv, Retain, Safe, ReplyTo, Step;
    if e.Return? {
      ReturnKeepsRecords(s, e, n);
    } else {
      OthersKeepRecords(s, e, n);
    }
  }

  lemma OthersKeepRecords(s: State, e: Event, n: nat)
    requires Enabled(s, e) && Safe(s, e) && !e.Return? && n < |s.records| && s.records[n].Live?
    ensures var t := Step(s, e);
            && n < |t.records| && t.records[n].Live?
            && t.records[n].notify == s.records[n].notify && t.records[n].buffer == s.records[n].buffer
  {
    hide Retain, HeapAtCall, NewFrame, StartReply, OnOpenHandle, NotifyBag, Adopt, AliveOpt;
  }

  lemma ReturnKeepsRecords(s: State, e: Event, n: nat)
    requires Enabled(s, e) && Safe(s, e) && e.Return? && n < |s.records| && s.records[n].Live?
    ensures var t := Step(s, e);
            && n < |t.records|
            && (t.records[n].Freed? <==> s.frames[e.frame].last && s.frames[e.frame].record == n)
            && (t.records[n].Live? ==> t.records[n] == s.records[n])
  {
    hide Given, Covers, Release;
  }

  /** The block of a read is released together with its record, and no other block is. */
  lemma BlockGoesWithItsRecord(s: State, f: nat, b: nat)
    requires Inv(s) && ReturnIsSafe(s, f)
    requires b < |s.blocks| && s.blocks[b].InUse?
    ensures ReturnStep(s, f).blocks[b].Released?
       <==> s.frames[f].last && s.records[s.frames[f].record].buffer == Malloced(b)
  {
  }

  /** No record is freed twice, at whatever two moments of a run. */
  lemma FreedAtMostOnce(states: seq<State>, events: seq<Event>, i: nat, j: nat, n: nat)
    requires Run(states, events) && i < j < |events|
    requires n < |states[i].records| && states[i].records[n].Live?
    requires n < |states[i + 1].records| && states[i + 1].records[n].Freed?
    ensures n < |states[j].records| && states[j].records[n].Freed?
    ensures events[j].Return? && states[j].frames[events[j].frame].last
            ==> states[j].frames[events[j].frame].record != n
  {
    RunKeeps(states, events, i);
    StepOneWay(states[i], events[i]);
    RunOneWay(states, events, i + 1, j);
    RunKeeps(states, events, j);
    if events[j].Return? {
      assert FrameFits(states[j], events[j].frame);
    }
  }

  /** A delivered callback closes its handle in exactly the cases the module means it to, before the
      Python function runs, and touches no other handle. */
  lemma DeliveryClosesExactly(s: State, n: nat, result: Code, batch: seq<Code>, h: Ref)
    requires n < |s.records| && s.records[n].Live? && IsHandle(s.heap, s.records[n].notify.self)
    requires AsyncMachine.IsOpen(s.heap, h)
    ensures var notify := s.records[n].notify;
            AsyncMachine.IsOpen(DeliverStep(s, n, result, batch).heap, h)
            <==> !(h == notify.self
                   && (notify.origin in {CREATE_SYMLINK, G_INFO}
                       || (notify.origin in {OPEN, CREATE, LOAD_DIRECTORY} && ResultCheck(result).Some?)))
  {
    hide HeapAtCall, ResultCheck;
    BodyAtCall(s.heap, s.records[n].notify, result, batch, h);
  }

  lemma BodyAtCall(h: Heap<Body>, n: Notify, result: Code, batch: seq<Code>, o: Ref)
    requires n.self < |h| && o < |h|
    ensures |HeapAtCall(h, n, result, batch)| >= |h|
    ensures HeapAtCall(h, n, result, batch)[o].body
         == if o == n.self && ClosesHandle(n.origin, result) then Handle(None) else h[o].body
  {
    hide FrameHeld, ClosesHandle;
  }

  /** When every record is freed and every callback has returned, the module holds no reference. */
  lemma QuietModuleHoldsNothing(s: State)
    requires Inv(s)
    requires forall n :: 0 <= n < |s.records| ==> s.records[n].Freed?
    requires forall f :: 0 <= f < |s.frames| ==> s.frames[f].Done?
    ensures forall o :: 0 <= o < |s.heap| ==> s.heap[o].rc == s.heap[o].outside
    ensures forall b :: 0 <= b < |s.blocks| ==> s.blocks[b].Released?
  {
    TotalOfNothing(RecordBag, s.records);
    TotalOfNothing(FrameBag, s.frames);
    assert forall b :: 0 <= b < |s.blocks| && s.blocks[b].InUse? ==> BlockFits(s, b);
  }
}
