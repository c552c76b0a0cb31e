/** The functions of gnomevfs/vfs-async-handle.c, one INCREF, DECREF and assignment at a time.
    Each is proved to take the step that AsyncMachine gives it.

    A `*_marshal` callback is two methods: `CallbackBegin` runs up to the call of the Python
    function and `CallbackEnd` from its return on, because anything can happen in between.
 */
module AsyncModule {
  import opened Options
  import opened VfsErrors
  import opened PyHeap
  import opened AsyncMachine
  import opened AsyncSafety

  lemma RetainCommutesClose(h: Heap<Body>, bag: multiset<Ref>, self: Ref)
    requires self < |h|
    ensures CloseFd(Retain(h, bag), self) == Retain(CloseFd(h, self), bag)
  {
  }

  lemma RetainCommutesAlloc(h: Heap<Body>, bag: multiset<Ref>)
    requires |h| !in bag
    ensures Alloc(Retain(h, bag), Plain, false) == Retain(Alloc(h, Plain, false), bag)
  {
  }

  lemma AdoptCommutesAlloc(h: Heap<Body>, bag: multiset<Ref>)
    requires |h| !in bag
    ensures Adopt(Alloc(h, Plain, false), bag) == Alloc(Adopt(h, bag), Plain, false)
  {
  }

  lemma AdoptTwice(h: Heap<Body>, a: multiset<Ref>, b: multiset<Ref>)
    ensures Adopt(Adopt(h, a), b) == Adopt(h, a + b)
  {
  }

  lemma AdoptOne(h: Heap<Body>, o: Ref)
    requires o < |h|
    ensures h[o := h[o].(rc := h[o].rc + 1, outside := h[o].outside + 1)] == Adopt(h, multiset{o})
  {
  }

  lemma BagOrder(extra: multiset<Ref>, func: Ref, self: Ref, data: multiset<Ref>)
    ensures extra + multiset{func} + multiset{self} + data == multiset{func, self} + data + extra
  {
  }

  /** The four DECREFs of `async_notify_free`. */
  method ReleaseNotify(h: Heap<Body>, notify: Notify) returns (r: Heap<Body>)
    requires Covers(h, NotifyBag(notify))
    ensures r == Release(h, NotifyBag(notify))
  {
    hide Release, Covers;
    CoversParts(h, multiset{notify.func}, multiset{notify.self}, Opt(notify.data), Opt(notify.extra),
        NotifyBag(notify));
    r := DecRef(h, notify.func);
    r := DecRef(r, notify.self);
    r := XDecRef(r, notify.data);
    r := XDecRef(r, notify.extra);
  }

  /** The formats of the four callbacks. */
  method BuildArguments(notify: Notify, exception: Option<Ref>, value: Option<Ref>) returns (args: seq<Ref>)
    requires (exception.Some? <==> HasException(notify.origin)) && (value.Some? <==> HasValue(notify.origin))
    ensures args == Arguments(notify, exception, value)
  {
    var data := if notify.data.Some? then [notify.data.value] else [];
    if notify.origin == G_INFO {
      args := [notify.self, value.value] + data;
    } else if notify.origin == READ || notify.origin == WRITE || notify.origin == LOAD_DIRECTORY {
      args := [notify.self, value.value, exception.value] + data;
    } else {
      args := [notify.self, exception.value] + data;
    }
  }

  class Module {
    var heap: Heap<Body>
    var records: seq<Record>
    var frames: seq<Frame>
    var blocks: seq<Block>

    ghost function St(): State
      reads this
    {
      State(heap, records, frames, blocks)
    }

    ghost predicate Valid()
      reads this
    {
      Inv(St())
    }

    constructor (interpreter: Heap<Body>)
      requires Initial(State(interpreter, [], [], []))
      ensures Valid() && Initial(St()) && heap == interpreter
    {
      heap, records, frames, blocks := interpreter, [], [], [];
      new;
      InitialIsGood(St());
    }

    // ---------------------------------------------------------------- notify records

    /** `async_notify_new`, with the `extra` and the buffer its callers add. */
    method NotifyNew(func: Ref, self: Ref, data: Option<Ref>, origin: Origin, extra: Option<Ref>, buffer: Buffer)
      returns (n: nat)
      requires Alive(heap, func) && Alive(heap, self) && AliveOpt(heap, data) && AliveOpt(heap, extra)
      modifies this`heap, this`records
      ensures n == |old(records)|
      ensures St() == Register(old(St()), Notify(func, self, data, origin, extra), buffer)
    {
      hide Retain;
      heap := XIncRef(heap, extra);
      n := |records|;
      heap := IncRef(heap, func);
      heap := IncRef(heap, self);
      heap := XIncRef(heap, data);
      records := records + [Live(Notify(func, self, data, origin, extra), buffer, Waiting)];
      RetainTwice(old(heap), Opt(extra), multiset{func});
      RetainTwice(old(heap), Opt(extra) + multiset{func}, multiset{self});
      RetainTwice(old(heap), Opt(extra) + multiset{func} + multiset{self}, Opt(data));
      BagOrder(Opt(extra), func, self, Opt(data));
    }

    /** `async_notify_free` */
    method NotifyFree(n: nat)
      requires n < |records| && records[n].Live? && Covers(heap, NotifyBag(records[n].notify))
      modifies this`heap, this`records
      ensures heap == Release(old(heap), NotifyBag(old(records)[n].notify))
      ensures records == old(records)[n := Freed]
    {
      hide Release, Covers, NotifyBag;
      heap := ReleaseNotify(heap, records[n].notify);
      records := records[n := Freed];
    }

    // ---------------------------------------------------------------- functions called from Python

    /** `gnomevfs.async.open`, `create`, `create_symbolic_link`, `load_directory` and
        `get_file_info`.  GnomeVFS stores `job` in the new handle before it returns. */
    method StartRequest(origin: Origin, uris: seq<UriArg>, func: Ref, data: Option<Ref>, job: Job)
      returns (reply: Reply, self: Option<Ref>)
      requires Valid() && StartsRequest(origin) && Alive(heap, func) && AliveOpt(heap, data)
      modifies this
      ensures Valid()
      ensures reply == StartReply(old(St()), origin, uris, func)
      ensures St() == if reply == Accepted then StartStep(old(St()), origin, func, data, job) else old(St())
      ensures self == if reply == Accepted then Some(|old(heap)|) else None
    {
      hide Inv, Retain;
      StartKeeps(St(), origin, func, data, job);
      if !heap[func].body.Function? {
        return TypeError, None;
      }
      var i := 0;
      while i < |uris|
        invariant 0 <= i <= |uris|
        invariant forall j :: 0 <= j < i ==> UriAccepted(origin, uris[j])
      {
        if !UriAccepted(origin, uris[i]) {
          return TypeError, None;
        }
        i := i + 1;
      }
      var pyself := |heap|;
      heap := Alloc(heap, Handle(None), true);
      var n := NotifyNew(func, pyself, data, origin, None, NoBuffer);
      heap := SetBody(heap, pyself, Handle(Some(job)));
      return Accepted, Some(pyself);
    }

    method Close(self: Ref, func: Ref, data: Option<Ref>) returns (reply: Reply)
      requires Valid() && CallOn(St(), self, func, data)
      modifies this
      ensures Valid()
      ensures reply == OnOpenHandle(old(St()), self, old(heap)[func].body.Function?)
      ensures St() == if reply == Accepted then CloseStep(old(St()), self, func, data) else old(St())
    {
      hide Inv, Retain;
      CloseKeeps(St(), self, func, data);
      if heap[self].body.fd.None? {
        return ValueError;
      }
      if !heap[func].body.Function? {
        return TypeError;
      }
      var n := NotifyNew(func, self, data, CLOSE, None, NoBuffer);
      heap := CloseFd(heap, self);
      return Accepted;
    }

    method Read(self: Ref, bytes: nat, func: Ref, data: Option<Ref>) returns (reply: Reply)
      requires Valid() && CallOn(St(), self, func, data)
      modifies this
      ensures Valid()
      ensures reply == OnOpenHandle(old(St()), self, old(heap)[func].body.Function?)
      ensures St() == if reply == Accepted then ReadStep(old(St()), self, bytes, func, data) else old(St())
    {
      hide Inv, Retain;
      ReadKeeps(St(), self, bytes, func, data);
      if heap[self].body.fd.None? {
        return ValueError;
      }
      if !heap[func].body.Function? {
        return TypeError;
      }
      var buffer := if bytes == 0 then NoBuffer else Malloced(|blocks|);
      if bytes != 0 {
        blocks := blocks + [InUse(|records|)];
      }
      var n := NotifyNew(func, self, data, READ, None, buffer);
      return Accepted;
    }

    method Write(self: Ref, text: Ref, func: Ref, data: Option<Ref>) returns (reply: Reply)
      requires Valid() && CallOn(St(), self, func, data) && Alive(heap, text)
      modifies this
      ensures Valid()
      ensures reply == OnOpenHandle(old(St()), self, old(heap)[func].body.Function? && old(heap)[text].body.Text?)
      ensures St() == if reply == Accepted then WriteStep(old(St()), self, text, func, data) else old(St())
    {
      hide Inv, Retain;
      WriteKeeps(St(), self, text, func, data);
      if heap[self].body.fd.None? {
        return ValueError;
      }
      if !heap[func].body.Function? {
        return TypeError;
      }
      if !heap[text].body.Text? {
        return TypeError;
      }
      var n := NotifyNew(func, self, data, WRITE, Some(text), StringOf(text));
      return Accepted;
    }

    method Cancel(self: Ref)
      requires Valid() && Alive(heap, self) && IsHandle(heap, self)
      modifies this
      ensures Valid() && St() == old(St()).(heap := CloseFd(old(heap), self))
    {
      SetFdKeeps(St(), self, None);
      if heap[self].body.fd.Some? {
        heap := CloseFd(heap, self);
      }
    }

    // ---------------------------------------------------------------- callbacks

    /** `callback_marshal`, `read_write_marshal`, `get_info_marshal` and `load_dir_marshal` up to the
        call of the Python function.  `batch` are the results `get_info_marshal` is given. */
    method CallbackBegin(n: nat, result: Code, batch: seq<Code>) returns (f: nat)
      requires Valid() && n < |records| && records[n].Live? && records[n].phase.Waiting?
      modifies this
      ensures Valid() && f == |old(frames)|
      ensures old(records)[n].notify.self < |old(heap)| && St() == DeliverStep(old(St()), n, result, batch)
    {
      hide Inv, CallReady, HeapWithCall, NewFrame;
      BeginFacts(St(), n, result, batch);
      var frame := EnterCall(n, records[n].notify, result, batch);
      f := PushFrame(n, frame);
    }

    /** The locals and the argument tuple of the callback for record `n`. */
    method EnterCall(n: nat, notify: Notify, result: Code, batch: seq<Code>) returns (frame: Frame)
      requires CallReady(heap, notify, result, batch)
      modifies this`heap
      ensures frame == NewFrame(n, notify, result, |old(heap)|)
      ensures heap == HeapWithCall(old(heap), notify, result, batch)
    {
      hide Retain, Prepared, ExceptionOf, ValueOf, Arguments, Opt;
      ghost var h0 := heap;
      var exception, value, args := PrepareCall(notify, result, batch);
      RetainTwice(Prepared(h0, notify, result, batch), Opt(exception), multiset(args));
      heap := RetainAll(heap, args);
      var errorHappened := ResultCheck(result).Some?;
      frame := Active(n, notify.func, exception, value, args, notify.origin == LOAD_DIRECTORY ==> errorHappened);
    }

    method PushFrame(n: nat, frame: Frame) returns (f: nat)
      requires n < |records| && records[n].Live? && frame.Active?
      modifies this`frames, this`records
      ensures f == |old(frames)| && St() == Begun(old(St()), n, frame)
    {
      f := |frames|;
      frames := frames + [frame];
      if frame.last {
        records := records[n := records[n].(phase := Finishing(f))];
      }
    }

    /** What comes before the argument tuple is built: fetch the exception, close the handle, build
        the value. */
    method PrepareCall(notify: Notify, result: Code, batch: seq<Code>)
      returns (exception: Option<Ref>, value: Option<Ref>, args: seq<Ref>)
      requires notify.self < |heap| && |heap| >= BUILTINS && AliveOpt(heap, ExceptionOf(notify, result))
      modifies this`heap
      ensures heap == Retain(Prepared(old(heap), notify, result, batch), Opt(exception))
      ensures exception == ExceptionOf(notify, result) && value == ValueOf(notify, |old(heap)|)
      ensures args == Arguments(notify, exception, value)
    {
      hide Retain, Adopt, ResultCheck, Closed, Built, Listed, Arguments, Exception;
      ghost var h0 := heap;
      exception := ExceptionOf(notify, result);
      heap := XIncRef(heap, exception);
      CloseIfNeeded(notify, result, h0, Opt(exception));
      value := BuildValue(notify, batch, Closed(h0, notify, result), Opt(exception));
      args := BuildArguments(notify, exception, value);
    }

    /** The assignment `notify->self->fd = NULL` and its condition. */
    method CloseIfNeeded(notify: Notify, result: Code, ghost h: Heap<Body>, ghost held: multiset<Ref>)
      requires notify.self < |h| && heap == Retain(h, held)
      modifies this`heap
      ensures heap == Retain(Closed(h, notify, result), held) && |Closed(h, notify, result)| == |h|
    {
      var errorHappened := ResultCheck(result).Some?;
      var closes := notify.origin == CREATE_SYMLINK || notify.origin == G_INFO;
      if errorHappened && (notify.origin == OPEN || notify.origin == CREATE || notify.origin == LOAD_DIRECTORY) {
        closes := true;
      }
      if closes {
        RetainCommutesClose(h, held, notify.self);
        heap := CloseFd(heap, notify.self);
      }
    }

    /** The string, number or list a callback passes on. */
    method BuildValue(notify: Notify, batch: seq<Code>, ghost h: Heap<Body>, ghost held: multiset<Ref>)
      returns (value: Option<Ref>)
      requires |h| >= BUILTINS && heap == Retain(h, held) && |h| !in held
      requires notify.origin == G_INFO ==> held == multiset{}
      modifies this`heap
      ensures heap == Retain(Built(Listed(h, notify, batch), notify), held)
      ensures value == ValueOf(notify, |h|)
    {
      if !HasValue(notify.origin) {
        return None;
      }
      value := Some(|heap|);
      RetainCommutesAlloc(h, held);
      heap := Alloc(heap, Plain, false);
      if notify.origin == G_INFO {
        Nothing(h);
        FillList(batch, h);
        Nothing(heap);
      }
    }

    /** The loop of `get_info_marshal`: each result leaves one exception in the list. */
    method FillList(batch: seq<Code>, ghost h: Heap<Body>)
      requires |h| >= BUILTINS && heap == Alloc(h, Plain, false)
      modifies this`heap
      ensures heap == Alloc(Adopt(h, Exceptions(batch)), Plain, false)
    {
      hide Exception, Adopt;
      var i := 0;
      Nothing(heap);
      while i < |batch|
        invariant 0 <= i <= |batch|
        invariant heap == Adopt(old(heap), Exceptions(batch[..i]))
      {
        var e := Exception(batch[i]);
        AdoptTwice(old(heap), Exceptions(batch[..i]), multiset{e});
        AdoptOne(heap, e);
        heap := heap[e := heap[e].(rc := heap[e].rc + 1, outside := heap[e].outside + 1)];
        assert batch[..i + 1][..i] == batch[..i];
        i := i + 1;
      }
      assert batch[..i] == batch;
      ExceptionsAreBuiltins(batch);
      AdoptCommutesAlloc(h, Exceptions(batch));
    }

    /** The argument tuple goes when the call is over, then the locals. */
    method ReleaseLocals(args: seq<Ref>, value: Option<Ref>, exception: Option<Ref>, ghost rest: multiset<Ref>)
      requires CoversInTurn(heap, multiset(args), Opt(value), Opt(exception), rest)
      modifies this`heap
      ensures Covers(heap, rest)
      ensures Release(heap, rest)
           == ReleaseInTurn(old(heap), multiset(args), Opt(value), Opt(exception), rest)
    {
      hide Release, Covers;
      heap := ReleaseAll(heap, args);
      heap := XDecRef(heap, value);
      heap := XDecRef(heap, exception);
    }

    /** `g_free(buffer)` and `async_notify_free` */
    method FreeRecord(n: nat)
      requires n < |records| && records[n].Live? && Covers(heap, NotifyBag(records[n].notify))
      requires records[n].buffer.Malloced? ==> records[n].notify.origin == READ && records[n].buffer.block < |blocks|
      modifies this`heap, this`records, this`blocks
      ensures heap == Release(old(heap), NotifyBag(old(records)[n].notify))
      ensures records == old(records)[n := Freed]
      ensures blocks == BlocksAfterFree(old(St()), n)
    {
      hide Release, Covers, NotifyBag;
      if records[n].notify.origin == READ {
        if records[n].buffer.Malloced? {
          blocks := blocks[records[n].buffer.block := Released];
        }
      }
      NotifyFree(n);
    }

    /** The same callbacks from the return of the Python function on. */
    method CallbackEnd(f: nat)
      requires Valid() && f < |frames| && frames[f].Active?
      modifies this
      ensures Valid() && ReturnIsSafe(old(St()), f) && St() == ReturnStep(old(St()), f)
    {
      hide Inv, Release, Covers, NotifyBag, ReturnIsSafe, CoversInTurn, FrameBag;
      EndFacts(St(), f);
      ghost var rest := Notified(St(), f);
      var Active(n, _, exception, value, args, last) := frames[f];
      ReleaseLocals(args, value, exception, rest);
      if last {
        FreeRecord(n);
      } else {
        Nothing(heap);
      }
      frames := frames[f := Done];
    }
  }

  lemma EndFacts(s: State, f: nat)
    requires Inv(s) && f < |s.frames| && s.frames[f].Active?
    ensures ReturnIsSafe(s, f) && Inv(ReturnStep(s, f))
    ensures var Active(n, _, exception, value, args, last) := s.frames[f];
            && CoversInTurn(s.heap, multiset(args), Opt(value), Opt(exception), Notified(s, f))
            && ReturnStep(s, f).heap
               == ReleaseInTurn(s.heap, multiset(args), Opt(value), Opt(exception), Notified(s, f))
            && (last ==> n < |s.records| && s.records[n].Live?)
            && (last && s.records[n].buffer.Malloced? ==>
                  s.records[n].notify.origin == READ && s.records[n].buffer.block < |s.blocks|)
  {
    hide Inv, NotifyBag, Covers, CoversInTurn, ReleaseInTurn, ReturnStep, FrameBag, Notified, Given;
    ReturnKeeps(s, f);
    EndCovers(s, f);
    if s.frames[f].last {
      InvRecord(s, s.frames[f].record);
    }
  }

  function Notified(s: State, f: nat): multiset<Ref>
    requires f < |s.frames| && s.frames[f].Active?
    requires s.frames[f].last ==> s.frames[f].record < |s.records| && s.records[s.frames[f].record].Live?
  {
    if s.frames[f].last then NotifyBag(s.records[s.frames[f].record].notify) else multiset{}
  }

  lemma EndCovers(s: State, f: nat)
    requires ReturnIsSafe(s, f)
    ensures var Active(n, _, exception, value, args, last) := s.frames[f];
            && CoversInTurn(s.heap, multiset(args), Opt(value), Opt(exception), Notified(s, f))
            && ReturnStep(s, f).heap
               == ReleaseInTurn(s.heap, multiset(args), Opt(value), Opt(exception), Notified(s, f))
  {
    hide ReturnStep, Given, Release, Covers, Notified;
    var Active(n, _, exception, value, args, last) := s.frames[f];
    GivenIs(s, f);
    CoversParts(s.heap, multiset(args), Opt(value), Opt(exception), Notified(s, f), Given(s, f));
  }

  lemma GivenIs(s: State, f: nat)
    requires ReturnIsSafe(s, f)
    ensures var Active(n, _, exception, value, args, last) := s.frames[f];
            Given(s, f) == multiset(args) + Opt(value) + Opt(exception) + Notified(s, f)
    ensures Covers(s.heap, Given(s, f)) && ReturnStep(s, f).heap == Release(s.heap, Given(s, f))
  {
    hide Release;
  }

  lemma BeginFacts(s: State, n: nat, result: Code, batch: seq<Code>)
    requires Inv(s) && n < |s.records| && s.records[n].Live? && s.records[n].phase.Waiting?
    ensures CallReady(s.heap, s.records[n].notify, result, batch) && s.records[n].notify.self < |s.heap|
    ensures Inv(DeliverStep(s, n, result, batch))
    ensures DeliverStep(s, n, result, batch)
         == Begun(s, n, NewFrame(n, s.records[n].notify, result, |s.heap|)).(
              heap := HeapWithCall(s.heap, s.records[n].notify, result, batch))
  {
    hide Inv, Fits, GoodHeap, Conserved;
    DeliverKeeps(s, n, result, batch);
    InvRecord(s, n);
    InvGoodHeap(s);
    GoodCallHeap(s.heap, Held(s), s.records[n].notify, result, batch);
  }

  /** Every object the call will refer to is alive once the callback has its locals. */
  ghost predicate CallReady(h: Heap<Body>, n: Notify, result: Code, batch: seq<Code>) {
    var exception, value := ExceptionOf(n, result), ValueOf(n, |h|);
    var args := Arguments(n, exception, value);
    && n.self < |h| && |h| >= BUILTINS && AliveOpt(h, exception)
    && (forall i :: 0 <= i < |args| ==> Alive(Retain(Prepared(h, n, result, batch), Opt(exception)), args[i]))
  }

  function HeapWithCall(h: Heap<Body>, n: Notify, result: Code, batch: seq<Code>): Heap<Body>
    requires n.self < |h|
  {
    var exception, value := ExceptionOf(n, result), ValueOf(n, |h|);
    Retain(Prepared(h, n, result, batch), Opt(exception) + multiset(Arguments(n, exception, value)))
  }

  /** What the activation takes, beside its own new value. */
  lemma FrameParts(n: Notify, result: Code, newRef: Ref)
    ensures var exception, value := ExceptionOf(n, result), ValueOf(n, newRef);
            var args := Arguments(n, exception, value);
            && FrameHeld(n, result, newRef) == Opt(exception) + Opt(value) + multiset(args)
            && FrameHeld(n, result, newRef) - Opt(value) == Opt(exception) + multiset(args)
            && forall i :: 0 <= i < |args| ==> args[i] in FrameHeld(n, result, newRef)
  {
    hide ExceptionOf, ValueOf, Arguments;
    var exception, value := ExceptionOf(n, result), ValueOf(n, newRef);
    TakenParts(Opt(exception), Opt(value), Arguments(n, exception, value));
  }

  lemma RetainedStaysAlive(h: Heap<Body>, bag: multiset<Ref>, o: Ref)
    requires Alive(h, o)
    ensures Alive(Retain(h, bag), o)
  {
  }

  lemma GoodCallReady(h: Heap<Body>, held: multiset<Ref>, n: Notify, result: Code, batch: seq<Code>)
    requires GoodHeap(h, held) && NotifyBag(n) <= held && IsHandle(h, n.self)
    ensures CallReady(h, n, result, batch)
  {
    hide GoodHeap, Prepared, Retain, NotifyBag, Arguments, ExceptionOf, ValueOf, FrameHeld, KeepsHandles, Opt;
    ExceptionIsAlive(h, held, n, result);
    PreparedIsGood(h, held, n, result, batch);
    TakenIsAlive(h, held, n, result);
    FrameParts(n, result, |h|);
    var exception, p := ExceptionOf(n, result), Prepared(h, n, result, batch);
    var args := Arguments(n, exception, ValueOf(n, |h|));
    forall i | 0 <= i < |args| ensures Alive(Retain(p, Opt(exception)), args[i]) {
      RetainedStaysAlive(p, Opt(exception), args[i]);
    }
  }

  /** After the locals are accounted for, the call needs one more reference to each argument. */
  lemma GoodCallHeap(h: Heap<Body>, held: multiset<Ref>, n: Notify, result: Code, batch: seq<Code>)
    requires GoodHeap(h, held) && NotifyBag(n) <= held && IsHandle(h, n.self)
    ensures CallReady(h, n, result, batch)
    ensures HeapAtCall(h, n, result, batch) == HeapWithCall(h, n, result, batch)
  {
    hide GoodHeap, Prepared, Retain, NotifyBag, Arguments, ExceptionOf, ValueOf, FrameHeld, Opt, CallReady;
    GoodCallReady(h, held, n, result, batch);
    FrameParts(n, result, |h|);
  }

  lemma TakenParts(e: multiset<Ref>, v: multiset<Ref>, args: seq<Ref>)
    ensures e + v + multiset(args) - v == e + multiset(args)
    ensures forall i :: 0 <= i < |args| ==> args[i] in e + v + multiset(args)
  {
    forall i | 0 <= i < |args| ensures args[i] in e + v + multiset(args) {
      assert args[i] in multiset(args);
    }
  }
}
