/** gnomevfs/vfs-async-handle.c as a step system.

    A state is the heap of Python objects, the table of notify records, the activations of the
    C callbacks (`*_marshal`) and the blocks that `Handle.read` allocates.  Records, activations and
    blocks are numbered in the order of their creation and keep their number after they are gone.

    The interpreter is an environment: it allocates objects, takes and drops references and calls
    the module's functions at any time, also while a callback is active.  GnomeVFS is an environment
    as well: it delivers a callback for any waiting request, in any order.  It delivers one callback
    for a single-shot request, and none for a directory load after one that carried an error.
 */
module AsyncMachine {
  import opened Options
  import opened VfsErrors
  import opened PyHeap

  type Job = nat

  datatype Body = Handle(fd: Option<Job>) | Function | Text | UriObject | Plain

  datatype Origin = OPEN | READ | WRITE | CLOSE | G_INFO | LOAD_DIRECTORY | CREATE | CREATE_SYMLINK

  datatype Notify = Notify(func: Ref, self: Ref, data: Option<Ref>, origin: Origin, extra: Option<Ref>)

  /** The memory GnomeVFS reads from or writes to on behalf of a request. */
  datatype Buffer = NoBuffer | Malloced(block: nat) | StringOf(text: Ref)

  datatype Phase = Waiting | Finishing(frame: nat)

  datatype Record = Live(notify: Notify, buffer: Buffer, phase: Phase) | Freed

  /** A C callback that has called the Python function `callee` with `args` and not yet returned.  It owns
      its local variables `exception` and `value` and the argument tuple, and borrows the function; `last`
      says that it will free the record. */
  datatype Frame =
    | Active(record: nat, callee: Ref, exception: Option<Ref>, value: Option<Ref>, args: seq<Ref>, last: bool)
    | Done

  datatype Block = InUse(record: nat) | Released

  datatype State = State(heap: Heap<Body>, records: seq<Record>, frames: seq<Frame>, blocks: seq<Block>)

  /** One argument that must become a GnomeVFSURI; `parses` is gnome_vfs_uri_new's verdict. */
  datatype UriArg = UriInstance | UriText(parses: bool) | NotAUri

  datatype Event =
    | PyAlloc(body: Body)
    | PyTake(o: Ref)
    | PyDrop(o: Ref)
    | Start(origin: Origin, uris: seq<UriArg>, func: Ref, data: Option<Ref>, job: Job)
    | Close(self: Ref, func: Ref, data: Option<Ref>)
    | Read(self: Ref, bytes: nat, func: Ref, data: Option<Ref>)
    | Write(self: Ref, text: Ref, func: Ref, data: Option<Ref>)
    | Cancel(self: Ref)
    | Deliver(record: nat, result: Code, batch: seq<Code>)
    | Return(frame: nat)

  datatype Reply = Accepted | ValueError | TypeError

  // ------------------------------------------------------------------ exception objects

  /** None and the registered exception classes are objects the module never lets go. */
  const NONE: Ref := 0
  const BUILTINS: nat := 42

  /** The object `fetch_exception` returns. */
  function Exception(result: Code): (o: Ref)
    ensures o < BUILTINS
  {
    match ResultCheck(result)
    case Some(Registered(e)) =>
      OrderIsComplete(e);
      assert |ORDER| == 41;
      1 + Position(e, 0)
    case _ => NONE
  }

  function Exceptions(batch: seq<Code>): multiset<Ref> {
    if batch == [] then multiset{} else Exceptions(batch[..|batch| - 1]) + multiset{Exception(batch[|batch| - 1])}
  }

  // ------------------------------------------------------------------ references held by the C code

  function NotifyBag(n: Notify): multiset<Ref> {
    multiset{n.func, n.self} + Opt(n.data) + Opt(n.extra)
  }

  function RecordBag(r: Record): multiset<Ref> {
    if r.Live? then NotifyBag(r.notify) else multiset{}
  }

  function FrameBag(f: Frame): multiset<Ref> {
    if f.Active? then Opt(f.exception) + Opt(f.value) + multiset(f.args) else multiset{}
  }

  function Held(s: State): multiset<Ref> {
    Total(RecordBag, s.records) + Total(FrameBag, s.frames)
  }

  // ------------------------------------------------------------------ what each origin does

  predicate Failed(result: Code) {
    ResultCheck(result).Some?
  }

  /** The callback closes its handle before it calls the Python function. */
  predicate ClosesHandle(origin: Origin, result: Code) {
    match origin
    case OPEN => Failed(result)
    case CREATE => Failed(result)
    case LOAD_DIRECTORY => Failed(result)
    case CREATE_SYMLINK => true
    case G_INFO => true
    case _ => false
  }

  /** The callback frees its notify record when the Python function returns. */
  predicate FreesRecord(origin: Origin, result: Code) {
    origin == LOAD_DIRECTORY ==> Failed(result)
  }

  predicate HasException(origin: Origin) {
    origin != G_INFO
  }

  /** The callback builds an object of its own: the string read, the count, or a list of results. */
  predicate HasValue(origin: Origin) {
    origin in {READ, WRITE, G_INFO, LOAD_DIRECTORY}
  }

  predicate UriAccepted(origin: Origin, u: UriArg) {
    u.UriInstance? || (u.UriText? && (origin == G_INFO || u.parses))
  }

  predicate StartsRequest(origin: Origin) {
    origin in {OPEN, CREATE, CREATE_SYMLINK, LOAD_DIRECTORY, G_INFO}
  }

  // ------------------------------------------------------------------ steps

  predicate AliveOpt(h: Heap<Body>, o: Option<Ref>) {
    o.Some? ==> Alive(h, o.value)
  }

  predicate IsHandle(h: Heap<Body>, o: Ref) {
    o < |h| && h[o].body.Handle?
  }

  predicate IsOpen(h: Heap<Body>, o: Ref) {
    IsHandle(h, o) && h[o].body.fd.Some?
  }

  /** What the environment may do.  The arguments of a call are objects its caller keeps alive. */
  predicate Enabled(s: State, e: Event) {
    match e
    case PyAlloc(_) => true
    case PyTake(o) => Alive(s.heap, o)
    case PyDrop(o) => o < |s.heap| && s.heap[o].outside > if o < BUILTINS then 1 else 0
    case Start(origin, uris, func, data, _) => StartsRequest(origin) && Alive(s.heap, func) && AliveOpt(s.heap, data)
    case Close(self, func, data) => CallOn(s, self, func, data)
    case Read(self, _, func, data) => CallOn(s, self, func, data)
    case Write(self, text, func, data) => CallOn(s, self, func, data) && Alive(s.heap, text)
    case Cancel(self) => Alive(s.heap, self) && IsHandle(s.heap, self)
    case Deliver(n, _, _) => n < |s.records| && s.records[n].Live? && s.records[n].phase.Waiting?
    case Return(f) => f < |s.frames| && s.frames[f].Active?
  }

  predicate CallOn(s: State, self: Ref, func: Ref, data: Option<Ref>) {
    Alive(s.heap, self) && IsHandle(s.heap, self) && Alive(s.heap, func) && AliveOpt(s.heap, data)
  }

  /** What the caller of a module function gets; the other events have no caller. */
  function ReplyTo(s: State, e: Event): Reply
    requires Enabled(s, e)
  {
    match e
    case Start(origin, uris, func, _, _) => StartReply(s, origin, uris, func)
    case Close(self, func, _) => OnOpenHandle(s, self, s.heap[func].body.Function?)
    case Read(self, _, func, _) => OnOpenHandle(s, self, s.heap[func].body.Function?)
    case Write(self, text, func, _) => OnOpenHandle(s, self, s.heap[func].body.Function? && s.heap[text].body.Text?)
    case _ => Accepted
  }

  function StartReply(s: State, origin: Origin, uris: seq<UriArg>, func: Ref): Reply
    requires func < |s.heap|
  {
    if !s.heap[func].body.Function? || exists i :: 0 <= i < |uris| && !UriAccepted(origin, uris[i]) then TypeError
    else Accepted
  }

  function OnOpenHandle(s: State, self: Ref, argumentsFit: bool): Reply {
    if !IsOpen(s.heap, self) then ValueError else if !argumentsFit then TypeError else Accepted
  }

  /** A request registered with GnomeVFS: the new record retains what it names. */
  function Register(s: State, n: Notify, buffer: Buffer): State {
    s.(heap := Retain(s.heap, NotifyBag(n)), records := s.records + [Live(n, buffer, Waiting)])
  }

  function CloseFd(h: Heap<Body>, self: Ref): Heap<Body>
    requires self < |h|
  {
    SetBody(h, self, Handle(None))
  }

  function ExceptionOf(n: Notify, result: Code): Option<Ref> {
    if HasException(n.origin) then Some(Exception(result)) else None
  }

  function ValueOf(n: Notify, newRef: Ref): Option<Ref> {
    if HasValue(n.origin) then Some(newRef) else None
  }

  function OneOrNone(o: Option<Ref>): seq<Ref> {
    if o.Some? then [o.value] else []
  }

  /** The objects the Python function is called with.  (The number of bytes a read or write asked
      for is one more argument; the tuple alone holds it.) */
  function Arguments(n: Notify, exception: Option<Ref>, value: Option<Ref>): seq<Ref> {
    [n.self] + OneOrNone(value) + OneOrNone(exception) + OneOrNone(n.data)
  }

  /** The activation of the callback for record `i`. */
  function NewFrame(i: nat, n: Notify, result: Code, newRef: Ref): (f: Frame)
    ensures f.Active?
  {
    var exception := ExceptionOf(n, result);
    var value := ValueOf(n, newRef);
    Active(i, n.func, exception, value, Arguments(n, exception, value), FreesRecord(n.origin, result))
  }

  function Closed(h: Heap<Body>, n: Notify, result: Code): Heap<Body>
    requires n.self < |h|
  {
    if ClosesHandle(n.origin, result) then CloseFd(h, n.self) else h
  }

  /** `get_info_marshal` stores one exception per result in the list it builds. */
  function Listed(h: Heap<Body>, n: Notify, batch: seq<Code>): Heap<Body> {
    if n.origin == G_INFO then Adopt(h, Exceptions(batch)) else h
  }

  function Built(h: Heap<Body>, n: Notify): Heap<Body> {
    if HasValue(n.origin) then Alloc(h, Plain, false) else h
  }

  function Prepared(h: Heap<Body>, n: Notify, result: Code, batch: seq<Code>): Heap<Body>
    requires n.self < |h|
  {
    Built(Listed(Closed(h, n, result), n, batch), n)
  }

  /** All references the activation owns. */
  function FrameHeld(n: Notify, result: Code, newRef: Ref): multiset<Ref> {
    FrameBag(NewFrame(0, n, result, newRef))
  }

  /** The heap when the Python function gets control; the new value came with its first reference. */
  function HeapAtCall(h: Heap<Body>, n: Notify, result: Code, batch: seq<Code>): Heap<Body>
    requires n.self < |h|
  {
    Retain(Prepared(h, n, result, batch), FrameHeld(n, result, |h|) - Opt(ValueOf(n, |h|)))
  }

  function Begun(s: State, n: nat, f: Frame): State
    requires n < |s.records| && s.records[n].Live? && f.Active?
  {
    s.(records := if f.last then s.records[n := s.records[n].(phase := Finishing(|s.frames|))] else s.records,
       frames := s.frames + [f])
  }

  function DeliverStep(s: State, n: nat, result: Code, batch: seq<Code>): State
    requires n < |s.records| && s.records[n].Live? && s.records[n].notify.self < |s.heap|
  {
    var notify := s.records[n].notify;
    Begun(s, n, NewFrame(n, notify, result, |s.heap|)).(heap := HeapAtCall(s.heap, notify, result, batch))
  }

  /** What the tail of a callback gives back. */
  function Given(s: State, f: nat): multiset<Ref>
    requires f < |s.frames| && s.frames[f].Active?
    requires s.frames[f].last ==> s.frames[f].record < |s.records| && s.records[s.frames[f].record].Live?
  {
    FrameBag(s.frames[f])
    + if s.frames[f].last then NotifyBag(s.records[s.frames[f].record].notify) else multiset{}
  }

  function BlocksAfterFree(s: State, n: nat): seq<Block>
    requires n < |s.records| && s.records[n].Live?
    requires s.records[n].buffer.Malloced? ==> s.records[n].buffer.block < |s.blocks|
  {
    if s.records[n].buffer.Malloced? then s.blocks[s.records[n].buffer.block := Released] else s.blocks
  }

  function ReturnStep(s: State, f: nat): State
    requires ReturnIsSafe(s, f)
  {
    var n := s.frames[f].record;
    var h := Release(s.heap, Given(s, f));
    if s.frames[f].last then
      State(h, s.records[n := Freed], s.frames[f := Done], BlocksAfterFree(s, n))
    else
      s.(heap := h, frames := s.frames[f := Done])
  }

  /** Everything the tail of a callback gives back is there to be given back. */
  ghost predicate ReturnIsSafe(s: State, f: nat) {
    && f < |s.frames|
    && s.frames[f].Active?
    && var n := s.frames[f].record;
    && (s.frames[f].last ==>
          && n < |s.records|
          && s.records[n].Live?
          && (s.records[n].buffer.Malloced? ==>
                s.records[n].buffer.block < |s.blocks| && s.blocks[s.records[n].buffer.block].InUse?))
    && Covers(s.heap, Given(s, f))
  }

  function StartStep(s: State, origin: Origin, func: Ref, data: Option<Ref>, job: Job): State {
    var self := |s.heap|;
    var r := Register(s.(heap := Alloc(s.heap, Handle(None), true)), Notify(func, self, data, origin, None), NoBuffer);
    r.(heap := SetBody(r.heap, self, Handle(Some(job))))
  }

  function CloseStep(s: State, self: Ref, func: Ref, data: Option<Ref>): State
    requires self < |s.heap|
  {
    var r := Register(s, Notify(func, self, data, CLOSE, None), NoBuffer);
    r.(heap := CloseFd(r.heap, self))
  }

  /** The memory a read of `bytes` bytes gets: g_malloc(0) is no memory at all. */
  function ReadBuffer(s: State, bytes: nat): Buffer {
    if bytes == 0 then NoBuffer else Malloced(|s.blocks|)
  }

  /** A read's new block, owned by the record about to be made. */
  function WithBlock(s: State, buffer: Buffer): State {
    if buffer.Malloced? then s.(blocks := s.blocks + [InUse(|s.records|)]) else s
  }

  function ReadStep(s: State, self: Ref, bytes: nat, func: Ref, data: Option<Ref>): State {
    var buffer := ReadBuffer(s, bytes);
    Register(WithBlock(s, buffer), Notify(func, self, data, READ, None), buffer)
  }

  function WriteStep(s: State, self: Ref, text: Ref, func: Ref, data: Option<Ref>): State {
    Register(s, Notify(func, self, data, WRITE, Some(text)), StringOf(text))
  }

  function DropStep(s: State, o: Ref): State
    requires o < |s.heap| && s.heap[o].rc > 0 && s.heap[o].outside > 0
  {
    s.(heap := s.heap[o := s.heap[o].(rc := s.heap[o].rc - 1, outside := s.heap[o].outside - 1)])
  }

  /** What a step needs in order to touch live memory only. */
  ghost predicate Safe(s: State, e: Event)
    requires Enabled(s, e)
  {
    match e
    case PyDrop(o) => s.heap[o].rc > 0
    case Deliver(n, _, _) =>
      && IsHandle(s.heap, s.records[n].notify.self)
      && AllAlive(s.heap, NotifyBag(s.records[n].notify))
      && (s.records[n].buffer.StringOf? ==> Alive(s.heap, s.records[n].buffer.text))
      && (s.records[n].buffer.Malloced? ==>
            s.records[n].buffer.block < |s.blocks| && s.blocks[s.records[n].buffer.block].InUse?)
    case Return(f) => ReturnIsSafe(s, f)
    case _ => true
  }

  ghost function Step(s: State, e: Event): State
    requires Enabled(s, e) && Safe(s, e)
  {
    if ReplyTo(s, e) != Accepted then s
    else
      match e
      case PyAlloc(body) => s.(heap := Alloc(s.heap, body, true))
      case PyTake(o) => s.(heap := Adopt(s.heap, multiset{o}))
      case PyDrop(o) => DropStep(s, o)
      case Start(origin, _, func, data, job) => StartStep(s, origin, func, data, job)
      case Close(self, func, data) => CloseStep(s, self, func, data)
      case Read(self, bytes, func, data) => ReadStep(s, self, bytes, func, data)
      case Write(self, text, func, data) => WriteStep(s, self, text, func, data)
      case Cancel(self) => s.(heap := CloseFd(s.heap, self))
      case Deliver(n, result, batch) => DeliverStep(s, n, result, batch)
      case Return(f) => ReturnStep(s, f)
  }

  /** The interpreter's objects before the module is used: all references are its own. */
  ghost predicate Initial(s: State) {
    && |s.heap| >= BUILTINS
    && (forall o :: 0 <= o < |s.heap| ==> s.heap[o].rc == s.heap[o].outside)
    && (forall o :: 0 <= o < BUILTINS ==> s.heap[o].outside >= 1)
    && s.records == [] && s.frames == [] && s.blocks == []
  }

  /** A run: the environment does what it may.  After an unsafe step the state would be arbitrary. */
  ghost predicate Run(states: seq<State>, events: seq<Event>) {
    && |states| == |events| + 1
    && Initial(states[0])
    && (forall i :: 0 <= i < |events| ==>
          Enabled(states[i], events[i])
          && (Safe(states[i], events[i]) ==> states[i + 1] == Step(states[i], events[i])))
  }

  // ------------------------------------------------------------------ the invariant

  /** The shape of a live record: the buffer matches the origin and belongs to this record alone. */
  ghost predicate RecordFits(s: State, n: nat)
    requires n < |s.records| && s.records[n].Live?
  {
    var Live(notify, buffer, phase) := s.records[n];
    && IsHandle(s.heap, notify.self)
    && (notify.origin == WRITE ==> notify.extra.Some? && buffer == StringOf(notify.extra.value))
    && (notify.origin != WRITE ==> notify.extra.None? && !buffer.StringOf?)
    && (buffer.Malloced? ==> notify.origin == READ && buffer.block < |s.blocks| && s.blocks[buffer.block] == InUse(n))
    && (phase.Finishing? ==>
          && phase.frame < |s.frames|
          && s.frames[phase.frame].Active?
          && s.frames[phase.frame].record == n
          && s.frames[phase.frame].last)
  }

  ghost predicate FrameFits(s: State, f: nat)
    requires f < |s.frames| && s.frames[f].Active?
  {
    s.frames[f].last ==>
      && s.frames[f].record < |s.records|
      && s.records[s.frames[f].record].Live?
      && s.records[s.frames[f].record].phase == Finishing(f)
  }

  ghost predicate BlockFits(s: State, b: nat)
    requires b < |s.blocks| && s.blocks[b].InUse?
  {
    && s.blocks[b].record < |s.records|
    && s.records[s.blocks[b].record].Live?
    && s.records[s.blocks[b].record].buffer == Malloced(b)
  }

  ghost predicate BuiltinsStay(h: Heap<Body>) {
    |h| >= BUILTINS && forall o :: 0 <= o < BUILTINS ==> h[o].outside >= 1
  }

  /** The tables fit together. */
  ghost predicate Fits(s: State) {
    && (forall n :: 0 <= n < |s.records| && s.records[n].Live? ==> RecordFits(s, n))
    && (forall f :: 0 <= f < |s.frames| && s.frames[f].Active? ==> FrameFits(s, f))
    && (forall b :: 0 <= b < |s.blocks| && s.blocks[b].InUse? ==> BlockFits(s, b))
  }

  ghost predicate Inv(s: State) {
    && Conserved(s.heap, Held(s))
    && BuiltinsStay(s.heap)
    && Fits(s)
  }
}
