/** The life of an asynchronous transfer and of the progress wrappers it hands to Python
    (gnomevfs/vfs-async-handle.c, gnomevfs/vfsmodule.c, gnomevfs/vfs-xfer-progress-info.c).

    One record (`PyGVFSAsyncXferData`) is shared by the update callback and the sync callback of a
    transfer.  Every progress callback wraps a C structure it does not own in a Python object that
    the program may keep.  GnomeVFS is an environment: it calls the callbacks of a transfer at any
    time, nested in any way, until it delivers the update with phase COMPLETED, which is the last.
 */
module XferMachine {
  import opened Options
  import opened PyHeap

  datatype Phase = COMPLETED | Running(n: nat)

  /** A Python object; `Progress` is an XferProgressInfo and `info` the structure it points to. */
  datatype Body = Progress(info: Option<nat>) | Plain

  /** `completing` is the activation that was given the phase COMPLETED. */
  datatype Transfer = Transfer(
    updateFunc: Ref, updateData: Option<Ref>, syncFunc: Option<Ref>, syncData: Option<Ref>,
    live: bool, completing: Option<nat>)

  /** Who a progress callback is for: the update or the sync half of a transfer's record, or the
      notify structure that `xfer_uri` keeps on its stack. */
  datatype Source = UpdateOf(transfer: nat) | SyncOf(transfer: nat) | OnStack(func: Ref, data: Option<Ref>)

  /** A progress callback that has called the Python function `callee` with `args`. */
  datatype Frame = Active(source: Source, info: nat, callee: Option<Ref>, wrapper: Ref, args: seq<Ref>) | Done

  /** `infos` are the phases stored in the GnomeVFSXferProgressInfo structures. */
  datatype State = State(heap: Heap<Body>, transfers: seq<Transfer>, infos: seq<Phase>, frames: seq<Frame>)

  datatype Event =
    | PyAlloc
    | PyTake(o: Ref)
    | PyDrop(o: Ref)
    | Start(updateFunc: Ref, updateData: Option<Ref>, syncFunc: Option<Ref>, syncData: Option<Ref>)
    | Enter(source: Source, info: nat, phase: Phase)
    | GetAttr(wrapper: Ref)
    | SetPhase(wrapper: Ref, phase: Phase)
    | Exit(frame: nat)

  // ------------------------------------------------------------------ references held by the C code

  function TransferBag(t: Transfer): multiset<Ref> {
    if t.live then multiset{t.updateFunc} + Opt(t.updateData) + Opt(t.syncFunc) + Opt(t.syncData) else multiset{}
  }

  function FrameBag(f: Frame): multiset<Ref> {
    if f.Active? then multiset{f.wrapper} + multiset(f.args) else multiset{}
  }

  function Held(s: State): multiset<Ref> {
    Total(TransferBag, s.transfers) + Total(FrameBag, s.frames)
  }

  // ------------------------------------------------------------------ steps

  predicate AliveOpt(h: Heap<Body>, o: Option<Ref>) {
    o.Some? ==> Alive(h, o.value)
  }

  function TransferOf(source: Source): Option<nat> {
    match source
    case UpdateOf(t) => Some(t)
    case SyncOf(t) => Some(t)
    case OnStack(_, _) => None
  }

  predicate IsWrapper(h: Heap<Body>, o: Ref) {
    o < |h| && h[o].body.Progress?
  }

  predicate Enabled(s: State, e: Event) {
    match e
    case PyAlloc => true
    case PyTake(o) => Alive(s.heap, o)
    case PyDrop(o) => o < |s.heap| && s.heap[o].outside > 0
    case Start(uf, ud, sf, sd) => Alive(s.heap, uf) && AliveOpt(s.heap, ud) && AliveOpt(s.heap, sf)
        && AliveOpt(s.heap, sd)
    case Enter(source, info, _) => CanEnter(s, source, info)
    case GetAttr(w) => Alive(s.heap, w) && IsWrapper(s.heap, w)
    case SetPhase(w, _) => Alive(s.heap, w) && IsWrapper(s.heap, w)
    case Exit(f) => f < |s.frames| && s.frames[f].Active?
  }

  /** GnomeVFS calls a callback of a transfer until the COMPLETED update has been delivered. */
  predicate CanEnter(s: State, source: Source, info: nat) {
    && info <= |s.infos|
    && match source
       case OnStack(func, data) => Alive(s.heap, func) && AliveOpt(s.heap, data)
       case UpdateOf(t) => t < |s.transfers| && s.transfers[t].completing.None?
       case SyncOf(t) => t < |s.transfers| && s.transfers[t].completing.None? && s.transfers[t].syncFunc.Some?
  }

  /** True when `getattr` and `setattr` raise RuntimeError. */
  predicate RaisesRuntimeError(s: State, wrapper: Ref)
    requires IsWrapper(s.heap, wrapper)
  {
    s.heap[wrapper].body.info.None?
  }

  function StoreInfo(infos: seq<Phase>, info: nat, phase: Phase): seq<Phase>
    requires info <= |infos|
  {
    if info == |infos| then infos + [phase] else infos[info := phase]
  }

  /** The function and the data a callback reads from its notify structure. */
  function DataOf(s: State, source: Source): Option<Ref>
    requires TransferOf(source).Some? ==> TransferOf(source).value < |s.transfers|
  {
    match source
    case UpdateOf(t) => s.transfers[t].updateData
    case SyncOf(t) => s.transfers[t].syncData
    case OnStack(_, data) => data
  }

  /** The function; a sync callback is only asked for if there is one. */
  function FuncOf(s: State, source: Source): Option<Ref>
    requires TransferOf(source).Some? ==> TransferOf(source).value < |s.transfers|
  {
    match source
    case UpdateOf(t) => Some(s.transfers[t].updateFunc)
    case SyncOf(t) => s.transfers[t].syncFunc
    case OnStack(func, _) => Some(func)
  }

  /** The new objects of a callback: for an update a handle, whose only reference the argument tuple
      takes over, and for both kinds the wrapper, whose first reference the callback keeps. */
  function WithWrapper(h: Heap<Body>, source: Source, info: nat): Heap<Body> {
    var h1 := if source.UpdateOf? then Alloc(h, Plain, false) else h;
    Alloc(h1, Progress(Some(info)), false)
  }

  function WrapperRef(h: Heap<Body>, source: Source): Ref {
    if source.UpdateOf? then |h| + 1 else |h|
  }

  function HandleArg(h: Heap<Body>, source: Source): seq<Ref> {
    if source.UpdateOf? then [|h|] else []
  }

  function DataArg(data: Option<Ref>): seq<Ref> {
    if data.Some? then [data.value] else []
  }

  /** `transfers` when the COMPLETED update of a transfer reaches activation `f`. */
  function Completing(transfers: seq<Transfer>, source: Source, phase: Phase, f: nat): seq<Transfer>
    requires source.UpdateOf? ==> source.transfer < |transfers|
  {
    if source.UpdateOf? && phase == COMPLETED
    then transfers[source.transfer := transfers[source.transfer].(completing := Some(f))]
    else transfers
  }

  function EnterStep(s: State, source: Source, info: nat, phase: Phase): State
    requires TransferOf(source).Some? ==> TransferOf(source).value < |s.transfers|
    requires info <= |s.infos|
  {
    var wrapper := WrapperRef(s.heap, source);
    var taken := [wrapper] + DataArg(DataOf(s, source));
    State(Retain(WithWrapper(s.heap, source, info), multiset(taken)),
          Completing(s.transfers, source, phase, |s.frames|),
          StoreInfo(s.infos, info, phase),
          s.frames + [Active(source, info, FuncOf(s, source), wrapper, HandleArg(s.heap, source) + taken)])
  }

  /** The update callback looks at the phase once more when the Python function has returned. */
  predicate Frees(s: State, f: nat)
    requires f < |s.frames| && s.frames[f].Active?
  {
    s.frames[f].source.UpdateOf? && s.frames[f].info < |s.infos| && s.infos[s.frames[f].info] == COMPLETED
  }

  function Unlinked(h: Heap<Body>, wrapper: Ref): Heap<Body>
    requires wrapper < |h|
  {
    SetBody(h, wrapper, Progress(None))
  }

  function ExitGives(s: State, f: nat): multiset<Ref>
    requires f < |s.frames| && s.frames[f].Active?
    requires Frees(s, f) ==> s.frames[f].source.transfer < |s.transfers|
  {
    FrameBag(s.frames[f])
    + if Frees(s, f) then TransferBag(s.transfers[s.frames[f].source.transfer]) else multiset{}
  }

  ghost predicate ExitIsSafe(s: State, f: nat)
    requires f < |s.frames| && s.frames[f].Active?
  {
    && s.frames[f].wrapper < |s.heap|
    && s.frames[f].info < |s.infos|
    && (Frees(s, f) ==> s.frames[f].source.transfer < |s.transfers| && s.transfers[s.frames[f].source.transfer].live)
    && Covers(s.heap, ExitGives(s, f))
  }

  function ExitStep(s: State, f: nat): State
    requires f < |s.frames| && s.frames[f].Active? && ExitIsSafe(s, f)
  {
    State(Release(Unlinked(s.heap, s.frames[f].wrapper), ExitGives(s, f)),
          if Frees(s, f) then Freed(s.transfers, s.frames[f].source.transfer) else s.transfers,
          s.infos,
          s.frames[f := Done])
  }

  function Freed(transfers: seq<Transfer>, t: nat): seq<Transfer>
    requires t < |transfers|
  {
    transfers[t := transfers[t].(live := false)]
  }

  function SetPhaseStep(s: State, wrapper: Ref, phase: Phase): State
    requires IsWrapper(s.heap, wrapper)
    requires s.heap[wrapper].body.info.Some? ==> s.heap[wrapper].body.info.value < |s.infos|
  {
    if RaisesRuntimeError(s, wrapper) then s
    else s.(infos := s.infos[s.heap[wrapper].body.info.value := phase])
  }

  function StartStep(s: State, t: Transfer): State
    requires t.live
  {
    s.(heap := Retain(s.heap, TransferBag(t)), transfers := s.transfers + [t])
  }

  /** What a step needs in order to touch live memory only. */
  ghost predicate Safe(s: State, e: Event)
    requires Enabled(s, e)
  {
    match e
    case PyDrop(o) => s.heap[o].rc > 0
    case Enter(source, _, _) =>
      TransferOf(source).Some? ==>
        s.transfers[TransferOf(source).value].live && AllAlive(s.heap,
            TransferBag(s.transfers[TransferOf(source).value]))
    case GetAttr(w) => InfoIsThere(s, w)
    case SetPhase(w, _) => InfoIsThere(s, w)
    case Exit(f) => ExitIsSafe(s, f)
    case _ => true
  }

  /** A wrapper that still points somewhere points to the structure of a callback in progress. */
  ghost predicate InfoIsThere(s: State, w: Ref)
    requires IsWrapper(s.heap, w)
  {
    s.heap[w].body.info.Some? ==>
      && s.heap[w].body.info.value < |s.infos|
      && exists f :: OwnsWrapper(s, f, w)
  }

  ghost predicate OwnsWrapper(s: State, f: nat, w: Ref)
    requires IsWrapper(s.heap, w)
  {
    f < |s.frames| && s.frames[f].Active? && s.frames[f].wrapper == w && s.heap[w].body.info == Some(s.frames[f].info)
  }

  ghost function Step(s: State, e: Event): State
    requires Enabled(s, e) && Safe(s, e)
  {
    match e
    case PyAlloc => s.(heap := Alloc(s.heap, Plain, true))
    case PyTake(o) => s.(heap := Adopt(s.heap, multiset{o}))
    case PyDrop(o) => s.(heap := s.heap[o := s.heap[o].(rc := s.heap[o].rc - 1, outside := s.heap[o].outside - 1)])
    case Start(uf, ud, sf, sd) => StartStep(s, Transfer(uf, ud, sf, sd, true, None))
    case Enter(source, info, phase) => EnterStep(s, source, info, phase)
    case GetAttr(_) => s
    case SetPhase(w, phase) => SetPhaseStep(s, w, phase)
    case Exit(f) => ExitStep(s, f)
  }

  ghost predicate Initial(s: State) {
    && (forall o :: 0 <= o < |s.heap| ==> s.heap[o].rc == s.heap[o].outside && s.heap[o].body == Plain)
    && s.transfers == [] && s.infos == [] && s.frames == []
  }

  ghost predicate Run(states: seq<State>, events: seq<Event>) {
    && |states| == |events| + 1
    && Initial(states[0])
    && (forall i :: 0 <= i < |events| ==>
          Enabled(states[i], events[i])
          && (Safe(states[i], events[i]) ==> states[i + 1] == Step(states[i], events[i])))
  }

  // ------------------------------------------------------------------ the invariant

  /** An active callback owns its wrapper, which points to the callback's own structure. */
  ghost predicate FrameFits(s: State, f: nat)
    requires f < |s.frames| && s.frames[f].Active?
  {
    && s.frames[f].wrapper < |s.heap|
    && s.heap[s.frames[f].wrapper].body == Progress(Some(s.frames[f].info))
    && s.frames[f].info < |s.infos|
    && (TransferOf(s.frames[f].source).Some? ==> TransferOf(s.frames[f].source).value < |s.transfers|)
  }

  /** No two active callbacks share a wrapper, and no wrapper points anywhere without one. */
  ghost predicate Borrowed(s: State) {
    && (forall f :: 0 <= f < |s.frames| && s.frames[f].Active? ==> FrameFits(s, f))
    && (forall f, g :: 0 <= f < g < |s.frames| && s.frames[f].Active? && s.frames[g].Active? ==>
          s.frames[f].wrapper != s.frames[g].wrapper)
    && (forall w :: 0 <= w < |s.heap| && IsWrapper(s.heap, w) ==> InfoIsThere(s, w))
  }

  /** The callback that was told COMPLETED is an update of that transfer. */
  ghost predicate TransferFits(s: State, t: nat)
    requires t < |s.transfers|
  {
    var c := s.transfers[t].completing;
    c.Some? ==> c.value < |s.frames| && (s.frames[c.value].Active? ==> s.frames[c.value].source == UpdateOf(t))
  }

  /** Counts are in balance and wrappers are borrowed.  Nothing is said about who is alive. */
  ghost predicate Sound(s: State) {
    && Conserved(s.heap, Held(s))
    && Borrowed(s)
    && (forall t :: 0 <= t < |s.transfers| ==> TransferFits(s, t))
  }

  /** A record lives until the callback that was told COMPLETED has returned, and not longer. */
  ghost predicate LivesRight(s: State, t: nat)
    requires t < |s.transfers|
  {
    var c := s.transfers[t].completing;
    s.transfers[t].live <==> c.None? || (c.value < |s.frames| && s.frames[c.value].Active?)
  }

  ghost predicate RecordsRight(s: State) {
    forall t :: 0 <= t < |s.transfers| ==> LivesRight(s, t)
  }

  ghost predicate Inv(s: State) {
    Sound(s) && RecordsRight(s)
  }

  /** The phase a returning update callback finds is COMPLETED just when it was told COMPLETED. */
  predicate Faithful(s: State, f: nat)
    requires f < |s.frames| && s.frames[f].Active?
  {
    s.frames[f].source.UpdateOf? && s.frames[f].source.transfer < |s.transfers| ==>
      (Frees(s, f) <==> s.transfers[s.frames[f].source.transfer].completing == Some(f))
  }

  // ------------------------------------------------------------------ what is stored in a structure

  /** An assignment through `wrapper` reaches the structure `info`. */
  predicate WritesTo(s: State, wrapper: Ref, info: nat) {
    IsWrapper(s.heap, wrapper) && s.heap[wrapper].body.info == Some(info)
  }

  /** The phase event `e` stores in `info`, if it does. */
  function Stored(s: State, e: Event, info: nat): Option<Phase> {
    if e.Enter? && e.info == info then Some(e.phase)
    else if e.SetPhase? && WritesTo(s, e.wrapper, info) then Some(e.phase)
    else None
  }

  /** The last phase stored in the structure of the callback that event `i` begins, before event `k`:
      by `i` itself, by a later callback with the same structure, or by an assignment. */
  function LastStored(states: seq<State>, events: seq<Event>, i: nat, k: nat): Phase
    requires i < k <= |events| < |states| && events[i].Enter?
    decreases k
  {
    var e := Stored(states[k - 1], events[k - 1], events[i].info);
    if e.Some? then e.value else if k - 1 > i then LastStored(states, events, i, k - 1) else events[i].phase
  }

  /** The callback that event `i` begins finds, when event `k` ends it, COMPLETED or not as it was told. */
  predicate JudgedRight(states: seq<State>, events: seq<Event>, i: nat, k: nat)
    requires i < k <= |events| < |states| && events[i].Enter?
  {
    LastStored(states, events, i, k) == COMPLETED <==> events[i].phase == COMPLETED
  }

  /** No update callback that returns in the run is misled about its phase. */
  ghost predicate WellJudged(states: seq<State>, events: seq<Event>)
    requires |events| < |states|
  {
    forall i: nat, k: nat | i < k < |events| && IsUpdateFrom(states, events, i, k) :: JudgedRight(states, events, i, k)
  }

  /** Event `i` begins an update callback and event `k` ends it. */
  predicate IsUpdateFrom(states: seq<State>, events: seq<Event>, i: nat, k: nat)
    requires i < k < |events| < |states|
  {
    events[i].Enter? && events[i].source.UpdateOf? && events[k] == Exit(|states[i].frames|)
  }

  ghost predicate SafeBefore(states: seq<State>, events: seq<Event>, n: nat)
    requires n <= |events| < |states|
  {
    forall k :: 0 <= k < n ==> Enabled(states[k], events[k]) && Safe(states[k], events[k])
  }

  /** Every step touches live memory only, and at every moment each record is there exactly until its
      COMPLETED update has returned. */
  ghost predicate GoesRight(states: seq<State>, events: seq<Event>)
    requires |events| < |states|
  {
    SafeBefore(states, events, |events|) && forall k :: 0 <= k <= |events| ==> RecordsRight(states[k])
  }
}
