/** `pygvfs_async_xfer`, the two progress callbacks and the attribute access of XferProgressInfo, one
    INCREF, DECREF and assignment at a time, each proved to take its step of XferMachine. */
module XferModule {
  import opened Options
  import opened PyHeap
  import opened XferMachine
  import opened XferSafety

  datatype Access = Allowed | RuntimeError

  lemma BagOrder(sf: multiset<Ref>, uf: multiset<Ref>, sd: multiset<Ref>, ud: multiset<Ref>)
    ensures sf + uf + sd + ud == uf + ud + sf + sd
  {
  }

  /** XINCREF of the four objects a record names. */
  method RetainRecord(h: Heap<Body>, t: Transfer) returns (r: Heap<Body>)
    requires t.live && Alive(h, t.updateFunc) && AliveOpt(h, t.updateData) && AliveOpt(h, t.syncFunc)
            && AliveOpt(h, t.syncData)
    ensures r == Retain(h, TransferBag(t))
  {
    hide Retain;
    r := XIncRef(h, t.syncFunc);
    r := IncRef(r, t.updateFunc);
    r := XIncRef(r, t.syncData);
    r := XIncRef(r, t.updateData);
    RetainTwice(h, Opt(t.syncFunc), multiset{t.updateFunc});
    RetainTwice(h, Opt(t.syncFunc) + multiset{t.updateFunc}, Opt(t.syncData));
    RetainTwice(h, Opt(t.syncFunc) + multiset{t.updateFunc} + Opt(t.syncData), Opt(t.updateData));
    BagOrder(Opt(t.syncFunc), multiset{t.updateFunc}, Opt(t.syncData), Opt(t.updateData));
  }

  /** XDECREF of the same four. */
  method ReleaseRecord(h: Heap<Body>, t: Transfer) returns (r: Heap<Body>)
    requires t.live && Covers(h, TransferBag(t))
    ensures r == Release(h, TransferBag(t))
  {
    hide Release, Covers;
    BagOrder(Opt(t.syncFunc), multiset{t.updateFunc}, Opt(t.syncData), Opt(t.updateData));
    CoversParts(h, Opt(t.syncFunc), multiset{t.updateFunc}, Opt(t.syncData), Opt(t.updateData), TransferBag(t));
    r := XDecRef(h, t.syncFunc);
    r := DecRef(r, t.updateFunc);
    r := XDecRef(r, t.syncData);
    r := XDecRef(r, t.updateData);
  }

  /** The new objects of a progress callback and the argument tuple. */
  method LendWrapper(h: Heap<Body>, source: Source, info: nat, func: Option<Ref>, data: Option<Ref>)
    returns (r: Heap<Body>, frame: Frame)
    requires AliveOpt(h, data)
    ensures var w := WrapperRef(h, source);
            && r == Retain(WithWrapper(h, source, info), multiset([w] + DataArg(data)))
            && frame == Active(source, info, func, w, HandleArg(h, source) + ([w] + DataArg(data)))
  {
    hide Retain;
    r := h;
    var handle := [];
    if source.UpdateOf? {
      handle := [|r|];
      r := Alloc(r, Plain, false);
    }
    var wrapper := |r|;
    r := Alloc(r, Progress(Some(info)), false);
    assert r == WithWrapper(h, source, info);
    var taken := [wrapper] + DataArg(data);
    r := RetainAll(r, taken);
    frame := Active(source, info, func, wrapper, handle + taken);
  }

  lemma UnlinkedLater(h: Heap<Body>, wrapper: Ref, bag: multiset<Ref>)
    requires wrapper < |h| && Covers(Unlinked(h, wrapper), bag)
    ensures Covers(h, bag) && Release(Unlinked(h, wrapper), bag) == Unlinked(Release(h, bag), wrapper)
  {
  }

  /** The end of the call: the tuple goes, the wrapper is unlinked and released. */
  method TakeBack(h: Heap<Body>, wrapper: Ref, args: seq<Ref>, ghost rest: multiset<Ref>) returns (r: Heap<Body>)
    requires wrapper < |h| && CoversInTurn(Unlinked(h, wrapper), multiset(args), multiset{wrapper}, rest, multiset{})
    ensures r == Release(Release(Unlinked(h, wrapper), multiset(args)), multiset{wrapper}) && Covers(r, rest)
  {
    hide Release, Covers;
    UnlinkedLater(h, wrapper, multiset(args));
    r := ReleaseAll(h, args);
    r := Unlinked(r, wrapper);
    r := DecRef(r, wrapper);
  }

  predicate Completes(source: Source, phase: Phase) {
    source.UpdateOf? && phase == COMPLETED
  }

  /** The test of `info->phase` and the cleanup it guards. */
  method FreeIfCompleted(h: Heap<Body>, transfers: seq<Transfer>, source: Source, phase: Phase)
    returns (r: Heap<Body>, left: seq<Transfer>)
    requires Completes(source, phase) ==>
               && source.transfer < |transfers| && transfers[source.transfer].live
               && Covers(h, TransferBag(transfers[source.transfer]))
    ensures Completes(source, phase) ==>
              && r == Release(h, TransferBag(transfers[source.transfer]))
              && left == Freed(transfers, source.transfer)
    ensures !Completes(source, phase) ==> r == h && left == transfers
  {
    r, left := h, transfers;
    if source.UpdateOf? && phase == COMPLETED {
      r := ReleaseRecord(h, transfers[source.transfer]);
      left := transfers[source.transfer := transfers[source.transfer].(live := false)];
    }
  }

  /** What a callback does with the heap and the transfers when the Python function has returned. */
  method EndCallback(s: State, f: nat) returns (heap: Heap<Body>, transfers: seq<Transfer>)
    requires EndReady(s, f)
    ensures heap == AfterExit(s, f) && transfers == TransfersAfterExit(s, f)
  {
    hide Release, Covers, CoversInTurn, TransferBag, Unlinked, Freed;
    var Active(source, info, _, wrapper, args) := s.frames[f];
    heap := TakeBack(s.heap, wrapper, args, RecordBag(s, f));
    heap, transfers := FreeIfCompleted(heap, s.transfers, source, s.infos[info]);
  }

  class Module {
    var heap: Heap<Body>
    var transfers: seq<Transfer>
    var infos: seq<Phase>
    var frames: seq<Frame>

    ghost function St(): State
      reads this
    {
      State(heap, transfers, infos, frames)
    }

    ghost predicate Valid()
      reads this
    {
      Sound(St())
    }

    /** `pygvfs_async_xfer` once its arguments are accepted: XINCREF of the four objects. */
    method AsyncXfer(updateFunc: Ref, updateData: Option<Ref>, syncFunc: Option<Ref>, syncData: Option<Ref>)
      returns (t: nat)
      requires Valid()
      requires Alive(heap, updateFunc) && AliveOpt(heap, updateData) && AliveOpt(heap, syncFunc)
              && AliveOpt(heap, syncData)
      modifies this
      ensures Valid() && t == |old(transfers)|
      ensures St() == StartStep(old(St()), Transfer(updateFunc, updateData, syncFunc, syncData, true, None))
    {
      hide Sound, Retain, TransferBag;
      var data := Transfer(updateFunc, updateData, syncFunc, syncData, true, None);
      StartFacts(St(), data);
      heap := RetainRecord(heap, data);
      t := |transfers|;
      transfers := transfers + [data];
    }

    /** `pygvfs_async_xfer_progress_callback` (an update) or `pygvfs_xfer_progress_callback` (a sync
        call) up to the call of the Python function. */
    method ProgressBegin(source: Source, info: nat, phase: Phase) returns (f: nat)
      requires Valid() && CanEnter(St(), source, info)
      requires TransferOf(source).Some? ==> transfers[TransferOf(source).value].live
      modifies this
      ensures Valid() && f == |old(frames)|
      ensures St() == EnterStep(old(St()), source, info, phase)
    {
      hide Sound, Retain, CanEnter, StoreInfo, Completing, TransferOf, WithWrapper, WrapperRef, HandleArg, DataArg;
      BeginFacts(St(), source, info, phase);
      var frame, func, data;
      match source {
        case UpdateOf(t) =>
          func, data := Some(transfers[t].updateFunc), transfers[t].updateData;
        case SyncOf(t) =>
          func, data := transfers[t].syncFunc, transfers[t].syncData;
        case OnStack(f, d) =>
          func, data := Some(f), d;
      }
      heap, frame := LendWrapper(heap, source, info, func, data);
      infos := StoreInfo(infos, info, phase);
      f := |frames|;
      frames := frames + [frame];
      transfers := Completing(transfers, source, phase, f);
    }

    /** The same callbacks from the return of the Python function on: unlink the wrapper, release it,
        and after an update look at the phase and free the record if it is COMPLETED. */
    method ProgressEnd(f: nat)
      requires Valid() && f < |frames| && frames[f].Active? && ExitIsSafe(St(), f)
      modifies this
      ensures Valid() && St() == ExitStep(old(St()), f)
    {
      hide Sound, ExitIsSafe, ExitStep, EndReady, AfterExit, TransfersAfterExit;
      EndFacts(St(), f);
      heap, transfers := EndCallback(State(heap, transfers, infos, frames), f);
      frames := frames[f := Done];
    }

    /** `getattr` on a wrapper: the guard of every attribute, and the phase it guards. */
    method GetPhase(wrapper: Ref) returns (r: Option<Phase>)
      requires Valid() && Alive(heap, wrapper) && IsWrapper(heap, wrapper)
      ensures r.None? <==> RaisesRuntimeError(St(), wrapper)
      ensures r.None? <==> !exists f :: 0 <= f < |frames| && frames[f].Active? && frames[f].wrapper == wrapper
      ensures r.Some? ==> heap[wrapper].body.info.value < |infos| && r.value == infos[heap[wrapper].body.info.value]
    {
      StaleWrapperRaises(St(), wrapper);
      SetPhaseKeeps(St(), wrapper, COMPLETED);
      if heap[wrapper].body.info.None? {
        return None;
      }
      return Some(infos[heap[wrapper].body.info.value]);
    }

    /** `setattr` of the phase.  It returns -1 in any case, so that Python takes even an assignment that
        was made for a failure. */
    method SetPhaseAttr(wrapper: Ref, phase: Phase) returns (status: int, r: Access)
      requires Valid() && Alive(heap, wrapper) && IsWrapper(heap, wrapper)
      modifies this
      ensures Valid() && InfoIsThere(old(St()), wrapper) && St() == SetPhaseStep(old(St()), wrapper, phase)
      ensures status == -1 && r == if RaisesRuntimeError(old(St()), wrapper) then RuntimeError else Allowed
    {
      hide Sound;
      SetPhaseKeeps(St(), wrapper, phase);
      if heap[wrapper].body.info.None? {
        return -1, RuntimeError;
      }
      infos := infos[heap[wrapper].body.info.value := phase];
      return -1, Allowed;
    }
  }

  function RecordBag(s: State, f: nat): multiset<Ref>
    requires f < |s.frames| && s.frames[f].Active?
    requires Frees(s, f) ==> s.frames[f].source.transfer < |s.transfers|
  {
    if Frees(s, f) then TransferBag(s.transfers[s.frames[f].source.transfer]) else multiset{}
  }

  lemma StartFacts(s: State, t: Transfer)
    requires Sound(s) && t.live && t.completing.None?
    requires Alive(s.heap, t.updateFunc) && AliveOpt(s.heap, t.updateData)
    requires AliveOpt(s.heap, t.syncFunc) && AliveOpt(s.heap, t.syncData)
    ensures Sound(StartStep(s, t))
  {
    hide Sound;
    StartKeeps(s, t);
  }

  /** The objects a callback's notify structure names are alive. */
  lemma BeginFacts(s: State, source: Source, info: nat, phase: Phase)
    requires Sound(s) && CanEnter(s, source, info)
    requires TransferOf(source).Some? ==> s.transfers[TransferOf(source).value].live
    ensures TransferOf(source).Some? ==> TransferOf(source).value < |s.transfers|
    ensures (source.UpdateOf? || source.SyncOf? ==> source.transfer < |s.transfers|) && info <= |s.infos|
    ensures Sound(EnterStep(s, source, info, phase)) && AliveOpt(s.heap, DataOf(s, source))
  {
    hide Sound;
    EnterIsSafe(s, source, info, phase);
    EnterKeeps(s, source, info, phase);
  }

  lemma ExitGivesIs(s: State, f: nat)
    requires f < |s.frames| && s.frames[f].Active?
    requires Frees(s, f) ==> s.frames[f].source.transfer < |s.transfers|
    ensures ExitGives(s, f)
         == multiset(s.frames[f].args) + multiset{s.frames[f].wrapper} + RecordBag(s, f) + multiset{}
  {
  }

  lemma UnlinkedCovers(h: Heap<Body>, wrapper: Ref, bag: multiset<Ref>)
    requires wrapper < |h| && Covers(h, bag)
    ensures Covers(Unlinked(h, wrapper), bag)
  {
  }

  /** The structures are in place for the tail of callback `f`. */
  ghost predicate EndReady(s: State, f: nat) {
    && f < |s.frames| && s.frames[f].Active? && s.frames[f].wrapper < |s.heap| && s.frames[f].info < |s.infos|
    && (Frees(s, f) ==> s.frames[f].source.transfer < |s.transfers| && s.transfers[s.frames[f].source.transfer].live)
    && CoversInTurn(Unlinked(s.heap, s.frames[f].wrapper), multiset(s.frames[f].args), multiset{s.frames[f].wrapper},
                    RecordBag(s, f), multiset{})
  }

  ghost function AfterExit(s: State, f: nat): Heap<Body>
    requires EndReady(s, f)
  {
    var h := Release(Release(Unlinked(s.heap, s.frames[f].wrapper), multiset(s.frames[f].args)),
        multiset{s.frames[f].wrapper});
    if Frees(s, f) then Release(h, RecordBag(s, f)) else h
  }

  function TransfersAfterExit(s: State, f: nat): seq<Transfer>
    requires f < |s.frames| && s.frames[f].Active?
    requires Frees(s, f) ==> s.frames[f].source.transfer < |s.transfers|
  {
    if Frees(s, f) then Freed(s.transfers, s.frames[f].source.transfer) else s.transfers
  }

  lemma EndFacts(s: State, f: nat)
    requires Sound(s) && f < |s.frames| && s.frames[f].Active? && ExitIsSafe(s, f)
    ensures Sound(ExitStep(s, f)) && EndReady(s, f)
    ensures ExitStep(s, f) == State(AfterExit(s, f), TransfersAfterExit(s, f), s.infos, s.frames[f := Done])
  {
    hide Sound, Covers, Release, TransferBag, ExitGives;
    ExitKeeps(s, f);
    var h := Unlinked(s.heap, s.frames[f].wrapper);
    var a, w, rest := multiset(s.frames[f].args), multiset{s.frames[f].wrapper}, RecordBag(s, f);
    UnlinkedCovers(s.heap, s.frames[f].wrapper, ExitGives(s, f));
    ExitGivesIs(s, f);
    CoversParts(h, a, w, rest, multiset{}, ExitGives(s, f));
    Nothing(Release(Release(Release(h, a), w), rest));
    Nothing(Release(Release(h, a), w));
  }
}
