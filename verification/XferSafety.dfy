/** What every step of the transfer machine keeps, and when it is safe. */
module XferSafety {
  import opened Options
  import opened PyHeap
  import opened XferMachine

  // ------------------------------------------------------------------ borrowed wrappers

  lemma EnterBorrows(s: State, source: Source, info: nat, phase: Phase)
    requires Borrowed(s) && Enabled(s, Enter(source, info, phase))
    ensures Borrowed(EnterStep(s, source, info, phase))
  {
    var t := EnterStep(s, source, info, phase);
    var n := |s.frames|;
    var w := WrapperRef(s.heap, source);
    forall f | 0 <= f < |t.frames| && t.frames[f].Active? ensures FrameFits(t, f) {
      if f < n { assert FrameFits(s, f); }
    }
    forall o | 0 <= o < |t.heap| && IsWrapper(t.heap, o) ensures InfoIsThere(t, o) {
      if o < |s.heap| {
        assert IsWrapper(s.heap, o) && InfoIsThere(s, o);
        if s.heap[o].body.info.Some? {
          var f :| OwnsWrapper(s, f, o);
          assert OwnsWrapper(t, f, o);
        }
      } else {
        assert o == w && OwnsWrapper(t, n, w);
      }
    }
    forall f, g | 0 <= f < g < |t.frames| && t.frames[f].Active? && t.frames[g].Active?
      ensures t.frames[f].wrapper != t.frames[g].wrapper
    {
      if g == n { assert FrameFits(s, f); }
    }
  }

  lemma ExitBorrows(s: State, f: nat)
    requires Borrowed(s) && Enabled(s, Exit(f)) && ExitIsSafe(s, f)
    ensures Borrowed(ExitStep(s, f))
  {
    hide Release, ExitGives, Covers;
    var t := ExitStep(s, f);
    var h := Unlinked(s.heap, s.frames[f].wrapper);
    assert forall o :: 0 <= o < |h| ==> t.heap[o].body == h[o].body;
    forall g | 0 <= g < |t.frames| && t.frames[g].Active? ensures FrameFits(t, g) {
      assert FrameFits(s, g);
    }
    forall o | 0 <= o < |t.heap| && IsWrapper(t.heap, o) ensures InfoIsThere(t, o) {
      if o != s.frames[f].wrapper && s.heap[o].body.info.Some? {
        assert InfoIsThere(s, o);
        var g :| OwnsWrapper(s, g, o);
        assert OwnsWrapper(t, g, o);
      }
    }
  }

  /** A heap in which no body changed serves the same wrappers. */
  lemma SameBodiesBorrow(s: State, t: State)
    requires Borrowed(s) && t.frames == s.frames && |t.infos| >= |s.infos| && |t.transfers| >= |s.transfers|
    requires |t.heap| >= |s.heap|
    requires forall o :: 0 <= o < |s.heap| ==> t.heap[o].body == s.heap[o].body
    requires forall o :: |s.heap| <= o < |t.heap| ==> t.heap[o].body == Plain
    ensures Borrowed(t)
  {
    forall g | 0 <= g < |t.frames| && t.frames[g].Active? ensures FrameFits(t, g) {
      assert FrameFits(s, g);
    }
    forall o | 0 <= o < |t.heap| && IsWrapper(t.heap, o) ensures InfoIsThere(t, o) {
      assert InfoIsThere(s, o);
      if s.heap[o].body.info.Some? {
        var g :| OwnsWrapper(s, g, o);
        assert OwnsWrapper(t, g, o);
      }
    }
  }

  /** Attribute access on a wrapper fails just when no active callback owns it. */
  lemma StaleWrapperRaises(s: State, w: Ref)
    requires Borrowed(s) && IsWrapper(s.heap, w)
    ensures RaisesRuntimeError(s, w)
       <==> !exists f :: 0 <= f < |s.frames| && s.frames[f].Active? && s.frames[f].wrapper == w
  {
    assert InfoIsThere(s, w);
    if !RaisesRuntimeError(s, w) {
      var f: nat :| OwnsWrapper(s, f, w);
      assert s.frames[f].wrapper == w;
    } else {
      forall f | 0 <= f < |s.frames| && s.frames[f].Active? ensures s.frames[f].wrapper != w {
        assert FrameFits(s, f);
      }
    }
  }

  // ------------------------------------------------------------------ counts and the shared record

  lemma LiveIsHeld(s: State, t: nat)
    requires Sound(s) && t < |s.transfers| && s.transfers[t].live
    ensures TransferBag(s.transfers[t]) <= Total(TransferBag, s.transfers) <= Held(s)
    ensures AllAlive(s.heap, TransferBag(s.transfers[t]))
  {
    TotalUpdate(TransferBag, s.transfers, t, s.transfers[t]);
    HeldIsAlive(s.heap, Held(s));
    var bag := TransferBag(s.transfers[t]);
    forall o | o in bag ensures Alive(s.heap, o) {
      assert bag[o] <= Held(s)[o];
    }
  }

  /** The references of the state after a callback has returned. */
  lemma ExitHeld(s: State, f: nat)
    requires f < |s.frames| && s.frames[f].Active?
    requires Frees(s, f) ==>
               s.frames[f].source.transfer < |s.transfers| && s.transfers[s.frames[f].source.transfer].live
    ensures ExitGives(s, f) <= Held(s)
    ensures Total(TransferBag, if Frees(s, f) then Freed(s.transfers, s.frames[f].source.transfer) else s.transfers)
          + Total(FrameBag, s.frames[f := Done])
         == Held(s) - ExitGives(s, f)
  {
    var transfers, frames := Total(TransferBag, s.transfers), Total(FrameBag, s.frames);
    TotalUpdate(FrameBag, s.frames, f, Done);
    if Frees(s, f) {
      var t := s.frames[f].source.transfer;
      TotalUpdate(TransferBag, s.transfers, t, s.transfers[t].(live := false));
      hide FrameBag, TransferBag, Frees;
      SplitDifference(transfers, frames, TransferBag(s.transfers[t]), FrameBag(s.frames[f]));
    } else {
      SplitDifference(transfers, frames, multiset{}, FrameBag(s.frames[f]));
      assert transfers - multiset{} == transfers;
    }
  }

  /** A callback can return unless it would free a record that is gone. */
  lemma ExitIsSafeIff(s: State, f: nat)
    requires Sound(s) && f < |s.frames| && s.frames[f].Active?
    ensures FrameFits(s, f)
    ensures ExitIsSafe(s, f) <==> (Frees(s, f) ==> s.transfers[s.frames[f].source.transfer].live)
  {
    assert FrameFits(s, f);
    if Frees(s, f) ==> s.transfers[s.frames[f].source.transfer].live {
      ExitHeld(s, f);
      ReleaseConserves(s.heap, Held(s), ExitGives(s, f));
    }
  }

  lemma ExitKeeps(s: State, f: nat)
    requires Sound(s) && Enabled(s, Exit(f)) && ExitIsSafe(s, f)
    ensures Sound(ExitStep(s, f))
  {
    hide Borrowed, Conserved, TransferBag, FrameBag;
    ExitBorrows(s, f);
    ExitIsSafeIff(s, f);
    ExitHeld(s, f);
    var h := Unlinked(s.heap, s.frames[f].wrapper);
    SetBodyConserves(s.heap, Held(s), s.frames[f].wrapper, Progress(None));
    ReleaseConserves(h, Held(s), ExitGives(s, f));
    ExitKeepsTransfers(s, f);
  }

  lemma ExitKeepsTransfers(s: State, f: nat)
    requires (forall t :: 0 <= t < |s.transfers| ==> TransferFits(s, t))
    requires Enabled(s, Exit(f)) && ExitIsSafe(s, f)
    ensures |ExitStep(s, f).transfers| == |s.transfers|
    ensures forall t :: 0 <= t < |s.transfers| ==> TransferFits(ExitStep(s, f), t)
  {
    hide Release, ExitGives, Covers, Unlinked;
    forall t | 0 <= t < |s.transfers| ensures TransferFits(ExitStep(s, f), t) {
      assert TransferFits(s, t);
    }
  }

  lemma NewObjectsConserve(h: Heap<Body>, held: multiset<Ref>, source: Source, info: nat)
    requires Conserved(h, held)
    ensures Conserved(WithWrapper(h, source, info), held + multiset(HandleArg(h, source)) + multiset{WrapperRef(h,
            source)})
    ensures forall o :: Alive(h, o) || o == WrapperRef(h, source) ==> Alive(WithWrapper(h, source, info), o)
  {
    if source.UpdateOf? {
      AllocConserves(h, held, Plain, false);
      AllocConserves(Alloc(h, Plain, false), held + multiset{|h|}, Progress(Some(info)), false);
    } else {
      AllocConserves(h, held, Progress(Some(info)), false);
      assert held + multiset{} == held;
    }
  }

  lemma EnterHeap(h: Heap<Body>, held: multiset<Ref>, source: Source, info: nat, func: Option<Ref>, data: Option<Ref>)
    requires Conserved(h, held) && AliveOpt(h, data)
    ensures var w := WrapperRef(h, source);
            var taken := [w] + DataArg(data);
            Conserved(Retain(WithWrapper(h, source, info), multiset(taken)),
                      held + FrameBag(Active(source, info, func, w, HandleArg(h, source) + taken)))
  {
    hide WithWrapper;
    var w := WrapperRef(h, source);
    var taken := [w] + DataArg(data);
    NewObjectsConserve(h, held, source, info);
    var h' := WithWrapper(h, source, info);
    assert AllAlive(h', multiset(taken));
    RetainConserves(h', held + multiset(HandleArg(h, source)) + multiset{w}, multiset(taken));
    var handle := HandleArg(h, source);
    assert multiset(handle + taken) == multiset(handle) + multiset(taken);
    assert held + multiset(handle) + multiset{w} + multiset(taken)
        == held + (multiset{w} + (multiset(handle) + multiset(taken)));
  }

  lemma CompletingTotal(transfers: seq<Transfer>, source: Source, phase: Phase, f: nat)
    requires source.UpdateOf? ==> source.transfer < |transfers|
    ensures Total(TransferBag, Completing(transfers, source, phase, f)) == Total(TransferBag, transfers)
  {
    if source.UpdateOf? && phase == COMPLETED {
      var t := source.transfer;
      TotalUpdate(TransferBag, transfers, t, transfers[t].(completing := Some(f)));
    }
  }

  /** A callback can be called unless the record it reads is gone. */
  lemma EnterIsSafe(s: State, source: Source, info: nat, phase: Phase)
    requires Sound(s) && Enabled(s, Enter(source, info, phase))
    ensures Safe(s, Enter(source, info, phase))
       <==> (TransferOf(source).Some? ==> s.transfers[TransferOf(source).value].live)
    ensures Safe(s, Enter(source, info, phase)) ==> AliveOpt(s.heap, DataOf(s, source))
  {
    if TransferOf(source).Some? && s.transfers[TransferOf(source).value].live {
      var t := TransferOf(source).value;
      LiveIsHeld(s, t);
      var bag := TransferBag(s.transfers[t]);
      assert DataOf(s, source).Some? ==> DataOf(s, source).value in bag;
    }
  }

  lemma EnterKeepsTransfers(s: State, source: Source, info: nat, phase: Phase)
    requires (forall t :: 0 <= t < |s.transfers| ==> TransferFits(s, t))
    requires Enabled(s, Enter(source, info, phase))
    ensures |EnterStep(s, source, info, phase).transfers| == |s.transfers|
    ensures forall t :: 0 <= t < |s.transfers| ==> TransferFits(EnterStep(s, source, info, phase), t)
  {
    hide WithWrapper, Retain;
    forall t | 0 <= t < |s.transfers| ensures TransferFits(EnterStep(s, source, info, phase), t) {
      assert TransferFits(s, t);
    }
  }

  lemma EnterHeld(s: State, source: Source, info: nat, phase: Phase)
    requires CanEnter(s, source, info)
    ensures var t := EnterStep(s, source, info, phase);
            Held(t) == Held(s) + FrameBag(t.frames[|s.frames|])
  {
    hide FrameBag, TransferBag, Completing, WithWrapper, Retain, StoreInfo, WrapperRef, HandleArg, DataArg, DataOf;
    var t := EnterStep(s, source, info, phase);
    CompletingTotal(s.transfers, source, phase, |s.frames|);
    FrameAppended(s.frames, t.frames[|s.frames|]);
  }

  lemma FrameAppended(frames: seq<Frame>, f: Frame)
    ensures Total(FrameBag, frames + [f]) == Total(FrameBag, frames) + FrameBag(f)
  {
    TotalAppend(FrameBag, frames, f);
  }

  lemma EnterKeeps(s: State, source: Source, info: nat, phase: Phase)
    requires Sound(s) && CanEnter(s, source, info) && Safe(s, Enter(source, info, phase))
    ensures Sound(EnterStep(s, source, info, phase))
  {
    hide Borrowed, TransferFits, FrameBag, TransferBag, Completing, Held, Conserved;
    EnterBorrows(s, source, info, phase);
    EnterKeepsTransfers(s, source, info, phase);
    EnterIsSafe(s, source, info, phase);
    EnterHeap(s.heap, Held(s), source, info, FuncOf(s, source), DataOf(s, source));
    EnterHeld(s, source, info, phase);
  }

  lemma StartKeeps(s: State, t: Transfer)
    requires Sound(s) && t.live && t.completing.None? && AllAlive(s.heap, TransferBag(t))
    ensures Sound(StartStep(s, t))
  {
    var u := StartStep(s, t);
    StartFits(s, t);
    hide Borrowed, TransferFits, TransferBag;
    TotalAppend(TransferBag, s.transfers, t);
    RetainConserves(s.heap, Held(s), TransferBag(t));
    assert Held(u) == Held(s) + TransferBag(t);
  }

  lemma StartFits(s: State, t: Transfer)
    requires Sound(s) && t.live && t.completing.None? && AllAlive(s.heap, TransferBag(t))
    ensures Borrowed(StartStep(s, t))
    ensures forall i: nat | i <= |s.transfers| :: TransferFits(StartStep(s, t), i)
  {
    hide Conserved;
    var u := StartStep(s, t);
    SameBodiesBorrow(s, u);
    forall i | 0 <= i < |u.transfers| ensures TransferFits(u, i) {
      if i < |s.transfers| { assert TransferFits(s, i); }
    }
  }

  lemma HeapOnlyKeeps(s: State, h: Heap<Body>)
    requires Sound(s) && Conserved(h, Held(s)) && |h| >= |s.heap|
    requires forall o :: 0 <= o < |s.heap| ==> h[o].body == s.heap[o].body
    requires forall o :: |s.heap| <= o < |h| ==> h[o].body == Plain
    ensures Sound(s.(heap := h))
  {
    SameBodiesBorrow(s, s.(heap := h));
    forall t | 0 <= t < |s.transfers| ensures TransferFits(s.(heap := h), t) {
      assert TransferFits(s, t);
    }
  }

  lemma SetPhaseKeeps(s: State, w: Ref, phase: Phase)
    requires Sound(s) && IsWrapper(s.heap, w)
    ensures InfoIsThere(s, w) && Sound(SetPhaseStep(s, w, phase))
  {
    assert InfoIsThere(s, w);
    var t := SetPhaseStep(s, w, phase);
    SameBodiesBorrow(s, t);
    forall i | 0 <= i < |s.transfers| ensures TransferFits(t, i) {
      assert TransferFits(s, i);
    }
  }

  function Dropped(h: Heap<Body>, o: Ref): Heap<Body>
    requires o < |h| && h[o].rc > 0 && h[o].outside > 0
  {
    h[o := h[o].(rc := h[o].rc - 1, outside := h[o].outside - 1)]
  }

  lemma DropConserves(h: Heap<Body>, held: multiset<Ref>, o: Ref)
    requires Conserved(h, held) && o < |h| && h[o].outside > 0
    ensures h[o].rc > 0 && Conserved(Dropped(h, o), held)
  {
    assert h[o].rc == h[o].outside + held[o];
  }

  lemma PyKeeps(s: State, e: Event)
    requires Sound(s) && Enabled(s, e) && (e.PyAlloc? || e.PyTake? || e.PyDrop?)
    ensures Safe(s, e) && Sound(Step(s, e))
  {
    hide Conserved, Held, Borrowed, TransferFits, Adopt;
    match e
    case PyAlloc =>
      AllocConserves(s.heap, Held(s), Plain, true);
      HeapOnlyKeeps(s, Alloc(s.heap, Plain, true));
    case PyTake(o) =>
      AdoptConserves(s.heap, Held(s), multiset{o});
      AdoptedBodies(s.heap, o);
      HeapOnlyKeeps(s, Adopt(s.heap, multiset{o}));
    case PyDrop(o) =>
      DropConserves(s.heap, Held(s), o);
      HeapOnlyKeeps(s, Dropped(s.heap, o));
  }

  lemma AdoptedBodies(h: Heap<Body>, o: Ref)
    requires Alive(h, o)
    ensures AllAlive(h, multiset{o}) && |Adopt(h, multiset{o})| == |h|
    ensures forall i :: 0 <= i < |h| ==> Adopt(h, multiset{o})[i].body == h[i].body
  {
  }

  /** Whatever the program assigns, every safe step keeps the counts in balance and wrappers borrowed. */
  lemma StepIsSound(s: State, e: Event)
    requires Sound(s) && Enabled(s, e) && Safe(s, e)
    ensures Sound(Step(s, e))
  {
    hide Sound, EnterStep, StartStep, ExitStep, SetPhaseStep, CanEnter, Retain, Adopt, ExitIsSafe, InfoIsThere;
    match e
    case Start(uf, ud, sf, sd) => StartIsSound(s, e);
    case Enter(source, info, phase) => EnterKeeps(s, source, info, phase);
    case Exit(f) => ExitKeeps(s, f);
    case GetAttr(w) =>
    case SetPhase(w, phase) => SetPhaseKeeps(s, w, phase);
    case _ => PyKeeps(s, e);
  }

  lemma StartIsSound(s: State, e: Event)
    requires Sound(s) && Enabled(s, e) && e.Start?
    ensures Sound(Step(s, e))
  {
    hide Sound;
    StartKeeps(s, Transfer(e.updateFunc, e.updateData, e.syncFunc, e.syncData, true, None));
  }

  // ------------------------------------------------------------------ the life of a record

  /** What a step does to a transfer other than freeing it. */
  lemma OthersFreeNothing(s: State, e: Event)
    requires Enabled(s, e) && Safe(s, e) && !e.Exit?
    ensures |s.transfers| <= |Step(s, e).transfers|
    ensures forall t :: 0 <= t < |s.transfers| ==>
              s.transfers[t].(completing := None) == Step(s, e).transfers[t].(completing := None)
  {
    hide Retain, Adopt, WithWrapper, InfoIsThere, AliveOpt, TransferBag, DataArg, HandleArg;
  }

  lemma ExitFreesOnly(s: State, f: nat)
    requires Enabled(s, Exit(f)) && ExitIsSafe(s, f)
    ensures ExitStep(s, f).transfers == if Frees(s, f) then Freed(s.transfers, s.frames[f].source.transfer)
            else s.transfers
    ensures |ExitStep(s, f).transfers| == |s.transfers| && ExitStep(s, f).frames == s.frames[f := Done]
    ensures forall i :: 0 <= i < |s.transfers| && s.frames[f].source != UpdateOf(i) ==>
              ExitStep(s, f).transfers[i] == s.transfers[i]
  {
    hide Release, ExitGives, Covers, Unlinked;
  }

  /** A callback that returns does the right thing to every record exactly if it finds COMPLETED just
      when it was told so. */
  lemma ReturnsRightIff(s: State, f: nat)
    requires Inv(s) && Enabled(s, Exit(f))
    ensures ExitIsSafe(s, f) && RecordsRight(ExitStep(s, f)) <==> Faithful(s, f)
  {
    hide Conserved, Borrowed, ExitStep, ExitIsSafe;
    ExitIsSafeIff(s, f);
    if s.frames[f].source.UpdateOf? {
      var t := s.frames[f].source.transfer;
      assert TransferFits(s, t) && LivesRight(s, t);
      if ExitIsSafe(s, f) {
        ExitFreesOnly(s, f);
        OthersLiveRight(s, f, t);
        assert LivesRight(ExitStep(s, f), t) <==> Faithful(s, f);
      }
    } else if ExitIsSafe(s, f) {
      ExitFreesOnly(s, f);
      OthersLiveRight(s, f, |s.transfers|);
    }
  }

  /** The return of an update of transfer `t` is nothing to the other transfers. */
  lemma OthersLiveRight(s: State, f: nat, t: nat)
    requires Inv(s) && Enabled(s, Exit(f)) && ExitIsSafe(s, f)
    requires s.frames[f].source.UpdateOf? ==> s.frames[f].source.transfer == t
    ensures |ExitStep(s, f).transfers| == |s.transfers|
    ensures forall i :: 0 <= i < |s.transfers| && i != t ==> LivesRight(ExitStep(s, f), i)
  {
    hide Conserved, Borrowed, ExitStep, ExitIsSafe, LivesRight, TransferFits;
    ExitFreesOnly(s, f);
    forall i | 0 <= i < |s.transfers| && i != t ensures LivesRight(ExitStep(s, f), i) {
      assert TransferFits(s, i) && LivesRight(s, i);
      OtherLivesRight(s, f, i, ExitStep(s, f));
    }
  }

  lemma OtherLivesRight(s: State, f: nat, i: nat, u: State)
    requires i < |s.transfers| && TransferFits(s, i) && LivesRight(s, i)
    requires f < |s.frames| && s.frames[f].Active? && s.frames[f].source != UpdateOf(i)
    requires i < |u.transfers| && u.transfers[i] == s.transfers[i] && u.frames == s.frames[f := Done]
    ensures LivesRight(u, i)
  {
  }

  lemma OthersKeepRight(s: State, e: Event)
    requires Inv(s) && Enabled(s, e) && Safe(s, e) && !e.Exit?
    ensures RecordsRight(Step(s, e))
  {
    hide Sound, RecordsRight, Safe, Step;
    if e.Enter? {
      EnterKeepsRight(s, e);
    } else {
      RestKeepRight(s, e);
    }
  }

  lemma EnterKeepsRight(s: State, e: Event)
    requires Inv(s) && Enabled(s, e) && Safe(s, e) && e.Enter?
    ensures RecordsRight(Step(s, e))
  {
    hide Conserved, Borrowed, Retain, WithWrapper, TransferBag, DataArg, HandleArg, StoreInfo;
    forall t | 0 <= t < |Step(s, e).transfers| ensures LivesRight(Step(s, e), t) {
      assert TransferFits(s, t) && LivesRight(s, t);
    }
  }

  lemma RestKeepRight(s: State, e: Event)
    requires Inv(s) && Enabled(s, e) && Safe(s, e) && !e.Enter? && !e.Exit?
    ensures RecordsRight(Step(s, e))
  {
    hide Sound, Retain, Adopt, InfoIsThere, AliveOpt, TransferBag;
    forall t | 0 <= t < |Step(s, e).transfers| ensures LivesRight(Step(s, e), t) {
      if t < |s.transfers| {
        assert LivesRight(s, t);
      }
    }
  }

  /** As long as every update callback that returns finds the phase it was given COMPLETED or not,
      the invariant survives every step and every step is safe. */
  lemma StepKeeps(s: State, e: Event)
    requires Inv(s) && Enabled(s, e)
    requires e.Exit? ==> Faithful(s, e.frame)
    ensures Safe(s, e) && Inv(Step(s, e))
  {
    hide Sound, RecordsRight, Faithful, Step;
    if e.Exit? {
      ReturnIsSafe(s, e.frame);
    } else {
      OtherIsSafe(s, e);
      OthersKeepRight(s, e);
    }
    StepIsSound(s, e);
  }

  lemma ReturnIsSafe(s: State, f: nat)
    requires Inv(s) && Enabled(s, Exit(f)) && Faithful(s, f)
    ensures Safe(s, Exit(f)) && RecordsRight(Step(s, Exit(f)))
  {
    hide Sound, RecordsRight, Faithful, ExitStep, ExitIsSafe;
    ReturnsRightIff(s, f);
  }

  lemma OtherIsSafe(s: State, e: Event)
    requires Inv(s) && Enabled(s, e) && !e.Exit?
    ensures Safe(s, e)
  {
    hide Conserved, Retain, Adopt;
    match e
    case Enter(source, info, phase) =>
      EnterIsSafe(s, source, info, phase);
      if TransferOf(source).Some? {
        assert LivesRight(s, TransferOf(source).value);
      }
    case PyDrop(o) => PyKeeps(s, e);
    case GetAttr(w) => SetPhaseKeeps(s, w, COMPLETED);
    case SetPhase(w, phase) => SetPhaseKeeps(s, w, phase);
    case _ =>
  }

  /** A record is freed by the return of its COMPLETED update only, stays freed, and keeps its four
      references until then. */
  lemma FreedByItsLastUpdate(s: State, e: Event, u: State, t: nat)
    requires Enabled(s, e) && (e.Exit? ==> Faithful(s, e.frame)) && t < |s.transfers|
    requires Inv(s) && Safe(s, e) && u == Step(s, e)
    ensures t < |u.transfers| && (u.transfers[t].live ==> s.transfers[t].live)
    ensures s.transfers[t].live && !u.transfers[t].live <==> e.Exit? && s.transfers[t].completing == Some(e.frame)
    ensures u.transfers[t].live ==> TransferBag(u.transfers[t]) == TransferBag(s.transfers[t])
  {
    hide Conserved, Borrowed, ExitStep, ExitIsSafe;
    assert TransferFits(s, t) && LivesRight(s, t);
    if e.Exit? {
      ExitIsSafeIff(s, e.frame);
      ExitFreesOnly(s, e.frame);
    } else {
      OthersFreeNothing(s, e);
    }
  }

  /** When no callback is active and every transfer has completed, the module holds no reference. */
  lemma QuietModuleHoldsNothing(s: State)
    requires Inv(s)
    requires forall f :: 0 <= f < |s.frames| ==> s.frames[f].Done?
    requires forall t :: 0 <= t < |s.transfers| ==> s.transfers[t].completing.Some?
    ensures forall o :: 0 <= o < |s.heap| ==> s.heap[o].rc == s.heap[o].outside
  {
    hide Borrowed, Conserved, TransferBag, FrameBag;
    forall t | 0 <= t < |s.transfers| ensures TransferBag(s.transfers[t]) == multiset{} {
      assert TransferFits(s, t) && LivesRight(s, t);
      FreedHoldsNothing(s.transfers[t]);
    }
    QuietHeld(s);
    NothingIsHeld(s.heap);
  }

  lemma FreedHoldsNothing(t: Transfer)
    requires !t.live
    ensures TransferBag(t) == multiset{}
  {
  }

  lemma QuietHeld(s: State)
    requires forall t :: 0 <= t < |s.transfers| ==> TransferBag(s.transfers[t]) == multiset{}
    requires forall f :: 0 <= f < |s.frames| ==> s.frames[f].Done?
    ensures Held(s) == multiset{}
  {
    hide TransferBag;
    TotalOfNothing(TransferBag, s.transfers);
    TotalOfNothing(FrameBag, s.frames);
  }

  lemma NothingIsHeld(h: Heap<Body>)
    requires Conserved(h, multiset{})
    ensures forall o :: 0 <= o < |h| ==> h[o].rc == h[o].outside
  {
  }
}
