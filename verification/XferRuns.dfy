/** Whole runs of the transfer machine: what holds in all of them, exactly which ones treat the shared
    record right, and how the others go wrong. */
module XferRuns {
  import opened Options
  import opened PyHeap
  import opened XferMachine
  import opened XferSafety

  // ------------------------------------------------------------------ every run

  lemma InitialIsGood(s: State)
    requires Initial(s)
    ensures Inv(s)
  {
    assert Held(s) == multiset{};
  }

  /** Whatever the program assigns to a phase: as long as no step touched memory that was gone, counts
      are in balance and wrappers are borrowed. */
  lemma {:induction false} SoundOverRuns(states: seq<State>, events: seq<Event>, n: nat)
    requires Run(states, events) && n <= |events| && SafeBefore(states, events, n)
    ensures Sound(states[n])
    ensures n > 0 ==> states[n] == Step(states[n - 1], events[n - 1])
  {
    hide Sound, Step, Safe, Enabled, Initial;
    if n == 0 {
      InitialIsGood(states[0]);
    } else {
      SoundOverRuns(states, events, n - 1);
      StepIsSound(states[n - 1], events[n - 1]);
    }
  }

  /** Every count is the references outside, those of live records and those of active callbacks. */
  lemma CountsOverRuns(states: seq<State>, events: seq<Event>, n: nat, o: Ref)
    requires Run(states, events) && n <= |events| && SafeBefore(states, events, n) && o < |states[n].heap|
    ensures states[n].heap[o].rc
         == states[n].heap[o].outside + Total(TransferBag, states[n].transfers)[o] + Total(FrameBag,
             states[n].frames)[o]
  {
    SoundOverRuns(states, events, n);
  }

  /** At every moment attribute access on a wrapper raises RuntimeError exactly if no active callback
      owns the wrapper. */
  lemma BorrowedOverRuns(states: seq<State>, events: seq<Event>, n: nat, w: Ref)
    requires Run(states, events) && n <= |events| && SafeBefore(states, events, n) && IsWrapper(states[n].heap, w)
    ensures RaisesRuntimeError(states[n], w)
       <==> !exists f :: 0 <= f < |states[n].frames| && states[n].frames[f].Active? && states[n].frames[f].wrapper == w
  {
    hide Borrowed, Conserved, TransferFits, RaisesRuntimeError;
    SoundOverRuns(states, events, n);
    StaleWrapperRaises(states[n], w);
  }

  // ------------------------------------------------------------------ what a callback calls

  function OneOrNone(o: Option<Ref>): seq<Ref> {
    if o.Some? then [o.value] else []
  }

  /** An accepted transfer has one record with the four objects as they were given. */
  lemma StartRegisters(s: State, e: Event)
    requires Enabled(s, e) && e.Start?
    ensures var t := Step(s, e);
            && t.transfers == s.transfers + [Transfer(e.updateFunc, e.updateData, e.syncFunc, e.syncData, true, None)]
            && t.frames == s.frames && t.infos == s.infos
  {
    hide TransferBag;
  }

  /** A progress callback calls, for an update, the update function with a new handle, a new wrapper and the
      update data; for the sync half of a transfer, the sync function with a new wrapper and the sync data;
      and else the function and the data it was given.  The wrapper points to the structure of the callback,
      in which the phase is stored. */
  lemma EnterCalls(s: State, e: Event)
    requires Sound(s) && Enabled(s, e) && Safe(s, e) && e.Enter?
    ensures var t := Step(s, e);
            var wrapper := |t.heap| - 1;
            && |t.frames| == |s.frames| + 1 && |t.heap| > |s.heap|
            && t.heap[wrapper].body == Progress(Some(e.info))
            && e.info < |t.infos| && t.infos[e.info] == e.phase
            && var frame := t.frames[|s.frames|];
               && frame.Active? && frame.source == e.source && frame.info == e.info && frame.wrapper == wrapper
               && match e.source
                  case UpdateOf(i) =>
                    && frame.callee == Some(s.transfers[i].updateFunc)
                    && |t.heap| == |s.heap| + 2 && t.heap[|s.heap|].body == Plain
                    && frame.args == [|s.heap|, wrapper] + OneOrNone(s.transfers[i].updateData)
                  case SyncOf(i) =>
                    && frame.callee == s.transfers[i].syncFunc && frame.callee.Some?
                    && |t.heap| == |s.heap| + 1
                    && frame.args == [wrapper] + OneOrNone(s.transfers[i].syncData)
                  case OnStack(func, data) =>
                    && frame.callee == Some(func)
                    && |t.heap| == |s.heap| + 1
                    && frame.args == [wrapper] + OneOrNone(data)
  {
    hide Sound, TransferBag;
  }

  function IfIs(a: Ref, o: Ref): nat {
    if a == o then 1 else 0
  }

  /** A live record has one reference to each of its four objects... */
  lemma RecordHolds(t: Transfer, o: Ref)
    requires t.live
    ensures TransferBag(t)[o]
         == IfIs(t.updateFunc, o) + (if t.updateData.Some? then IfIs(t.updateData.value, o) else 0)
            + (if t.syncFunc.Some? then IfIs(t.syncFunc.value, o) else 0)
            + (if t.syncData.Some? then IfIs(t.syncData.value, o) else 0)
  {
    hide Opt;
    OptHolds(t.updateData, o);
    OptHolds(t.syncFunc, o);
    OptHolds(t.syncData, o);
  }

  lemma OptHolds(x: Option<Ref>, o: Ref)
    ensures Opt(x)[o] == if x.Some? then IfIs(x.value, o) else 0
  {
  }

  /** ... and an active callback one to its wrapper and one to each argument. */
  lemma CallbackHolds(f: Frame, o: Ref)
    requires f.Active?
    ensures FrameBag(f)[o] == IfIs(f.wrapper, o) + multiset(f.args)[o]
  {
  }

  // ------------------------------------------------------------------ what a callback finds

  /** What a step does to an older callback `f`, to what transfer `t` says of it, and to structure `info`. */
  ghost predicate StepsOver(s: State, e: Event, u: State, f: nat, t: nat, info: nat) {
    && |u.frames| == |s.frames| + (if e.Enter? then 1 else 0)
    && |s.transfers| <= |u.transfers| && |s.infos| <= |u.infos|
    && (f < |s.frames| ==> u.frames[f] == s.frames[f] || u.frames[f].Done?)
    && (t < |s.transfers| && f < |s.frames| ==>
          (u.transfers[t].completing == Some(f) <==> s.transfers[t].completing == Some(f)))
    && (info < |s.infos| ==>
          u.infos[info] == if Stored(s, e, info).Some? then Stored(s, e, info).value else s.infos[info])
  }

  lemma StepHistory(s: State, e: Event, f: nat, t: nat, info: nat)
    requires Enabled(s, e) && Safe(s, e)
    ensures StepsOver(s, e, Step(s, e), f, t, info)
  {
    hide Retain, Adopt, WithWrapper, AliveOpt, TransferBag, DataArg, HandleArg, ExitStep, ExitIsSafe;
    if e.Exit? {
      ExitHistory(s, e.frame, f, t, info);
    }
  }

  lemma ExitHistory(s: State, g: nat, f: nat, t: nat, info: nat)
    requires Enabled(s, Exit(g)) && ExitIsSafe(s, g)
    ensures StepsOver(s, Exit(g), ExitStep(s, g), f, t, info)
  {
    hide Release, ExitGives, Covers, Unlinked;
  }

  /** The callback that event `i` began, seen before event `k`. */
  ghost predicate Remembers(states: seq<State>, events: seq<Event>, i: nat, k: nat)
    requires i < k <= |events| < |states| && events[i].Enter?
  {
    var s, f, e := states[k], |states[i].frames|, events[i];
    && f < |s.frames| && e.info < |s.infos|
    && (s.frames[f].Active? ==> s.frames[f].source == e.source && s.frames[f].info == e.info)
    && s.infos[e.info] == LastStored(states, events, i, k)
    && (e.source.UpdateOf? ==>
          && e.source.transfer < |s.transfers|
          && (s.transfers[e.source.transfer].completing == Some(f) <==> e.phase == COMPLETED))
  }

  lemma EnterRemembers(states: seq<State>, events: seq<Event>, i: nat)
    requires |states| == |events| + 1 && i < |events| && events[i].Enter?
    requires Enabled(states[i], events[i]) && Safe(states[i], events[i])
    requires states[i + 1] == Step(states[i], events[i])
    ensures Remembers(states, events, i, i + 1)
  {
    hide Retain, WithWrapper, AliveOpt, TransferBag, DataArg, HandleArg, WritesTo;
  }

  lemma {:induction false} CallbackHistory(states: seq<State>, events: seq<Event>, i: nat, k: nat)
    requires Run(states, events) && i < k <= |events| && SafeBefore(states, events, k) && events[i].Enter?
    ensures Remembers(states, events, i, k)
    decreases k
  {
    hide Step, Safe, Enabled, Stored;
    if k == i + 1 {
      EnterRemembers(states, events, i);
    } else {
      CallbackHistory(states, events, i, k - 1);
      var e := events[i];
      var t := if e.source.UpdateOf? then e.source.transfer else 0;
      StepHistory(states[k - 1], events[k - 1], |states[i].frames|, t, e.info);
    }
  }

  /** Every callback was begun by an event. */
  lemma {:induction false} BeginningOf(states: seq<State>, events: seq<Event>, k: nat, f: nat) returns (i: nat)
    requires Run(states, events) && k <= |events| && SafeBefore(states, events, k) && f < |states[k].frames|
    ensures i < k && events[i].Enter? && |states[i].frames| == f
    decreases k
  {
    hide Step, Safe, Enabled, StepsOver;
    NoCallbackYet(states, events);
    NewFrames(states[k - 1], events[k - 1], f);
    if f < |states[k - 1].frames| {
      i := BeginningOf(states, events, k - 1, f);
    } else {
      i := k - 1;
    }
  }

  lemma NoCallbackYet(states: seq<State>, events: seq<Event>)
    requires Run(states, events)
    ensures states[0].frames == []
  {
  }

  lemma NewFrames(s: State, e: Event, f: nat)
    requires Enabled(s, e) && Safe(s, e)
    ensures |Step(s, e).frames| == |s.frames| + if e.Enter? then 1 else 0
  {
    hide StepsOver, Step;
    StepHistory(s, e, f, 0, 0);
    assert StepsOver(s, e, Step(s, e), f, 0, 0);
    CountedFrames(s, e, Step(s, e), f);
  }

  lemma CountedFrames(s: State, e: Event, u: State, f: nat)
    requires StepsOver(s, e, u, f, 0, 0)
    ensures |u.frames| == |s.frames| + if e.Enter? then 1 else 0
  {
  }

  /** A returning update is judged right by the last phase stored in its structure. */
  lemma FaithfulIffJudged(states: seq<State>, events: seq<Event>, i: nat, k: nat)
    requires Run(states, events) && i < k < |events| && SafeBefore(states, events, k)
    requires IsUpdateFrom(states, events, i, k) && Enabled(states[k], events[k])
    ensures Faithful(states[k], events[k].frame) <==> JudgedRight(states, events, i, k)
  {
    hide Step, Safe, LastStored;
    CallbackHistory(states, events, i, k);
  }

  // ------------------------------------------------------------------ exactly the runs that go right

  /** In a run in which no returning update was misled, every step is safe and keeps the invariant. */
  lemma {:induction false} RunKeeps(states: seq<State>, events: seq<Event>, n: nat)
    requires Run(states, events) && WellJudged(states, events) && n <= |events|
    ensures SafeBefore(states, events, n) && Inv(states[n])
    ensures n > 0 ==> states[n] == Step(states[n - 1], events[n - 1])
  {
    hide Inv, Step, Safe, Enabled, Initial, WellJudged;
    if n == 0 {
      InitialIsGood(states[0]);
    } else {
      RunKeeps(states, events, n - 1);
      ReturnIsFaithful(states, events, n - 1);
      StepKeeps(states[n - 1], events[n - 1]);
    }
  }

  lemma ReturnIsFaithful(states: seq<State>, events: seq<Event>, k: nat)
    requires Run(states, events) && WellJudged(states, events) && k < |events| && SafeBefore(states, events, k)
    ensures events[k].Exit? ==> Enabled(states[k], events[k]) && Faithful(states[k], events[k].frame)
  {
    hide Step, Safe, JudgedRight, SafeBefore;
    if events[k].Exit? {
      var f := events[k].frame;
      assert Enabled(states[k], events[k]);
      var i := BeginningOf(states, events, k, f);
      if states[k].frames[f].source.UpdateOf? {
        CallbackHistory(states, events, i, k);
        assert IsUpdateFrom(states, events, i, k);
        FaithfulIffJudged(states, events, i, k);
      }
    }
  }

  /** A run touches live memory only and frees every record exactly when its COMPLETED update has
      returned, if and only if for each returning update the last phase stored in its structure is
      COMPLETED just when the update itself was told COMPLETED. */
  lemma GoesRightIffWellJudged(states: seq<State>, events: seq<Event>)
    requires Run(states, events)
    ensures GoesRight(states, events) <==> WellJudged(states, events)
  {
    hide Step, Safe, Enabled, RecordsRight, Sound, JudgedRight;
    if GoesRight(states, events) {
      forall i: nat, k: nat | i < k < |events| && IsUpdateFrom(states, events, i, k)
        ensures JudgedRight(states, events, i, k)
      {
        RightIsJudged(states, events, i, k);
      }
    }
    if WellJudged(states, events) {
      forall n | 0 <= n <= |events| ensures RecordsRight(states[n]) && SafeBefore(states, events, n) {
        RunKeeps(states, events, n);
      }
    }
  }

  lemma RightIsJudged(states: seq<State>, events: seq<Event>, i: nat, k: nat)
    requires Run(states, events) && GoesRight(states, events)
    requires i < k < |events| && IsUpdateFrom(states, events, i, k)
    ensures JudgedRight(states, events, i, k)
  {
    hide RecordsRight, Sound, JudgedRight, ExitStep, ExitIsSafe, Faithful;
    assert SafeBefore(states, events, k) && SafeBefore(states, events, k + 1);
    SoundOverRuns(states, events, k);
    SoundOverRuns(states, events, k + 1);
    assert Enabled(states[k], events[k]);
    ReturnsRightIff(states[k], events[k].frame);
    FaithfulIffJudged(states, events, i, k);
  }

  /** In such a run the record of a transfer exists until the COMPLETED update has returned and not
      afterwards; while it exists the four objects it names are alive. */
  lemma RecordLivesUntilCompleted(states: seq<State>, events: seq<Event>, n: nat, t: nat)
    requires Run(states, events) && WellJudged(states, events) && n <= |events| && t < |states[n].transfers|
    ensures var c := states[n].transfers[t].completing;
            && (c.Some? ==> c.value < |states[n].frames|)
            && (states[n].transfers[t].live <==> c.None? || states[n].frames[c.value].Active?)
    ensures states[n].transfers[t].live ==> AllAlive(states[n].heap, TransferBag(states[n].transfers[t]))
  {
    hide Conserved, Borrowed, WellJudged;
    RunKeeps(states, events, n);
    assert TransferFits(states[n], t) && LivesRight(states[n], t);
    if states[n].transfers[t].live {
      LiveIsHeld(states[n], t);
    }
  }

  // ------------------------------------------------------------------ a record freed too early

  /** While an ordinary update callback is active, its Python function can assign COMPLETED to the phase
      of its wrapper, and then the callback will find it so. */
  lemma AssigningCompletedMisleads(s: State, f: nat, u: State)
    requires Inv(s) && Enabled(s, Exit(f)) && s.frames[f].source.UpdateOf?
    requires s.frames[f].source.transfer < |s.transfers| && s.transfers[s.frames[f].source.transfer].completing.None?
    requires IsWrapper(s.heap, s.frames[f].wrapper) && InfoIsThere(s, s.frames[f].wrapper)
    requires u == SetPhaseStep(s, s.frames[f].wrapper, COMPLETED)
    ensures Inv(u) && u.frames == s.frames && u.transfers == s.transfers && Frees(u, f) && !Faithful(u, f)
  {
    Assigned(s, f, COMPLETED, u);
  }

  lemma Assigned(s: State, f: nat, phase: Phase, u: State)
    requires Inv(s) && Enabled(s, Exit(f))
    requires IsWrapper(s.heap, s.frames[f].wrapper) && InfoIsThere(s, s.frames[f].wrapper)
    requires u == SetPhaseStep(s, s.frames[f].wrapper, phase)
    ensures Inv(u) && u.frames == s.frames && u.transfers == s.transfers
    ensures s.frames[f].info < |u.infos| && u.infos[s.frames[f].info] == phase
  {
    hide Sound, RecordsRight;
    ExitIsSafeIff(s, f);
    SetPhaseKeeps(s, s.frames[f].wrapper, phase);
    SameRecords(s, u);
  }

  lemma SameRecords(s: State, u: State)
    requires RecordsRight(s) && u.frames == s.frames && u.transfers == s.transfers
    ensures RecordsRight(u)
  {
    forall t | 0 <= t < |u.transfers| ensures LivesRight(u, t) {
      assert LivesRight(s, t);
    }
  }

  /** When an ordinary update callback returns and finds COMPLETED it frees the record, and the COMPLETED
      update that GnomeVFS still owes would use what is gone. */
  lemma PrematureReturn(s: State, f: nat)
    requires Inv(s) && Enabled(s, Exit(f)) && Frees(s, f)
    requires s.frames[f].source.transfer < |s.transfers| && s.transfers[s.frames[f].source.transfer].completing.None?
    ensures ExitIsSafe(s, f) && !ExitStep(s, f).transfers[s.frames[f].source.transfer].live
    ensures var t := ExitStep(s, f);
            var owed := Enter(UpdateOf(s.frames[f].source.transfer), |t.infos|, COMPLETED);
            Enabled(t, owed) && !Safe(t, owed)
  {
    hide Conserved, Borrowed, Covers, ExitGives, Release;
    ExitIsSafeIff(s, f);
    assert LivesRight(s, s.frames[f].source.transfer);
  }

  // ------------------------------------------------------------------ a record never freed

  /** The COMPLETED update has returned, no other update is active, and the record is still there. */
  ghost predicate Lost(s: State, t: nat) {
    && t < |s.transfers| && s.transfers[t].live && s.transfers[t].completing.Some?
    && forall f :: 0 <= f < |s.frames| && s.frames[f].Active? ==> s.frames[f].source != UpdateOf(t)
  }

  /** No other update of the transfer is active. */
  ghost predicate OnlyUpdate(s: State, f: nat, t: nat) {
    forall g :: 0 <= g < |s.frames| && s.frames[g].Active? && s.frames[g].source == UpdateOf(t) ==> g == f
  }

  /** The COMPLETED update that finds another phase when it returns leaves the record there. */
  lemma ReturnLoses(s: State, f: nat)
    requires Inv(s) && Enabled(s, Exit(f)) && s.frames[f].source.UpdateOf? && !Frees(s, f)
    requires s.frames[f].source.transfer < |s.transfers|
            && s.transfers[s.frames[f].source.transfer].completing == Some(f)
    ensures ExitIsSafe(s, f) && !Faithful(s, f) && Sound(ExitStep(s, f))
    ensures var t := s.frames[f].source.transfer;
            && t < |ExitStep(s, f).transfers| && ExitStep(s, f).transfers[t].live
            && (OnlyUpdate(s, f, t) ==> Lost(ExitStep(s, f), t))
  {
    hide Conserved, Borrowed, TransferFits, ExitStep, ExitIsSafe;
    assert LivesRight(s, s.frames[f].source.transfer);
    ExitIsSafeIff(s, f);
    ExitFreesOnly(s, f);
    LosesSound(s, f);
  }

  /** The Python function of the COMPLETED update can make it so by assigning to its wrapper. */
  lemma AssigningOtherPhaseLoses(s: State, f: nat, n: nat, u: State)
    requires Inv(s) && Enabled(s, Exit(f)) && s.frames[f].source.UpdateOf?
    requires s.frames[f].source.transfer < |s.transfers|
            && s.transfers[s.frames[f].source.transfer].completing == Some(f)
    requires IsWrapper(s.heap, s.frames[f].wrapper) && InfoIsThere(s, s.frames[f].wrapper)
    requires u == SetPhaseStep(s, s.frames[f].wrapper, Running(n))
    ensures Inv(u) && u.frames == s.frames && u.transfers == s.transfers && !Frees(u, f)
    ensures ExitIsSafe(u, f) && ExitStep(u, f).frames == s.frames[f := Done]
    ensures s.frames[f].source.transfer < |ExitStep(u, f).transfers|
    ensures ExitStep(u, f).transfers[s.frames[f].source.transfer].live
  {
    hide Inv, ExitStep, ExitIsSafe, InfoIsThere, SetPhaseStep, Lost;
    Assigned(s, f, Running(n), u);
    ReturnLoses(u, f);
    ExitFreesOnly(u, f);
  }

  lemma LosesSound(s: State, f: nat)
    requires Sound(s) && Enabled(s, Exit(f)) && ExitIsSafe(s, f)
    ensures Sound(ExitStep(s, f))
  {
    hide Sound;
    ExitKeeps(s, f);
  }

  lemma LostStays(s: State, e: Event, t: nat)
    requires Lost(s, t) && Sound(s) && Enabled(s, e) && Safe(s, e)
    ensures Lost(Step(s, e), t) && TransferBag(Step(s, e).transfers[t]) == TransferBag(s.transfers[t])
  {
    hide Sound, Lost, Safe, Step, TransferBag, ExitIsSafe;
    if e.Exit? {
      ExitKeepsLost(s, e.frame, t);
    } else {
      OthersKeepLost(s, e, t);
    }
  }

  lemma ExitKeepsLost(s: State, f: nat, t: nat)
    requires Lost(s, t) && Sound(s) && Enabled(s, Exit(f)) && Safe(s, Exit(f))
    ensures var u := Step(s, Exit(f)); Lost(u, t) && TransferBag(u.transfers[t]) == TransferBag(s.transfers[t])
  {
    hide Sound, ExitStep, ExitIsSafe, TransferBag;
    ExitIsSafeIff(s, f);
    ExitFreesOnly(s, f);
  }

  lemma OthersKeepLost(s: State, e: Event, t: nat)
    requires Lost(s, t) && Enabled(s, e) && Safe(s, e) && !e.Exit?
    ensures Lost(Step(s, e), t) && TransferBag(Step(s, e).transfers[t]) == TransferBag(s.transfers[t])
  {
    hide Retain, Adopt, WithWrapper, InfoIsThere, DataArg, HandleArg, AliveOpt;
    OthersFreeNothing(s, e);
  }

  /** A lost record is never freed: at every later moment it holds its four references. */
  lemma {:induction false} LostForEver(states: seq<State>, events: seq<Event>, i: nat, n: nat, t: nat)
    requires Run(states, events) && i <= n <= |events| && SafeBefore(states, events, n) && Lost(states[i], t)
    ensures Lost(states[n], t) && TransferBag(states[n].transfers[t]) == TransferBag(states[i].transfers[t])
    ensures AllAlive(states[n].heap, TransferBag(states[i].transfers[t]))
    decreases n
  {
    hide Sound, Step, Safe, Enabled, TransferBag;
    if i < n {
      LostForEver(states, events, i, n - 1, t);
      SoundOverRuns(states, events, n - 1);
      LostStays(states[n - 1], events[n - 1], t);
    }
    SoundOverRuns(states, events, n);
    LiveIsHeld(states[n], t);
  }
}
