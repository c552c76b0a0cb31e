/** The Python functions that callbacks of the asynchronous machine run.  A callback borrows its function
    from the notify record: exactly when is it alive? */
module AsyncFunctions {
  import opened Options
  import opened VfsErrors
  import opened PyHeap
  import opened AsyncMachine
  import opened AsyncSafety

  /** A live notify record names `o`. */
  ghost predicate InRecord(s: State, o: Ref) {
    exists n :: 0 <= n < |s.records| && o in RecordBag(s.records[n])
  }

  /** `o` is an argument or a local variable of an active callback. */
  ghost predicate InFrame(s: State, o: Ref) {
    exists f :: 0 <= f < |s.frames| && o in FrameBag(s.frames[f])
  }

  lemma AliveIffHeld(s: State, o: Ref)
    requires Inv(s) && o < |s.heap|
    ensures Alive(s.heap, o) <==> s.heap[o].outside > 0 || InRecord(s, o) || InFrame(s, o)
  {
    hide Fits, BuiltinsStay, RecordBag, FrameBag;
    TotalHas(RecordBag, s.records, o);
    TotalHas(FrameBag, s.frames, o);
    assert s.heap[o].rc == s.heap[o].outside + Held(s)[o];
  }

  /** The record of a request keeps its contents, over a run, as long as it lives. */
  lemma {:induction false} RecordStays(states: seq<State>, events: seq<Event>, i: nat, k: nat, n: nat)
    requires Run(states, events) && i <= k <= |events| && n < |states[i].records| && states[i].records[n].Live?
    ensures n < |states[k].records|
    ensures states[k].records[n].Live? ==> states[k].records[n].notify == states[i].records[n].notify
    decreases k
  {
    hide Inv, Step, Safe, Enabled, OneWay;
    if i < k {
      RecordStays(states, events, i, k - 1, n);
      RunKeeps(states, events, k - 1);
      if states[k - 1].records[n].Live? {
        FreedByItsCallback(states[k - 1], events[k - 1], states[k], n);
      } else {
        StepOneWay(states[k - 1], events[k - 1]);
        FreedStays(states[k - 1], states[k], n);
      }
    }
  }

  lemma FreedStays(s: State, t: State, n: nat)
    requires OneWay(s, t) && n < |s.records| && s.records[n].Freed?
    ensures n < |t.records| && t.records[n].Freed?
  {
  }

  /** At every moment after a delivery, be the callback still active or not, the function it runs is alive
      if and only if the program has a reference to it of its own, a notify record that is not freed names
      it, or it is an argument of an active callback.  It is so as long as the record of the request is. */
  lemma FunctionAliveIff(states: seq<State>, events: seq<Event>, i: nat, k: nat)
    requires Run(states, events) && i < k <= |events| && events[i].Deliver?
    ensures events[i].record < |states[i].records| && states[i].records[events[i].record].Live?
    ensures var s, func := states[k], states[i].records[events[i].record].notify.func;
            && func < |s.heap|
            && (Alive(s.heap, func) <==> s.heap[func].outside > 0 || InRecord(s, func) || InFrame(s, func))
            && events[i].record < |s.records|
            && (s.records[events[i].record].Live? ==> InRecord(s, func))
  {
    hide Inv, Step, Safe, RecordBag, FrameBag, InRecord, InFrame, OneWay;
    RunKeeps(states, events, i);
    RunKeeps(states, events, k);
    var n := events[i].record;
    assert Enabled(states[i], events[i]);
    var func := states[i].records[n].notify.func;
    NamedFunction(states[i], n);
    RunOneWay(states, events, i, k);
    HeapGrows(states[i], states[k]);
    AliveIffHeld(states[k], func);
    RecordStays(states, events, i, k, n);
    if states[k].records[n].Live? {
      NamedFunction(states[k], n);
    }
  }

  lemma HeapGrows(s: State, t: State)
    requires OneWay(s, t)
    ensures |s.heap| <= |t.heap|
  {
  }

  lemma NamedFunction(s: State, n: nat)
    requires Inv(s) && n < |s.records| && s.records[n].Live?
    ensures s.records[n].notify.func < |s.heap| && InRecord(s, s.records[n].notify.func)
  {
    hide Fits, Conserved;
    InvRecord(s, n);
    assert s.records[n].notify.func in RecordBag(s.records[n]);
  }

  /** A callback that will free its record finds it there. */
  lemma LastCallbackHasItsRecord(states: seq<State>, events: seq<Event>, k: nat, f: nat)
    requires Run(states, events) && k <= |events| && f < |states[k].frames|
    requires states[k].frames[f].Active? && states[k].frames[f].last
    ensures var n := states[k].frames[f].record;
            && n < |states[k].records| && states[k].records[n].Live?
            && InRecord(states[k], states[k].records[n].notify.func)
  {
    hide Conserved, InRecord;
    RunKeeps(states, events, k);
    assert FrameFits(states[k], f);
    NamedFunction(states[k], states[k].frames[f].record);
  }

  // ------------------------------------------------------------------ a function that dies while it runs

  /** `s` has the one record and the callbacks `frames`; nobody but the record refers to `func`. */
  ghost predicate Stage(s: State, func: Ref, records: seq<Record>, frames: seq<Frame>) {
    && func < |s.heap| && s.heap[func].outside == 0
    && s.records == records && s.frames == frames
  }

  lemma OutsideAtCall(h: Heap<Body>, n: Notify, result: Code, o: Ref)
    requires n.origin == LOAD_DIRECTORY && n.self < |h| && o < |h|
    ensures var g := HeapAtCall(h, n, result, []);
            o < |g| && g[o].outside == h[o].outside
  {
    hide FrameHeld, ClosesHandle;
  }

  lemma StartStage(s: State, func: Ref, job: Job)
    requires func < |s.heap| && s.heap[func].outside == 1 && s.records == [] && s.frames == []
    ensures var t := StartStep(s, LOAD_DIRECTORY, func, None, job);
            && |t.heap| == |s.heap| + 1 && t.heap[func].outside == 1 && t.heap[func].body == s.heap[func].body
            && t.records == [Live(Notify(func, |s.heap|, None, LOAD_DIRECTORY, None), NoBuffer, Waiting)]
                && t.frames == []
  {
    hide NotifyBag;
  }

  lemma DeliverStage(s: State, func: Ref, notify: Notify, frames: seq<Frame>, result: Code)
    requires Stage(s, func, [Live(notify, NoBuffer, Waiting)], frames)
    requires notify.origin == LOAD_DIRECTORY && notify.self < |s.heap|
    ensures var last := Failed(result);
            var frame := NewFrame(0, notify, result, |s.heap|);
            Stage(DeliverStep(s, 0, result, []), func,
                  [Live(notify, NoBuffer, if last then Finishing(|frames|) else Waiting)], frames + [frame])
            && frame.last == last && |DeliverStep(s, 0, result, []).heap| >= |s.heap|
  {
    hide HeapAtCall, Arguments, ExceptionOf, ValueOf, Failed;
    OutsideAtCall(s.heap, notify, result, func);
    assert |HeapAtCall(s.heap, notify, result, [])| >= |s.heap| by { CallGrows(s.heap, notify, result); }
  }

  lemma CallGrows(h: Heap<Body>, n: Notify, result: Code)
    requires n.self < |h|
    ensures |HeapAtCall(h, n, result, [])| >= |h|
  {
    hide FrameHeld, ClosesHandle;
  }

  lemma ReturnStage(s: State, func: Ref, f: nat)
    requires ReturnIsSafe(s, f) && s.frames[f].last && func < |s.heap| && s.heap[func].outside == 0
    ensures Stage(ReturnStep(s, f), func, s.records[s.frames[f].record := Freed], s.frames[f := Done])
  {
    hide Given, Covers;
    assert |Release(s.heap, Given(s, f))| == |s.heap|;
    ReleasedOutside(s.heap, Given(s, f), func);
  }

  lemma ReleasedOutside(h: Heap<Body>, bag: multiset<Ref>, o: Ref)
    requires Covers(h, bag) && o < |h|
    ensures Release(h, bag)[o].outside == h[o].outside
  {
  }

  /** What a directory callback passes, beside its data, is not its function. */
  lemma NotPassed(func: Ref, notify: Notify, newRef: Ref)
    requires notify == Notify(func, notify.self, None, LOAD_DIRECTORY, None)
    requires BUILTINS <= func && func != notify.self && func != newRef
    ensures func !in FrameBag(NewFrame(0, notify, OK, newRef))
  {
  }

  ghost predicate Moves(s: State, e: Event, t: State) {
    Inv(s) && Enabled(s, e) && Safe(s, e) && t == Step(s, e) && Inv(t)
  }

  lemma StartMoves(s: State, func: Ref, job: Job) returns (t: State)
    requires Inv(s) && s.records == [] && s.frames == []
    requires func < |s.heap| && s.heap[func].body.Function? && s.heap[func].outside == 1
    ensures Moves(s, Start(LOAD_DIRECTORY, [], func, None, job), t)
    ensures |t.heap| == |s.heap| + 1 && t.heap[func].outside == 1 && t.frames == []
    ensures t.records == [Live(Notify(func, |s.heap|, None, LOAD_DIRECTORY, None), NoBuffer, Waiting)]
  {
    hide Fits, StartStep, Held;
    var e := Start(LOAD_DIRECTORY, [], func, None, job);
    assert s.heap[func].rc >= s.heap[func].outside;
    StartStage(s, func, job);
    StepKeeps(s, e);
    t := Step(s, e);
  }

  lemma DropMoves(s: State, func: Ref) returns (t: State)
    requires Inv(s) && BUILTINS <= func < |s.heap| && s.heap[func].outside == 1
    ensures Moves(s, PyDrop(func), t) && Stage(t, func, s.records, s.frames) && |t.heap| == |s.heap|
  {
    hide Inv;
    StepKeeps(s, PyDrop(func));
    t := Step(s, PyDrop(func));
  }

  lemma DeliverMoves(s: State, func: Ref, notify: Notify, frames: seq<Frame>, result: Code) returns (t: State)
    requires Inv(s) && Stage(s, func, [Live(notify, NoBuffer, Waiting)], frames)
    requires notify.origin == LOAD_DIRECTORY && notify.self < |s.heap|
    ensures Moves(s, Deliver(0, result, []), t) && |t.heap| >= |s.heap|
    ensures var frame := NewFrame(0, notify, result, |s.heap|);
            && Stage(t, func, [Live(notify, NoBuffer, if Failed(result) then Finishing(|frames|)
                else Waiting)], frames + [frame])
            && frame.last == Failed(result)
  {
    hide Inv, DeliverStep, Failed, NewFrame, HeapAtCall;
    var e := Deliver(0, result, []);
    assert Enabled(s, e);
    StepKeeps(s, e);
    DeliverStage(s, func, notify, frames, result);
    t := Step(s, e);
  }

  lemma ReturnMoves(s: State, func: Ref, f: nat) returns (t: State)
    requires Inv(s) && f < |s.frames| && s.frames[f].Active? && s.frames[f].last
    requires func < |s.heap| && s.heap[func].outside == 0
    ensures Moves(s, Return(f), t) && s.frames[f].record < |s.records|
    ensures Stage(t, func, s.records[s.frames[f].record := Freed], s.frames[f := Done])
  {
    hide Inv, ReturnStep, ReturnIsSafe;
    StepKeeps(s, Return(f));
    LastRecord(s, f);
    ReturnStage(s, func, f);
    t := Step(s, Return(f));
  }

  lemma LastRecord(s: State, f: nat)
    requires ReturnIsSafe(s, f) && s.frames[f].last
    ensures s.frames[f].record < |s.records|
  {
  }

  /** A function nobody refers to is dead. */
  lemma Unheld(s: State, func: Ref, frame: Frame)
    requires Inv(s) && Stage(s, func, [Freed], [frame, Done]) && func !in FrameBag(frame)
    ensures !Alive(s.heap, func)
  {
    hide Inv, FrameBag;
    AliveIffHeld(s, func);
    assert FrameBag(Done) == multiset{} by { DoneHoldsNothing(); }
  }

  lemma DoneHoldsNothing()
    ensures FrameBag(Done) == multiset{}
  {
  }

  lemma IsRun(states: seq<State>, events: seq<Event>)
    requires |states| == |events| + 1 && Initial(states[0])
    requires forall i :: 0 <= i < |events| ==> Moves(states[i], events[i], states[i + 1])
    ensures Run(states, events)
  {
    hide Inv, Safe, Step, Enabled, Initial, Moves;
    forall i | 0 <= i < |events|
      ensures Enabled(states[i], events[i])
      ensures Safe(states[i], events[i]) ==> states[i + 1] == Step(states[i], events[i])
    {
      assert Moves(states[i], events[i], states[i + 1]);
      MovesIsStep(states[i], events[i], states[i + 1]);
    }
  }

  lemma MovesIsStep(s: State, e: Event, t: State)
    requires Moves(s, e, t)
    ensures Enabled(s, e) && Safe(s, e) && t == Step(s, e)
  {
  }

  /** From any state before the module is used: a program starts to load a directory with a function that
      it gives away, a part of the directory is delivered, and while the function runs the end of the
      directory is delivered and that callback returns.  The outer callback is still active, and its
      function is dead. */
  lemma FunctionCanDieRunning(s: State, func: Ref, job: Job) returns (states: seq<State>, events: seq<Event>)
    requires Initial(s) && BUILTINS <= func < |s.heap| && s.heap[func].body.Function? && s.heap[func].outside == 1
    ensures events == [Start(LOAD_DIRECTORY, [], func, None, job), PyDrop(func), Deliver(0, OK, []),
                       Deliver(0, ERROR_EOF, []), Return(1)]
    ensures Run(states, events) && states[0] == s
    ensures states[3].records[0].notify.func == func && |states[3].frames| == 1 && states[3].frames[0].Active?
    ensures |states[5].frames| == 2 && states[5].frames[0] == states[3].frames[0]
    ensures func < |states[5].heap| && !Alive(states[5].heap, func)
  {
    hide Inv, Safe, Step, Enabled, Moves, FrameBag, NewFrame, Initial, RecordBag;
    events := [Start(LOAD_DIRECTORY, [], func, None, job), PyDrop(func), Deliver(0, OK, []),
               Deliver(0, ERROR_EOF, []), Return(1)];
    Beginning(s);
    var notify := Notify(func, |s.heap|, None, LOAD_DIRECTORY, None);
    var s1 := StartMoves(s, func, job);
    MovesKeeps(s, events[0], s1);
    var s2 := DropMoves(s1, func);
    MovesKeeps(s1, events[1], s2);
    var s3 := DeliverMoves(s2, func, notify, [], OK);
    MovesKeeps(s2, events[2], s3);
    Verdicts();
    var frame := NewFrame(0, notify, OK, |s2.heap|);
    assert s3.frames == [frame];
    var s4 := DeliverMoves(s3, func, notify, [frame], ERROR_EOF);
    MovesKeeps(s3, events[3], s4);
    NewFrameIs(notify, ERROR_EOF, |s3.heap|);
    NewFrameIs(notify, OK, |s2.heap|);
    var s5 := ReturnMoves(s4, func, 1);
    MovesKeeps(s4, events[4], s5);
    NotPassed(func, notify, |s2.heap|);
    assert s5.records == [Freed] && s5.frames == [frame, Done];
    Unheld(s5, func, frame);
    states := [s, s1, s2, s3, s4, s5];
    IsRun(states, events);
  }

  lemma Beginning(s: State)
    requires Initial(s)
    ensures Inv(s) && s.records == [] && s.frames == []
  {
    InitialIsGood(s);
  }

  lemma MovesKeeps(s: State, e: Event, t: State)
    requires Moves(s, e, t)
    ensures Inv(t)
  {
  }

  lemma Verdicts()
    ensures !Failed(OK) && Failed(ERROR_EOF)
  {
  }

  lemma NewFrameIs(n: Notify, result: Code, newRef: Ref)
    ensures NewFrame(0, n, result, newRef).Active? && NewFrame(0, n, result, newRef).record == 0
  {
  }
}
