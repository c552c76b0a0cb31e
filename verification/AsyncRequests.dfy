/** What the functions and the callbacks of gnomevfs/vfs-async-handle.c do, function by function, told
    without the steps of the machine: which calls are refused, what a request registers and does to its
    handle, what the Python function of a callback is called with, and what the return of a callback frees. */
module AsyncRequests {
  import opened Options
  import opened VfsErrors
  import opened PyHeap
  import opened AsyncMachine
  import opened AsyncSafety

  // ------------------------------------------------------------------ which calls are refused

  /** close, read and write look at the handle first, then at the callable, then at the string. */
  lemma RefusedExactly(s: State, e: Event)
    requires Enabled(s, e) && (e.Close? || e.Read? || e.Write?)
    ensures ReplyTo(s, e) == ValueError <==> s.heap[e.self].body == Handle(None)
    ensures ReplyTo(s, e) == TypeError
       <==> && s.heap[e.self].body != Handle(None)
            && (s.heap[e.func].body != Function || (e.Write? && s.heap[e.text].body != Text))
  {
  }

  /** The functions that start a request want a callable and URIs that can be made; get_file_info does not
      look whether a string can be parsed. */
  lemma StartRefusedExactly(s: State, e: Event)
    requires Enabled(s, e) && e.Start?
    ensures ReplyTo(s, e) != ValueError
    ensures ReplyTo(s, e) == TypeError
       <==> || s.heap[e.func].body != Function
            || NotAUri in e.uris
            || (UriText(false) in e.uris && e.origin != G_INFO)
  {
    if exists i :: 0 <= i < |e.uris| && !UriAccepted(e.origin, e.uris[i]) {
      var i :| 0 <= i < |e.uris| && !UriAccepted(e.origin, e.uris[i]);
      assert e.uris[i] == NotAUri || e.uris[i] == UriText(false);
    } else {
      assert forall i :: 0 <= i < |e.uris| ==> UriAccepted(e.origin, e.uris[i]);
    }
  }

  lemma RefusalChangesNothing(s: State, e: Event)
    requires Enabled(s, e) && Safe(s, e) && ReplyTo(s, e) != Accepted
    ensures Step(s, e) == s
  {
  }

  // ------------------------------------------------------------------ what a request registers

  /** `t` has one more record than `s`, the given one, waiting for its callback. */
  ghost predicate Registers(s: State, t: State, notify: Notify, buffer: Buffer) {
    t.records == s.records + [Live(notify, buffer, Waiting)] && t.frames == s.frames
  }

  /** What every object is, but `self`, is as before. */
  ghost predicate OthersStay(s: State, t: State, self: Ref) {
    |s.heap| <= |t.heap| && forall o :: 0 <= o < |s.heap| && o != self ==> t.heap[o].body == s.heap[o].body
  }

  /** An accepted close closes the handle at once, and only this one. */
  lemma CloseCloses(s: State, e: Event)
    requires Inv(s) && Enabled(s, e) && Safe(s, e) && e.Close? && ReplyTo(s, e) == Accepted
    ensures var t := Step(s, e);
            && OthersStay(s, t, e.self) && t.heap[e.self].body == Handle(None)
            && Registers(s, t, Notify(e.func, e.self, e.data, CLOSE, None), NoBuffer) && t.blocks == s.blocks
  {
    hide Inv, NotifyBag;
  }

  /** So does cancel, which registers nothing and leaves outstanding records alone. */
  lemma CancelCloses(s: State, e: Event)
    requires Inv(s) && Enabled(s, e) && Safe(s, e) && e.Cancel?
    ensures var t := Step(s, e);
            && OthersStay(s, t, e.self) && t.heap[e.self].body == Handle(None)
            && t.records == s.records && t.frames == s.frames && t.blocks == s.blocks
  {
    hide Inv;
  }

  /** After a close or a cancel, over any run, every read, write and close on the handle raises ValueError
      and leaves the state as it is. */
  lemma ClosedForGood(states: seq<State>, events: seq<Event>, i: nat, j: nat)
    requires Run(states, events) && i < j < |events|
    requires events[i].Cancel? || (events[i].Close? && Enabled(states[i], events[i])
                                   && ReplyTo(states[i], events[i]) == Accepted)
    requires (events[j].Close? || events[j].Read? || events[j].Write?) && events[j].self == events[i].self
    ensures Enabled(states[j], events[j])
    ensures ReplyTo(states[j], events[j]) == ValueError && states[j + 1] == states[j]
  {
    hide Inv, Safe, Step, OthersStay, Registers;
    RunKeeps(states, events, i);
    assert Enabled(states[i], events[i]);
    if events[i].Close? {
      CloseCloses(states[i], events[i]);
    } else {
      CancelCloses(states[i], events[i]);
    }
    StillThere(states[i], states[i + 1], events[i].self);
    ClosedIsInert(states, events, i + 1, j);
  }

  lemma StillThere(s: State, t: State, self: Ref)
    requires OthersStay(s, t, self) && self < |s.heap|
    ensures self < |t.heap|
  {
  }

  /** An accepted read of some bytes gets a block of its own; nothing happens to any handle. */
  lemma ReadRegisters(s: State, e: Event)
    requires Inv(s) && Enabled(s, e) && Safe(s, e) && e.Read? && ReplyTo(s, e) == Accepted
    ensures var t := Step(s, e);
            var notify := Notify(e.func, e.self, e.data, READ, None);
            && OthersStay(s, t, e.self) && t.heap[e.self].body == s.heap[e.self].body
            && (e.bytes > 0 ==>
                  Registers(s, t, notify, Malloced(|s.blocks|)) && t.blocks == s.blocks + [InUse(|s.records|)])
            && (e.bytes == 0 ==> Registers(s, t, notify, NoBuffer) && t.blocks == s.blocks)
  {
    hide Inv, NotifyBag;
  }

  /** An accepted write keeps the string it writes from. */
  lemma WriteRegisters(s: State, e: Event)
    requires Inv(s) && Enabled(s, e) && Safe(s, e) && e.Write? && ReplyTo(s, e) == Accepted
    ensures var t := Step(s, e);
            && OthersStay(s, t, e.self) && t.heap[e.self].body == s.heap[e.self].body
            && Registers(s, t, Notify(e.func, e.self, e.data, WRITE, Some(e.text)), StringOf(e.text))
            && t.blocks == s.blocks
  {
    hide Inv, NotifyBag;
  }

  /** An accepted start makes a new handle, open, which the caller gets. */
  lemma StartRegisters(s: State, e: Event)
    requires Inv(s) && Enabled(s, e) && Safe(s, e) && e.Start? && ReplyTo(s, e) == Accepted
    ensures var t := Step(s, e);
            var self := |s.heap|;
            && OthersStay(s, t, self) && |t.heap| == |s.heap| + 1
            && t.heap[self].body == Handle(Some(e.job)) && t.heap[self].outside == 1
            && Registers(s, t, Notify(e.func, self, e.data, e.origin, None), NoBuffer) && t.blocks == s.blocks
  {
    hide Inv, NotifyBag;
    assert |s.heap| !in Opt(e.data) && |s.heap| != e.func;
  }

  // ------------------------------------------------------------------ what a callback calls

  /** `o` is the object for a result: None if it is no error, else the class that `result_check` raises.
      The classes follow None in the order in which they are registered. */
  ghost predicate IsExceptionFor(o: Ref, result: Code) {
    match ResultCheck(result)
    case None => o == NONE
    case Some(Registered(e)) => 1 <= o <= |ORDER| && ORDER[o - 1] == e
    case Some(_) => false
  }

  /** The handle, for reads, writes, directories and get_file_info a new object, but for get_file_info the
      exception object of the result, and the data, if there are any. */
  ghost predicate AreArguments(args: seq<Ref>, notify: Notify, result: Code, newRef: Ref) {
    var data := if notify.data.Some? then [notify.data.value] else [];
    match notify.origin
    case OPEN | CREATE | CREATE_SYMLINK | CLOSE =>
      |args| == 2 + |data| && args == [notify.self, args[1]] + data && IsExceptionFor(args[1], result)
    case READ | WRITE | LOAD_DIRECTORY =>
      |args| == 3 + |data| && args == [notify.self, newRef, args[2]] + data && IsExceptionFor(args[2], result)
    case G_INFO => args == [notify.self, newRef] + data
  }

  /** A callback calls the function of its record with these arguments. */
  lemma DeliveryCalls(s: State, e: Event)
    requires Inv(s) && Enabled(s, e) && Safe(s, e) && e.Deliver?
    ensures var t := Step(s, e);
            && |t.frames| == |s.frames| + 1
            && var frame := t.frames[|s.frames|];
               && frame.Active? && frame.record == e.record
               && frame.callee == s.records[e.record].notify.func
               && AreArguments(frame.args, s.records[e.record].notify, e.result, |s.heap|)
  {
    hide Inv, HeapAtCall, NewFrame, AreArguments;
    FrameCalls(e.record, s.records[e.record].notify, e.result, |s.heap|);
  }

  lemma FrameCalls(i: nat, n: Notify, result: Code, newRef: Ref)
    ensures var frame := NewFrame(i, n, result, newRef);
            frame.record == i && frame.callee == n.func && AreArguments(frame.args, n, result, newRef)
  {
    hide ResultCheck, FreesRecord, IsExceptionFor;
    ExceptionIs(result);
  }

  lemma ExceptionIs(result: Code)
    ensures IsExceptionFor(Exception(result), result)
  {
    match ResultCheck(result)
    case Some(Registered(e)) => OrderIsComplete(e);
    case _ => AlwaysRegistered(result);
  }

  lemma AlwaysRegistered(result: Code)
    ensures ResultCheck(result).Some? ==> ResultCheck(result).value.Registered?
  {
  }

  /** How many results of a list have `o` for their exception object. */
  ghost function CountFor(batch: seq<Code>, o: Ref): nat {
    if batch == [] then 0
    else CountFor(batch[..|batch| - 1], o) + if IsExceptionFor(o, batch[|batch| - 1]) then 1 else 0
  }

  lemma {:induction false} ExceptionsAreCounted(batch: seq<Code>, o: Ref)
    ensures Exceptions(batch)[o] == CountFor(batch, o)
  {
    hide Exception, IsExceptionFor;
    if batch != [] {
      ExceptionsAreCounted(batch[..|batch| - 1], o);
      ExceptionIs(batch[|batch| - 1]);
      OneExceptionFor(Exception(batch[|batch| - 1]), o, batch[|batch| - 1]);
    }
  }

  lemma OneExceptionFor(a: Ref, b: Ref, result: Code)
    requires IsExceptionFor(a, result)
    ensures IsExceptionFor(b, result) <==> a == b
  {
    hide ORDER;
    if ResultCheck(result).Some? && IsExceptionFor(b, result) {
      OrderHasNoRepeats(a - 1, b - 1);
    }
  }

  lemma OrderHasNoRepeats(i: nat, j: nat)
    requires i < |ORDER| && j < |ORDER| && ORDER[i] == ORDER[j]
    ensures i == j
  {
    hide ORDER, Registration;
    OrderIsRegistration(i);
    OrderIsRegistration(j);
  }

  lemma OutsideAtCall(h: Heap<Body>, n: Notify, result: Code, batch: seq<Code>, o: Ref)
    requires n.self < |h| && o < |h|
    ensures var g := HeapAtCall(h, n, result, batch);
            o < |g| && g[o].outside == h[o].outside + if n.origin == G_INFO then Exceptions(batch)[o] else 0
  {
    hide FrameHeld, ClosesHandle, Exceptions;
  }

  /** The list that get_file_info's function gets keeps one reference to the exception object of each
      result; no other callback leaves a reference outside. */
  lemma ListKeepsExceptions(s: State, e: Event, o: Ref)
    requires Inv(s) && Enabled(s, e) && Safe(s, e) && e.Deliver? && o < |s.heap|
    ensures o < |Step(s, e).heap|
    ensures Step(s, e).heap[o].outside
         == s.heap[o].outside + if s.records[e.record].notify.origin == G_INFO then CountFor(e.batch, o) else 0
  {
    hide Inv, NewFrame, HeapAtCall, Exceptions, CountFor;
    ExceptionsAreCounted(e.batch, o);
    OutsideAtCall(s.heap, s.records[e.record].notify, e.result, e.batch, o);
  }

  function IfIs(a: Ref, o: Ref): nat {
    if a == o then 1 else 0
  }

  /** A record has one reference to each of the objects it names. */
  lemma RecordHolds(n: Notify, buffer: Buffer, phase: Phase, o: Ref)
    ensures RecordBag(Live(n, buffer, phase))[o]
         == IfIs(n.func, o) + IfIs(n.self, o)
            + (if n.data.Some? then IfIs(n.data.value, o) else 0)
            + (if n.extra.Some? then IfIs(n.extra.value, o) else 0)
    ensures RecordBag(Freed) == multiset{}
  {
  }

  // ------------------------------------------------------------------ what the return of a callback frees

  /** An activation is as it was begun, or over. */
  lemma {:induction false} FrameStays(states: seq<State>, events: seq<Event>, i: nat, k: nat, f: nat)
    requires Run(states, events) && i <= k <= |events| && f < |states[i].frames|
    ensures f < |states[k].frames|
    ensures states[k].frames[f].Done? || states[k].frames[f] == states[i].frames[f]
    decreases k
  {
    hide Inv, Step, Safe, Enabled;
    if i < k {
      FrameStays(states, events, i, k - 1, f);
      RunKeeps(states, events, k - 1);
      StepKeepsFrame(states[k - 1], events[k - 1], f);
    }
  }

  lemma StepKeepsFrame(s: State, e: Event, f: nat)
    requires Enabled(s, e) && Safe(s, e) && f < |s.frames|
    ensures f < |Step(s, e).frames|
    ensures Step(s, e).frames[f].Done? || Step(s, e).frames[f] == s.frames[f]
  {
    hide Retain, HeapAtCall, NewFrame, StartReply, OnOpenHandle, NotifyBag, Adopt, AliveOpt, Given, Release;
  }

  lemma {:induction false} BufferStays(states: seq<State>, events: seq<Event>, i: nat, k: nat, n: nat)
    requires Run(states, events) && i <= k <= |events| && n < |states[i].records| && states[i].records[n].Live?
    requires n < |states[k].records| && states[k].records[n].Live?
    ensures states[k].records[n].notify == states[i].records[n].notify
    ensures states[k].records[n].buffer == states[i].records[n].buffer
    decreases k
  {
    hide Inv, Step, Safe, Enabled, OneWay;
    if i < k {
      RunKeeps(states, events, k - 1);
      RunOneWay(states, events, i, k - 1);
      RunOneWay(states, events, k - 1, k);
      LiveBefore(states[i], states[k - 1], states[k], n);
      BufferStays(states, events, i, k - 1, n);
      FreedByItsCallback(states[k - 1], events[k - 1], states[k], n);
    }
  }

  lemma LiveBefore(s: State, t: State, u: State, n: nat)
    requires OneWay(s, t) && OneWay(t, u) && n < |s.records| && n < |u.records| && u.records[n].Live?
    ensures n < |t.records| && t.records[n].Live?
  {
  }

  /** The return of a callback frees the record it was called for and, after a read with a block, the
      block; but the callback for a part of a directory, one without an error, frees and changes nothing. */
  lemma ReturnFreesExactly(states: seq<State>, events: seq<Event>, i: nat, k: nat)
    requires Run(states, events) && i < k < |events|
    requires events[i].Deliver? && events[k] == Return(|states[i].frames|)
    ensures events[i].record < |states[i].records| && states[i].records[events[i].record].Live?
    ensures events[i].record < |states[k].records| && events[i].record < |states[k + 1].records|
    ensures var n := events[i].record;
            var Live(notify, buffer, _) := states[i].records[n];
            if notify.origin != LOAD_DIRECTORY || ResultCheck(events[i].result).Some? then
              && states[k].records[n].Live? && states[k + 1].records[n].Freed?
              && (buffer.Malloced? ==>
                    buffer.block < |states[k + 1].blocks| && states[k + 1].blocks[buffer.block].Released?)
            else
              states[k + 1].records == states[k].records && states[k + 1].blocks == states[k].blocks
  {
    hide Inv, Step, Safe, OneWay, ReturnIsSafe;
    RunKeeps(states, events, i);
    RunKeeps(states, events, k);
    assert Enabled(states[i], events[i]) && Enabled(states[k], events[k]);
    var n, f := events[i].record, |states[i].frames|;
    DeliveryAnnounces(states[i], events[i]);
    FrameStays(states, events, i + 1, k, f);
    RunOneWay(states, events, i, k);
    RecordsGrow(states[i], states[k]);
    RunOneWay(states, events, k, k + 1);
    RecordsGrow(states[k], states[k + 1]);
    if states[k].frames[f].last {
      LastIsLive(states[k], f);
      BufferStays(states, events, i, k, n);
    }
    ReturnDoes(states[k], f);
  }

  lemma RecordsGrow(s: State, t: State)
    requires OneWay(s, t)
    ensures |s.records| <= |t.records|
  {
  }

  /** A delivery announces whether the record will be freed. */
  lemma DeliveryAnnounces(s: State, e: Event)
    requires Inv(s) && Enabled(s, e) && Safe(s, e) && e.Deliver?
    ensures var t := Step(s, e);
            && |t.frames| == |s.frames| + 1
            && var frame := t.frames[|s.frames|];
               && frame.Active? && frame.record == e.record
               && (frame.last <==> s.records[e.record].notify.origin != LOAD_DIRECTORY || ResultCheck(e.result).Some?)
  {
    hide Inv, HeapAtCall, Arguments, ExceptionOf, ValueOf, ResultCheck;
  }

  lemma LastIsLive(s: State, f: nat)
    requires Inv(s) && f < |s.frames| && s.frames[f].Active? && s.frames[f].last
    ensures s.frames[f].record < |s.records| && s.records[s.frames[f].record].Live?
  {
    assert FrameFits(s, f);
  }

  lemma ReturnDoes(s: State, f: nat)
    requires Inv(s) && Enabled(s, Return(f)) && Safe(s, Return(f))
    ensures var t := Step(s, Return(f));
            var n := s.frames[f].record;
            if s.frames[f].last then
              && n < |s.records| && |t.records| == |s.records| && s.records[n].Live? && t.records[n].Freed?
              && (s.records[n].buffer.Malloced? ==>
                    s.records[n].buffer.block < |t.blocks| && t.blocks[s.records[n].buffer.block].Released?)
            else t.records == s.records && t.blocks == s.blocks
  {
    hide Inv, Given, Covers, Release;
  }
}
