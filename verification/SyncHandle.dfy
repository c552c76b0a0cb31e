/** The life of a synchronous file handle: gnomevfs/vfs-handle.c.

    What GnomeVFS answers is arbitrary.  While it works on an open, a close or another operation, anything
    may happen: a method written in Python may run and use the same handle again, and other threads may.
    So each of these begins and ends in two separate events.  The library calls a handle makes are kept in
    a log; a descriptor is known by the number of its opening.
 */
module SyncHandle {
  import opened Options
  import opened VfsErrors

  datatype Op = READ(bytes: int) | WRITE | SEEK | TELL | GET_FILE_INFO | TRUNCATE | FILE_CONTROL

  /** A library call; `OnNull` passes NULL for the descriptor. */
  datatype Call = Opened(fd: nat) | Closed(fd: nat) | Used(fd: nat, op: Op) | OnNull(op: Op)

  /** A library call in progress. */
  datatype Activity = Opening | Closing(fd: nat) | Using | Over

  datatype State = State(fd: Option<nat>, openings: nat, log: seq<Call>, activities: seq<Activity>, gone: bool)

  /** `refused` is the exception of the argument parser, if it is not content.  `code` is GnomeVFS's
      answer, and `delivered` says whether the handle that comes with it is not NULL. */
  datatype Event =
    | BeginInit(refused: Option<Class>)
    | EndInit(a: nat, code: Code, delivered: bool)
    | BeginClose
    | EndClose(a: nat)
    | BeginUse(op: Op, refused: Option<Class>)
    | EndUse(a: nat)
    | Dealloc

  datatype Reply = Value | Raise(c: Class)

  function CheckReply(code: Code): Reply {
    if ResultCheck(code).Some? then Raise(ResultCheck(code).value) else Value
  }

  /** A library call answers with a value exactly if `result_check` is silent, and else raises its class. */
  lemma ReplyTells(code: Code, c: Class)
    ensures CheckReply(code) == Value <==> code == OK || code.OTHER?
    ensures CheckReply(code) == Raise(c) <==> ResultCheck(code) == Some(c)
  {
    SilentCodes(code);
  }

  // ------------------------------------------------------------------ steps

  /** What can happen.  A method in progress keeps the object. */
  predicate Enabled(s: State, e: Event) {
    && !s.gone
    && match e
       case EndInit(a, _, _) => a < |s.activities| && s.activities[a].Opening?
       case EndClose(a) => a < |s.activities| && s.activities[a].Closing?
       case EndUse(a) => a < |s.activities| && s.activities[a].Using?
       case Dealloc => forall a :: 0 <= a < |s.activities| ==> s.activities[a].Over?
       case _ => true
  }

  /** An `__init__` that stores what it got, be it NULL. */
  predicate Stores(e: Event) {
    e.EndInit? && ResultCheck(e.code).None?
  }

  /** The operation gets as far as the library. */
  predicate Asks(s: State, op: Op, refused: Option<Class>) {
    refused.None? && (op.READ? ==> op.bytes > 0) && (s.fd.Some? || op == FILE_CONTROL)
  }

  function Begin(s: State, log: seq<Call>, a: Activity): State {
    s.(log := s.log + log, activities := s.activities + [a])
  }

  function End(s: State, a: nat): State
    requires a < |s.activities|
  {
    s.(activities := s.activities[a := Over])
  }

  function EnabledStep(s: State, e: Event): State
    requires Enabled(s, e)
  {
    match e
    case BeginInit(refused) => if refused.Some? then s else Begin(s, [], Opening)
    case EndInit(a, _, delivered) =>
      if !Stores(e) then End(s, a)
      else if !delivered then End(s, a).(fd := None)
      else End(s, a).(fd := Some(s.openings), openings := s.openings + 1, log := s.log + [Opened(s.openings)])
    case BeginClose => if s.fd.None? then s else Begin(s, [Closed(s.fd.value)], Closing(s.fd.value))
    case EndClose(a) => End(s, a).(fd := None)
    case BeginUse(op, refused) =>
      if !Asks(s, op, refused) then s
      else Begin(s, [if s.fd.Some? then Used(s.fd.value, op) else OnNull(op)], Using)
    case EndUse(a) => End(s, a)
    case Dealloc => s.(log := if s.fd.Some? then s.log + [Closed(s.fd.value)] else s.log, fd := None, gone := true)
  }

  /** An event that cannot happen changes nothing. */
  function Step(s: State, e: Event): State {
    if Enabled(s, e) then EnabledStep(s, e) else s
  }

  const NEW := State(None, 0, [], [], false)

  /** What a sequence of events makes of a new object. */
  function After(events: seq<Event>): State {
    if events == [] then NEW else Step(After(events[..|events| - 1]), events[|events| - 1])
  }

  function Closings(s: State, fd: nat): nat {
    multiset(s.log)[Closed(fd)]
  }

  // ------------------------------------------------------------------ descriptors

  /** A close of the descriptor is in progress. */
  ghost predicate BeingClosed(s: State, fd: nat) {
    exists a :: 0 <= a < |s.activities| && s.activities[a] == Closing(fd)
  }

  ghost predicate Inv(s: State) {
    && (s.fd.Some? ==> s.fd.value < s.openings && (Closings(s, s.fd.value) > 0 ==> BeingClosed(s, s.fd.value)))
    && (forall fd :: fd >= s.openings ==> Closed(fd) !in s.log)
    && (forall fd: nat :: fd < s.openings <==> Opened(fd) in s.log)
    && (forall a :: 0 <= a < |s.activities| && s.activities[a].Closing? ==> Closed(s.activities[a].fd) in s.log)
  }

  /** The event overwrites the descriptor of a handle although nobody has begun to close it: the end of
      an `__init__` on an open handle, or the end of a close after an `__init__` ended in between. */
  ghost predicate Forgets(s: State, e: Event) {
    && Enabled(s, e) && (Stores(e) || e.EndClose?)
    && s.fd.Some? && !BeingClosed(s, s.fd.value)
  }

  /** A close begins while a close of the same descriptor is in progress. */
  ghost predicate ClosesAgain(s: State, e: Event) {
    Enabled(s, e) && e.BeginClose? && s.fd.Some? && BeingClosed(s, s.fd.value)
  }

  /** An operation begins on a descriptor while a close of it is in progress. */
  ghost predicate UsesLate(s: State, e: Event) {
    Enabled(s, e) && e.BeginUse? && Asks(s, e.op, e.refused) && s.fd.Some? && BeingClosed(s, s.fd.value)
  }

  lemma ClosedMore(log: seq<Call>, c: Call, fd: nat)
    ensures multiset(log + [c])[Closed(fd)] == multiset(log)[Closed(fd)] + if c == Closed(fd) then 1 else 0
    ensures Closed(fd) in log + [c] <==> Closed(fd) in log || c == Closed(fd)
    ensures Opened(fd) in log + [c] <==> Opened(fd) in log || c == Opened(fd)
    ensures multiset(log)[Closed(fd)] > 0 <==> Closed(fd) in log
  {
  }

  /** The calls a step adds. */
  function NewCalls(s: State, e: Event): seq<Call> {
    if !Enabled(s, e) then []
    else
      match e
      case EndInit(_, _, delivered) => if Stores(e) && delivered then [Opened(s.openings)] else []
      case BeginClose => if s.fd.Some? then [Closed(s.fd.value)] else []
      case BeginUse(op, refused) =>
        if !Asks(s, op, refused) then [] else if s.fd.Some? then [Used(s.fd.value, op)] else [OnNull(op)]
      case Dealloc => if s.fd.Some? then [Closed(s.fd.value)] else []
      case _ => []
  }

  lemma StepCalls(s: State, e: Event)
    ensures Step(s, e).log == s.log + NewCalls(s, e) && |NewCalls(s, e)| <= 1
  {
    hide ResultCheck;
  }

  lemma ActivityStays(s: State, e: Event, fd: nat)
    requires BeingClosed(s, fd) && !(e.EndClose? && Enabled(s, e) && s.activities[e.a] == Closing(fd))
    ensures BeingClosed(Step(s, e), fd)
  {
    hide ResultCheck;
    var a :| 0 <= a < |s.activities| && s.activities[a] == Closing(fd);
    assert Step(s, e).activities[a] == Closing(fd);
  }

  /** The log after a step, descriptor by descriptor. */
  lemma StepLog(s: State, e: Event, fd: nat)
    ensures var t, added := Step(s, e), NewCalls(s, e);
            && (Closed(fd) in t.log <==> Closed(fd) in s.log || added == [Closed(fd)])
            && (Opened(fd) in t.log <==> Opened(fd) in s.log || added == [Opened(fd)])
            && Closings(t, fd) == Closings(s, fd) + (if added == [Closed(fd)] then 1 else 0)
            && (Closings(s, fd) > 0 <==> Closed(fd) in s.log) && (Closings(t, fd) > 0 <==> Closed(fd) in t.log)
  {
    hide Step, NewCalls;
    StepCalls(s, e);
    var added := NewCalls(s, e);
    if added == [] {
      assert s.log + added == s.log;
      ClosedMore(s.log, OnNull(SEEK), fd);
    } else {
      assert added == [added[0]];
      ClosedMore(s.log, added[0], fd);
      ClosedMore(s.log + added, OnNull(SEEK), fd);
    }
  }

  lemma InvKeeps(s: State, e: Event)
    requires Inv(s)
    ensures Inv(Step(s, e))
  {
    hide ResultCheck, Closings, Asks;
    var t := Step(s, e);
    forall fd: nat
      ensures fd >= t.openings ==> Closed(fd) !in t.log
      ensures fd < t.openings <==> Opened(fd) in t.log
    {
      StepLog(s, e, fd);
    }
    forall a | 0 <= a < |t.activities| && t.activities[a].Closing? ensures Closed(t.activities[a].fd) in t.log {
      StepLog(s, e, t.activities[a].fd);
    }
    if t.fd.Some? {
      StepLog(s, e, t.fd.value);
      HeldKeeps(s, e, t.fd.value);
    }
  }

  lemma HeldKeeps(s: State, e: Event, fd: nat)
    requires Inv(s) && Step(s, e).fd == Some(fd)
    ensures fd < Step(s, e).openings && (Closings(Step(s, e), fd) > 0 ==> BeingClosed(Step(s, e), fd))
  {
    hide ResultCheck, Closings, Asks;
    StepLog(s, e, fd);
    var t := Step(s, e);
    if Closed(fd) in t.log {
      if NewCalls(s, e) == [Closed(fd)] {
        assert t.activities[|s.activities|] == Closing(fd);
      } else {
        ActivityStays(s, e, fd);
      }
    }
  }

  // ------------------------------------------------------------------ closed exactly once

  /** So far no descriptor was closed twice, and those not closed are in the handle. */
  ghost predicate Once(s: State) {
    forall fd: nat :: fd < s.openings ==> OnceFor(s, fd)
  }

  ghost predicate OnceFor(s: State, fd: nat) {
    Closings(s, fd) <= 1 && (Closings(s, fd) == 0 ==> s.fd == Some(fd))
  }

  /** What goes wrong with a descriptor stays wrong. */
  lemma WrongStays(s: State, e: Event, fd: nat)
    requires Inv(s) && fd < s.openings && !OnceFor(s, fd)
    ensures fd < Step(s, e).openings && !OnceFor(Step(s, e), fd)
  {
    hide ResultCheck, Closings, Asks;
    StepLog(s, e, fd);
  }

  lemma BeingClosedIff(s: State)
    requires Inv(s) && s.fd.Some?
    ensures BeingClosed(s, s.fd.value) <==> Closings(s, s.fd.value) > 0
    ensures s.fd.value < s.openings
  {
    StepLog(s, EndUse(|s.activities|), s.fd.value);
  }

  lemma StepOnce(s: State, e: Event)
    requires Inv(s)
    ensures Once(Step(s, e)) <==> Once(s) && !Forgets(s, e) && !ClosesAgain(s, e)
  {
    hide ResultCheck, Closings, Asks, Inv, OnceFor;
    if Once(s) {
      if s.fd.Some? {
        BeingClosedIff(s);
      }
      if Forgets(s, e) || ClosesAgain(s, e) {
        GoesWrong(s, e, s.fd.value);
      } else {
        forall fd: nat | fd < Step(s, e).openings ensures OnceFor(Step(s, e), fd) {
          GoesRight(s, e, fd);
        }
      }
    } else {
      var fd: nat :| fd < s.openings && !OnceFor(s, fd);
      WrongStays(s, e, fd);
    }
  }

  lemma GoesWrong(s: State, e: Event, fd: nat)
    requires Inv(s) && s.fd == Some(fd) && (Forgets(s, e) || ClosesAgain(s, e))
    ensures fd < Step(s, e).openings && !OnceFor(Step(s, e), fd)
  {
    hide ResultCheck, Closings, Asks, BeingClosed;
    BeingClosedIff(s);
    StepLog(s, e, fd);
  }

  lemma GoesRight(s: State, e: Event, fd: nat)
    requires Inv(s) && Once(s) && !Forgets(s, e) && !ClosesAgain(s, e) && fd < Step(s, e).openings
    ensures OnceFor(Step(s, e), fd)
  {
    hide ResultCheck, Closings, Asks, BeingClosed;
    StepLog(s, e, fd);
    if fd < s.openings {
      assert OnceFor(s, fd);
    }
    if s.fd.Some? {
      BeingClosedIff(s);
      NotClosingAtTheEnd(s, e);
    }
  }

  lemma NotClosingAtTheEnd(s: State, e: Event)
    ensures Enabled(s, e) && e.Dealloc? && s.fd.Some? ==> !BeingClosed(s, s.fd.value)
  {
  }

  lemma {:induction false} OnceIff(events: seq<Event>)
    ensures Inv(After(events))
    ensures Once(After(events)) <==> forall i :: 0 <= i < |events| ==> GoesWell(events, i)
  {
    hide Inv, Step, Once, Forgets, ClosesAgain;
    if events == [] {
      NewIsGood();
    } else {
      var n := |events| - 1;
      OnceIff(events[..n]);
      forall i | 0 <= i < n ensures GoesWell(events[..n], i) <==> GoesWell(events, i) {
        assert events[..n][..i] == events[..i];
      }
      assert forall i :: 0 <= i < |events[..n]| ==> (GoesWell(events[..n], i) <==> GoesWell(events, i));
      InvKeeps(After(events[..n]), events[n]);
      StepOnce(After(events[..n]), events[n]);
      assert Once(After(events)) <==> Once(After(events[..n])) && GoesWell(events, n);
    }
  }

  lemma NewIsGood()
    ensures Inv(NEW) && Once(NEW)
  {
  }

  /** Event `i` neither makes the handle forget a descriptor nor closes one again. */
  ghost predicate GoesWell(events: seq<Event>, i: nat)
    requires i < |events|
  {
    !Forgets(After(events[..i]), events[i]) && !ClosesAgain(After(events[..i]), events[i])
  }

  /** When the object is gone, each descriptor it was given was closed exactly once, if and only if no
      close began while a close of the same descriptor was in progress, and no `__init__` or close ended
      while the handle held a descriptor nobody had begun to close. */
  lemma ClosedExactlyOnce(events: seq<Event>)
    requires After(events).gone
    ensures (forall fd: nat :: fd < After(events).openings ==> Closings(After(events), fd) == 1)
       <==> forall i :: 0 <= i < |events| ==> GoesWell(events, i)
  {
    hide Inv, Step, GoesWell, Closings;
    OnceIff(events);
    GoneHoldsNothing(events);
    var s := After(events);
    assert forall fd: nat :: OnceFor(s, fd) <==> Closings(s, fd) == 1;
  }

  lemma {:induction false} GoneHoldsNothing(events: seq<Event>)
    requires After(events).gone
    ensures After(events).fd == None
  {
    var n := |events| - 1;
    if After(events[..n]).gone {
      GoneHoldsNothing(events[..n]);
    }
  }

  // ------------------------------------------------------------------ the order of library calls

  /** Call `k` closes or uses a descriptor that was opened before and not closed before. */
  ghost predicate InOrder(log: seq<Call>, k: nat)
    requires k < |log|
  {
    match log[k]
    case Opened(_) => true
    case OnNull(op) => op == FILE_CONTROL
    case Closed(fd) => Opened(fd) in log[..k] && Closed(fd) !in log[..k]
    case Used(fd, _) => Opened(fd) in log[..k] && Closed(fd) !in log[..k]
  }

  ghost predicate AllInOrder(log: seq<Call>) {
    forall k :: 0 <= k < |log| ==> InOrder(log, k)
  }

  lemma OrderAppend(log: seq<Call>, c: Call)
    ensures AllInOrder(log + [c]) <==> AllInOrder(log) && InOrder(log + [c], |log|)
  {
    var more := log + [c];
    assert forall k :: 0 <= k < |log| ==> more[..k] == log[..k] && more[k] == log[k];
    assert forall k :: 0 <= k < |log| ==> (InOrder(more, k) <==> InOrder(log, k));
  }

  lemma StepOrder(s: State, e: Event)
    requires Inv(s)
    ensures AllInOrder(Step(s, e).log) <==> AllInOrder(s.log) && !ClosesAgain(s, e) && !UsesLate(s, e)
  {
    hide ResultCheck, Closings, BeingClosed, AllInOrder, Step;
    StepCalls(s, e);
    var added := NewCalls(s, e);
    if s.fd.Some? {
      BeingClosedIff(s);
      StepLog(s, EndUse(|s.activities|), s.fd.value);
    }
    if added == [] {
      assert s.log + added == s.log;
    } else {
      assert added == [added[0]] && (s.log + added)[..|s.log|] == s.log;
      OrderAppend(s.log, added[0]);
      NotClosingAtTheEnd(s, e);
    }
  }

  /** Event `i` begins no use and no close of a descriptor that is being closed. */
  ghost predicate InTime(events: seq<Event>, i: nat)
    requires i < |events|
  {
    !ClosesAgain(After(events[..i]), events[i]) && !UsesLate(After(events[..i]), events[i])
  }

  /** Every descriptor is used and closed only after its opening and before its closing, if and only if
      no use and no close of it began while a close of it was in progress. */
  lemma {:induction false} CallsAreInOrderIff(events: seq<Event>)
    ensures AllInOrder(After(events).log) <==> forall i :: 0 <= i < |events| ==> InTime(events, i)
  {
    hide Inv, Step, ClosesAgain, UsesLate, AllInOrder;
    if events == [] {
      NothingYet();
    } else {
      var n := |events| - 1;
      CallsAreInOrderIff(events[..n]);
      forall i | 0 <= i < n ensures InTime(events[..n], i) <==> InTime(events, i) {
        assert events[..n][..i] == events[..i];
      }
      OnceIff(events[..n]);
      StepOrder(After(events[..n]), events[n]);
      assert AllInOrder(After(events).log) <==> AllInOrder(After(events[..n]).log) && InTime(events, n);
    }
  }

  lemma NothingYet()
    ensures AllInOrder(NEW.log)
  {
  }

  /** A close called while a close is in progress, by a method written in Python that the first one runs:
      the descriptor is closed twice. */
  lemma ClosingTwice()
    ensures var begin := [BeginInit(None), EndInit(0, OK, true), BeginClose, BeginClose];
            After(begin + [EndClose(2), EndClose(1)]).log == [Opened(0), Closed(0), Closed(0)]
  {
    hide After, ResultCheck;
    SilentCodes(OK);
    AfterNothing();
    AfterMore([], BeginInit(None));
    AfterMore([] + [BeginInit(None)], EndInit(0, OK, true));
    var two := [] + [BeginInit(None)] + [EndInit(0, OK, true)];
    AfterMore(two, BeginClose);
    AfterMore(two + [BeginClose], BeginClose);
    var four := two + [BeginClose] + [BeginClose];
    AfterMore(four, EndClose(2));
    AfterMore(four + [EndClose(2)], EndClose(1));
    assert four == [BeginInit(None), EndInit(0, OK, true), BeginClose, BeginClose];
    assert four + [EndClose(2), EndClose(1)] == four + [EndClose(2)] + [EndClose(1)];
  }

  /** `__init__` run twice: the first descriptor is never closed. */
  lemma ReopeningForgets()
    ensures After([BeginInit(None), EndInit(0, OK, true), BeginInit(None), EndInit(1, OK, true), Dealloc]).log
         == [Opened(0), Opened(1), Closed(1)]
  {
    hide After, ResultCheck;
    SilentCodes(OK);
    AfterNothing();
    AfterMore([], BeginInit(None));
    AfterMore([] + [BeginInit(None)], EndInit(0, OK, true));
    var two := [] + [BeginInit(None)] + [EndInit(0, OK, true)];
    AfterMore(two, BeginInit(None));
    AfterMore(two + [BeginInit(None)], EndInit(1, OK, true));
    var four := two + [BeginInit(None)] + [EndInit(1, OK, true)];
    AfterMore(four, Dealloc);
    assert four + [Dealloc] == [BeginInit(None), EndInit(0, OK, true), BeginInit(None), EndInit(1, OK, true), Dealloc];
  }

  lemma AfterNothing()
    ensures After([]) == NEW
  {
  }

  lemma AfterMore(events: seq<Event>, e: Event)
    ensures After(events + [e]) == Step(After(events), e)
  {
    assert (events + [e])[..|events|] == events;
  }

  /** A closed handle stays closed, and leaves the library alone but for file_control, until an
      `__init__` stores a handle. */
  lemma {:induction false} ClosedStaysClosed(events: seq<Event>, from: nat)
    requires from <= |events| && After(events[..from]).fd == None
    requires forall i :: from <= i < |events| ==> !Stores(events[i])
    ensures After(events).fd == None
    ensures After(events[..from]).log <= After(events).log
    ensures forall k :: |After(events[..from]).log| <= k < |After(events).log| ==>
              After(events).log[k] == OnNull(FILE_CONTROL)
    decreases |events|
  {
    hide Step, Stores;
    var n := |events| - 1;
    if from == |events| {
      assert events[..from] == events;
    } else {
      assert events[..n][..from] == events[..from];
      ClosedStaysClosed(events[..n], from);
      ClosedStep(After(events[..n]), events[n]);
    }
  }

  lemma ClosedStep(s: State, e: Event)
    requires s.fd == None && !Stores(e)
    ensures Step(s, e).fd == None
    ensures Step(s, e).log == s.log || Step(s, e).log == s.log + [OnNull(FILE_CONTROL)]
  {
    hide ResultCheck;
  }

  // ------------------------------------------------------------------ the object

  class Handle {
    var fd: Option<nat>
    ghost var openings: nat
    ghost var log: seq<Call>
    ghost var activities: seq<Activity>
    ghost var gone: bool

    ghost function St(): State
      reads this
    {
      State(fd, openings, log, activities, gone)
    }

    constructor ()
      ensures St() == NEW
    {
      fd, openings, log, activities, gone := None, 0, [], [], false;
    }

    /** `pygvhandle_init` up to the library call. */
    method InitBegin(refused: Option<Class>) returns (r: Reply)
      requires !gone
      modifies this
      ensures St() == Step(old(St()), BeginInit(refused)) && fd == old(fd)
      ensures r == if refused.Some? then Raise(refused.value) else Value
    {
      if refused.Some? {
        return Raise(refused.value);
      }
      activities := activities + [Opening];
      return Value;
    }

    /** ... and from its return on; `handle` is the descriptor delivered. */
    method InitEnd(ghost a: nat, code: Code, handle: Option<nat>) returns (r: Reply)
      requires !gone && a < |activities| && activities[a].Opening? && (handle.Some? ==> handle.value == openings)
      modifies this
      ensures St() == Step(old(St()), EndInit(a, code, handle.Some?)) && r == CheckReply(code)
      ensures fd == (if r == Value then handle else old(fd))
      ensures log == if r == Value && handle.Some? then old(log) + [Opened(handle.value)] else old(log)
    {
      activities := activities[a := Over];
      var raised := ResultCheck(code);
      if raised.Some? {
        return Raise(raised.value);
      }
      fd := handle;
      if handle.Some? {
        log, openings := log + [Opened(openings)], openings + 1;
      }
      return Value;
    }

    /** `pygvhandle_close` up to the library call, if there is one. */
    method CloseBegin() returns (calls: bool)
      requires !gone
      modifies this
      ensures St() == Step(old(St()), BeginClose) && fd == old(fd) && (calls <==> fd.Some?)
      ensures log == if calls then old(log) + [Closed(fd.value)] else old(log)
    {
      if fd.Some? {
        log, activities := log + [Closed(fd.value)], activities + [Closing(fd.value)];
      }
      return fd.Some?;
    }

    /** ... and from its return on: whatever the library answers, the handle is closed and nothing is
        raised. */
    method CloseEnd(ghost a: nat, code: Code) returns (r: Reply)
      requires !gone && a < |activities| && activities[a].Closing?
      modifies this
      ensures St() == Step(old(St()), EndClose(a)) && fd == None && r == Value
    {
      activities := activities[a := Over];
      fd := None;
      return Value;
    }

    /** `pygvhandle_dealloc`. */
    method DeallocHandle(code: Code)
      requires Enabled(St(), Dealloc)
      modifies this
      ensures St() == Step(old(St()), Dealloc)
    {
      if fd.Some? {
        log := log + [Closed(fd.value)];
      }
      fd, gone := None, true; // the object is gone
    }

    /** read, write, seek, tell, get_file_info and truncate up to the library call, if they get so far:
        a closed handle raises ValueError before it looks at its arguments and is left as it was. */
    method UseBegin(op: Op, refused: Option<Class>) returns (calls: bool, r: Reply)
      requires !gone && op != FILE_CONTROL
      modifies this
      ensures St() == Step(old(St()), BeginUse(op, refused)) && fd == old(fd)
      ensures fd.None? ==> !calls && r == Raise(VALUE_ERROR) && St() == old(St())
      ensures fd.Some? && refused.Some? ==> !calls && r == Raise(refused.value) && St() == old(St())
      ensures fd.Some? && refused.None? && op.READ? && op.bytes < 0 ==>
                !calls && r == Raise(VALUE_ERROR) && St() == old(St())
      ensures fd.Some? && refused.None? && op == READ(0) ==> !calls && r == Value && St() == old(St())
      ensures calls <==> fd.Some? && refused.None? && (op.READ? ==> op.bytes > 0)
      ensures log == if calls then old(log) + [Used(fd.value, op)] else old(log)
    {
      if fd.None? {
        return false, Raise(VALUE_ERROR);
      }
      if refused.Some? {
        return false, Raise(refused.value);
      }
      if op.READ? {
        if op.bytes < 0 {
          return false, Raise(VALUE_ERROR);
        } else if op.bytes == 0 {
          return false, Value;
        }
      }
      log, activities := log + [Used(fd.value, op)], activities + [Using];
      return true, Value;
    }

    /** ... and from its return on. */
    method UseEnd(ghost a: nat, code: Code) returns (r: Reply)
      requires !gone && a < |activities| && activities[a].Using?
      modifies this
      ensures St() == Step(old(St()), EndUse(a)) && fd == old(fd) && r == CheckReply(code)
    {
      activities := activities[a := Over];
      var raised := ResultCheck(code);
      return if raised.Some? then Raise(raised.value) else Value;
    }

    /** `pygvhandle_file_control` asks the library even with a closed handle. */
    method FileControlBegin(refused: Option<Class>) returns (r: Reply)
      requires !gone
      modifies this
      ensures St() == Step(old(St()), BeginUse(FILE_CONTROL, refused)) && fd == old(fd)
      ensures r == if refused.Some? then Raise(refused.value) else Value
      ensures refused.None? ==>
                log == old(log) + [if fd.Some? then Used(fd.value, FILE_CONTROL) else OnNull(FILE_CONTROL)]
    {
      if refused.Some? {
        return Raise(refused.value);
      }
      log := log + [if fd.Some? then Used(fd.value, FILE_CONTROL) else OnNull(FILE_CONTROL)];
      activities := activities + [Using];
      return Value;
    }

    method FileControlEnd(ghost a: nat, answered: bool) returns (r: Reply)
      requires !gone && a < |activities| && activities[a].Using?
      modifies this
      ensures St() == Step(old(St()), EndUse(a)) && r == if answered then Value else Raise(TYPE_ERROR)
    {
      activities := activities[a := Over];
      return if answered then Value else Raise(TYPE_ERROR);
    }
  }
}
