/** The `do_*` functions of gnomevfs/gnome-vfs-python-method.c and the callbacks of
    gnomevfs/vfs-async-handle.c as users of two pieces of interpreter state: the global interpreter
    lock and the error indicator of the running thread.

    A Python function that a `do_*` function or a callback runs may call back into GnomeVFS, which may
    run further `do_*` functions and callbacks.  An `Entry` is such a tree of nested activity, with the
    outcome of every Python function in it; the tree is arbitrary.
 */
module Bridge {
  import opened Options
  import opened VfsErrors
  import FileInfo

  datatype Op =
    | OPEN | CREATE | CLOSE | READ | WRITE | SEEK | TELL | TRUNCATE_HANDLE
    | OPEN_DIRECTORY | CLOSE_DIRECTORY | READ_DIRECTORY
    | GET_FILE_INFO | GET_FILE_INFO_FROM_HANDLE | SET_FILE_INFO
    | MAKE_DIRECTORY | REMOVE_DIRECTORY | MOVE | UNLINK | CHECK_SAME_FS | TRUNCATE
    | FIND_DIRECTORY | CREATE_SYMBOLIC_LINK | FILE_CONTROL | IS_LOCAL

  /** PyObject_IsTrue, which may fail. */
  datatype Truth = IsTrue | IsFalse | TruthRaises(c: Class)

  datatype PyVal = PyInt(n: int) | PyNone | PyUri | PyOther(truth: Truth)

  /** How a Python function ends.  `Broken` is NULL without an exception of its own. */
  datatype Outcome = Returns(v: PyVal) | Raises(c: Class) | Broken

  datatype Script = Script(steps: seq<Step>, outcome: Outcome)

  /** What a Python function does that matters here. */
  datatype Step =
    /** It calls a wrapper, which calls GnomeVFS, which enters Python again; `unblocks` says that the
        wrapper lets other threads run meanwhile. */
    | CallLibrary(unblocks: bool, entries: seq<Entry>)
    /** It assigns to an attribute of a FileInfo.  If that raises, it catches the exception or ends with it. */
    | AssignInfo(attr: FileInfo.Attr, value: FileInfo.PyVal)
    /** It calls some other C function that sets an exception and reports success. */
    | SetQuietly(c: Class)
    /** It catches an exception, its own or one a wrapper raised. */
    | Catch

  /** GnomeVFS enters Python. */
  datatype Entry =
    /** By a `do_*` function.  `implemented` says that the method object has the attribute; `magicIn`
        says that the record of a file_control operation came from Python. */
    | Do(op: Op, implemented: bool, magicIn: bool, script: Script)
    /** By one of the `*_marshal` callbacks; `fetches` says that it asks for the exception object of a
        result before the call, which a callback with an empty list of results does not. */
    | Notify(fetches: bool, script: Script)
    /** By one of the progress callbacks of a transfer. */
    | Progress(script: Script)

  /** What a progress callback answers when the Python function gives no integer. */
  datatype Action = Abort | Answer(n: int)

  // ------------------------------------------------------------------ what is returned

  function TruthOf(v: PyVal): Truth {
    match v
    case PyInt(n) => if n != 0 then IsTrue else IsFalse
    case PyNone => IsFalse
    case PyUri => IsTrue
    case PyOther(t) => t
  }

  /** The code for a Python function that returned. */
  function ReturnCode(op: Op, v: PyVal): Code {
    match op
    case READ => if v.PyInt? || v.PyNone? then OK else ERROR_GENERIC
    case WRITE => if v.PyInt? || v.PyNone? then OK else ERROR_GENERIC
    case TELL => if v.PyInt? || v.PyNone? then OK else ERROR_GENERIC
    case FIND_DIRECTORY => if v.PyUri? then OK else if v.PyNone? then ERROR_NOT_FOUND else ERROR_GENERIC
    case _ => OK
  }

  /** The function is run at all. */
  predicate Runs(op: Op, implemented: bool, magicIn: bool) {
    implemented && (op == FILE_CONTROL ==> magicIn)
  }

  /** The code of a `do_*` function; `left` is the exception that was pending when its Python function
      had done its steps. */
  function DoCode(op: Op, implemented: bool, magicIn: bool, outcome: Outcome, left: Option<Class>): Code
    requires op != IS_LOCAL
  {
    if !Runs(op, implemented, magicIn) then ERROR_NOT_SUPPORTED
    else
      match outcome
      case Returns(v) => ReturnCode(op, v)
      case Raises(c) => BridgeCode(Some(c))
      case Broken => BridgeCode(left)
  }

  /** What `do_is_local` answers.  Its failure exits return a code where a boolean is expected, and the
      error value of the truth test is taken for a yes. */
  function IsLocal(implemented: bool, outcome: Outcome, left: Option<Class>): bool {
    if !implemented then true
    else
      match outcome
      case Returns(v) => !TruthOf(v).IsFalse?
      case Raises(c) => BridgeCode(Some(c)) != OK
      case Broken => BridgeCode(left) != OK
  }

  function ActionOf(outcome: Outcome): Action {
    if outcome.Returns? && outcome.v.PyInt? then Answer(outcome.v.n) else Abort
  }

  // ------------------------------------------------------------------ what is left pending

  /** The exception the truth test of `do_check_same_fs` and of `do_is_local` sets. */
  function TruthError(op: Op, v: PyVal): Option<Class> {
    if (op == CHECK_SAME_FS || op == IS_LOCAL) && TruthOf(v).TruthRaises? then Some(TruthOf(v).c) else None
  }

  /** The error indicator after `e`, when it was `p` before.  A result that is not NULL is taken without
      a look at the indicator. */
  function LeftBy(p: Option<Class>, e: Entry): Option<Class>
    decreases e, 0
  {
    match e
    case Do(op, implemented, magicIn, script) =>
      if !Runs(op, implemented, magicIn) then p
      else if !script.outcome.Returns? then None
      else if TruthError(op, script.outcome.v).Some? then TruthError(op, script.outcome.v)
      else LeftBySteps(p, script.steps)
    case Notify(fetches, script) =>
      if !script.outcome.Returns? then None
      else LeftBySteps(if fetches then None else p, script.steps)
    case Progress(script) =>
      if ActionOf(script.outcome).Abort? then None else LeftBySteps(p, script.steps)
  }

  function LeftByStep(p: Option<Class>, step: Step): Option<Class>
    decreases step, 0
  {
    match step
    case CallLibrary(_, entries) => LeftByEntries(p, entries)
    case AssignInfo(a, v) =>
      if !FileInfo.Accepts(a, v) then None
      else if FileInfo.QuietError(a, v).Some? then FileInfo.QuietError(a, v)
      else p
    case SetQuietly(c) => Some(c)
    case Catch => None
  }

  function LeftByEntries(p: Option<Class>, es: seq<Entry>): Option<Class>
    decreases es, 1
  {
    if es == [] then p else LeftBy(LeftByEntries(p, es[..|es| - 1]), es[|es| - 1])
  }

  function LeftBySteps(p: Option<Class>, steps: seq<Step>): Option<Class>
    decreases steps, 1
  {
    if steps == [] then p else LeftByStep(LeftBySteps(p, steps[..|steps| - 1]), steps[|steps| - 1])
  }

  // ------------------------------------------------------------------ the marks of a tree

  /** The moments of a tree, in the order of time, at which the indicator is cleared for good or an
      exception is set that nobody is told of. */
  datatype Mark = Cleared | Unreported(c: Class)

  function EndMarks(op: Op, outcome: Outcome): seq<Mark> {
    if !outcome.Returns? then [Cleared]
    else if TruthError(op, outcome.v).Some? then [Unreported(TruthError(op, outcome.v).value)]
    else []
  }

  function Marks(e: Entry): seq<Mark>
    decreases e, 0
  {
    match e
    case Do(op, implemented, magicIn, script) =>
      if !Runs(op, implemented, magicIn) then []
      else
        MarksOfSteps(script.steps) + EndMarks(op, script.outcome)
    case Notify(fetches, script) =>
      (if fetches then [Cleared] else []) + MarksOfSteps(script.steps)
      + if script.outcome.Returns? then [] else [Cleared]
    case Progress(script) =>
      MarksOfSteps(script.steps) + if ActionOf(script.outcome).Abort? then [Cleared] else []
  }

  function MarksOfEntries(es: seq<Entry>): seq<Mark>
    decreases es, 1
  {
    if es == [] then [] else MarksOfEntries(es[..|es| - 1]) + Marks(es[|es| - 1])
  }

  function MarksOfStep(step: Step): seq<Mark>
    decreases step, 0
  {
    match step
    case CallLibrary(_, entries) => MarksOfEntries(entries)
    case AssignInfo(a, v) =>
      if !FileInfo.Accepts(a, v) then [Cleared]
      else if FileInfo.QuietError(a, v).Some? then [Unreported(FileInfo.QuietError(a, v).value)]
      else []
    case SetQuietly(c) => [Unreported(c)]
    case Catch => [Cleared]
  }

  function MarksOfSteps(steps: seq<Step>): seq<Mark>
    decreases steps, 1
  {
    if steps == [] then [] else MarksOfSteps(steps[..|steps| - 1]) + MarksOfStep(steps[|steps| - 1])
  }

  /** The indicator after some marks, when it was `p` before: the last mark decides. */
  function AfterMarks(p: Option<Class>, marks: seq<Mark>): Option<Class> {
    if marks == [] then p
    else
      match marks[|marks| - 1]
      case Cleared => None
      case Unreported(c) => Some(c)
  }

  lemma MarksInTurn(p: Option<Class>, a: seq<Mark>, b: seq<Mark>)
    ensures AfterMarks(p, a + b) == AfterMarks(AfterMarks(p, a), b)
  {
    if b == [] {
      assert a + b == a;
    }
  }

  lemma {:induction false} LeftIsLastMark(p: Option<Class>, e: Entry)
    ensures LeftBy(p, e) == AfterMarks(p, Marks(e))
    decreases e, 0
  {
    match e
    case Do(op, implemented, magicIn, script) =>
      if Runs(op, implemented, magicIn) {
        StepsLeaveLastMark(p, script.steps);
        MarksInTurn(p, MarksOfSteps(script.steps), EndMarks(op, script.outcome));
      }
    case Notify(fetches, script) =>
      var first := if fetches then [Cleared] else [];
      var last := if script.outcome.Returns? then [] else [Cleared];
      var q := if fetches then None else p;
      StepsLeaveLastMark(q, script.steps);
      MarksInTurn(p, first, MarksOfSteps(script.steps));
      MarksInTurn(p, first + MarksOfSteps(script.steps), last);
    case Progress(script) =>
      StepsLeaveLastMark(p, script.steps);
      MarksInTurn(p, MarksOfSteps(script.steps), if ActionOf(script.outcome).Abort? then [Cleared] else []);
  }

  lemma {:induction false} EntriesLeaveLastMark(p: Option<Class>, es: seq<Entry>)
    ensures LeftByEntries(p, es) == AfterMarks(p, MarksOfEntries(es))
    decreases es, 1
  {
    if es != [] {
      var n := |es| - 1;
      EntriesLeaveLastMark(p, es[..n]);
      LeftIsLastMark(LeftByEntries(p, es[..n]), es[n]);
      MarksInTurn(p, MarksOfEntries(es[..n]), Marks(es[n]));
    }
  }

  lemma {:induction false} StepsLeaveLastMark(p: Option<Class>, steps: seq<Step>)
    ensures LeftBySteps(p, steps) == AfterMarks(p, MarksOfSteps(steps))
    decreases steps, 1
  {
    if steps != [] {
      var n := |steps| - 1;
      var q := LeftBySteps(p, steps[..n]);
      StepsLeaveLastMark(p, steps[..n]);
      if steps[n].CallLibrary? {
        EntriesLeaveLastMark(q, steps[n].entries);
      }
      assert LeftByStep(q, steps[n]) == AfterMarks(q, MarksOfStep(steps[n]));
      MarksInTurn(p, MarksOfSteps(steps[..n]), MarksOfStep(steps[n]));
    }
  }

  /** Entered with nothing pending, a `do_*` function or a callback leaves `c` pending exactly if,
      somewhere in the whole tree, `c` was set behind a success (by the truth test of a
      `do_check_same_fs` or `do_is_local`, by the assignment of a number out of range to a FileInfo, or
      by some other C function) and after that nothing in the tree cleared the indicator or left another
      exception. */
  lemma PendingExactly(e: Entry, c: Class)
    ensures LeftBy(None, e) == Some(c) <==> exists before :: Marks(e) == before + [Unreported(c)]
  {
    LeftIsLastMark(None, e);
    var marks := Marks(e);
    if marks != [] {
      assert marks == marks[..|marks| - 1] + [marks[|marks| - 1]];
    }
  }

  // ------------------------------------------------------------------ where an unreported exception comes from

  /** Something in the tree sets an exception behind a success. */
  predicate HasQuietError(e: Entry)
    decreases e, 0
  {
    match e
    case Do(op, implemented, magicIn, script) =>
      Runs(op, implemented, magicIn)
      && (SomeQuietError(script.steps) || (script.outcome.Returns? && TruthError(op, script.outcome.v).Some?))
    case Notify(_, script) => SomeQuietError(script.steps)
    case Progress(script) => SomeQuietError(script.steps)
  }

  predicate SomeQuietError(steps: seq<Step>)
    decreases steps, 1
  {
    exists i :: 0 <= i < |steps| && StepHasQuietError(steps[i])
  }

  predicate StepHasQuietError(step: Step)
    decreases step, 0
  {
    match step
    case CallLibrary(_, entries) => exists i :: 0 <= i < |entries| && HasQuietError(entries[i])
    case AssignInfo(a, v) => FileInfo.QuietError(a, v).Some?
    case SetQuietly(_) => true
    case Catch => false
  }

  predicate Reports(marks: seq<Mark>) {
    forall i :: 0 <= i < |marks| ==> marks[i].Cleared?
  }

  lemma {:induction false} MarksReport(e: Entry)
    ensures Reports(Marks(e)) <==> !HasQuietError(e)
    decreases e, 0
  {
    match e
    case Do(op, implemented, magicIn, script) =>
      if Runs(op, implemented, magicIn) {
        StepsReport(script.steps);
        EndReports(op, script.outcome);
        BothReport(MarksOfSteps(script.steps), EndMarks(op, script.outcome));
      }
    case Notify(fetches, script) =>
      StepsReport(script.steps);
      var first := if fetches then [Cleared] else [];
      BothReport(first, MarksOfSteps(script.steps));
      BothReport(first + MarksOfSteps(script.steps), if script.outcome.Returns? then [] else [Cleared]);
    case Progress(script) =>
      StepsReport(script.steps);
      BothReport(MarksOfSteps(script.steps), if ActionOf(script.outcome).Abort? then [Cleared] else []);
  }

  lemma EndReports(op: Op, outcome: Outcome)
    ensures Reports(EndMarks(op, outcome)) <==> !(outcome.Returns? && TruthError(op, outcome.v).Some?)
  {
    assert outcome.Returns? && TruthError(op, outcome.v).Some? ==> EndMarks(op, outcome)[0].Unreported?;
  }

  lemma BothReport(a: seq<Mark>, b: seq<Mark>)
    ensures Reports(a + b) <==> Reports(a) && Reports(b)
  {
    if Reports(a + b) {
      assert forall i :: 0 <= i < |a| ==> a[i] == (a + b)[i];
      assert forall i :: 0 <= i < |b| ==> b[i] == (a + b)[|a| + i];
    }
  }

  lemma {:induction false} EntriesReport(es: seq<Entry>)
    ensures Reports(MarksOfEntries(es)) <==> !exists i :: 0 <= i < |es| && HasQuietError(es[i])
    decreases es, 1
  {
    if es != [] {
      var n := |es| - 1;
      EntriesReport(es[..n]);
      MarksReport(es[n]);
      BothReport(MarksOfEntries(es[..n]), Marks(es[n]));
      assert forall i :: 0 <= i < n ==> es[..n][i] == es[i];
    }
  }

  lemma {:induction false} StepsReport(steps: seq<Step>)
    ensures Reports(MarksOfSteps(steps)) <==> !SomeQuietError(steps)
    decreases steps, 1
  {
    if steps != [] {
      var n := |steps| - 1;
      StepsReport(steps[..n]);
      if steps[n].CallLibrary? {
        EntriesReport(steps[n].entries);
      }
      assert steps[n].AssignInfo? && FileInfo.QuietError(steps[n].attr, steps[n].value).Some? ==>
          MarksOfStep(steps[n])[0].Unreported?;
      assert steps[n].SetQuietly? ==> MarksOfStep(steps[n])[0].Unreported?;
      assert Reports(MarksOfStep(steps[n])) <==> !StepHasQuietError(steps[n]);
      BothReport(MarksOfSteps(steps[..n]), MarksOfStep(steps[n]));
      assert forall i :: 0 <= i < n ==> steps[..n][i] == steps[i];
    }
  }

  /** A tree without such an exception leaves nothing pending that was not pending before. */
  lemma NothingUnreported(e: Entry, p: Option<Class>)
    requires !HasQuietError(e)
    ensures LeftBy(p, e) == None || LeftBy(p, e) == p
  {
    LeftIsLastMark(p, e);
    MarksReport(e);
  }

  /** An exception that nobody was told of can travel: through a `do_open` that returns OK, for one. */
  lemma TravelsThroughOpen(c: Class)
    ensures var inner := Do(CHECK_SAME_FS, true, false, Script([], Returns(PyOther(TruthRaises(c)))));
            var e := Do(OPEN, true, false, Script([CallLibrary(false, [inner])], Returns(PyNone)));
            && DoCode(OPEN, true, false, e.script.outcome, None) == OK
            && LeftBy(None, e) == Some(c)
  {
    var inner := Do(CHECK_SAME_FS, true, false, Script([], Returns(PyOther(TruthRaises(c)))));
    var steps := [CallLibrary(false, [inner])];
    assert LeftBySteps(None, []) == None;
    assert steps[..0] == [] && [inner][..0] == [];
    assert LeftBy(None, inner) == Some(c);
    assert LeftByEntries(None, [inner]) == LeftBy(LeftByEntries(None, []), inner);
    assert LeftBySteps(None, steps) == LeftByStep(LeftBySteps(None, []), steps[0]);
  }

  /** So can the exception of a size out of range, through a `do_get_file_info` that returns OK. */
  lemma OutOfRangeSizeIsUnreported(n: int)
    requires n < 0 || n >= FileInfo.WORD64
    ensures var steps := [AssignInfo(FileInfo.SIZE, FileInfo.PyLong(n))];
            var e := Do(GET_FILE_INFO, true, false, Script(steps, Returns(PyNone)));
            && DoCode(GET_FILE_INFO, true, false, e.script.outcome, None) == OK
            && LeftBy(None, e) == Some(OVERFLOW_ERROR)
  {
    var steps := [AssignInfo(FileInfo.SIZE, FileInfo.PyLong(n))];
    assert steps[..0] == [];
    assert LeftBySteps(None, steps) == LeftByStep(LeftBySteps(None, []), steps[0]);
  }

  // ------------------------------------------------------------------ codes

  /** A failed Python call never comes out as success: its code is not OK and raises, on the other
      side, the class that crossing the bridge makes of the exception.  NULL without an exception comes
      out as Generic, or as an older exception that was still pending. */
  lemma FailureIsDelivered(op: Op, implemented: bool, magicIn: bool, outcome: Outcome, left: Option<Class>)
    requires !outcome.Returns? && op != IS_LOCAL
    ensures var code := DoCode(op, implemented, magicIn, outcome, left);
            && code != OK && ResultCheck(code).Some?
            && (!Runs(op, implemented, magicIn) ==> ResultCheck(code) == Some(Registered(NotSupported)))
            && (Runs(op, implemented, magicIn) ==>
                  ResultCheck(code) == Some(if outcome.Raises? then Translate(outcome.c)
                                            else if left.Some? then Translate(left.value)
                                            else Registered(Generic)))
  {
    NeverLost(if outcome.Raises? then Some(outcome.c) else left);
  }

  /** OK means: the function ran, returned, and returned something its operation can use. */
  lemma OkMeansSuccess(op: Op, implemented: bool, magicIn: bool, outcome: Outcome, left: Option<Class>)
    requires op != IS_LOCAL
    ensures DoCode(op, implemented, magicIn, outcome, left) == OK
       <==> && Runs(op, implemented, magicIn)
            && outcome.Returns?
            && (op in {READ, WRITE, TELL} ==> outcome.v.PyInt? || outcome.v.PyNone?)
            && (op == FIND_DIRECTORY ==> outcome.v.PyUri?)
  {
    NeverLost(if outcome.Raises? then Some(outcome.c) else left);
  }

  /** No `do_*` function returns a code that `result_check` does not know. */
  lemma EveryCodeIsListed(op: Op, implemented: bool, magicIn: bool, outcome: Outcome, left: Option<Class>)
    requires op != IS_LOCAL
    ensures DoCode(op, implemented, magicIn, outcome, left) != OK
       <==> ResultCheck(DoCode(op, implemented, magicIn, outcome, left)).Some?
  {
    NeverLost(if outcome.Raises? then Some(outcome.c) else left);
  }

  /** The objects Python counts as false. */
  lemma FalseValues(v: PyVal)
    ensures TruthOf(v).IsFalse? <==> v == PyInt(0) || v == PyNone || v == PyOther(IsFalse)
    ensures forall c :: TruthOf(v) == TruthRaises(c) <==> v == PyOther(TruthRaises(c))
  {
  }

  /** A progress callback answers the int Python returned, and abort for everything else. */
  lemma AnswersTheInt(outcome: Outcome, n: int)
    ensures ActionOf(outcome) == Answer(n) <==> outcome == Returns(PyInt(n))
    ensures ActionOf(outcome) == Abort <==> !(outcome.Returns? && outcome.v.PyInt?)
  {
  }

  /** A URI counts as remote exactly if the method exists and returned something false: every failure
      comes out as local. */
  lemma RemoteMeansFalse(implemented: bool, outcome: Outcome, left: Option<Class>)
    ensures !IsLocal(implemented, outcome, left) <==> implemented && outcome.Returns? && TruthOf(outcome.v).IsFalse?
  {
    NeverLost(if outcome.Raises? then Some(outcome.c) else left);
  }

  // ------------------------------------------------------------------ the interpreter

  class Interpreter {
    var held: bool            // the running thread holds the lock
    var depth: nat            // PyGILState_Ensure calls not yet released
    var pending: Option<Class>

    /** PyGILState_Ensure; the token says whether the lock was held already. */
    method Ensure() returns (token: bool)
      modifies this`held, this`depth
      ensures held && depth == old(depth) + 1 && token == old(held)
    {
      token := held;
      held, depth := true, depth + 1;
    }

    method Release(token: bool)
      requires held && depth > 0
      modifies this`held, this`depth
      ensures held == token && depth == old(depth) - 1
    {
      held, depth := token, depth - 1;
    }

    /** EXCEPTION_CHECK for a call that failed: translate the exception, clear or print it, release. */
    method FailWith(token: bool) returns (code: Code)
      requires held && depth > 0
      modifies this
      ensures code == BridgeCode(old(pending)) && pending == None
      ensures held == token && depth == old(depth) - 1
    {
      match ExceptionCheck(pending) {
        case Matched(c) =>
          pending := None; // PyErr_Clear
          Release(token);
          return c;
        case Unmatched =>
          pending := None; // PyErr_Print
        case NothingPending =>
      }
      Release(token);
      return ERROR_GENERIC;
    }

    /** A Python function: what it does, and its outcome. */
    method RunScript(script: Script)
      requires held
      modifies this
      ensures held && depth == old(depth)
      ensures pending == if script.outcome.Raises? then Some(script.outcome.c)
              else LeftBySteps(old(pending), script.steps)
      decreases script
    {
      var i := 0;
      assert script.steps[..0] == [];
      while i < |script.steps|
        invariant 0 <= i <= |script.steps|
        invariant held && depth == old(depth) && pending == LeftBySteps(old(pending), script.steps[..i])
      {
        assert script.steps[..i + 1][..i] == script.steps[..i];
        RunStep(script.steps[i]);
        i := i + 1;
      }
      assert script.steps[..i] == script.steps;
      if script.outcome.Raises? {
        pending := Some(script.outcome.c);
      }
    }

    method RunStep(step: Step)
      requires held
      modifies this
      ensures held && depth == old(depth) && pending == LeftByStep(old(pending), step)
      decreases step, 1
    {
      match step {
        case CallLibrary(_, _) =>
          RunLibrary(step);
        case AssignInfo(a, v) =>
          var finfo := new FileInfo.FileInfoObject();
          var r, left := finfo.SetAttr(a, v);
          if r != FileInfo.Success {
            pending := None;
          } else if left.Some? {
            pending := left;
          }
        case SetQuietly(c) =>
          pending := Some(c);
        case Catch =>
          pending := None;
      }
    }

    /** A wrapper's call of GnomeVFS, perhaps between pyg_begin_allow_threads and pyg_end_allow_threads. */
    method RunLibrary(step: Step)
      requires held && step.CallLibrary?
      modifies this
      ensures held && depth == old(depth) && pending == LeftByStep(old(pending), step)
      decreases step, 0
    {
      held := !step.unblocks;
      var i := 0;
      assert step.entries[..0] == [];
      while i < |step.entries|
        invariant 0 <= i <= |step.entries|
        invariant held == !step.unblocks && depth == old(depth)
        invariant pending == LeftByEntries(old(pending), step.entries[..i])
      {
        assert step.entries[..i + 1][..i] == step.entries[..i];
        Perform(step.entries[i]);
        i := i + 1;
      }
      assert step.entries[..i] == step.entries;
      held := true;
    }

    method Perform(e: Entry)
      modifies this
      ensures held == old(held) && depth == old(depth) && pending == LeftBy(old(pending), e)
      decreases e, 1
    {
      match e {
        case Do(op, _, _, _) =>
          if op == IS_LOCAL {
            var local := DoIsLocal(e);
          } else {
            var code := DoFunction(e);
          }
        case Notify(_, _) =>
          NotifyCallback(e);
        case Progress(_) =>
          var action := ProgressCallback(e);
      }
    }

    /** The common shape of the `do_*` functions. */
    method DoFunction(e: Entry) returns (code: Code)
      requires e.Do? && e.op != IS_LOCAL
      modifies this
      ensures held == old(held) && depth == old(depth) && pending == LeftBy(old(pending), e)
      ensures code == DoCode(e.op, e.implemented, e.magicIn, e.script.outcome, LeftBySteps(old(pending),
              e.script.steps))
      decreases e, 0
    {
      hide BridgeCode, ReturnCode, TruthError, LeftBySteps;
      var Do(op, implemented, magicIn, script) := e;
      if !implemented {
        return ERROR_NOT_SUPPORTED;
      }
      if op == FILE_CONTROL && !magicIn {
        return ERROR_NOT_SUPPORTED;
      }
      var state := Ensure();
      RunScript(script);
      if !script.outcome.Returns? {
        code := FailWith(state);
        return;
      }
      code := EndOf(op, script.outcome.v, state);
    }

    /** `do_is_local`. */
    method DoIsLocal(e: Entry) returns (local: bool)
      requires e.Do? && e.op == IS_LOCAL
      modifies this
      ensures held == old(held) && depth == old(depth) && pending == LeftBy(old(pending), e)
      ensures local == IsLocal(e.implemented, e.script.outcome, LeftBySteps(old(pending), e.script.steps))
      decreases e, 0
    {
      hide BridgeCode, LeftBySteps;
      if !e.implemented {
        return true; // ERROR_NOT_SUPPORTED
      }
      var state := Ensure();
      RunScript(e.script);
      if !e.script.outcome.Returns? {
        var code := FailWith(state);
        return code != OK;
      }
      var truth := TruthOf(e.script.outcome.v); // PyObject_IsTrue
      if truth.TruthRaises? {
        pending := Some(truth.c);
      }
      if !truth.IsFalse? {
        Release(state);
        return true;
      } else {
        Release(state);
        return false;
      }
    }

    /** The ends of a `do_*` function whose Python function returned. */
    method EndOf(op: Op, v: PyVal, state: bool) returns (code: Code)
      requires held && depth > 0 && op != IS_LOCAL
      modifies this
      ensures held == state && depth == old(depth) - 1 && code == ReturnCode(op, v)
      ensures pending == if TruthError(op, v).Some? then TruthError(op, v) else old(pending)
    {
      if op == READ || op == WRITE || op == TELL {
        code := EndWithCount(v, state);
      } else if op == FIND_DIRECTORY {
        code := EndWithUri(v, state);
      } else if op == CHECK_SAME_FS {
        code := EndWithTruth(v, state);
      } else {
        Release(state);
        code := OK;
      }
    }

    /** The ends of `do_read`, `do_write` and `do_tell`. */
    method EndWithCount(v: PyVal, state: bool) returns (code: Code)
      requires held && depth > 0
      modifies this`held, this`depth
      ensures held == state && depth == old(depth) - 1
      ensures code == if v.PyInt? || v.PyNone? then OK else ERROR_GENERIC
    {
      if v.PyInt? {
        Release(state);
        return OK;
      } else if v.PyNone? {
        Release(state);
        return OK;
      } else {
        Release(state);
        return ERROR_GENERIC;
      }
    }

    /** The ends of `do_find_directory`. */
    method EndWithUri(v: PyVal, state: bool) returns (code: Code)
      requires held && depth > 0
      modifies this`held, this`depth
      ensures held == state && depth == old(depth) - 1
      ensures code == if v.PyUri? then OK else if v.PyNone? then ERROR_NOT_FOUND else ERROR_GENERIC
    {
      if v.PyUri? {
        Release(state);
        return OK;
      } else if v.PyNone? {
        Release(state);
        return ERROR_NOT_FOUND;
      } else {
        Release(state);
        return ERROR_GENERIC;
      }
    }

    /** The end of `do_check_same_fs`, which does not look whether the truth test failed. */
    method EndWithTruth(v: PyVal, state: bool) returns (code: Code)
      requires held && depth > 0
      modifies this
      ensures held == state && depth == old(depth) - 1 && code == OK
      ensures pending == if TruthError(CHECK_SAME_FS, v).Some? then TruthError(CHECK_SAME_FS, v) else old(pending)
    {
      var truth := TruthOf(v); // PyObject_IsTrue
      if truth.TruthRaises? {
        pending := Some(truth.c);
      }
      Release(state);
      return OK;
    }

    /** The `*_marshal` callbacks: an exception of the Python function is printed and cleared. */
    method NotifyCallback(e: Entry)
      requires e.Notify?
      modifies this
      ensures held == old(held) && depth == old(depth) && pending == LeftBy(old(pending), e)
      decreases e, 0
    {
      var state := Ensure();
      if e.fetches {
        pending := None; // fetch_exception
      }
      RunScript(e.script);
      if !e.script.outcome.Returns? {
        pending := None; // PyErr_Print, PyErr_Clear
      }
      Release(state);
    }

    /** The progress callbacks of a transfer, with their three exits. */
    method ProgressCallback(e: Entry) returns (action: Action)
      requires e.Progress?
      modifies this
      ensures held == old(held) && depth == old(depth) && pending == LeftBy(old(pending), e)
      ensures action == ActionOf(e.script.outcome)
      decreases e, 0
    {
      var state := Ensure();
      RunScript(e.script);
      if !e.script.outcome.Returns? {
        pending := None; // PyErr_Print
        Release(state);
        return Abort;
      }
      if !e.script.outcome.v.PyInt? {
        pending := Some(TYPE_ERROR);
        pending := None; // PyErr_Print
        Release(state);
        return Abort;
      }
      action := Answer(e.script.outcome.v.n);
      Release(state);
    }
  }
}
