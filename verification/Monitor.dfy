/** The table of file monitors: `pygvfs_monitor_add` and `pygvfs_monitor_cancel` of
    gnomevfs/vfsmodule.c.

    Ids are C ints; the counter behind them wraps around.  A handle is never NULL.
 */
module Monitor {
  import opened Options
  import opened VfsErrors

  const RANGE: nat := 0x1_0000_0000
  const INT_MAX := 0x7fff_ffff

  newtype gint = x: int | -0x8000_0000 <= x <= 0x7fff_ffff

  type Handle = nat

  /** `++` on a gint. */
  function Next(c: gint): gint {
    if c as int == INT_MAX then -0x8000_0000 else c + 1
  }

  /** The counter after `k` increments. */
  function Advance(c: gint, k: nat): gint {
    if k == 0 then c else Next(Advance(c, k - 1))
  }

  lemma {:induction false} AdvanceWraps(c: gint, k: nat) returns (rounds: nat)
    ensures Advance(c, k) as int == c as int + k - rounds * RANGE
  {
    if k > 0 {
      rounds := AdvanceWraps(c, k - 1);
      if Advance(c, k - 1) as int == INT_MAX {
        rounds := rounds + 1;
      }
    } else {
      rounds := 0;
    }
  }

  /** The counter comes back to a value after a multiple of 2^32 increments and not before. */
  lemma AdvanceMeets(c: gint, i: nat, j: nat)
    ensures Advance(c, i) == Advance(c, j) <==> (i - j) % RANGE == 0
  {
    var a := AdvanceWraps(c, i);
    var b := AdvanceWraps(c, j);
    hide Advance;
    var x, y: int := Advance(c, i) as int, Advance(c, j) as int;
    assert x - y == i - j - (a - b) * RANGE;
    SameResidue(x, y, i - j, a - b);
  }

  lemma SameResidue(x: int, y: int, d: int, q: int)
    requires -0x8000_0000 <= x <= 0x7fff_ffff && -0x8000_0000 <= y <= 0x7fff_ffff
    requires x - y == d - q * RANGE
    ensures x == y <==> d % RANGE == 0
  {
  }

  lemma {:induction false} AdvanceTwice(c: gint, i: nat, j: nat)
    ensures Advance(Advance(c, i), j) == Advance(c, i + j)
  {
    if j > 0 {
      AdvanceTwice(c, i, j - 1);
    }
  }

  // ------------------------------------------------------------------ the retry loop ends

  /** `k` values in a row are taken by at least `k` live monitors, up to the size of the range. */
  lemma TakenRun(live: map<gint, Handle>, c: gint, k: nat)
    requires k <= RANGE && forall i: nat :: 1 <= i <= k ==> Advance(c, i) in live
    ensures k <= |live|
  {
    var ids := RunOfIds(live, c, k);
    SubsetSize(ids, live.Keys);
  }

  ghost predicate WithinSteps(c: gint, k: nat, x: gint) {
    exists i: nat :: 1 <= i <= k && x == Advance(c, i)
  }

  lemma {:induction false} RunOfIds(live: map<gint, Handle>, c: gint, k: nat) returns (ids: set<gint>)
    requires k <= RANGE && forall i: nat :: 1 <= i <= k ==> Advance(c, i) in live
    ensures |ids| == k && ids <= live.Keys
    ensures forall x :: x in ids ==> WithinSteps(c, k, x)
  {
    if k == 0 {
      ids := {};
    } else {
      ids := RunOfIds(live, c, k - 1);
      var x := Advance(c, k);
      if x in ids {
        var i: nat :| 1 <= i <= k - 1 && x == Advance(c, i);
        AdvanceMeets(c, k, i);
      }
      ghost var fewer := ids;
      ids := fewer + {x};
      forall y | y in ids ensures WithinSteps(c, k, y) {
        if y in fewer {
          var i: nat :| 1 <= i <= k - 1 && y == Advance(c, i);
          assert i <= k;
        } else {
          assert y == Advance(c, k);
        }
      }
    }
  }

  lemma {:induction false} SubsetSize<T>(a: set<T>, b: set<T>)
    requires a <= b
    ensures |a| <= |b|
  {
    if a != {} {
      var x :| x in a;
      SubsetSize(a - {x}, b - {x});
    }
  }

  /** There is an id to give exactly while fewer than 2^32 monitors live; then a search from any
      counter value finds one among the next |live| + 1 values. */
  lemma FreeIdExists(live: map<gint, Handle>, c: gint)
    ensures |live| < RANGE <==> exists x: gint :: x !in live
    ensures |live| < RANGE ==> exists k: nat :: 1 <= k <= |live| + 1 && Advance(c, k) !in live
  {
    if |live| < RANGE {
      if forall k: nat :: 1 <= k <= |live| + 1 ==> Advance(c, k) in live {
        TakenRun(live, c, |live| + 1);
        assert false;
      }
    } else if x: gint :| x !in live {
      // 2^32 - 1 other values cannot hold 2^32 monitors
      AllBut(live.Keys, x);
    }
  }

  /** A set of gints without `x` has fewer than 2^32 elements. */
  lemma AllBut(s: set<gint>, x: gint)
    requires x !in s
    ensures |s| < RANGE
  {
    BoundedSet(s + {x}, RANGE);
  }

  /** A set of gints below -2^31 + n has at most n elements. */
  lemma {:induction false} BoundedSet(s: set<gint>, n: nat)
    requires n <= RANGE && forall y :: y in s ==> y as int < n - 0x8000_0000
    ensures |s| <= n
  {
    if n > 0 {
      var top := (n - 1 - 0x8000_0000) as gint;
      BoundedSet(s - {top}, n - 1);
    } else {
      assert s == {};
    }
  }

  // ------------------------------------------------------------------ the table

  datatype State = State(live: map<gint, Handle>, counter: gint)

  datatype Reply = Added(id: gint) | Done | Raise(c: Class)

  datatype Event = Add(code: Code, handle: Handle) | Cancel(id: gint)

  /** What the caller of add can rely on: the new id was free, no other entry changed, and the search
      took `k` increments, no more than there were monitors, and one. */
  predicate IsAdd(s: State, handle: Handle, id: gint, t: State, k: nat) {
    && id !in s.live
    && t == State(s.live[id := handle], id)
    && 1 <= k <= |s.live| + 1
    && id == Advance(s.counter, k)
  }

  /** One call, its reply, the handle GnomeVFS was told to cancel, and the increments it took. */
  predicate IsStep(s: State, e: Event, r: Reply, reached: Option<Handle>, k: nat, t: State) {
    match e
    case Add(code, handle) =>
      reached == None
      && if ResultCheck(code).Some? then r == Raise(ResultCheck(code).value) && k == 0 && t == s
         else r.Added? && IsAdd(s, handle, r.id, t, k)
    case Cancel(id) =>
      k == 0
      && if id in s.live then r == Done && reached == Some(s.live[id]) && t == s.(live := s.live - {id})
         else r == Raise(VALUE_ERROR) && reached == None && t == s
  }

  class Table {
    var monitors: map<gint, Handle>
    var counter: gint
    ghost var asked: seq<Handle> // the gnome_vfs_monitor_cancel calls

    ghost function St(): State
      reads this
    {
      State(monitors, counter)
    }

    constructor ()
      ensures St() == State(map[], 0) && asked == []
    {
      monitors, counter, asked := map[], 0, [];
    }

    /** `pygvfs_monitor_add`, after GnomeVFS answered `code` and `handle`.  With all 2^32 ids taken the
        loop would have no end. */
    method MonitorAdd(code: Code, handle: Handle) returns (r: Reply, ghost increments: nat)
      requires |monitors| < RANGE
      modifies this`monitors, this`counter
      ensures IsStep(old(St()), Add(code, handle), r, None, increments, St())
    {
      increments := 0;
      var raised := ResultCheck(code);
      if raised.Some? {
        return Raise(raised.value), 0;
      }
      FreeIdExists(monitors, counter);
      ghost var start := counter;
      ghost var first: nat :| 1 <= first <= |monitors| + 1 && Advance(start, first) !in monitors;
      var id := Next(counter);
      counter := id;
      increments := 1;
      assert Advance(start, 0) == start;
      while id in monitors
        invariant monitors == old(monitors) && counter == id == Advance(start, increments)
        invariant 1 <= increments <= first
        decreases first - increments
      {
        id := Next(counter);
        counter := id;
        increments := increments + 1;
      }
      monitors := monitors[id := handle];
      return Added(id), increments;
    }

    /** `pygvfs_monitor_cancel`. */
    method MonitorCancel(id: gint) returns (r: Reply)
      modifies this`monitors, this`asked
      ensures IsStep(old(St()), Cancel(id), r, if id in old(monitors) then Some(old(monitors)[id]) else None, 0, St())
      ensures asked == if id in old(monitors) then old(asked) + [old(monitors)[id]] else old(asked)
    {
      if id !in monitors {
        return Raise(VALUE_ERROR);
      }
      var handle := monitors[id];
      asked := asked + [handle];
      monitors := monitors - {id};
      return Done;
    }
  }

  // ------------------------------------------------------------------ whole runs

  /** A run: `states` has one more entry than the other sequences. */
  ghost predicate Run(states: seq<State>, events: seq<Event>, replies: seq<Reply>, reached: seq<Option<Handle>>,
      ks: seq<nat>) {
    && |states| == |events| + 1 && |replies| == |events| && |reached| == |events| && |ks| == |events|
    && forall i :: 0 <= i < |events| ==> IsStep(states[i], events[i], replies[i], reached[i], ks[i], states[i + 1])
  }

  /** The id of add `i` names that add's handle until it is cancelled, whatever else happens: a cancel
      of the id reaches that handle and frees the id, and no other add is given the id before. */
  lemma {:induction false} IdNamesItsHandle(states: seq<State>, events: seq<Event>, replies: seq<Reply>,
                                            reached: seq<Option<Handle>>, ks: seq<nat>, i: nat, j: nat)
    requires Run(states, events, replies, reached, ks) && i < j <= |events|
    requires events[i].Add? && replies[i].Added?
    requires forall m :: i < m < j ==> events[m] != Cancel(replies[i].id)
    ensures replies[i].id in states[j].live && states[j].live[replies[i].id] == events[i].handle
    ensures j < |events| && events[j] == Cancel(replies[i].id) ==>
              reached[j] == Some(events[i].handle) && replies[j] == Done && replies[i].id !in states[j + 1].live
    ensures j < |events| && events[j].Add? ==> replies[j] != replies[i]
    decreases j
  {
    hide ResultCheck;
    if j == i + 1 {
      assert IsStep(states[i], events[i], replies[i], reached[i], ks[i], states[j]);
    } else {
      IdNamesItsHandle(states, events, replies, reached, ks, i, j - 1);
      assert IsStep(states[j - 1], events[j - 1], replies[j - 1], reached[j - 1], ks[j - 1], states[j]);
    }
    if j < |events| {
      assert IsStep(states[j], events[j], replies[j], reached[j], ks[j], states[j + 1]);
    }
  }

  /** The increments of the calls from `i` on before `j`. */
  function Increments(ks: seq<nat>, i: nat, j: nat): nat
    requires i <= j <= |ks|
  {
    if i == j then 0 else Increments(ks, i, j - 1) + ks[j - 1]
  }

  lemma {:induction false} CounterAdvances(states: seq<State>, events: seq<Event>, replies: seq<Reply>,
                                           reached: seq<Option<Handle>>, ks: seq<nat>, i: nat, j: nat)
    requires Run(states, events, replies, reached, ks) && i <= j <= |events|
    ensures states[j].counter == Advance(states[i].counter, Increments(ks, i, j))
    decreases j
  {
    hide ResultCheck;
    if i < j {
      CounterAdvances(states, events, replies, reached, ks, i, j - 1);
      assert IsStep(states[j - 1], events[j - 1], replies[j - 1], reached[j - 1], ks[j - 1], states[j]);
      AdvanceTwice(states[i].counter, Increments(ks, i, j - 1), ks[j - 1]);
    }
  }

  /** An id, cancelled or not, is given again by a later add exactly when the counter has made full
      rounds in between. */
  lemma IdsComeBackAfterARound(states: seq<State>, events: seq<Event>, replies: seq<Reply>,
                               reached: seq<Option<Handle>>, ks: seq<nat>, i: nat, j: nat)
    requires Run(states, events, replies, reached, ks) && i < j < |events|
    requires replies[i].Added? && replies[j].Added?
    ensures replies[i].id == replies[j].id <==> Increments(ks, i + 1, j + 1) % RANGE == 0
    ensures Increments(ks, i + 1, j + 1) > 0
  {
    hide ResultCheck;
    assert IsStep(states[i], events[i], replies[i], reached[i], ks[i], states[i + 1]);
    assert IsStep(states[j], events[j], replies[j], reached[j], ks[j], states[j + 1]);
    CounterAdvances(states, events, replies, reached, ks, i + 1, j + 1);
    AdvanceMeets(states[i + 1].counter, Increments(ks, i + 1, j + 1), 0);
  }

  /** An add costs at most one increment more than there are monitors, a cancel none. */
  lemma {:induction false} AddsAreCheap(states: seq<State>, events: seq<Event>, replies: seq<Reply>,
                                        reached: seq<Option<Handle>>, ks: seq<nat>, i: nat, j: nat, most: nat)
    requires Run(states, events, replies, reached, ks) && i <= j <= |events|
    requires forall m :: i <= m < j ==> |states[m].live| <= most
    ensures Increments(ks, i, j) <= Adds(replies, i, j) * (most + 1)
    decreases j
  {
    hide ResultCheck;
    if i < j {
      AddsAreCheap(states, events, replies, reached, ks, i, j - 1, most);
      assert IsStep(states[j - 1], events[j - 1], replies[j - 1], reached[j - 1], ks[j - 1], states[j]);
      OneMore(Adds(replies, i, j - 1), most + 1);
    }
  }

  lemma OneMore(n: nat, each: nat)
    ensures (n + 1) * each == n * each + each
  {
  }

  /** The successful adds among the calls from `i` on before `j`. */
  function Adds(replies: seq<Reply>, i: nat, j: nat): nat
    requires i <= j <= |replies|
  {
    if i == j then 0 else Adds(replies, i, j - 1) + if replies[j - 1].Added? then 1 else 0
  }

  /** With at most `most` monitors alive at any time, fewer than 2^32 / (most + 1) adds give ids that
      all differ from one given before: a stale id does not reach a younger monitor. */
  lemma StaleIdsStayStale(states: seq<State>, events: seq<Event>, replies: seq<Reply>,
                          reached: seq<Option<Handle>>, ks: seq<nat>, i: nat, j: nat, most: nat)
    requires Run(states, events, replies, reached, ks) && i < j < |events|
    requires replies[i].Added? && replies[j].Added?
    requires forall m :: i < m <= j ==> |states[m].live| <= most
    requires Adds(replies, i + 1, j + 1) * (most + 1) < RANGE
    ensures replies[j].id != replies[i].id
  {
    hide ResultCheck, Run, Increments, Adds;
    AddsAreCheap(states, events, replies, reached, ks, i + 1, j + 1, most);
    IdsComeBackAfterARound(states, events, replies, reached, ks, i, j);
  }
}
