/** Tuples on the counted heap: a tuple owns a reference to each of its items and gives them back when
    its own last reference goes. */
module PyTuples {
  import opened Options
  import opened PyHeap

  datatype Body = Plain | Tuple(items: seq<Ref>)

  function TupleBag(o: Obj<Body>): multiset<Ref> {
    if o.rc > 0 && o.body.Tuple? then multiset(o.body.items) else multiset{}
  }

  /** The references the live tuples hold. */
  function InTuples(h: Heap<Body>): multiset<Ref> {
    Total(TupleBag, h)
  }

  /** Every count is the references outside, those of the live tuples, and `held`. */
  ghost predicate Balanced(h: Heap<Body>, held: multiset<Ref>) {
    Conserved(h, held + InTuples(h))
  }

  function CountAll(h: Heap<Body>): nat {
    if h == [] then 0 else CountAll(h[..|h| - 1]) + h[|h| - 1].rc
  }

  lemma {:induction false} CountLess(h: Heap<Body>, o: Ref, x: Obj<Body>)
    requires o < |h| && x.rc < h[o].rc
    ensures CountAll(h[o := x]) < CountAll(h)
    decreases |h|
  {
    var n := |h| - 1;
    if o == n {
      assert h[o := x][..n] == h[..n];
    } else {
      CountLess(h[..n], o, x);
      assert h[o := x][..n] == h[..n][o := x];
    }
  }

  function Less(h: Heap<Body>, o: Ref): (r: Heap<Body>)
    requires Alive(h, o)
    ensures CountAll(r) < CountAll(h)
  {
    CountLess(h, o, h[o].(rc := h[o].rc - 1));
    h[o := h[o].(rc := h[o].rc - 1)]
  }

  /** DECREF of the objects in `work`, last one first.  A tuple whose count falls to 0 gives back its
      items.  None: a reference was given back that did not exist. */
  function DropAll(h: Heap<Body>, work: seq<Ref>): (r: Option<Heap<Body>>)
    ensures r.Some? ==> |r.value| == |h|
    ensures r.Some? ==> forall i :: 0 <= i < |h| ==> r.value[i].outside == h[i].outside && r.value[i].body == h[i].body
    ensures r.Some? ==> forall i :: 0 <= i < |h| ==> r.value[i].rc <= h[i].rc
    decreases CountAll(h)
  {
    if work == [] then Some(h)
    else
      var rest, o := work[..|work| - 1], work[|work| - 1];
      if !Alive(h, o) then None
      else
        var h1 := Less(h, o);
        DropAll(h1, rest + if h1[o].rc == 0 && h1[o].body.Tuple? then h1[o].body.items else [])
  }

  /** Dropping `b` and then `a` is dropping both. */
  lemma {:induction false} DropInTurn(h: Heap<Body>, a: seq<Ref>, b: seq<Ref>)
    requires DropAll(h, b).Some?
    ensures DropAll(h, a + b) == DropAll(DropAll(h, b).value, a)
    decreases CountAll(h)
  {
    hide CountAll;
    if b == [] {
      assert a + b == a;
    } else {
      var rest, o := b[..|b| - 1], b[|b| - 1];
      var h1 := Less(h, o);
      var more := if h1[o].rc == 0 && h1[o].body.Tuple? then h1[o].body.items else [];
      assert (a + b)[..|a + b| - 1] == a + rest && (a + rest) + more == a + (rest + more);
      DropInTurn(h1, a, rest + more);
    }
  }

  // ------------------------------------------------------------------ balance

  lemma BalancedIsAlive(h: Heap<Body>, held: multiset<Ref>)
    requires Balanced(h, held)
    ensures AllAlive(h, held) && AllAlive(h, InTuples(h))
  {
    hide InTuples;
    var all := held + InTuples(h);
    assert forall o :: o in held ==> o in all;
    assert forall o :: o in InTuples(h) ==> o in all;
  }

  lemma LessConserves(h: Heap<Body>, all: multiset<Ref>, o: Ref)
    requires Conserved(h, all) && o in all
    ensures Alive(h, o) && Conserved(Less(h, o), all - multiset{o})
  {
  }

  /** What the tuples hold after one reference to `o` went. */
  lemma LessInTuples(h: Heap<Body>, o: Ref)
    requires Alive(h, o)
    ensures var gone := if h[o].rc == 1 && h[o].body.Tuple? then h[o].body.items else [];
            multiset(gone) <= InTuples(h) && InTuples(Less(h, o)) == InTuples(h) - multiset(gone)
  {
    var x := h[o].(rc := h[o].rc - 1);
    TotalUpdate(TupleBag, h, o, x);
    Unchanged(InTuples(h), TupleBag(h[o]));
  }

  lemma Unchanged(all: multiset<Ref>, part: multiset<Ref>)
    requires part <= all
    ensures all - part + part == all && all - part + multiset{} == all - part && all - multiset{} == all
  {
  }

  lemma MoveToWork(held: multiset<Ref>, rest: seq<Ref>, o: Ref, gone: seq<Ref>, tuples: multiset<Ref>)
    requires multiset(gone) <= tuples
    ensures held + multiset(rest + [o]) + tuples - multiset{o}
         == held + multiset(rest + gone) + (tuples - multiset(gone))
  {
  }

  /** Giving back references one has never fails, and what remains is in balance. */
  lemma {:induction false} DropBalances(h: Heap<Body>, held: multiset<Ref>, work: seq<Ref>)
    requires Balanced(h, held + multiset(work))
    ensures DropAll(h, work).Some? && Balanced(DropAll(h, work).value, held)
    decreases CountAll(h)
  {
    hide Conserved, InTuples, CountAll;
    if work == [] {
      assert held + multiset(work) == held;
    } else {
      var rest, o := work[..|work| - 1], work[|work| - 1];
      assert work == rest + [o];
      var all := held + multiset(work) + InTuples(h);
      assert o in multiset(work);
      LessConserves(h, all, o);
      LessInTuples(h, o);
      var h1 := Less(h, o);
      var gone := if h1[o].rc == 0 && h1[o].body.Tuple? then h1[o].body.items else [];
      MoveToWork(held, rest, o, gone, InTuples(h));
      DropBalances(h1, held, rest + gone);
    }
  }

  lemma {:induction false} SameTuples(g: Heap<Body>, h: Heap<Body>)
    requires |g| == |h| && forall i :: 0 <= i < |h| ==> TupleBag(g[i]) == TupleBag(h[i])
    ensures InTuples(g) == InTuples(h)
  {
    hide TupleBag;
    if h != [] {
      var n := |h| - 1;
      assert forall i :: 0 <= i < n ==> g[..n][i] == g[i] && h[..n][i] == h[i];
      SameTuples(g[..n], h[..n]);
    }
  }

  lemma RetainBalances(h: Heap<Body>, held: multiset<Ref>, bag: multiset<Ref>)
    requires Balanced(h, held) && AllAlive(h, bag)
    ensures Balanced(Retain(h, bag), held + bag)
  {
    hide InTuples, Conserved;
    RetainKeepsTuples(h, bag);
    RetainConserves(h, held + InTuples(h), bag);
    assert held + bag + InTuples(h) == held + InTuples(h) + bag;
  }

  lemma RetainKeepsTuples(h: Heap<Body>, bag: multiset<Ref>)
    requires AllAlive(h, bag)
    ensures InTuples(Retain(h, bag)) == InTuples(h)
  {
    hide InTuples;
    var r := Retain(h, bag);
    forall i | 0 <= i < |h| ensures TupleBag(r[i]) == TupleBag(h[i]) {
      assert bag[i] > 0 ==> i in bag;
    }
    SameTuples(r, h);
  }

  lemma AdoptBalances(h: Heap<Body>, held: multiset<Ref>, o: Ref)
    requires Balanced(h, held) && Alive(h, o)
    ensures Balanced(Adopt(h, multiset{o}), held)
  {
    hide InTuples, Conserved;
    assert forall i :: 0 <= i < |h| ==> TupleBag(Adopt(h, multiset{o})[i]) == TupleBag(h[i]);
    SameTuples(Adopt(h, multiset{o}), h);
    AdoptConserves(h, held + InTuples(h), multiset{o});
  }

  /** A reference from outside is handed to a record. */
  function Hand(h: Heap<Body>, o: Ref): Heap<Body>
    requires o < |h| && h[o].outside > 0
  {
    h[o := h[o].(outside := h[o].outside - 1)]
  }

  lemma HandBalances(h: Heap<Body>, held: multiset<Ref>, o: Ref)
    requires Balanced(h, held) && o < |h| && h[o].outside > 0
    ensures Balanced(Hand(h, o), held + multiset{o})
  {
    hide InTuples;
    SameTuples(Hand(h, o), h);
    var all := held + multiset{o} + InTuples(h);
    assert forall i :: i in all ==> i in held + InTuples(h) || i == o;
  }

  /** A new object with one reference; if it is a tuple, the references to the items were `held`. */
  lemma AllocBalances(h: Heap<Body>, held: multiset<Ref>, items: multiset<Ref>, body: Body, given: bool)
    requires Balanced(h, held + items)
    requires items == if body.Tuple? then multiset(body.items) else multiset{}
    ensures Balanced(Alloc(h, body, given), if given then held else held + multiset{|h|})
  {
    hide InTuples, Conserved;
    AllocInTuples(h, body, given);
    var all := held + items + InTuples(h);
    AllocConserves(h, all, body, given);
    assert all == held + (InTuples(h) + items);
    assert all + multiset{|h|} == held + multiset{|h|} + (InTuples(h) + items);
  }

  lemma AllocInTuples(h: Heap<Body>, body: Body, given: bool)
    ensures InTuples(Alloc(h, body, given))
         == InTuples(h) + if body.Tuple? then multiset(body.items) else multiset{}
  {
    TotalAppend(TupleBag, h, Obj(1, if given then 1 else 0, body));
  }

  /** The items of a live tuple are alive. */
  lemma ItemsAreAlive(h: Heap<Body>, held: multiset<Ref>, t: Ref)
    requires Balanced(h, held) && Alive(h, t) && h[t].body.Tuple?
    ensures AllAlive(h, multiset(h[t].body.items))
  {
    hide InTuples, Conserved;
    BalancedIsAlive(h, held);
    TupleIsCounted(h, t);
  }

  lemma TupleIsCounted(h: Heap<Body>, t: Ref)
    requires Alive(h, t) && h[t].body.Tuple?
    ensures multiset(h[t].body.items) <= InTuples(h)
  {
    TotalUpdate(TupleBag, h, t, h[t]);
  }

  // ------------------------------------------------------------------ taking and giving back

  lemma LessOfRetain(h: Heap<Body>, bag: multiset<Ref>, o: Ref)
    requires Alive(h, o)
    ensures var r := Retain(h, bag + multiset{o});
            Alive(r, o) && r[o].rc > 1 && Less(r, o) == Retain(h, bag)
  {
  }

  /** References taken and given back leave the heap as it was: nothing dies on the way. */
  lemma {:induction false} DropUndoesRetain(h: Heap<Body>, work: seq<Ref>)
    requires forall i :: 0 <= i < |work| ==> Alive(h, work[i])
    ensures DropAll(Retain(h, multiset(work)), work) == Some(h)
  {
    hide CountAll, Retain, Less;
    if work == [] {
      Nothing(h);
    } else {
      var rest, o := work[..|work| - 1], work[|work| - 1];
      assert work == rest + [o] && rest + [] == rest;
      LessOfRetain(h, multiset(rest), o);
      assert multiset(work) == multiset(rest) + multiset{o};
      var r := Retain(h, multiset(work));
      KeptAlive(r, o);
      DropUndoesRetain(h, rest);
    }
  }

  lemma KeptAlive(h: Heap<Body>, o: Ref)
    requires Alive(h, o) && h[o].rc > 1
    ensures Less(h, o)[o].rc > 0
  {
  }
}
