/** Reference counting as the C code sees it: a heap of counted objects, single INCREF/DECREF
    steps, and their effect in bulk.

    `outside` counts the references held by the Python program and the interpreter, that is by
    everything except the C records under study.  An object whose count is 0 has been freed; its
    slot is never used again.
 */
module PyHeap {
  import opened Options

  type Ref = nat

  datatype Obj<+B> = Obj(rc: nat, outside: nat, body: B)

  type Heap<+B> = seq<Obj<B>>

  predicate Alive<B>(h: Heap<B>, o: Ref) {
    o < |h| && h[o].rc > 0
  }

  ghost predicate AllAlive<B>(h: Heap<B>, bag: multiset<Ref>) {
    forall o :: o in bag ==> Alive(h, o)
  }

  /** `h` has at least the references of `bag` to give back. */
  ghost predicate Covers<B>(h: Heap<B>, bag: multiset<Ref>) {
    forall o :: o in bag ==> o < |h| && bag[o] <= h[o].rc
  }

  function Opt(o: Option<Ref>): multiset<Ref> {
    if o.Some? then multiset{o.value} else multiset{}
  }

  // ------------------------------------------------------------------ bulk effects

  function Retain<B>(h: Heap<B>, bag: multiset<Ref>): (r: Heap<B>)
    ensures |r| == |h|
    ensures forall i :: 0 <= i < |h| ==> r[i].body == h[i].body && r[i].rc >= h[i].rc
  {
    seq(|h|, i requires 0 <= i < |h| => h[i].(rc := h[i].rc + bag[i]))
  }

  function Release<B>(h: Heap<B>, bag: multiset<Ref>): (r: Heap<B>)
    requires Covers(h, bag)
    ensures |r| == |h|
    ensures forall i :: 0 <= i < |h| ==> r[i].body == h[i].body && r[i].rc <= h[i].rc
  {
    seq(|h|, i requires 0 <= i < |h| => h[i].(rc := h[i].rc - bag[i]))
  }

  /** References taken by holders other than the C records. */
  function Adopt<B>(h: Heap<B>, bag: multiset<Ref>): (r: Heap<B>)
    ensures |r| == |h|
  {
    seq(|h|, i requires 0 <= i < |h| => h[i].(rc := h[i].rc + bag[i], outside := h[i].outside + bag[i]))
  }

  /** A new object with one reference, held by a C record or, if `given`, by the program. */
  function Alloc<B>(h: Heap<B>, body: B, given: bool): Heap<B> {
    h + [Obj(1, if given then 1 else 0, body)]
  }

  function SetBody<B>(h: Heap<B>, o: Ref, body: B): (r: Heap<B>)
    requires o < |h|
    ensures |r| == |h|
  {
    h[o := h[o].(body := body)]
  }

  // ------------------------------------------------------------------ conservation

  /** Every count is the references held outside plus those the C records hold. */
  ghost predicate Conserved<B>(h: Heap<B>, held: multiset<Ref>) {
    && (forall o :: o in held ==> o < |h|)
    && (forall o :: 0 <= o < |h| ==> h[o].rc == h[o].outside + held[o])
  }

  lemma HeldIsAlive<B>(h: Heap<B>, held: multiset<Ref>)
    requires Conserved(h, held)
    ensures AllAlive(h, held) && Covers(h, held)
  {
  }

  lemma RetainConserves<B>(h: Heap<B>, held: multiset<Ref>, bag: multiset<Ref>)
    requires Conserved(h, held) && AllAlive(h, bag)
    ensures Conserved(Retain(h, bag), held + bag)
  {
  }

  lemma ReleaseConserves<B>(h: Heap<B>, held: multiset<Ref>, bag: multiset<Ref>)
    requires Conserved(h, held) && bag <= held
    ensures Covers(h, bag)
    ensures Conserved(Release(h, bag), held - bag)
  {
    assert forall o :: o in bag ==> o in held && bag[o] <= held[o];
  }

  lemma AdoptConserves<B>(h: Heap<B>, held: multiset<Ref>, bag: multiset<Ref>)
    requires Conserved(h, held) && AllAlive(h, bag)
    ensures Conserved(Adopt(h, bag), held)
  {
  }

  lemma AllocConserves<B>(h: Heap<B>, held: multiset<Ref>, body: B, given: bool)
    requires Conserved(h, held)
    ensures Conserved(Alloc(h, body, given), if given then held else held + multiset{|h|})
  {
    assert |h| !in held;
  }

  lemma SetBodyConserves<B>(h: Heap<B>, held: multiset<Ref>, o: Ref, body: B)
    requires Conserved(h, held) && o < |h|
    ensures Conserved(SetBody(h, o, body), held)
  {
  }

  // ------------------------------------------------------------------ steps add up to bulk effects

  lemma RetainTwice<B>(h: Heap<B>, a: multiset<Ref>, b: multiset<Ref>)
    ensures Retain(Retain(h, a), b) == Retain(h, a + b)
  {
  }

  lemma ReleaseTwice<B>(h: Heap<B>, a: multiset<Ref>, b: multiset<Ref>)
    requires Covers(h, a + b)
    ensures Covers(h, a) && Covers(Release(h, a), b)
    ensures Release(Release(h, a), b) == Release(h, a + b)
  {
    forall o | o in a ensures o < |h| && a[o] <= h[o].rc {
      assert o in a + b;
    }
    forall o | o in b ensures o < |h| && b[o] <= Release(h, a)[o].rc {
      assert o in a + b;
    }
  }

  // ------------------------------------------------------------------ references held by a table of records

  /** All references held by the records of `s`, where `bag` says what one record holds. */
  function Total<T>(bag: T -> multiset<Ref>, s: seq<T>): multiset<Ref> {
    if s == [] then multiset{} else Total(bag, s[..|s| - 1]) + bag(s[|s| - 1])
  }

  lemma TotalAppend<T>(bag: T -> multiset<Ref>, s: seq<T>, x: T)
    ensures Total(bag, s + [x]) == Total(bag, s) + bag(x)
  {
    assert (s + [x])[..|s|] == s;
  }

  lemma {:induction false} TotalUpdate<T>(bag: T -> multiset<Ref>, s: seq<T>, i: nat, x: T)
    requires i < |s|
    ensures bag(s[i]) <= Total(bag, s)
    ensures Total(bag, s[i := x]) == Total(bag, s) - bag(s[i]) + bag(x)
    decreases |s|
  {
    var last := |s| - 1;
    if i == last {
      assert s[i := x][..last] == s[..last];
    } else {
      TotalUpdate(bag, s[..last], i, x);
      assert s[i := x][..last] == s[..last][i := x];
      ExchangeBeside(Total(bag, s[..last]), bag(s[i]), bag(x), bag(s[last]));
    }
  }

  lemma ExchangeBeside(all: multiset<Ref>, gone: multiset<Ref>, added: multiset<Ref>, more: multiset<Ref>)
    requires gone <= all
    ensures gone <= all + more && all - gone + added + more == all + more - gone + added
  {
  }

  lemma SplitDifference(a: multiset<Ref>, b: multiset<Ref>, x: multiset<Ref>, y: multiset<Ref>)
    requires x <= a && y <= b
    ensures y + x <= a + b && a + b - (y + x) == (a - x) + (b - y)
  {
  }

  /** What is held is held by some record. */
  lemma {:induction false} TotalHas<T>(bag: T -> multiset<Ref>, s: seq<T>, o: Ref)
    ensures o in Total(bag, s) <==> exists i :: 0 <= i < |s| && o in bag(s[i])
  {
    if s != [] {
      var n := |s| - 1;
      TotalHas(bag, s[..n], o);
      assert forall i :: 0 <= i < n ==> s[..n][i] == s[i];
    }
  }

  lemma {:induction false} TotalOfNothing<T>(bag: T -> multiset<Ref>, s: seq<T>)
    requires forall i :: 0 <= i < |s| ==> bag(s[i]) == multiset{}
    ensures Total(bag, s) == multiset{}
  {
    if s != [] {
      TotalOfNothing(bag, s[..|s| - 1]);
    }
  }

  // ------------------------------------------------------------------ single steps

  lemma Nothing<B>(h: Heap<B>)
    ensures Retain(h, multiset{}) == h && Adopt(h, multiset{}) == h && Release(h, multiset{}) == h
  {
  }

  method IncRef<B>(h: Heap<B>, o: Ref) returns (r: Heap<B>)
    requires Alive(h, o)
    ensures r == Retain(h, multiset{o})
  {
    r := h[o := h[o].(rc := h[o].rc + 1)];
  }

  method XIncRef<B>(h: Heap<B>, o: Option<Ref>) returns (r: Heap<B>)
    requires o.Some? ==> Alive(h, o.value)
    ensures r == Retain(h, Opt(o))
  {
    r := h;
    if o.Some? {
      r := IncRef(h, o.value);
    } else {
      Nothing(h);
    }
  }

  method DecRef<B>(h: Heap<B>, o: Ref) returns (r: Heap<B>)
    requires Covers(h, multiset{o})
    ensures r == Release(h, multiset{o})
  {
    assert Alive(h, o);
    r := h[o := h[o].(rc := h[o].rc - 1)];
  }

  method XDecRef<B>(h: Heap<B>, o: Option<Ref>) returns (r: Heap<B>)
    requires Covers(h, Opt(o))
    ensures r == Release(h, Opt(o))
  {
    r := h;
    if o.Some? {
      r := DecRef(h, o.value);
    } else {
      Nothing(h);
    }
  }

  /** The references a new tuple takes to its items. */
  method RetainAll<B>(h: Heap<B>, items: seq<Ref>) returns (r: Heap<B>)
    requires forall i :: 0 <= i < |items| ==> Alive(h, items[i])
    ensures r == Retain(h, multiset(items))
  {
    var i := 0;
    r := h;
    Nothing(h);
    while i < |items|
      invariant 0 <= i <= |items|
      invariant r == Retain(h, multiset(items[..i]))
    {
      r := IncRef(r, items[i]);
      RetainTwice(h, multiset(items[..i]), multiset{items[i]});
      assert items[..i + 1] == items[..i] + [items[i]];
      i := i + 1;
    }
    assert items[..i] == items;
  }

  /** The deallocation of a tuple. */
  method ReleaseAll<B>(h: Heap<B>, items: seq<Ref>) returns (r: Heap<B>)
    requires Covers(h, multiset(items))
    ensures r == Release(h, multiset(items))
  {
    var i := 0;
    r := h;
    Nothing(h);
    while i < |items|
      invariant 0 <= i <= |items|
      invariant Covers(h, multiset(items[..i]))
      invariant r == Release(h, multiset(items[..i]))
    {
      assert items == items[..i] + [items[i]] + items[i + 1..];
      assert items[..i + 1] == items[..i] + [items[i]];
      assert multiset(items[..i + 1]) <= multiset(items);
      ReleaseTwice(h, multiset(items[..i]), multiset{items[i]});
      r := DecRef(r, items[i]);
      i := i + 1;
    }
    assert items[..i] == items;
  }

  // ------------------------------------------------------------------ releases in turn

  ghost predicate CoversInTurn<B>(h: Heap<B>, a: multiset<Ref>, b: multiset<Ref>, c: multiset<Ref>, d: multiset<Ref>) {
    && Covers(h, a)
    && Covers(Release(h, a), b)
    && Covers(Release(Release(h, a), b), c)
    && Covers(Release(Release(Release(h, a), b), c), d)
  }

  function ReleaseInTurn<B>(h: Heap<B>, a: multiset<Ref>, b: multiset<Ref>, c: multiset<Ref>, d: multiset<Ref>): Heap<B>
    requires CoversInTurn(h, a, b, c, d)
  {
    Release(Release(Release(Release(h, a), b), c), d)
  }

  /** Four releases one after the other are one release of everything. */
  lemma CoversParts<B>(h: Heap<B>, a: multiset<Ref>, b: multiset<Ref>, c: multiset<Ref>, d: multiset<Ref>,
      all: multiset<Ref>)
    requires all == a + b + c + d && Covers(h, all)
    ensures CoversInTurn(h, a, b, c, d) && ReleaseInTurn(h, a, b, c, d) == Release(h, all)
  {
    hide Covers, Release;
    ReleaseTwice(h, a + b + c, d);
    ReleaseTwice(h, a + b, c);
    ReleaseTwice(h, a, b);
  }
}
