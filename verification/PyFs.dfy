/** A filesystem written in Python, examples/vfs/pygvfsmethod/pyfs.py, seen end to end: through
    `do_read_directory` and `do_read` of gnomevfs/gnome-vfs-python-method.c, and through
    `DirectoryHandle` (gnomevfs/vfs-dir-handle.c) and `Handle.read` (gnomevfs/vfs-handle.c) back to a
    Python program such as examples/vfs/shell.py.  GnomeVFS itself passes calls through.
 */
module PyFs {
  import opened Options
  import opened VfsErrors

  /** What a name stands for.  A `Thing` has the lower-cased name of its type. */
  datatype Value = Text(content: string) | Thing(typeName: string)

  /** What happens when the listing comes to a name: its value can be described, it is skipped (the
      import fails, or the attribute is None), or looking it up raises another exception. */
  datatype Lookup = Loads(value: Value) | Skips | Raises(c: Class)

  datatype Entry = Entry(name: string, lookup: Lookup)

  datatype FileType = REGULAR | DIRECTORY

  datatype Info = Info(name: string, mimeType: string, fileType: FileType, permissions: bv32, size: Option<nat>)

  /** The Python object behind a URI; `attributes` is what dir() finds in it. */
  datatype Object = Object(value: Value, attributes: seq<Entry>)

  datatype Result<+T> = Done(value: T) | Raised(c: Class)

  const EOF_ERROR := Registered(EOF)
  const GENERIC_ERROR := Registered(Generic)

  /** `__get_file_info_from_obj`, and the name. */
  function Describe(name: string, v: Value): Info {
    match v
    case Text(content) => Info(name, "text/plain", REGULAR, 0x124, Some(|content|))
    case Thing(typeName) => Info(name, "python/" + typeName, DIRECTORY, 0x16d, None)
  }

  /** Strings are readable text files of their length, everything else is a directory that can be read and
      entered, without a size. */
  lemma DescribesAs(name: string, v: Value)
    ensures Describe(name, v).name == name
    ensures Describe(name, v).fileType == REGULAR <==> v.Text?
    ensures v.Text? ==> Describe(name, v).mimeType == "text/plain" && Describe(name, v).size == Some(|v.content|)
    ensures v.Thing? ==> Describe(name, v).mimeType == "python/" + v.typeName && Describe(name, v).size == None
    ensures Describe(name, v).permissions as int == if v.Text? then 4 * 64 + 4 * 8 + 4 else 5 * 64 + 5 * 8 + 5
  {
  }

  // ------------------------------------------------------------------ directories

  /** The number of skipped names at the head of a listing. */
  function SkippedAhead(l: seq<Entry>): (k: nat)
    ensures k <= |l| && forall j :: 0 <= j < k ==> l[j].lookup.Skips?
    ensures k < |l| ==> !l[k].lookup.Skips?
  {
    if l == [] || !l[0].lookup.Skips? then 0 else 1 + SkippedAhead(l[1..])
  }

  /** What `next` on a directory handle gives. */
  datatype Next = Yield(info: Info) | StopIteration | Raise(c: Class)

  /** What a program sees of a name that is not skipped. */
  function Seen(e: Entry): Next
    requires !e.lookup.Skips?
  {
    match e.lookup
    case Loads(v) => Yield(Describe(e.name, v))
    case Raises(c) => if BridgeCode(Some(c)) == ERROR_EOF then StopIteration else Raise(Translate(c))
  }

  /** The names that are not skipped, as a program sees them. */
  function Visible(l: seq<Entry>): seq<Next> {
    if l == [] then []
    else (if l[0].lookup.Skips? then [] else [Seen(l[0])]) + Visible(l[1..])
  }

  /** The descriptions of the names that can be looked up. */
  function Loaded(l: seq<Entry>): seq<Info> {
    if l == [] then []
    else (if l[0].lookup.Loads? then [Describe(l[0].name, l[0].lookup.value)] else []) + Loaded(l[1..])
  }

  lemma {:induction false} SkipVisible(l: seq<Entry>, k: nat)
    requires k <= |l| && forall j :: 0 <= j < k ==> l[j].lookup.Skips?
    ensures Visible(l) == Visible(l[k..]) && Loaded(l) == Loaded(l[k..])
  {
    if k > 0 {
      SkipVisible(l[1..], k - 1);
      assert l[1..][k - 1..] == l[k..];
    } else {
      assert l[0..] == l;
    }
  }

  predicate Clean(l: seq<Entry>) {
    forall i :: 0 <= i < |l| ==> !l[i].lookup.Raises?
  }

  lemma {:induction false} CleanVisible(l: seq<Entry>)
    requires Clean(l)
    ensures |Visible(l)| == |Loaded(l)|
    ensures forall i :: 0 <= i < |Loaded(l)| ==> Visible(l)[i] == Yield(Loaded(l)[i])
  {
    if l != [] {
      CleanVisible(l[1..]);
    }
  }

  /** One call of `next` on what is left to see. */
  predicate IsNext(before: seq<Next>, out: Next, after: seq<Next>) {
    if before == [] then out == StopIteration && after == [] else out == before[0] && after == before[1..]
  }

  /** Iterating gives what is left to see, in order, each once, and then StopIteration for ever. */
  lemma {:induction false} IterationIsFilter(left: seq<seq<Next>>, outs: seq<Next>, k: nat)
    requires |left| == |outs| + 1 && k <= |outs|
    requires forall i :: 0 <= i < |outs| ==> IsNext(left[i], outs[i], left[i + 1])
    ensures left[k] == if k <= |left[0]| then left[0][k..] else []
    ensures k < |outs| ==> outs[k] == if k < |left[0]| then left[0][k] else StopIteration
  {
    if k > 0 {
      IterationIsFilter(left, outs, k - 1);
      assert IsNext(left[k - 1], outs[k - 1], left[k]);
    }
    if k < |outs| {
      assert IsNext(left[k], outs[k], left[k + 1]);
    }
  }

  // ------------------------------------------------------------------ files

  function Min(a: nat, b: nat): nat {
    if a <= b then a else b
  }

  const LONG_MAX := 0x7fff_ffff_ffff_ffff

  /** `Handle.read(bytes)` on a file with content `d` at position `p`: what it returns and where it
      leaves the position. */
  predicate IsRead(d: string, p: nat, bytes: int, r: Result<string>, q: nat) {
    if bytes < -LONG_MAX - 1 || bytes > LONG_MAX then r == Raised(OVERFLOW_ERROR) && q == p
    else if bytes < 0 then r == Raised(VALUE_ERROR) && q == p
    else if bytes == 0 then r == Done("") && q == p
    else if p >= |d| then r == Raised(EOF_ERROR) && q == p
    else q == Min(p + bytes, |d|) && p <= q && r == Done(d[p..q])
  }

  /** The strings of the reads that succeeded. */
  function Joined(outs: seq<Result<string>>): string {
    if outs == [] then ""
    else Joined(outs[..|outs| - 1]) + (if outs[|outs| - 1].Done? then outs[|outs| - 1].value else "")
  }

  /** How many bytes were asked for, not counting refused arguments. */
  function Asked(sizes: seq<int>): nat {
    if sizes == [] then 0
    else
      var n := sizes[|sizes| - 1];
      Asked(sizes[..|sizes| - 1]) + if 0 <= n <= LONG_MAX then n else 0
  }

  ghost predicate Reading(d: string, sizes: seq<int>, outs: seq<Result<string>>, at: seq<nat>) {
    && |outs| == |sizes| && |at| == |sizes| + 1 && at[0] == 0
    && forall i :: 0 <= i < |sizes| ==> IsRead(d, at[i], sizes[i], outs[i], at[i + 1])
  }

  /** For any sizes, zero, negative or absurd ones included, the strings read join to the beginning of
      the file, as long as what was asked for or all of it; and a read raises EOFError exactly when its
      size is acceptable, is not 0, and everything was consumed before. */
  lemma ReadsJoin(d: string, sizes: seq<int>, outs: seq<Result<string>>, at: seq<nat>)
    requires Reading(d, sizes, outs, at)
    ensures at[|sizes|] == Min(Asked(sizes), |d|) && Joined(outs) == d[..at[|sizes|]]
    ensures forall i :: 0 <= i < |sizes| ==>
              (outs[i] == Raised(EOF_ERROR) <==> 0 < sizes[i] <= LONG_MAX && Joined(outs[..i]) == d)
  {
    hide Joined, Asked, IsRead;
    ReadsAdd(d, sizes, outs, at);
    forall i | 0 <= i < |sizes|
      ensures outs[i] == Raised(EOF_ERROR) <==> 0 < sizes[i] <= LONG_MAX && Joined(outs[..i]) == d
    {
      EOFExactly(d, sizes, outs, at, i);
    }
  }

  lemma {:induction false} ReadsAdd(d: string, sizes: seq<int>, outs: seq<Result<string>>, at: seq<nat>)
    requires Reading(d, sizes, outs, at)
    ensures at[|sizes|] == Min(Asked(sizes), |d|) && Joined(outs) == d[..at[|sizes|]]
  {
    var n := |sizes|;
    if n > 0 {
      ReadsAdd(d, sizes[..n - 1], outs[..n - 1], at[..n]);
      var p, q := at[n - 1], at[n];
      assert IsRead(d, p, sizes[n - 1], outs[n - 1], q);
      if p < q {
        assert d[..p] + d[p..q] == d[..q];
      }
    }
  }

  /** Read `i` raises EOFError exactly if it asks for something and all was read before. */
  lemma EOFExactly(d: string, sizes: seq<int>, outs: seq<Result<string>>, at: seq<nat>, i: nat)
    requires Reading(d, sizes, outs, at) && i < |sizes|
    ensures outs[i] == Raised(EOF_ERROR) <==> 0 < sizes[i] <= LONG_MAX && Joined(outs[..i]) == d
  {
    hide Joined, Asked;
    assert Reading(d, sizes[..i], outs[..i], at[..i + 1]);
    ReadsAdd(d, sizes[..i], outs[..i], at[..i + 1]);
    assert IsRead(d, at[i], sizes[i], outs[i], at[i + 1]);
    JoinedIsAll(d, at[i]);
  }

  lemma JoinedIsAll(d: string, p: nat)
    requires p <= |d|
    ensures d[..p] == d <==> p == |d|
  {
    assert d[..|d|] == d;
  }

  /** Reads that all succeed are no more than there are bytes, so that one of the first |d| + 1 raises
      EOFError, and what was read before that is the file. */
  ghost predicate EndsInTime(d: string, outs: seq<Result<string>>) {
    && ((forall i :: 0 <= i < |outs| ==> outs[i].Done?) ==> |outs| <= |d|)
    && (|outs| > |d| ==> exists i :: 0 <= i <= |d| && outs[i] == Raised(EOF_ERROR))
    && (|outs| > 0 && outs[|outs| - 1] == Raised(EOF_ERROR) ==> Joined(outs[..|outs| - 1]) == d)
  }

  /** Reading with positive sizes until EOFError ends, after at most |d| successful reads, with
      exactly the file. */
  lemma {:induction false} ReadUntilEOF(d: string, sizes: seq<int>, outs: seq<Result<string>>, at: seq<nat>)
    requires Reading(d, sizes, outs, at)
    requires forall i :: 0 <= i < |sizes| ==> 0 < sizes[i] <= LONG_MAX
    ensures EndsInTime(d, outs)
  {
    hide Joined, Asked;
    ReadsJoin(d, sizes, outs, at);
    if forall i :: 0 <= i < |outs| ==> outs[i].Done? {
      ReadsAdvance(d, sizes, outs, at, |sizes|);
    }
    if |sizes| > |d| {
      SomeReadFails(d, sizes, outs, at);
    }
  }

  lemma SomeReadFails(d: string, sizes: seq<int>, outs: seq<Result<string>>, at: seq<nat>)
    requires Reading(d, sizes, outs, at) && |sizes| > |d|
    requires forall i :: 0 <= i < |sizes| ==> 0 < sizes[i] <= LONG_MAX
    ensures exists i :: 0 <= i <= |d| && outs[i] == Raised(EOF_ERROR)
  {
    if i: nat :| i <= |d| && !outs[i].Done? {
      assert IsRead(d, at[i], sizes[i], outs[i], at[i + 1]);
      assert outs[i] == Raised(EOF_ERROR);
    } else {
      ReadsAdvance(d, sizes, outs, at, |d| + 1);
    }
  }

  lemma {:induction false} ReadsAdvance(d: string, sizes: seq<int>, outs: seq<Result<string>>, at: seq<nat>, n: nat)
    requires Reading(d, sizes, outs, at) && n <= |sizes|
    requires forall i :: 0 <= i < |sizes| ==> 0 < sizes[i] <= LONG_MAX
    requires forall i :: 0 <= i < n ==> outs[i].Done?
    ensures n <= at[n] && (n > 0 ==> at[n] <= |d|)
  {
    if n > 0 {
      ReadsAdvance(d, sizes, outs, at, n - 1);
      assert IsRead(d, at[n - 1], sizes[n - 1], outs[n - 1], at[n]);
    }
  }

  // ------------------------------------------------------------------ pyfs.py

  /** class Handle. */
  class Handle {
    const obj: Option<Object>
    var dir: Option<seq<Entry>>
    var filepos: Option<nat>
    var data: Option<string>

    ghost predicate Valid()
      reads this
    {
      && (filepos.Some? <==> data.Some?)
      && (data.Some? ==> filepos.value <= |data.value|)
    }

    /** `__init__` for a path that could be resolved; None is the root. */
    constructor (obj: Option<Object>)
      ensures Valid() && this.obj == obj && data == None
      ensures dir == if obj.None? then None else Some([])
    {
      this.obj := obj;
      dir := if obj.None? then None else Some([]);
      filepos, data := None, None;
    }

    /** `modules` is what sys.modules holds at the moment. */
    method OpenDir(modules: seq<Entry>)
      requires Valid()
      modifies this`dir
      ensures Valid() && dir == Some(if obj.None? then modules else obj.value.attributes)
    {
      if obj.None? {
        dir := Some(modules);
      } else {
        dir := Some(obj.value.attributes);
      }
    }

    /** Pops names until one is not skipped. */
    method ReadDir() returns (r: Result<Info>)
      requires Valid()
      modifies this`dir
      ensures Valid() && (dir.None? <==> old(dir).None?)
      ensures old(dir).None? ==> r == Raised(ATTRIBUTE_ERROR)
      ensures old(dir).Some? ==>
                var l := old(dir).value;
                var k := SkippedAhead(l);
                if k == |l| then dir == Some([]) && r == Raised(EOF_ERROR)
                else dir == Some(l[k + 1..])
                     && r == if l[k].lookup.Loads? then Done(Describe(l[k].name, l[k].lookup.value))
                         else Raised(l[k].lookup.c)
      decreases if dir.Some? then |dir.value| else 0
    {
      if dir.None? {
        return Raised(ATTRIBUTE_ERROR);
      }
      if |dir.value| == 0 {
        return Raised(EOF_ERROR);
      }
      var e := dir.value[0];
      dir := Some(dir.value[1..]);
      match e.lookup {
        case Skips =>
          r := ReadDir();
        case Raises(c) =>
          r := Raised(c);
        case Loads(v) =>
          r := Done(Describe(e.name, v));
      }
    }

    method CloseDir()
      requires Valid()
      modifies this`dir
      ensures Valid() && dir == None
    {
      dir := None;
    }

    method GetFileInfo(name: string, modulesType: string) returns (info: Info)
      ensures obj.None? ==> info == Describe("", Thing(modulesType))
      ensures obj.Some? ==> info == Describe(name, obj.value.value)
    {
      if obj.None? {
        info := Describe("", Thing(modulesType));
      } else {
        info := Describe(name, obj.value.value);
      }
    }

    /** Only an object that is a string can be opened. */
    method Open() returns (r: Result<()>)
      requires Valid()
      modifies this`filepos, this`data
      ensures Valid()
      ensures r.Done? <==> obj.Some? && obj.value.value.Text?
      ensures r.Done? ==> data == Some(obj.value.value.content) && filepos == Some(0)
      ensures !r.Done? ==> r == Raised(GENERIC_ERROR) && data == old(data) && filepos == old(filepos)
    {
      if obj.Some? && obj.value.value.Text? {
        filepos, data := Some(0), Some(obj.value.value.content);
        return Done(());
      }
      return Raised(GENERIC_ERROR);
    }

    /** Copies the next chunk into the caller's buffer.  After `close` the first test fails with a
        TypeError, so that the test for None behind it is never reached. */
    method Read(buffer: array<char>, numBytes: nat) returns (r: Result<nat>)
      requires Valid() && numBytes == buffer.Length
      modifies this`filepos, buffer
      ensures Valid()
      ensures data.None? ==> r == Raised(TYPE_ERROR)
      ensures data.Some? && old(filepos).value == |data.value| ==> r == Raised(EOF_ERROR)
      ensures r.Done? <==> data.Some? && old(filepos).value < |data.value|
      ensures r.Raised? ==> filepos == old(filepos) && buffer[..] == old(buffer[..])
      ensures r.Done? ==>
                && filepos == Some(Min(old(filepos).value + numBytes, |data.value|))
                && r.value == filepos.value - old(filepos).value <= numBytes
                && buffer[..r.value] == data.value[old(filepos).value..filepos.value]
                && buffer[r.value..] == old(buffer[..])[r.value..]
    {
      if filepos.None? || data.None? {
        return Raised(TYPE_ERROR);
      }
      var p := filepos.value;
      if p >= |data.value| {
        return Raised(EOF_ERROR);
      }
      var chunk := data.value[p..Min(p + numBytes, |data.value|)];
      forall i | 0 <= i < |chunk| {
        buffer[i] := chunk[i];
      }
      filepos := Some(p + |chunk|);
      r := Done(|chunk|);
      assert buffer[..|chunk|] == chunk;
    }

    method Close()
      requires Valid()
      modifies this`filepos, this`data
      ensures Valid() && data == None && filepos == None
    {
      data, filepos := None, None;
    }
  }

  // ------------------------------------------------------------------ the bridge

  /** `do_read_directory`. */
  method DoReadDirectory(handle: Handle) returns (code: Code, info: Option<Info>)
    requires handle.Valid()
    modifies handle`dir
    ensures handle.Valid() && (handle.dir.None? <==> old(handle.dir).None?)
    ensures code == OK <==> info.Some?
    ensures old(handle.dir).None? ==> code == BridgeCode(Some(ATTRIBUTE_ERROR))
    ensures old(handle.dir).Some? ==>
              var l := old(handle.dir).value;
              var k := SkippedAhead(l);
              if k == |l| then handle.dir == Some([]) && code == ERROR_EOF
              else handle.dir == Some(l[k + 1..])
                   && (l[k].lookup.Loads? ==> info == Some(Describe(l[k].name, l[k].lookup.value)))
                   && (l[k].lookup.Raises? ==> code == BridgeCode(Some(l[k].lookup.c)))
  {
    var retval := handle.ReadDir();
    if retval.Raised? {
      NeverLost(Some(retval.c));
      EOFCrosses();
      return BridgeCode(Some(retval.c)), None;
    }
    return OK, Some(retval.value);
  }

  lemma EOFCrosses()
    ensures BridgeCode(Some(EOF_ERROR)) == ERROR_EOF && Translate(EOF_ERROR) == EOF_ERROR
  {
    hide FirstMatch, Matches, ResultCheck, Translate;
    RegisteredMatch(EOF);
    TranslateRegistered(EOF);
  }

  /** `do_read`. */
  method DoRead(handle: Handle, buffer: array<char>, numBytes: nat) returns (code: Code, bytesRead: nat)
    requires handle.Valid() && numBytes == buffer.Length
    modifies handle`filepos, buffer
    ensures handle.Valid()
    ensures handle.data.None? ==> code == BridgeCode(Some(TYPE_ERROR)) && code != OK
    ensures handle.data.Some? && old(handle.filepos).value == |handle.data.value| ==> code == ERROR_EOF
    ensures code == OK <==> handle.data.Some? && old(handle.filepos).value < |handle.data.value|
    ensures code != OK ==> handle.filepos == old(handle.filepos)
    ensures code == OK ==>
              && handle.filepos == Some(Min(old(handle.filepos).value + numBytes, |handle.data.value|))
              && bytesRead <= numBytes
              && buffer[..bytesRead] == handle.data.value[old(handle.filepos).value..handle.filepos.value]
  {
    var retval := handle.Read(buffer, numBytes);
    if retval.Raised? {
      NeverLost(Some(retval.c));
      EOFCrosses();
      return BridgeCode(Some(retval.c)), 0;
    }
    return OK, retval.value;
  }

  // ------------------------------------------------------------------ the Python side again

  /** gnomevfs.DirectoryHandle over a pyfs directory. */
  class DirectoryHandle {
    const dir: Handle

    constructor (dir: Handle)
      ensures this.dir == dir
    {
      this.dir := dir;
    }

    ghost predicate Open()
      reads this, dir
    {
      dir.Valid() && dir.dir.Some?
    }

    /** `pygvdir_iternext`. */
    method Next() returns (r: Next)
      requires Open()
      modifies dir`dir
      ensures Open() && |dir.dir.value| <= |old(dir.dir.value)|
      ensures IsNext(Visible(old(dir.dir.value)), r, Visible(dir.dir.value))
      ensures r.Yield? ==> var k := SkippedAhead(old(dir.dir.value));
                           k < |old(dir.dir.value)| && dir.dir.value == old(dir.dir.value)[k + 1..]
      ensures r.Yield? ==> Loaded(old(dir.dir.value)) == [r.info] + Loaded(dir.dir.value)
    {
      ghost var l := dir.dir.value;
      NextFacts(l);
      var result, finfo := DoReadDirectory(dir);
      if result == ERROR_EOF {
        return StopIteration;
      }
      var raised := ResultCheck(result);
      if raised.Some? {
        return Raise(raised.value);
      }
      return Yield(finfo.value);
    }
  }

  /** The head of what is visible is the first name not skipped. */
  lemma NextFacts(l: seq<Entry>)
    ensures var k := SkippedAhead(l);
            if k == |l| then Visible(l) == []
            else && Visible(l) == [Seen(l[k])] + Visible(l[k + 1..])
                 && (l[k].lookup.Loads? ==>
                       Loaded(l) == [Describe(l[k].name, l[k].lookup.value)] + Loaded(l[k + 1..]))
                 && (l[k].lookup.Raises? ==>
                       var code := BridgeCode(Some(l[k].lookup.c));
                       code != OK && ResultCheck(code) == Some(Translate(l[k].lookup.c)))
  {
    var k := SkippedAhead(l);
    SkipVisible(l, k);
    if k < |l| {
      assert l[k..][1..] == l[k + 1..];
      if l[k].lookup.Raises? {
        NeverLost(Some(l[k].lookup.c));
      }
    }
  }

  /** The file side of gnomevfs.Handle: `pygvhandle_read` over an open pyfs file. */
  method HandleRead(fd: Option<Handle>, bytes: int) returns (r: Result<string>)
    requires fd.Some? ==> fd.value.Valid()
    modifies if fd.Some? then {fd.value} else {}
    ensures fd.None? ==> r == Raised(VALUE_ERROR)
    ensures fd.Some? ==> fd.value.Valid() && fd.value.data == old(fd.value.data) && fd.value.dir == old(fd.value.dir)
    ensures fd.Some? && fd.value.data.Some? ==>
              IsRead(fd.value.data.value, old(fd.value.filepos).value, bytes, r, fd.value.filepos.value)
    ensures fd.Some? && fd.value.data.None? && 0 < bytes <= LONG_MAX ==> r == Raised(Translate(TYPE_ERROR))
  {
    if fd.None? {
      return Raised(VALUE_ERROR);
    }
    if bytes < -LONG_MAX - 1 || bytes > LONG_MAX {
      return Raised(OVERFLOW_ERROR);
    }
    if bytes < 0 {
      return Raised(VALUE_ERROR);
    } else if bytes == 0 {
      return Done("");
    }
    var buffer := new char[bytes];
    var result, bytesRead := DoRead(fd.value, buffer, bytes);
    var raised := ResultCheck(result);
    if raised.Some? {
      return Raised(raised.value);
    }
    FailedReads(result, fd.value.data.None?);
    return Done(buffer[..bytesRead]);
  }

  /** The codes `do_read` gives are all known to `result_check`. */
  lemma FailedReads(code: Code, closed: bool)
    requires code == OK || code == ERROR_EOF || code == BridgeCode(Some(TYPE_ERROR))
    ensures ResultCheck(code).None? ==> code == OK
  {
    NeverLost(Some(TYPE_ERROR));
  }

  // ------------------------------------------------------------------ many calls

  /** `n` calls of `next` on one directory handle: the names that are not skipped, in order, each once,
      and from then on StopIteration. */
  method Iterate(d: DirectoryHandle, n: nat) returns (outs: seq<Next>)
    requires d.Open()
    modifies d.dir`dir
    ensures d.Open() && |outs| == n
    ensures var seen := Visible(old(d.dir.dir.value));
            && (forall k :: 0 <= k < n ==> outs[k] == if k < |seen| then seen[k] else StopIteration)
            && Visible(d.dir.dir.value) == if n <= |seen| then seen[n..] else []
  {
    hide Visible, Loaded, SkippedAhead;
    outs := [];
    ghost var left := [Visible(d.dir.dir.value)];
    var i := 0;
    while i < n
      invariant 0 <= i <= n && d.Open() && |outs| == i && |left| == i + 1
      invariant left[0] == Visible(old(d.dir.dir.value)) && left[i] == Visible(d.dir.dir.value)
      invariant forall k :: 0 <= k < i ==> IsNext(left[k], outs[k], left[k + 1])
    {
      var out := d.Next();
      outs := outs + [out];
      left := left + [Visible(d.dir.dir.value)];
      i := i + 1;
    }
    forall k | 0 <= k < n ensures outs[k] == if k < |left[0]| then left[0][k] else StopIteration {
      IterationIsFilter(left, outs, k);
    }
    IterationIsFilter(left, outs, n);
  }

  /** Reads of the given sizes, one after the other, on a file just opened. */
  method ReadMany(fd: Handle, sizes: seq<int>) returns (outs: seq<Result<string>>)
    requires fd.Valid() && fd.data.Some? && fd.filepos == Some(0)
    modifies fd
    ensures fd.Valid() && fd.data == old(fd.data) && |outs| == |sizes|
    ensures var d := fd.data.value;
            && Joined(outs) == d[..Min(Asked(sizes), |d|)]
            && fd.filepos == Some(Min(Asked(sizes), |d|))
            && forall i :: 0 <= i < |sizes| ==>
                 (outs[i] == Raised(EOF_ERROR) <==> 0 < sizes[i] <= LONG_MAX && Joined(outs[..i]) == d)
    ensures exists at :: Reading(fd.data.value, sizes, outs, at)
    ensures (forall i :: 0 <= i < |sizes| ==> 0 < sizes[i] <= LONG_MAX) ==>
              EndsInTime(fd.data.value, outs)
  {
    hide Joined, Asked, IsRead, EndsInTime;
    ghost var d := fd.data.value;
    ghost var at: seq<nat> := [0];
    outs := [];
    var i := 0;
    while i < |sizes|
      invariant 0 <= i <= |sizes| && |outs| == i && |at| == i + 1
      invariant fd.Valid() && fd.data == Some(d) && fd.filepos == Some(at[i]) && at[0] == 0
      invariant forall k :: 0 <= k < i ==> IsRead(d, at[k], sizes[k], outs[k], at[k + 1])
    {
      var r := HandleRead(Some(fd), sizes[i]);
      outs := outs + [r];
      at := at + [fd.filepos.value];
      i := i + 1;
    }
    ReadsJoin(d, sizes, outs, at);
    if forall i :: 0 <= i < |sizes| ==> 0 < sizes[i] <= LONG_MAX {
      ReadUntilEOF(d, sizes, outs, at);
    }
  }

  /** Reading in pieces of `size` until EOFError ends, with exactly the file. */
  method ReadAll(fd: Handle, size: int) returns (content: string)
    requires fd.Valid() && fd.data.Some? && fd.filepos == Some(0) && 0 < size <= LONG_MAX
    modifies fd
    ensures fd.Valid() && content == old(fd.data.value) && fd.data == old(fd.data)
  {
    content := "";
    ghost var d := fd.data.value;
    while true
      invariant fd.Valid() && fd.data == Some(d) && content == d[..fd.filepos.value]
      decreases |d| - fd.filepos.value
    {
      ghost var p := fd.filepos.value;
      var r := HandleRead(Some(fd), size);
      if r.Raised? {
        assert d[..p] == d;
        return;
      }
      assert d[..p] + d[p..fd.filepos.value] == d[..fd.filepos.value];
      content := content + r.value;
    }
  }

  // ------------------------------------------------------------------ shell.py

  /** `less`: the size a file reports is enough to read all of it, in one read. */
  method Less(obj: Object, name: string) returns (r: Result<string>)
    requires obj.value.Text? ==> |obj.value.content| <= LONG_MAX
    ensures r == if obj.value.Text? then Done(obj.value.content) else Raised(GENERIC_ERROR)
  {
    var h := new Handle(Some(obj));
    var fileInfo := h.GetFileInfo(name, "");
    var open := h.Open();
    if open.Raised? {
      TranslateRegistered(Generic);
      return Raised(Translate(open.c));
    }
    assert obj.value.content[0..|obj.value.content|] == obj.value.content;
    r := HandleRead(Some(h), fileInfo.size.value);
  }

  /** How a `for` loop over a directory handle ends. */
  datatype LoopEnd = Finished | Aborted(c: Class)

  /** The loop of `ls`, before its printing. */
  method Ls(dhandle: DirectoryHandle) returns (printed: seq<Info>, end: LoopEnd)
    requires dhandle.Open()
    modifies dhandle.dir`dir
    ensures var l := old(dhandle.dir.dir.value);
            && printed <= Loaded(l)
            && (end == Finished && printed == Loaded(l) <==> ListsAll(l))
            && (Clean(l) ==> end == Finished && printed == Loaded(l))
  {
    hide Visible, Loaded, ListsAll, Clean, SkippedAhead, IsNext;
    printed := [];
    ghost var l := dhandle.dir.dir.value;
    while true
      invariant dhandle.Open()
      invariant Loaded(l) == printed + Loaded(dhandle.dir.dir.value)
      invariant ListsAll(l) <==> ListsAll(dhandle.dir.dir.value)
      invariant Clean(l) ==> Clean(dhandle.dir.dir.value)
      decreases |dhandle.dir.dir.value|
    {
      ghost var before := dhandle.dir.dir.value;
      var r := dhandle.Next();
      LsFacts(before, r, dhandle.dir.dir.value);
      match r {
        case Yield(info) =>
          printed := printed + [info];
        case StopIteration =>
          return printed, Finished;
        case Raise(c) =>
          return printed, Aborted(c);
      }
    }
  }

  /** Nothing that can be looked up follows a lookup that raises, and the first one that raises, if
      there is one, crosses the bridge as the end of the directory. */
  predicate ListsAll(l: seq<Entry>) {
    if l == [] then true
    else if l[0].lookup.Raises? then BridgeCode(Some(l[0].lookup.c)) == ERROR_EOF && Loaded(l) == []
    else ListsAll(l[1..])
  }

  /** A lookup that raises EOFError itself ends the loop before the names behind it. */
  lemma EarlyEnd(name: string, text: string)
    ensures var l := [Entry("x", Raises(EOF_ERROR)), Entry(name, Loads(Text(text)))];
            !ListsAll(l) && Loaded(l) == [Describe(name, Text(text))] && Visible(l)[0] == StopIteration
  {
    EOFCrosses();
    var l := [Entry("x", Raises(EOF_ERROR)), Entry(name, Loads(Text(text)))];
    var rest := l[1..];
    assert rest == [Entry(name, Loads(Text(text)))] && rest[1..] == [];
    assert Loaded(rest) == [Describe(name, Text(text))] + Loaded([]);
    assert Loaded(l) == [] + Loaded(rest);
  }

  /** What one turn of the loop tells about the listing. */
  lemma LsFacts(l: seq<Entry>, r: Next, rest: seq<Entry>)
    requires IsNext(Visible(l), r, Visible(rest))
    requires r.Yield? ==> SkippedAhead(l) < |l| && rest == l[SkippedAhead(l) + 1..]
    ensures r.Yield? ==> (ListsAll(l) <==> ListsAll(rest)) && (Clean(l) ==> Clean(rest))
    ensures !r.Yield? ==> (ListsAll(l) <==> r == StopIteration && Loaded(l) == [])
    ensures !r.Yield? && Clean(l) ==> r == StopIteration && Loaded(l) == []
  {
    hide Loaded, BridgeCode, Translate;
    var k := SkippedAhead(l);
    NextFacts(l);
    SkipListsAll(l, k);
    SkipVisible(l, k);
    NothingLoaded();
    if k < |l| {
      assert l[k..][1..] == l[k + 1..] && l[k..][0] == l[k];
    }
  }

  lemma NothingLoaded()
    ensures Loaded([]) == []
  {
  }

  lemma {:induction false} SkipListsAll(l: seq<Entry>, k: nat)
    requires k <= |l| && forall j :: 0 <= j < k ==> l[j].lookup.Skips?
    ensures ListsAll(l) <==> ListsAll(l[k..])
  {
    if k > 0 {
      SkipListsAll(l[1..], k - 1);
      assert l[1..][k - 1..] == l[k..];
    } else {
      assert l[0..] == l;
    }
  }
}
