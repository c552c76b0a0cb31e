/** gnomevfs.FileInfo: `pygvfinfo_getattr` and `pygvfinfo_setattr` of gnomevfs/vfs-file-info.c over the
    C structure GnomeVFSFileInfo.

    The structure is that of libgnomevfs on a machine with 64-bit long, size and time types and 32-bit
    int and enumeration types.
 */
module FileInfo {
  import opened Options
  import opened VfsErrors

  datatype Attr =
    | NAME | VALID_FIELDS | TYPE | PERMISSIONS | ACCESS | FLAGS | DEVICE | INODE | LINK_COUNT | UID | GID | SIZE
    | BLOCK_COUNT | IO_BLOCK_SIZE | ATIME | MTIME | CTIME | SYMLINK_NAME | MIME_TYPE
    | MEMBERS | UNKNOWN

  /** A Python object: an int (which holds a C long), a long, a string, or None and the like. */
  datatype PyVal = PyInt(n: int) | PyLong(n: int) | PyString(s: string) | PyNone | PyOther

  datatype Info = Info(
    validFields: bv32, permissions: bv32,
    fileType: nat, flags: nat, device: nat, inode: nat, linkCount: nat, uid: nat, gid: nat, size: nat,
    blockCount: nat, ioBlockSize: nat, atime: nat, mtime: nat, ctime: nat,
    name: Option<string>, symlinkName: Option<string>, mimeType: Option<string>)

  /** gnome_vfs_file_info_new. */
  const EMPTY := Info(0, 0, 0, 0, 0, 0, 0, 0, 0, 0, 0, 0, 0, 0, 0, None, None, None)

  const MAXLONG := 0x7fff_ffff_ffff_ffff
  const WORD32 := 0x1_0000_0000
  const WORD64 := 0x1_0000_0000_0000_0000

  /** PYGNOME_VFS_ACCESS_BITS. */
  const ACCESS_BITS: bv32 := 0x70000

  // ------------------------------------------------------------------ the attributes

  /** The attributes kept in an integer field of their own. */
  predicate IsNumber(a: Attr) {
    match a
    case TYPE | FLAGS | DEVICE | INODE | LINK_COUNT | UID | GID | SIZE => true
    case BLOCK_COUNT | IO_BLOCK_SIZE | ATIME | MTIME | CTIME => true
    case _ => false
  }

  predicate IsTime(a: Attr) {
    a == ATIME || a == MTIME || a == CTIME
  }

  predicate IsString(a: Attr) {
    a == NAME || a == SYMLINK_NAME || a == MIME_TYPE
  }

  /** The validity bit of an attribute.  uid and gid share one; name, which is always valid, has none. */
  function Bit(a: Attr): bv32 {
    match a
    case TYPE => 0x1
    case PERMISSIONS => 0x2
    case FLAGS => 0x4
    case DEVICE => 0x8
    case INODE => 0x10
    case LINK_COUNT => 0x20
    case SIZE => 0x40
    case BLOCK_COUNT => 0x80
    case IO_BLOCK_SIZE => 0x100
    case ATIME => 0x200
    case MTIME => 0x400
    case CTIME => 0x800
    case SYMLINK_NAME => 0x1000
    case MIME_TYPE => 0x2000
    case ACCESS => 0x4000
    case UID | GID => 0x8000
    case NAME | VALID_FIELDS | MEMBERS | UNKNOWN => 0
  }

  predicate HasBit(a: Attr) {
    match a
    case NAME | VALID_FIELDS | MEMBERS | UNKNOWN => false
    case _ => true
  }

  /** The values an attribute can have as a machine word. */
  function Width(a: Attr): nat {
    match a
    case TYPE | FLAGS | LINK_COUNT | UID | GID | IO_BLOCK_SIZE => WORD32
    case _ => WORD64
  }

  /** The type check of an assignment. */
  predicate Accepts(a: Attr, v: PyVal) {
    match a
    case NAME | SYMLINK_NAME | MIME_TYPE => v.PyString?
    case VALID_FIELDS | TYPE | PERMISSIONS | ACCESS | FLAGS => v.PyInt?
    case ATIME | MTIME | CTIME => v.PyLong?
    case DEVICE | INODE | LINK_COUNT | UID | GID | SIZE | BLOCK_COUNT | IO_BLOCK_SIZE => v.PyInt? || v.PyLong?
    case MEMBERS | UNKNOWN => false
  }

  /** PyLong_AsUnsignedLongLong: out of range it answers all ones and leaves an exception pending,
      which the assignment does not look at. */
  function AsUnsigned(n: int): nat {
    if 0 <= n < WORD64 then n else WORD64 - 1
  }

  /** The exception of PyLong_AsUnsignedLongLong. */
  function Overflow(v: PyVal): Option<Class> {
    if v.PyLong? && !(0 <= v.n < WORD64) then Some(OVERFLOW_ERROR) else None
  }

  /** The exception an accepted assignment leaves pending although it reports success. */
  function QuietError(a: Attr, v: PyVal): Option<Class> {
    if Accepts(a, v) then Overflow(v) else None
  }

  /** The word an accepted value is stored as. */
  function Word(a: Attr, v: PyVal): nat
    requires v.PyInt? || v.PyLong?
  {
    (if v.PyInt? then v.n else AsUnsigned(v.n)) % Width(a)
  }

  function Word32(n: int): bv32 {
    (n % WORD32) as bv32
  }

  /** g_strdup(PyString_AsString(s)): a C string ends at the first NUL. */
  function CString(s: string): (r: string)
    ensures r <= s && '\0' !in r
    ensures |r| < |s| ==> s[|r|] == '\0'
  {
    if s == "" || s[0] == '\0' then ""
    else
      var rest := CString(s[1..]);
      assert s[..1 + |rest|] == [s[0]] + s[1..][..|rest|];
      [s[0]] + rest
  }

  function Number(f: Info, a: Attr): nat
    requires IsNumber(a)
  {
    match a
    case TYPE => f.fileType
    case FLAGS => f.flags
    case DEVICE => f.device
    case INODE => f.inode
    case LINK_COUNT => f.linkCount
    case UID => f.uid
    case GID => f.gid
    case SIZE => f.size
    case BLOCK_COUNT => f.blockCount
    case IO_BLOCK_SIZE => f.ioBlockSize
    case ATIME => f.atime
    case MTIME => f.mtime
    case CTIME => f.ctime
  }

  function SetNumber(f: Info, a: Attr, w: nat): Info
    requires IsNumber(a)
  {
    match a
    case TYPE => f.(fileType := w)
    case FLAGS => f.(flags := w)
    case DEVICE => f.(device := w)
    case INODE => f.(inode := w)
    case LINK_COUNT => f.(linkCount := w)
    case UID => f.(uid := w)
    case GID => f.(gid := w)
    case SIZE => f.(size := w)
    case BLOCK_COUNT => f.(blockCount := w)
    case IO_BLOCK_SIZE => f.(ioBlockSize := w)
    case ATIME => f.(atime := w)
    case MTIME => f.(mtime := w)
    case CTIME => f.(ctime := w)
  }

  function String(f: Info, a: Attr): Option<string>
    requires IsString(a)
  {
    match a
    case NAME => f.name
    case SYMLINK_NAME => f.symlinkName
    case MIME_TYPE => f.mimeType
  }

  function SetString(f: Info, a: Attr, s: string): Info
    requires IsString(a)
  {
    match a
    case NAME => f.(name := Some(s))
    case SYMLINK_NAME => f.(symlinkName := Some(s))
    case MIME_TYPE => f.(mimeType := Some(s))
  }

  // ------------------------------------------------------------------ assignment and access

  function With(w: bv32, bits: bv32): bv32 {
    w | bits
  }

  predicate Has(w: bv32, bits: bv32) {
    w & bits != 0
  }

  function Mark(f: Info, a: Attr): Info {
    f.(validFields := With(f.validFields, Bit(a)))
  }

  function Assign(f: Info, a: Attr, v: PyVal): Info {
    if !Accepts(a, v) then f
    else if a == VALID_FIELDS then f.(validFields := Word32(v.n))
    else if a == PERMISSIONS then Mark(f, a).(permissions := Word32(v.n))
    else if a == ACCESS then Mark(f, a).(permissions := With(f.permissions, Word32(v.n)))
    else if IsString(a) then SetString(Mark(f, a), a, CString(v.s))
    else SetNumber(Mark(f, a), a, Word(a, v))
  }

  /** Reading an attribute: a value, ValueError, or what needs no structure. */
  datatype Got = Gives(v: PyVal) | Invalid | ByPython

  predicate IsValid(f: Info, a: Attr) {
    Has(f.validFields, Bit(a))
  }

  /** An integer as the getter of `a` presents its word. */
  function Present(a: Attr, w: nat): PyVal {
    if IsTime(a) then PyLong(if w <= MAXLONG then w else w - WORD64)
    else if a == TYPE || a == FLAGS then PyInt(w)
    else if (if Width(a) == WORD32 then w < MAXLONG else w <= MAXLONG) then PyInt(w)
    else PyLong(w)
  }

  /** The two parts of the shared word. */
  function PermissionsPart(w: bv32): bv32 {
    w & !ACCESS_BITS
  }

  function AccessPart(w: bv32): bv32 {
    w & ACCESS_BITS
  }

  function AsInt(w: bv32): PyVal {
    PyInt(w as int)
  }

  function Access(f: Info, a: Attr): Got {
    if a == MEMBERS || a == UNKNOWN then ByPython
    else if HasBit(a) && !IsValid(f, a) then Invalid
    else if a == VALID_FIELDS then Gives(AsInt(f.validFields))
    else if a == PERMISSIONS then Gives(AsInt(PermissionsPart(f.permissions)))
    else if a == ACCESS then Gives(AsInt(AccessPart(f.permissions)))
    else if IsString(a) then Gives(if String(f, a).Some? then PyString(String(f, a).value) else PyNone)
    else Gives(Present(a, Number(f, a)))
  }

  // ------------------------------------------------------------------ histories

  datatype Assignment = Assignment(attr: Attr, value: PyVal)

  predicate Succeeds(e: Assignment) {
    Accepts(e.attr, e.value)
  }

  /** The structure after a sequence of assignments, failed ones included. */
  function After(f: Info, h: seq<Assignment>): Info {
    if h == [] then f
    else
      var e := h[|h| - 1];
      Assign(After(f, h[..|h| - 1]), e.attr, e.value)
  }

  /** The value of the last successful assignment to `a`. */
  function Last(h: seq<Assignment>, a: Attr): (r: Option<PyVal>)
    ensures r.Some? ==> Accepts(a, r.value) && Assignment(a, r.value) in h
    ensures r.None? <==> forall i :: 0 <= i < |h| ==> h[i].attr == a ==> !Succeeds(h[i])
  {
    if h == [] then None
    else
      var e := h[|h| - 1];
      if e.attr == a && Succeeds(e) then Some(e.value)
      else
        var r := Last(h[..|h| - 1], a);
        assert r.Some? ==> exists i :: 0 <= i < |h| - 1 && h[i] == Assignment(a, r.value);
        r
  }

  /** Strings, integers and the rest are apart. */
  lemma KindOf(a: Attr, v: PyVal)
    ensures !(IsNumber(a) && IsString(a)) && (IsTime(a) ==> IsNumber(a))
    ensures IsNumber(a) || IsString(a) ==> a != VALID_FIELDS && a != PERMISSIONS && a != ACCESS
    ensures Accepts(a, v) && !IsString(a) ==> v.PyInt? || v.PyLong?
    ensures Accepts(a, v) && IsString(a) ==> v.PyString?
    ensures Accepts(a, v) && !IsNumber(a) && !IsString(a) ==> a == VALID_FIELDS || a == PERMISSIONS || a == ACCESS
  {
  }

  lemma NumberOfSet(f: Info, b: Attr, w: nat, a: Attr)
    requires IsNumber(a) && IsNumber(b)
    ensures Number(SetNumber(f, b, w), a) == if a == b then w else Number(f, a)
  {
  }

  /** Fields that no integer attribute looks at. */
  lemma NumberOfRest(f: Info, g: Info, a: Attr, b: Attr, s: string)
    requires IsNumber(a) && g == f.(validFields := g.validFields, permissions := g.permissions)
    ensures Number(g, a) == Number(f, a)
    ensures IsString(b) ==> Number(SetString(f, b, s), a) == Number(f, a)
  {
  }

  lemma NumberOfAssign(f: Info, b: Attr, v: PyVal, a: Attr)
    requires IsNumber(a) && Accepts(b, v)
    ensures Number(Assign(f, b, v), a) == if a == b then Word(a, v) else Number(f, a)
  {
    hide Number, SetNumber, SetString, Bit, Word, Word32, CString, With, Accepts, IsNumber, IsString;
    KindOf(b, v);
    KindOf(a, v);
    var m := Mark(f, b);
    NumberOfRest(f, m, a, b, "");
    if IsNumber(b) {
      NumberOfSet(m, b, Word(b, v), a);
    } else if IsString(b) {
      NumberOfRest(m, m, a, b, CString(v.s));
    } else {
      NumberOfRest(f, Assign(f, b, v), a, b, "");
    }
  }

  lemma StringOfAssign(f: Info, b: Attr, v: PyVal, a: Attr)
    requires IsString(a) && Accepts(b, v)
    ensures String(Assign(f, b, v), a) == if a == b then Some(CString(v.s)) else String(f, a)
  {
    hide String, SetNumber, SetString, Bit, Word, Word32, CString, With, Accepts, IsNumber, IsString;
    KindOf(b, v);
    KindOf(a, v);
    var m := Mark(f, b);
    StringOfRest(f, m, a, b, 0);
    if IsString(b) {
      StringOfSet(m, b, CString(v.s), a);
    } else if IsNumber(b) {
      StringOfRest(m, m, a, b, Word(b, v));
    } else {
      StringOfRest(f, Assign(f, b, v), a, b, 0);
    }
  }

  lemma StringOfSet(f: Info, b: Attr, s: string, a: Attr)
    requires IsString(a) && IsString(b)
    ensures String(SetString(f, b, s), a) == if a == b then Some(s) else String(f, a)
  {
  }

  /** Fields that no string attribute looks at. */
  lemma StringOfRest(f: Info, g: Info, a: Attr, b: Attr, w: nat)
    requires IsString(a) && g == f.(validFields := g.validFields, permissions := g.permissions)
    ensures String(g, a) == String(f, a)
    ensures IsNumber(b) ==> String(SetNumber(f, b, w), a) == String(f, a)
  {
  }

  /** An integer field holds the word of the last successful assignment to its attribute. */
  lemma {:induction false} NumberIsLast(f: Info, h: seq<Assignment>, a: Attr)
    requires IsNumber(a)
    ensures Number(After(f, h), a) == if Last(h, a).Some? then Word(a, Last(h, a).value) else Number(f, a)
  {
    hide Number, Assign, Word;
    if h != [] {
      var e := h[|h| - 1];
      NumberIsLast(f, h[..|h| - 1], a);
      if Succeeds(e) {
        NumberOfAssign(After(f, h[..|h| - 1]), e.attr, e.value, a);
      } else {
        FailureChangesNothing(After(f, h[..|h| - 1]), e.attr, e.value);
      }
    }
  }

  lemma {:induction false} StringIsLast(f: Info, h: seq<Assignment>, a: Attr)
    requires IsString(a)
    ensures String(After(f, h), a) == if Last(h, a).Some? then Some(CString(Last(h, a).value.s)) else String(f, a)
  {
    hide String, Assign, CString;
    if h != [] {
      var e := h[|h| - 1];
      StringIsLast(f, h[..|h| - 1], a);
      if Succeeds(e) {
        StringOfAssign(After(f, h[..|h| - 1]), e.attr, e.value, a);
      } else {
        FailureChangesNothing(After(f, h[..|h| - 1]), e.attr, e.value);
      }
    }
  }

  lemma FailureChangesNothing(f: Info, a: Attr, v: PyVal)
    requires !Accepts(a, v)
    ensures Assign(f, a, v) == f
  {
  }

  // ------------------------------------------------------------------ validity

  lemma HasWith(w: bv32, x: bv32, y: bv32)
    requires y != 0 && (x != y ==> x & y == 0)
    ensures Has(With(w, x), y) <==> Has(w, y) || x == y
  {
    hide With, Has;
    if x == y {
      Same(w, x);
    } else {
      Apart(w, x, y);
    }
  }

  lemma Apart(w: bv32, x: bv32, y: bv32)
    requires x & y == 0
    ensures Has(With(w, x), y) <==> Has(w, y)
  {
    Distribute(w, x, y);
  }

  lemma Same(w: bv32, x: bv32)
    requires x != 0
    ensures Has(With(w, x), x)
  {
    Absorb(w, x);
  }

  lemma Distribute(w: bv32, x: bv32, y: bv32)
    requires x & y == 0
    ensures (w | x) & y == w & y
  {
  }

  lemma Absorb(w: bv32, x: bv32)
    ensures (w | x) & x == x
  {
  }

  lemma BitOfMark(w: bv32, a: Attr, b: Attr)
    requires HasBit(a)
    ensures Has(With(w, Bit(b)), Bit(a)) <==> Has(w, Bit(a)) || Bit(b) == Bit(a)
  {
    hide Bit, HasBit, With, Has;
    BitsApart(a, b);
    HasWith(w, Bit(b), Bit(a));
  }

  lemma BitsApart(a: Attr, b: Attr)
    ensures HasBit(a) ==> Bit(a) != 0
    ensures Bit(a) != Bit(b) ==> Bit(b) & Bit(a) == 0
  {
  }

  lemma WithNothing(w: bv32)
    ensures With(w, 0) == w
  {
  }

  lemma BitsOfAssign(f: Info, a: Attr, v: PyVal)
    requires Accepts(a, v) && a != VALID_FIELDS
    ensures Assign(f, a, v).validFields == With(f.validFields, Bit(a))
  {
    hide With, Bit, Word32, CString, Word;
  }

  predicate Validates(e: Assignment, a: Attr) {
    Succeeds(e) && Bit(e.attr) == Bit(a)
  }

  ghost predicate Validated(h: seq<Assignment>, a: Attr) {
    exists i :: 0 <= i < |h| && Validates(h[i], a)
  }

  lemma ValidatedMore(h: seq<Assignment>, e: Assignment, a: Attr)
    ensures Validated(h + [e], a) <==> Validated(h, a) || Validates(e, a)
  {
    hide Validates;
    if Validated(h, a) {
      var i :| 0 <= i < |h| && Validates(h[i], a);
      assert (h + [e])[i] == h[i];
    }
    assert (h + [e])[|h|] == e;
  }

  lemma ValidOfAssign(f: Info, e: Assignment, a: Attr)
    requires HasBit(a) && (Succeeds(e) ==> e.attr != VALID_FIELDS)
    ensures IsValid(Assign(f, e.attr, e.value), a) <==> IsValid(f, a) || Validates(e, a)
  {
    hide Assign, Bit, Accepts, HasBit, With, Has;
    if Succeeds(e) {
      BitsOfAssign(f, e.attr, e.value);
      BitOfMark(f.validFields, a, e.attr);
    } else {
      FailureChangesNothing(f, e.attr, e.value);
    }
  }

  /** As long as valid_fields itself is not assigned, an attribute becomes valid by a successful
      assignment to it, or to the other of uid and gid, and stays valid. */
  lemma {:induction false} ValidIffAssigned(f: Info, h: seq<Assignment>, a: Attr)
    requires HasBit(a) && Last(h, VALID_FIELDS).None?
    ensures IsValid(After(f, h), a) <==> IsValid(f, a) || Validated(h, a)
  {
    hide Assign, IsValid, Validates, HasBit, Accepts;
    if h != [] {
      var n := |h| - 1;
      ValidIffAssigned(f, h[..n], a);
      ValidOfAssign(After(f, h[..n]), h[n], a);
      assert h == h[..n] + [h[n]];
      ValidatedMore(h[..n], h[n], a);
    }
  }

  // ------------------------------------------------------------------ getters

  /** The getter of an integer attribute: ValueError if nothing made it valid, or else the word of its
      last successful assignment. */
  lemma NumberGetter(f: Info, h: seq<Assignment>, a: Attr)
    requires IsNumber(a) && Last(h, VALID_FIELDS).None?
    ensures var valid := IsValid(f, a) || Validated(h, a);
            var w := if Last(h, a).Some? then Word(a, Last(h, a).value) else Number(f, a);
            Access(After(f, h), a) == if valid then Gives(Present(a, w)) else Invalid
  {
    hide After, Last, Validated, Number, Word, Present, Bit;
    NumberIsLast(f, h, a);
    ValidIffAssigned(f, h, a);
  }

  /** The values an attribute gives back as they were assigned. */
  predicate Fits(a: Attr, v: PyVal)
    requires IsNumber(a) && Accepts(a, v)
  {
    if IsTime(a) then -1 <= v.n <= MAXLONG else 0 <= v.n < Width(a)
  }

  /** The number that was assigned comes back, on either side of the long boundary, exactly if it is
      in range.  Times below zero do not come back, but for the one that equals the error value. */
  lemma NumberRoundTrip(a: Attr, v: PyVal)
    requires IsNumber(a) && Accepts(a, v) && IsPython(v)
    ensures Present(a, Word(a, v)).n == v.n <==> Fits(a, v)
    ensures IsPython(Present(a, Word(a, v))) && (Present(a, Word(a, v)).PyInt? || Present(a, Word(a, v)).PyLong?)
  {
  }

  /** A time of 2^63 is accepted and comes back negative. */
  lemma LargeTimeIsNegative()
    ensures var v := PyLong(MAXLONG + 1);
            Accepts(ATIME, v) && Present(ATIME, Word(ATIME, v)) == PyLong(-MAXLONG - 1)
  {
  }

  /** A Python int holds a C long. */
  predicate IsPython(v: PyVal) {
    v.PyInt? ==> -MAXLONG - 1 <= v.n <= MAXLONG
  }

  /** Whatever the history, a getter gives back the number last assigned, exactly if it is in range. */
  lemma GetterReturnsLast(f: Info, h: seq<Assignment>, a: Attr)
    requires IsNumber(a) && Last(h, VALID_FIELDS).None?
    requires Last(h, a).Some? && IsPython(Last(h, a).value)
    ensures var got := Access(After(f, h), a);
            && got.Gives? && (got.v.PyInt? || got.v.PyLong?)
            && (got.v.n == Last(h, a).value.n <==> Fits(a, Last(h, a).value))
  {
    hide After, Access, Number, Word, Present, Bit, Fits;
    var v := Last(h, a).value;
    NumberGetter(f, h, a);
    NumberRoundTrip(a, v);
    var i :| 0 <= i < |h| && h[i] == Assignment(a, v);
    assert Validates(h[i], a);
  }

  lemma StringGetter(f: Info, h: seq<Assignment>, a: Attr)
    requires IsString(a) && Last(h, VALID_FIELDS).None?
    ensures var valid := a == NAME || IsValid(f, a) || Validated(h, a);
            var s := if Last(h, a).Some? then Some(CString(Last(h, a).value.s)) else String(f, a);
            Access(After(f, h), a)
            == if !valid then Invalid else if s.Some? then Gives(PyString(s.value)) else Gives(PyNone)
  {
    hide After, Last, Validated, String, CString, Bit;
    StringIsLast(f, h, a);
    if a != NAME {
      ValidIffAssigned(f, h, a);
    }
  }

  /** A string comes back as it was exactly if it has no NUL in it. */
  lemma StringRoundTrip(s: string)
    ensures CString(s) == s <==> '\0' !in s
  {
    if |CString(s)| == |s| {
      assert CString(s) == s;
    }
  }

  /** The parts of the structure a getter looks at. */
  ghost predicate SameFor(f: Info, g: Info, b: Attr) {
    && (HasBit(b) ==> (IsValid(f, b) <==> IsValid(g, b)))
    && (IsNumber(b) ==> Number(f, b) == Number(g, b))
    && (IsString(b) ==> String(f, b) == String(g, b))
    && (b == PERMISSIONS || b == ACCESS ==> f.permissions == g.permissions)
    && (b == VALID_FIELDS ==> f.validFields == g.validFields)
  }

  lemma SameAccess(f: Info, g: Info, b: Attr)
    requires SameFor(f, g, b)
    ensures Access(f, b) == Access(g, b)
  {
    hide IsValid, Number, String, Present, AsInt, PermissionsPart, AccessPart;
  }

  lemma AssignKeeps(f: Info, a: Attr, v: PyVal, b: Attr)
    requires Accepts(a, v) && a != b && a != VALID_FIELDS && b != VALID_FIELDS
    requires !SharesBit(a, b) && !SharesWord(a, b)
    ensures SameFor(f, Assign(f, a, v), b)
  {
    hide IsValid, Number, String, Assign, HasBit, Bit, Word, Word32, CString, With, SharesBit;
    if HasBit(b) {
      ValidOfAssign(f, Assignment(a, v), b);
      BitsDiffer(a, b);
    }
    if IsNumber(b) {
      NumberOfAssign(f, a, v, b);
    } else if IsString(b) {
      StringOfAssign(f, a, v, b);
    } else if b == PERMISSIONS || b == ACCESS {
      WordOfAssign(f, a, v);
    }
  }

  /** An assignment to one attribute is seen through another only if it succeeds and the two share a
      bit or the permissions word. */
  lemma AssignmentIsLocal(f: Info, a: Attr, v: PyVal, b: Attr)
    requires a != b && a != VALID_FIELDS && b != VALID_FIELDS
    ensures Access(Assign(f, a, v), b) != Access(f, b) ==> Accepts(a, v) && (SharesBit(a, b) || SharesWord(a, b))
  {
    hide Access, Assign, Accepts, SharesBit, SharesWord, SameFor;
    if !Accepts(a, v) {
      FailureChangesNothing(f, a, v);
    } else if !SharesBit(a, b) && !SharesWord(a, b) {
      AssignKeeps(f, a, v, b);
      SameAccess(f, Assign(f, a, v), b);
    }
  }

  predicate SharesBit(a: Attr, b: Attr) {
    (a == UID && b == GID) || (a == GID && b == UID)
  }

  predicate SharesWord(a: Attr, b: Attr) {
    (a == PERMISSIONS && b == ACCESS) || (a == ACCESS && b == PERMISSIONS)
  }

  lemma BitsDiffer(a: Attr, b: Attr)
    requires HasBit(b) && a != b
    ensures Bit(a) == Bit(b) ==> SharesBit(a, b)
  {
  }

  // ------------------------------------------------------------------ permissions and access

  lemma WordOfAssign(f: Info, a: Attr, v: PyVal)
    requires Accepts(a, v)
    ensures Assign(f, a, v).permissions
         == if a == PERMISSIONS then Word32(v.n)
            else if a == ACCESS then With(f.permissions, Word32(v.n))
            else f.permissions
  {
    hide Bit, With, Word, Word32, CString;
  }

  /** What an assignment adds to the access bits. */
  function Adds(e: Assignment): bv32 {
    if e.attr == ACCESS && Succeeds(e) then Word32(e.value.n) else 0
  }

  /** All values successfully assigned to access, together. */
  function Accesses(h: seq<Assignment>): bv32 {
    if h == [] then 0 else With(Accesses(h[..|h| - 1]), Adds(h[|h| - 1]))
  }

  lemma WordOfAny(f: Info, e: Assignment)
    requires Succeeds(e) ==> e.attr != PERMISSIONS
    ensures Assign(f, e.attr, e.value).permissions == With(f.permissions, Adds(e))
  {
    hide Assign, Word32, Accepts, With;
    WithNothing(f.permissions);
    if Succeeds(e) {
      WordOfAssign(f, e.attr, e.value);
    } else {
      FailureChangesNothing(f, e.attr, e.value);
    }
  }

  /** The shared word after assignments none of which is to permissions. */
  lemma {:induction false} WordCollects(f: Info, h: seq<Assignment>)
    requires Last(h, PERMISSIONS).None?
    ensures After(f, h).permissions == With(f.permissions, Accesses(h))
  {
    hide Assign, Adds, Accepts, With;
    if h == [] {
      WithNothing(f.permissions);
    } else {
      var e := h[|h| - 1];
      WordCollects(f, h[..|h| - 1]);
      WordOfAny(After(f, h[..|h| - 1]), e);
      WithTwice(f.permissions, Accesses(h[..|h| - 1]), Adds(e));
    }
  }

  lemma WithTwice(a: bv32, b: bv32, c: bv32)
    ensures With(With(a, b), c) == With(a, With(b, c))
  {
  }

  lemma {:induction false} AfterInTwo(f: Info, g: seq<Assignment>, h: seq<Assignment>)
    ensures After(f, g + h) == After(After(f, g), h)
  {
    hide Assign;
    if h == [] {
      assert g + h == g;
    } else {
      assert (g + h)[..|g + h| - 1] == g + h[..|h| - 1];
      AfterInTwo(f, g, h[..|h| - 1]);
    }
  }

  /** The shared word is the last permissions value with all later access values. */
  lemma PermissionsWord(f: Info, g: seq<Assignment>, p: PyVal, h: seq<Assignment>)
    requires p.PyInt? && Last(h, PERMISSIONS).None?
    ensures After(f, g + [Assignment(PERMISSIONS, p)] + h).permissions == With(Word32(p.n), Accesses(h))
  {
    hide Assign, Word32, Accesses, After, Last, With;
    var e := Assignment(PERMISSIONS, p);
    AfterInTwo(f, g + [e], h);
    AfterInTwo(f, g, [e]);
    AfterOne(After(f, g), e);
    WordOfAssign(After(f, g), PERMISSIONS, p);
    WordCollects(After(f, g + [e]), h);
  }

  lemma AfterOne(f: Info, e: Assignment)
    ensures After(f, [e]) == Assign(f, e.attr, e.value)
  {
    assert [e][..0] == [];
    assert After(f, []) == f;
  }

  /** The two getters split the word without overlap. */
  lemma PartsMakeTheWord(w: bv32)
    ensures PermissionsPart(w) & AccessPart(w) == 0
    ensures PermissionsPart(w) | AccessPart(w) == w
  {
  }

  /** Between two assignments to permissions no access bit, and no other bit, is taken away. */
  lemma AccessGrows(f: Info, h: seq<Assignment>)
    requires Last(h, PERMISSIONS).None?
    ensures var (before, after) := (f.permissions, After(f, h).permissions);
            && AccessPart(before) & AccessPart(after) == AccessPart(before)
            && PermissionsPart(before) & PermissionsPart(after) == PermissionsPart(before)
  {
    hide Accesses, After, Last;
    WordCollects(f, h);
    Grow(f.permissions, Accesses(h), ACCESS_BITS);
    Grow(f.permissions, Accesses(h), !ACCESS_BITS);
  }

  lemma Grow(w: bv32, x: bv32, m: bv32)
    ensures (w & m) & ((w | x) & m) == w & m
  {
  }

  lemma AssignIsSetNumber(f: Info, a: Attr, v: PyVal)
    requires IsNumber(a)
    ensures Accepts(a, v) ==> Assign(f, a, v) == SetNumber(Mark(f, a), a, Word(a, v))
    ensures !Accepts(a, v) ==> Assign(f, a, v) == f
    ensures Accepts(a, v) <==> if IsTime(a) then v.PyLong? else v.PyInt? || (v.PyLong? && a != TYPE && a != FLAGS)
  {
    hide SetNumber, Word, Bit;
  }

  // ------------------------------------------------------------------ the two getters

  /** A word as its getter presents it. */
  lemma PartsOfWord(f: Info)
    ensures Access(f, PERMISSIONS)
         == if Has(f.validFields, 0x2) then Gives(PyInt((f.permissions & !0x70000) as int)) else Invalid
    ensures Access(f, ACCESS)
         == if Has(f.validFields, 0x4000) then Gives(PyInt((f.permissions & 0x70000) as int)) else Invalid
  {
    hide Has;
  }

  lemma IsValidIs(f: Info)
    ensures IsValid(f, PERMISSIONS) == Has(f.validFields, 0x2) && IsValid(f, ACCESS) == Has(f.validFields, 0x4000)
  {
    hide Has;
  }

  lemma PermissionsIsMarked(g: seq<Assignment>, p: PyVal, h: seq<Assignment>)
    requires p.PyInt?
    ensures Validated(g + [Assignment(PERMISSIONS, p)] + h, PERMISSIONS)
  {
    hide Bit;
    var all := g + [Assignment(PERMISSIONS, p)] + h;
    assert all[|g|] == Assignment(PERMISSIONS, p);
    assert Validates(all[|g|], PERMISSIONS);
  }

  /** After any history without assignments to valid_fields, in which `p` was the last value assigned to
      permissions and `h` came after it, the two getters give the parts outside and inside the three access
      bits of `p` together with all later access values.  The one for access raises ValueError if nothing
      made it valid. */
  lemma PermissionsGetters(f: Info, g: seq<Assignment>, p: PyVal, h: seq<Assignment>)
    requires p.PyInt? && Last(h, PERMISSIONS).None?
    requires Last(g + [Assignment(PERMISSIONS, p)] + h, VALID_FIELDS).None?
    ensures var all := g + [Assignment(PERMISSIONS, p)] + h;
            var w := Word32(p.n) | Accesses(h);
            && Access(After(f, all), PERMISSIONS) == Gives(PyInt((w & !0x70000) as int))
            && Access(After(f, all), ACCESS)
               == if IsValid(f, ACCESS) || Validated(all, ACCESS) then Gives(PyInt((w & 0x70000) as int)) else Invalid
  {
    hide Access, After, Accesses, Word32, Has, Validated, Last, IsValid;
    var all := g + [Assignment(PERMISSIONS, p)] + h;
    PermissionsWord(f, g, p, h);
    PartsOfWord(After(f, all));
    IsValidIs(After(f, all));
    ValidIffAssigned(f, all, PERMISSIONS);
    ValidIffAssigned(f, all, ACCESS);
    PermissionsIsMarked(g, p, h);
  }

  lemma WordOfWord(w: bv32)
    ensures Word32(w as int) == w
  {
    assert (w as int) % WORD32 == w as int;
  }

  /** A permissions value, any 32-bit word without access bits, comes back as it was. */
  lemma PermissionsComeBack(f: Info, w: bv32)
    requires w & 0x70000 == 0
    ensures Access(Assign(f, PERMISSIONS, PyInt(w as int)), PERMISSIONS) == Gives(PyInt(w as int))
  {
    hide Access, Assign, Word32, Has, With;
    var p := PyInt(w as int);
    PartsOfWord(Assign(f, PERMISSIONS, p));
    WordOfAssign(f, PERMISSIONS, p);
    BitsOfAssign(f, PERMISSIONS, p);
    WordOfWord(w);
    NoAccessBits(w);
    MarkedBits(f.validFields);
  }

  lemma NoAccessBits(w: bv32)
    requires w & 0x70000 == 0
    ensures w & !0x70000 == w
  {
  }

  lemma MarkedBits(w: bv32)
    ensures Has(With(w, Bit(PERMISSIONS)), 0x2) && Has(With(w, Bit(ACCESS)), 0x4000)
    ensures Has(With(w, Bit(ACCESS)), 0x2) == Has(w, 0x2)
  {
    Same(w, 0x2);
    Same(w, 0x4000);
    Apart(w, 0x4000, 0x2);
  }

  /** An access value within the access bits shows, together with those set before, and leaves what the
      permissions getter gives as it is. */
  lemma AccessShows(f: Info, x: bv32)
    requires x & !0x70000 == 0
    ensures var t := Assign(f, ACCESS, PyInt(x as int));
            && Access(t, ACCESS) == Gives(PyInt(((f.permissions & 0x70000) | x) as int))
            && Access(t, PERMISSIONS) == Access(f, PERMISSIONS)
  {
    hide Access, Assign, Word32, Has, With;
    var v := PyInt(x as int);
    var t := Assign(f, ACCESS, v);
    WordOfWord(x);
    PartsOfWord(t);
    PartsOfWord(f);
    WordOfAssign(f, ACCESS, v);
    BitsOfAssign(f, ACCESS, v);
    AccessBits(f.permissions, x);
    MarkedBits(f.validFields);
  }

  lemma AccessBits(w: bv32, x: bv32)
    requires x & !0x70000 == 0
    ensures With(w, x) & 0x70000 == (w & 0x70000) | x
    ensures With(w, x) & !0x70000 == w & !0x70000
  {
  }

  /** Any 32-bit word assigned to valid_fields comes back, and no other field changes. */
  lemma ValidFieldsComeBack(f: Info, w: bv32)
    ensures Access(Assign(f, VALID_FIELDS, PyInt(w as int)), VALID_FIELDS) == Gives(PyInt(w as int))
    ensures Assign(f, VALID_FIELDS, PyInt(w as int)).(validFields := f.validFields) == f
  {
    hide Word32;
    WordOfWord(w);
  }

  /** The types an attribute takes: strings take a string, what has flags or an enumeration an int, times a
      long, other numbers an int or a long; `__members__` and unknown names nothing. */
  lemma TakesExactly(a: Attr, v: PyVal)
    ensures Accepts(a, v)
       <==> || (v.PyString? && (a == NAME || a == SYMLINK_NAME || a == MIME_TYPE))
            || (v.PyInt? && (a == VALID_FIELDS || a == TYPE || a == PERMISSIONS || a == ACCESS || a == FLAGS))
            || (v.PyLong? && (a == ATIME || a == MTIME || a == CTIME))
            || ((v.PyInt? || v.PyLong?)
                && (a == DEVICE || a == INODE || a == LINK_COUNT || a == UID || a == GID || a == SIZE
                    || a == BLOCK_COUNT || a == IO_BLOCK_SIZE))
    ensures QuietError(a, v)
         == if Accepts(a, v) && v.PyLong? && (v.n < 0 || v.n >= 0x1_0000_0000_0000_0000) then Some(OVERFLOW_ERROR)
            else None
  {
  }

  // ------------------------------------------------------------------ the object

  datatype Reply = Success | TypeError | Inherited

  class FileInfoObject {
    var finfo: Info

    constructor ()
      ensures finfo == EMPTY
    {
      finfo := EMPTY;
    }

    /** The branches of `setattr` for strings. */
    method SetText(a: Attr, v: PyVal) returns (r: Reply, left: Option<Class>)
      requires IsString(a)
      modifies this
      ensures finfo == Assign(old(finfo), a, v) && (r == Success <==> Accepts(a, v))
      ensures left == QuietError(a, v)
    {
      hide CString, With, Word32;
      if !v.PyString? {
        return TypeError, None;
      }
      match a {
        case NAME =>
          finfo := finfo.(name := Some(CString(v.s)));
          WithNothing(finfo.validFields);
        case SYMLINK_NAME =>
          finfo := finfo.(validFields := With(finfo.validFields, 0x1000));
          finfo := finfo.(symlinkName := Some(CString(v.s)));
        case MIME_TYPE =>
          finfo := finfo.(validFields := With(finfo.validFields, 0x2000));
          finfo := finfo.(mimeType := Some(CString(v.s)));
      }
      return Success, None;
    }

    /** The branches for times, which take a long only. */
    method SetTime(a: Attr, v: PyVal) returns (r: Reply, left: Option<Class>)
      requires IsTime(a)
      modifies this
      ensures finfo == Assign(old(finfo), a, v) && (r == Success <==> Accepts(a, v))
      ensures left == QuietError(a, v)
    {
      hide Assign, Accepts, Bit, CString, With;
      AssignIsSetNumber(finfo, a, v);
      if !v.PyLong? {
        return TypeError, None;
      }
      finfo := finfo.(validFields := With(finfo.validFields, Bit(a)));
      match a {
        case ATIME => finfo := finfo.(atime := AsUnsigned(v.n));
        case MTIME => finfo := finfo.(mtime := AsUnsigned(v.n));
        case CTIME => finfo := finfo.(ctime := AsUnsigned(v.n));
      }
      return Success, Overflow(v);
    }

    /** The branches that take an int only. */
    method SetFlags(a: Attr, v: PyVal) returns (r: Reply, left: Option<Class>)
      requires a in {VALID_FIELDS, TYPE, PERMISSIONS, ACCESS, FLAGS}
      modifies this
      ensures finfo == Assign(old(finfo), a, v) && (r == Success <==> Accepts(a, v))
      ensures left == QuietError(a, v)
    {
      hide CString, With, Word32;
      if !v.PyInt? {
        return TypeError, None;
      }
      match a {
        case VALID_FIELDS =>
          finfo := finfo.(validFields := Word32(v.n));
        case TYPE =>
          finfo := finfo.(validFields := With(finfo.validFields, 0x1));
          finfo := finfo.(fileType := v.n % WORD32);
        case PERMISSIONS =>
          finfo := finfo.(validFields := With(finfo.validFields, 0x2));
          finfo := finfo.(permissions := Word32(v.n));
        case ACCESS =>
          finfo := finfo.(validFields := With(finfo.validFields, 0x4000));
          finfo := finfo.(permissions := With(finfo.permissions, Word32(v.n)));
        case FLAGS =>
          finfo := finfo.(validFields := With(finfo.validFields, 0x4));
          finfo := finfo.(flags := v.n % WORD32);
      }
      return Success, None;
    }

    /** The branches that take an int or a long. */
    method SetInteger(a: Attr, v: PyVal) returns (r: Reply, left: Option<Class>)
      requires a in {DEVICE, INODE, LINK_COUNT, UID, GID, SIZE, BLOCK_COUNT, IO_BLOCK_SIZE}
      modifies this
      ensures finfo == Assign(old(finfo), a, v) && (r == Success <==> Accepts(a, v))
      ensures left == QuietError(a, v)
    {
      hide Assign, Accepts, Bit, CString, With;
      AssignIsSetNumber(finfo, a, v);
      if !v.PyInt? && !v.PyLong? {
        return TypeError, None;
      }
      finfo := finfo.(validFields := With(finfo.validFields, Bit(a)));
      var n := if v.PyInt? then v.n else AsUnsigned(v.n);
      match a {
        case DEVICE => finfo := finfo.(device := n % WORD64);
        case INODE => finfo := finfo.(inode := n % WORD64);
        case LINK_COUNT => finfo := finfo.(linkCount := n % WORD32);
        case UID => finfo := finfo.(uid := n % WORD32);
        case GID => finfo := finfo.(gid := n % WORD32);
        case SIZE => finfo := finfo.(size := n % WORD64);
        case BLOCK_COUNT => finfo := finfo.(blockCount := n % WORD64);
        case IO_BLOCK_SIZE => finfo := finfo.(ioBlockSize := n % WORD32);
      }
      return Success, Overflow(v);
    }

    /** `pygvfinfo_setattr`. */
    method SetAttr(a: Attr, v: PyVal) returns (r: Reply, left: Option<Class>)
      modifies this
      ensures finfo == Assign(old(finfo), a, v) && (r == Success <==> Accepts(a, v))
      ensures left == QuietError(a, v)
    {
      match a {
        case MEMBERS => r, left := TypeError, None;
        case UNKNOWN => r, left := Inherited, None;
        case NAME | SYMLINK_NAME | MIME_TYPE => r, left := SetText(a, v);
        case VALID_FIELDS | TYPE | PERMISSIONS | ACCESS | FLAGS => r, left := SetFlags(a, v);
        case ATIME | MTIME | CTIME => r, left := SetTime(a, v);
        case _ => r, left := SetInteger(a, v);
      }
    }
  }
}
