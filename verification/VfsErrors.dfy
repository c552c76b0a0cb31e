/** The two-way translation between Python exception classes and GnomeVFSResult codes
    (gnomevfs/vfsmodule.c) and the EXCEPTION_CHECK macro every `do_*` function ends with
    (gnomevfs/gnome-vfs-python-method.c).
 */
module VfsErrors {
  import opened Options

  /** The exception classes `initialize_exceptions` registers below gnomevfs.Error. */
  datatype Exc =
    | NotFound | Generic | Internal | BadParameters | NotSupported | IO | CorruptedData | WrongFormat | BadFile
    | TooBig | NoSpace | ReadOnly | InvalidURI | NotOpen | InvalidOpenMode | AccessDenied | TooManyOpenFiles
    | EOF | NotADirectory | InProgress | Interrupted | FileExists | Loop | NotPermitted | IsDirectory
    | NoMemory | HostNotFound | InvalidHostName | HostHasNoAddress | LoginFailed | Cancelled | DirectoryBusy
    | DirectoryNotEmpty | TooManyLinks | ReadOnlyFileSystem | NotSameFileSystem | NameTooLong
    | ServiceNotAvailable | ServiceObsolete | ProtocolError | NoMasterBrowser

  /** GnomeVFSResult.  OTHER stands for the codes the switch of `result_check` does not name. */
  datatype Code =
    | OK
    | ERROR_NOT_FOUND | ERROR_GENERIC | ERROR_INTERNAL | ERROR_BAD_PARAMETERS | ERROR_NOT_SUPPORTED | ERROR_IO
    | ERROR_CORRUPTED_DATA | ERROR_WRONG_FORMAT | ERROR_BAD_FILE | ERROR_TOO_BIG | ERROR_NO_SPACE
    | ERROR_READ_ONLY | ERROR_INVALID_URI | ERROR_NOT_OPEN | ERROR_INVALID_OPEN_MODE | ERROR_ACCESS_DENIED
    | ERROR_TOO_MANY_OPEN_FILES | ERROR_EOF | ERROR_NOT_A_DIRECTORY | ERROR_IN_PROGRESS | ERROR_INTERRUPTED
    | ERROR_FILE_EXISTS | ERROR_LOOP | ERROR_NOT_PERMITTED | ERROR_IS_DIRECTORY | ERROR_NO_MEMORY
    | ERROR_HOST_NOT_FOUND | ERROR_INVALID_HOST_NAME | ERROR_HOST_HAS_NO_ADDRESS | ERROR_LOGIN_FAILED
    | ERROR_CANCELLED | ERROR_DIRECTORY_BUSY | ERROR_DIRECTORY_NOT_EMPTY | ERROR_TOO_MANY_LINKS
    | ERROR_READ_ONLY_FILE_SYSTEM | ERROR_NOT_SAME_FILE_SYSTEM | ERROR_NAME_TOO_LONG
    | ERROR_SERVICE_NOT_AVAILABLE | ERROR_SERVICE_OBSOLETE | ERROR_PROTOCOL_ERROR | ERROR_NO_MASTER_BROWSER
    | OTHER(n: nat)

  /** A Python exception class with its direct base classes.  `Registered(e)` is a class made by
      `initialize_exceptions`, whose only base is gnomevfs.Error; anything else is arbitrary. */
  datatype Class =
    | Registered(exc: Exc)
    | GnomeVfsError
    | Other(name: string, bases: seq<Class>)

  // Built-in classes, of which none is or inherits from a registered one.
  const STANDARD_ERROR := Other("StandardError", [])
  const VALUE_ERROR := Other("ValueError", [STANDARD_ERROR])
  const TYPE_ERROR := Other("TypeError", [STANDARD_ERROR])
  const ATTRIBUTE_ERROR := Other("AttributeError", [STANDARD_ERROR])
  const OVERFLOW_ERROR := Other("OverflowError", [Other("ArithmeticError", [STANDARD_ERROR])])

  /** PyErr_ExceptionMatches: `c` is the registered class `e` or inherits from it. */
  predicate Matches(c: Class, e: Exc) {
    match c
    case Registered(f) => f == e
    case GnomeVfsError => false
    case Other(_, bases) => exists i :: 0 <= i < |bases| && Matches(bases[i], e)
  }

  /** What `pygnome_vfs_exception_check` returns: -1, -2 or a code. */
  datatype Check = NothingPending | Unmatched | Matched(code: Code)

  function ExceptionCheck(pending: Option<Class>): Check {
    if pending.None? then NothingPending else FirstMatch(pending.value)
  }

  /** The order in which the chain of tests tries the registered classes. */
  const ORDER: seq<Exc> := [
    NotFound, Generic, Internal, BadParameters, NotSupported, IO, CorruptedData, WrongFormat, BadFile, TooBig,
    NoSpace, ReadOnly, InvalidURI, NotOpen, InvalidOpenMode, AccessDenied, TooManyOpenFiles, EOF,
    NotADirectory, InProgress, Interrupted, FileExists, Loop, NotPermitted, IsDirectory, NoMemory,
    HostNotFound, InvalidHostName, HostHasNoAddress, LoginFailed, Cancelled, DirectoryBusy, DirectoryNotEmpty,
    TooManyLinks, ReadOnlyFileSystem, NotSameFileSystem, NameTooLong, ServiceNotAvailable, ServiceObsolete,
    ProtocolError, NoMasterBrowser
  ]

  /** The code the branch of the chain that tests for `e` returns. */
  function CodeOf(e: Exc): Code {
    match e
    case NotFound => ERROR_NOT_FOUND
    case Generic => ERROR_GENERIC
    case Internal => ERROR_INTERNAL
    case BadParameters => ERROR_BAD_FILE
    case NotSupported => ERROR_NOT_SUPPORTED
    case IO => ERROR_IO
    case CorruptedData => ERROR_CORRUPTED_DATA
    case WrongFormat => ERROR_WRONG_FORMAT
    case BadFile => ERROR_BAD_FILE
    case TooBig => ERROR_TOO_BIG
    case NoSpace => ERROR_NO_SPACE
    case ReadOnly => ERROR_READ_ONLY
    case InvalidURI => ERROR_INVALID_URI
    case NotOpen => ERROR_NOT_OPEN
    case InvalidOpenMode => ERROR_INVALID_OPEN_MODE
    case AccessDenied => ERROR_ACCESS_DENIED
    case TooManyOpenFiles => ERROR_TOO_MANY_OPEN_FILES
    case EOF => ERROR_EOF
    case NotADirectory => ERROR_NOT_A_DIRECTORY
    case InProgress => ERROR_IN_PROGRESS
    case Interrupted => ERROR_INTERRUPTED
    case FileExists => ERROR_FILE_EXISTS
    case Loop => ERROR_LOOP
    case NotPermitted => ERROR_NOT_PERMITTED
    case IsDirectory => ERROR_IS_DIRECTORY
    case NoMemory => ERROR_NO_MEMORY
    case HostNotFound => ERROR_HOST_NOT_FOUND
    case InvalidHostName => ERROR_INVALID_HOST_NAME
    case HostHasNoAddress => ERROR_HOST_HAS_NO_ADDRESS
    case LoginFailed => ERROR_LOGIN_FAILED
    case Cancelled => ERROR_CANCELLED
    case DirectoryBusy => ERROR_DIRECTORY_BUSY
    case DirectoryNotEmpty => ERROR_DIRECTORY_NOT_EMPTY
    case TooManyLinks => ERROR_TOO_MANY_LINKS
    case ReadOnlyFileSystem => ERROR_READ_ONLY_FILE_SYSTEM
    case NotSameFileSystem => ERROR_NOT_SAME_FILE_SYSTEM
    case NameTooLong => ERROR_NAME_TOO_LONG
    case ServiceNotAvailable => ERROR_SERVICE_NOT_AVAILABLE
    case ServiceObsolete => ERROR_SERVICE_OBSOLETE
    case ProtocolError => ERROR_PROTOCOL_ERROR
    case NoMasterBrowser => ERROR_NO_MASTER_BROWSER
  }

  /** The if/else-if chain: the first class the pending one matches decides. */
  function FirstMatch(c: Class, i: nat := 0): (r: Check)
    requires i <= |ORDER|
    ensures r != NothingPending
    decreases |ORDER| - i
  {
    if i == |ORDER| then Unmatched
    else if Matches(c, ORDER[i]) then Matched(CodeOf(ORDER[i]))
    else FirstMatch(c, i + 1)
  }

  /** `pygnome_vfs_result_check`: the class it raises, or None when it reports no error. */
  function ResultCheck(code: Code): Option<Class> {
    match code
    case OK => None
    case ERROR_NOT_FOUND => Some(Registered(NotFound))
    case ERROR_GENERIC => Some(Registered(Generic))
    case ERROR_INTERNAL => Some(Registered(Internal))
    case ERROR_BAD_PARAMETERS => Some(Registered(BadParameters))
    case ERROR_NOT_SUPPORTED => Some(Registered(NotSupported))
    case ERROR_IO => Some(Registered(IO))
    case ERROR_CORRUPTED_DATA => Some(Registered(CorruptedData))
    case ERROR_WRONG_FORMAT => Some(Registered(WrongFormat))
    case ERROR_BAD_FILE => Some(Registered(BadFile))
    case ERROR_TOO_BIG => Some(Registered(TooBig))
    case ERROR_NO_SPACE => Some(Registered(NoSpace))
    case ERROR_READ_ONLY => Some(Registered(ReadOnly))
    case ERROR_INVALID_URI => Some(Registered(InvalidURI))
    case ERROR_NOT_OPEN => Some(Registered(NotOpen))
    case ERROR_INVALID_OPEN_MODE => Some(Registered(InvalidOpenMode))
    case ERROR_ACCESS_DENIED => Some(Registered(AccessDenied))
    case ERROR_TOO_MANY_OPEN_FILES => Some(Registered(TooManyOpenFiles))
    case ERROR_EOF => Some(Registered(EOF))
    case ERROR_NOT_A_DIRECTORY => Some(Registered(NotADirectory))
    case ERROR_IN_PROGRESS => Some(Registered(InProgress))
    case ERROR_INTERRUPTED => Some(Registered(Interrupted))
    case ERROR_FILE_EXISTS => Some(Registered(FileExists))
    case ERROR_LOOP => Some(Registered(Loop))
    case ERROR_NOT_PERMITTED => Some(Registered(NotPermitted))
    case ERROR_IS_DIRECTORY => Some(Registered(IsDirectory))
    case ERROR_NO_MEMORY => Some(Registered(NoMemory))
    case ERROR_HOST_NOT_FOUND => Some(Registered(HostNotFound))
    case ERROR_INVALID_HOST_NAME => Some(Registered(InvalidHostName))
    case ERROR_HOST_HAS_NO_ADDRESS => Some(Registered(HostHasNoAddress))
    case ERROR_LOGIN_FAILED => Some(Registered(LoginFailed))
    case ERROR_CANCELLED => Some(Registered(Cancelled))
    case ERROR_DIRECTORY_BUSY => Some(Registered(DirectoryBusy))
    case ERROR_DIRECTORY_NOT_EMPTY => Some(Registered(DirectoryNotEmpty))
    case ERROR_TOO_MANY_LINKS => Some(Registered(TooManyLinks))
    case ERROR_READ_ONLY_FILE_SYSTEM => Some(Registered(ReadOnlyFileSystem))
    case ERROR_NOT_SAME_FILE_SYSTEM => Some(Registered(NotSameFileSystem))
    case ERROR_NAME_TOO_LONG => Some(Registered(NameTooLong))
    case ERROR_SERVICE_NOT_AVAILABLE => Some(Registered(ServiceNotAvailable))
    case ERROR_SERVICE_OBSOLETE => Some(Registered(ServiceObsolete))
    case ERROR_PROTOCOL_ERROR => Some(Registered(ProtocolError))
    case ERROR_NO_MASTER_BROWSER => Some(Registered(NoMasterBrowser))
    case OTHER(_) => None
  }

  /** The code EXCEPTION_CHECK returns for a failed call, given the pending exception class. */
  function BridgeCode(pending: Option<Class>): Code {
    match ExceptionCheck(pending)
    case Matched(code) => code
    case _ => ERROR_GENERIC
  }

  /** One crossing of the bridge: class to code and back to a class. */
  function Translate(c: Class): Class {
    NeverLost(Some(c));
    ResultCheck(BridgeCode(Some(c))).value
  }

  /** The registered class a crossing delivers for a registered class. */
  function Delivered(e: Exc): Exc {
    if e == BadParameters then BadFile else e
  }

  /** The place of a class in the list by which `initialize_exceptions` registers them. */
  function Registration(e: Exc): nat {
    match e
    case NotFound => 0
    case Generic => 1
    case Internal => 2
    case BadParameters => 3
    case NotSupported => 4
    case IO => 5
    case CorruptedData => 6
    case WrongFormat => 7
    case BadFile => 8
    case TooBig => 9
    case NoSpace => 10
    case ReadOnly => 11
    case InvalidURI => 12
    case NotOpen => 13
    case InvalidOpenMode => 14
    case AccessDenied => 15
    case TooManyOpenFiles => 16
    case EOF => 17
    case NotADirectory => 18
    case InProgress => 19
    case Interrupted => 20
    case FileExists => 21
    case Loop => 22
    case NotPermitted => 23
    case IsDirectory => 24
    case NoMemory => 25
    case HostNotFound => 26
    case InvalidHostName => 27
    case HostHasNoAddress => 28
    case LoginFailed => 29
    case Cancelled => 30
    case DirectoryBusy => 31
    case DirectoryNotEmpty => 32
    case TooManyLinks => 33
    case ReadOnlyFileSystem => 34
    case NotSameFileSystem => 35
    case NameTooLong => 36
    case ServiceNotAvailable => 37
    case ServiceObsolete => 38
    case ProtocolError => 39
    case NoMasterBrowser => 40
  }

  // ------------------------------------------------------------------ properties

  /** The chain tries the classes in the order of their registration, each once. */
  lemma OrderIsRegistration(i: nat)
    requires i < |ORDER|
    ensures Registration(ORDER[i]) == i
  {
    hide ORDER, Registration;
    RegistrationFrom0(i);
    RegistrationFrom14(i);
    RegistrationFrom28(i);
    OrderLength();
  }

  lemma OrderLength()
    ensures |ORDER| == 41
  {
  }

  lemma RegistrationFrom0(i: nat)
    ensures i < 14 && i < |ORDER| ==> Registration(ORDER[i]) == i
  {
  }

  lemma RegistrationFrom14(i: nat)
    ensures 14 <= i < 28 && i < |ORDER| ==> Registration(ORDER[i]) == i
  {
  }

  lemma RegistrationFrom28(i: nat)
    ensures 28 <= i < |ORDER| ==> Registration(ORDER[i]) == i
  {
  }

  lemma CodeRaisesAgain(e: Exc)
    ensures ResultCheck(CodeOf(e)) == Some(Registered(Delivered(e)))
  {
  }

  lemma OrderIsComplete(e: Exc)
    ensures e in ORDER
  {
  }

  /** The place of a registered class in ORDER, searched from `i` on. */
  function Position(e: Exc, i: nat): (r: nat)
    requires exists j :: i <= j < |ORDER| && ORDER[j] == e
    ensures i <= r < |ORDER| && ORDER[r] == e
    decreases |ORDER| - i
  {
    if ORDER[i] == e then i else Position(e, i + 1)
  }

  /** The chain is decided by the earliest class in ORDER that matches. */
  lemma {:induction false} FirstMatchFrom(c: Class, k: nat, i: nat)
    requires k <= i <= |ORDER|
    requires i < |ORDER| ==> Matches(c, ORDER[i])
    requires forall j :: k <= j < i ==> !Matches(c, ORDER[j])
    ensures FirstMatch(c, k) == if i < |ORDER| then Matched(CodeOf(ORDER[i])) else Unmatched
    decreases i - k
  {
    if k < i {
      FirstMatchFrom(c, k + 1, i);
    }
  }

  /** Either no registered class matches, or there is an earliest one that does. */
  lemma {:induction false} EarliestMatch(c: Class, k: nat) returns (i: nat)
    requires k <= |ORDER|
    ensures k <= i <= |ORDER|
    ensures i < |ORDER| ==> Matches(c, ORDER[i])
    ensures forall j :: k <= j < i ==> !Matches(c, ORDER[j])
    decreases |ORDER| - k
  {
    hide Matches, CodeOf;
    if k == |ORDER| || Matches(c, ORDER[k]) {
      i := k;
    } else {
      i := EarliestMatch(c, k + 1);
    }
  }

  /** Every failed call becomes a code that is not OK and raises a registered class on the
      other side, whether or not an exception was pending. */
  lemma NeverLost(pending: Option<Class>)
    ensures BridgeCode(pending) != OK
    ensures ResultCheck(BridgeCode(pending)).Some?
    ensures ResultCheck(BridgeCode(pending)).value.Registered?
  {
    if pending.Some? {
      var i := EarliestMatch(pending.value, 0);
      FirstMatchFrom(pending.value, 0, i);
      if i < |ORDER| {
        CodeRaisesAgain(ORDER[i]);
      }
    }
  }

  /** A class below several registered classes is delivered as the one tried first; a class below
      none of them, gnomevfs.Error included, is delivered as Generic. */
  lemma TranslateByOrder(c: Class, i: nat)
    requires i <= |ORDER|
    requires i < |ORDER| ==> Matches(c, ORDER[i])
    requires forall j :: 0 <= j < i ==> !Matches(c, ORDER[j])
    ensures Translate(c) == if i < |ORDER| then Registered(Delivered(ORDER[i])) else Registered(Generic)
  {
    FirstMatchFrom(c, 0, i);
    if i < |ORDER| {
      CodeRaisesAgain(ORDER[i]);
    }
  }

  lemma RegisteredMatch(e: Exc)
    ensures FirstMatch(Registered(e)) == Matched(CodeOf(e))
  {
    hide CodeOf;
    var i := EarliestMatch(Registered(e), 0);
    OrderIsComplete(e);
    FirstMatchFrom(Registered(e), 0, i);
  }

  lemma TranslateRegistered(e: Exc)
    ensures Translate(Registered(e)) == Registered(Delivered(e))
  {
    hide CodeOf, FirstMatch, ResultCheck, Delivered;
    RegisteredMatch(e);
    CodeRaisesAgain(e);
  }

  /** Crossing twice is crossing once, whatever the class inherits from. */
  lemma TranslateIdempotent(c: Class)
    ensures Translate(Translate(c)) == Translate(c)
  {
    hide CodeOf, FirstMatch, ResultCheck, Matches, Translate;
    var i := EarliestMatch(c, 0);
    TranslateByOrder(c, i);
    TranslateRegistered(if i < |ORDER| then Delivered(ORDER[i]) else Generic);
  }

  /** The fixed points are exactly the registered classes other than BadParameters. */
  lemma FixedPoints(c: Class)
    ensures Translate(c) == c <==> c.Registered? && c.exc != BadParameters
  {
    NeverLost(Some(c));
    if c.Registered? {
      TranslateRegistered(c.exc);
    }
  }

  /** BadParameters, which crossing the bridge never delivers, is raised by its own code and by no other. */
  lemma BadParametersRaised(code: Code)
    ensures ResultCheck(code) == Some(Registered(BadParameters)) <==> code == ERROR_BAD_PARAMETERS
  {
  }

  /** `result_check` is silent on OK and on the codes its switch leaves out, and on nothing else:
      a failure code outside the switch is taken for success. */
  lemma SilentCodes(code: Code)
    ensures ResultCheck(code).None? <==> code == OK || code.OTHER?
  {
  }
}
