# gnome-python: callbacks, ownership and errors in gnomevfs and bonobo

gnome-python binds GNOME libraries to Python 2. Most of it passes calls through. This project models the
part that does not: the layer of `gnomevfs` (and one file of `bonobo`) where C records own Python objects
while callbacks are outstanding, where Python exceptions become GnomeVFS result codes and exceptions again,
and where small C tables keep state between calls.

| files | what they model |
|---|---|
| `VfsErrors` | exception classes, result codes and the translation both ways |
| `Bridge` | the `do_*` functions and callbacks as users of the interpreter lock and the error indicator |
| `Options`, `PyHeap`, `PyTuples` | counted objects, INCREF and DECREF, conservation; tuples that own their items |
| `AsyncMachine`, `AsyncSafety`, `AsyncRequests`, `AsyncFunctions`, `AsyncModule` | asynchronous handles, their notify records and callbacks |
| `XferMachine`, `XferSafety`, `XferRuns`, `XferModule` | asynchronous transfers and the progress wrappers they lend to Python |
| `FileControl`, `FileControlModule` | the record that file_control hands back and forth |
| `PyFs` | a filesystem written in Python, read through the bridge and the wrappers |
| `SyncHandle` | the life of a synchronous handle |
| `Monitor` | the table of monitor ids |
| `FileInfo` | attribute access on the C file information structure |
| `Closure`, `ClosureSafety`, `ClosureModule` | closures that call Python from Bonobo |

The machines come in three parts. `…Machine` (or `Closure`, `FileControl`) gives a state, the events and the
step each event makes. `…Safety` and `…Runs` prove what every step keeps and what follows for whole runs. `…Module` is
the C code: a class with the tables as fields, whose methods do one INCREF, DECREF or assignment at a time
and are proved to make exactly the step of the machine. A C callback is two methods, one up to the call of
the Python function and one from its return on, because anything can happen in between: other callbacks,
calls into the module, objects dropped.

GnomeVFS, CPython, GObject and CORBA are environments. They deliver what they like, when they like, nested
as they like, with these assumptions: a single-shot request gets one callback at most; a directory load gets
none after one that carried an error; a transfer gets one update with phase COMPLETED, its last callback; a
closure is not invoked after it was invalidated; the caller of a function keeps its arguments alive during
the call. Reference counts are written `rc`; `outside` counts the references held by the Python program and
the interpreter. Sizes and bit values of the file information structure are those of libgnomevfs on a 64-bit
machine.

## What the code does that its documentation does not say

The model follows the code in each of these.

- BadParameters crosses the bridge as BadFile; a class outside the registered ones, gnomevfs.Error included,
  as Generic (`VfsErrors.FixedPoints`, `VfsErrors.TranslateByOrder`).
- A failure code that `pygnome_vfs_result_check` does not list counts as success (`VfsErrors.SilentCodes`).
- `do_check_same_fs` and `do_is_local` ignore a failing truth test, and the assignment of a number out of range
  to a FileInfo reports success: each leaves an exception pending. No result that is not NULL makes a `do_*`
  function or a callback look at the error indicator, so the exception travels on through whatever encloses the
  call, until something fails, fetches an exception or catches one (`Bridge.PendingExactly`,
  `Bridge.TravelsThroughOpen`, `Bridge.OutOfRangeSizeIsUnreported`).
- Every failure of `do_is_local` comes out as "local" (`Bridge.RemoteMeansFalse`).
- Assignment to an attribute of XferProgressInfo returns -1 even when it was made.
- A Python callback may assign `phase` through its wrapper, and the C callback looks at the phase once more
  when the Python function has returned. An ordinary update that then finds COMPLETED frees the record too
  early (`XferRuns.PrematureReturn`); the COMPLETED update that finds something
  else never frees it (`XferRuns.AssigningOtherPhaseLoses`, `XferRuns.LostForEver`). All goes right if and only
  if for every update that returns the last phase stored in its structure is COMPLETED just when the update
  was told so (`XferRuns.GoesRightIffWellJudged`).
- A callback runs a function that it borrows from the notify record. If the delivery of the end of a directory
  is nested in the delivery of a part of it, the record goes, and unless the program kept a reference of its own
  the function dies while the outer callback runs it (`AsyncFunctions.FunctionAliveIff`,
  `AsyncFunctions.FunctionCanDieRunning`). The same holds for a closure invalidated by its own callable
  (`ClosureSafety.CallableAliveIff`).
- Synchronous file_control ignores the result code: any failure is a TypeError. The argument tuple of
  `do_file_control`, and an asynchronous record destroyed at IN, leak a reference
  (`FileControl.SettledRunLeaksExactly`).
- In `pyfs.py` a read after close raises TypeError in the first test; the test for None behind it is dead.
  The program sees GenericError. A lookup in a directory that raises EOFError itself ends the iteration
  early (`PyFs.Ls`, `PyFs.EarlyEnd`).
- `Handle.close` clears the descriptor only after GnomeVFS has closed it. A close that begins meanwhile, from a
  method written in Python or from another thread, closes the descriptor again, and a use uses it late; an
  `__init__` that ends meanwhile, or one on an open handle, makes a descriptor be forgotten
  (`SyncHandle.ClosedExactlyOnce`, `SyncHandle.CallsAreInOrderIff`).
- Times from 2^63 on come back negative, other numbers out of range are stored modulo the field or as all
  ones and reported as success, and strings end at the first NUL (`FileInfo.NumberRoundTrip`,
  `FileInfo.StringRoundTrip`).

## Model

The results come first; after `VfsErrors.SilentCodes` follow the functions of the program.

| member | source | states |
|---|---|---|
| VfsErrors.NeverLost | gnomevfs/gnome-vfs-python-method.c:34-46 | every failed Python call, with or without a pending exception, becomes a code that is not OK and that raises a registered class on the other side |
| VfsErrors.TranslateByOrder | gnomevfs/vfsmodule.c:246-337 | under any inheritance a class is delivered as the earliest registered class of the chain it matches, BadParameters as BadFile, and as Generic if it matches none |
| VfsErrors.TranslateIdempotent | gnomevfs/vfsmodule.c:80-243 | crossing the bridge twice is crossing it once, for any class |
| VfsErrors.FixedPoints | gnomevfs/vfsmodule.c:252-334 | a class crosses unchanged if and only if it is registered and not BadParameters |
| VfsErrors.OrderIsRegistration | gnomevfs/vfsmodule.c:2376-2428 | the chain tries the registered classes in the order of their registration, each once |
| VfsErrors.BadParametersRaised | gnomevfs/vfsmodule.c:80-243 | BadParameters is raised by its own code and by no other |
| Bridge.FailureIsDelivered | gnomevfs/gnome-vfs-python-method.c:34-46 | for each `do_*` function a Python exception comes out as a code that raises the translated class; a missing method raises NotSupported; NULL without an exception raises Generic, or the translation of an older exception still pending |
| Bridge.OkMeansSuccess | gnomevfs/gnome-vfs-python-method.c:408-458 | a `do_*` function returns OK if and only if its method ran, returned, and returned something the operation can use |
| Bridge.PendingExactly | gnomevfs/gnome-vfs-python-method.c:34-46 | entered with nothing pending, a `do_*` function or callback with any tree of nested calls leaves an exception pending if and only if something in the tree set it behind a success (the truth test of `do_check_same_fs` or `do_is_local`, a FileInfo assignment out of range, another C function) and nothing in the tree cleared the indicator or left another one afterwards |
| Bridge.NothingUnreported | gnomevfs/gnome-vfs-python-method.c:34-46 | a tree in which nothing sets an exception behind a success leaves nothing pending that was not pending before |
| Bridge.TravelsThroughOpen | gnomevfs/gnome-vfs-python-method.c:313-343 | a `do_open` that returns OK and leaves an exception pending |
| Bridge.OutOfRangeSizeIsUnreported | gnomevfs/vfs-file-info.c:342-353 | a `do_get_file_info` that returns OK and leaves an OverflowError pending |
| Bridge.RemoteMeansFalse | gnomevfs/gnome-vfs-python-method.c:776-804 | `do_is_local` answers no if and only if its method exists and returned something false |
| Bridge.FalseValues | gnomevfs/gnome-vfs-python-method.c:965-968 | the results that count as false, and those whose truth test raises |
| Bridge.AnswersTheInt | gnomevfs/vfs-async-handle.c:846-860 | a progress callback answers n exactly if Python returned the int n, and abort exactly if it returned no int |
| AsyncSafety.RunKeeps | gnomevfs/vfs-async-handle.c:149-192 | at every moment of every run the invariant holds and the next step touches live memory only |
| AsyncSafety.CountsOverRuns | gnomevfs/vfs-async-handle.c:91-118 | at every moment of every run a count is the outside references plus the places of live records and active callbacks naming the object |
| AsyncSafety.PendingIsLive | gnomevfs/vfs-async-handle.c:364-404 | what a pending callback will touch is alive: function, handle, data, the string being written; a read's block is in use and belongs to that request alone |
| AsyncSafety.FreedAtMostOnce | gnomevfs/vfs-async-handle.c:109-118 | no record is freed at two moments of a run |
| AsyncRequests.ReturnFreesExactly | gnomevfs/vfs-async-handle.c:186-189 | over any run the return of a callback frees the record it was called for, and a read's block with it, unless it was called for a part of a directory without an error: then it frees and changes nothing |
| AsyncRequests.DeliveryCalls | gnomevfs/vfs-async-handle.c:171-179 | a callback calls its record's function with the handle, the new string, number or list if the origin has one, the exception object for the result (none for get_file_info), and the data if there are any, in this order |
| AsyncRequests.ListKeepsExceptions | gnomevfs/vfs-async-handle.c:424-434 | the list for get_file_info keeps one reference to the exception object of each of its results; no other callback leaves a reference outside |
| AsyncRequests.RecordHolds | gnomevfs/vfs-async-handle.c:91-118 | a record has one reference each to function, handle, data and string |
| AsyncSafety.FreedByItsCallback | gnomevfs/vfs-async-handle.c:186-189 | a record is freed by the return of the callback that announced it and by nothing else, and names the same objects until then |
| AsyncSafety.BlockGoesWithItsRecord | gnomevfs/vfs-async-handle.c:324-327 | a callback's return releases a block in use if and only if it frees the record of that read |
| AsyncSafety.RunOneWay | gnomevfs/vfs-async-handle.c:109-118 | over any run freed records, returned callbacks, released blocks, closed handles and dead objects stay so |
| AsyncSafety.ClosedStaysClosed | gnomevfs/vfs-async-handle.c:540-550 | a handle closed at some moment of a run is closed at every later one |
| AsyncSafety.ClosedIsInert | gnomevfs/vfs-async-handle.c:340-343 | over any run every read, write and close on a handle closed at some earlier moment raises ValueError and leaves the state as it was |
| AsyncRequests.CloseCloses | gnomevfs/vfs-async-handle.c:259-267 | an accepted close closes its handle at once, changes no other handle, and registers a record with function, handle and data |
| AsyncRequests.CancelCloses | gnomevfs/vfs-async-handle.c:540-550 | cancel closes its handle, changes no other, and leaves records, callbacks and blocks alone |
| AsyncRequests.ClosedForGood | gnomevfs/vfs-async-handle.c:244-247 | over any run every read, write and close on a handle after an accepted close or a cancel of it raises ValueError and changes nothing |
| AsyncRequests.ReadRegisters | gnomevfs/vfs-async-handle.c:355-358 | an accepted read registers its record, with a block of its own if it is for more than 0 bytes, and changes no handle |
| AsyncRequests.WriteRegisters | gnomevfs/vfs-async-handle.c:394-400 | an accepted write registers its record with the string it writes from, and changes no handle |
| AsyncRequests.StartRegisters | gnomevfs/vfs-async-handle.c:222-234 | an accepted start makes a new open handle, which the caller gets, and registers its record |
| AsyncRequests.RefusedExactly | gnomevfs/vfs-async-handle.c:374-392 | close, read and write raise ValueError exactly on a closed handle, and TypeError exactly on an open one with a callback that is not callable or a buffer that is no string |
| AsyncRequests.StartRefusedExactly | gnomevfs/vfs-async-handle.c:120-139 | starting a request raises TypeError exactly for a callback that is not callable, an argument that is no URI, or a string that cannot be parsed, which get_file_info does not look at |
| AsyncSafety.DeliveryClosesExactly | gnomevfs/vfs-async-handle.c:161-169 | a delivered callback closes its own handle in exactly the cases meant, and no other |
| AsyncSafety.QuietModuleHoldsNothing | gnomevfs/vfs-async-handle.c:109-118 | when all records are freed and all callbacks returned, every count is the outside references, and every block is released |
| AsyncFunctions.FunctionAliveIff | gnomevfs/vfs-async-handle.c:171-189 | at every moment of a run after a delivery, the function it runs is alive if and only if the program has a reference of its own, a live notify record names it, or it is an argument of an active callback; it is so as long as its request's record is |
| AsyncFunctions.LastCallbackHasItsRecord | gnomevfs/vfs-async-handle.c:186-189 | over any run a callback that will free its record finds it there, with its function |
| AsyncFunctions.FunctionCanDieRunning | gnomevfs/vfs-async-handle.c:582-605 | from any initial state with a function of one reference, a run of five events after which a callback is active and its function dead |
| XferRuns.GoesRightIffWellJudged | gnomevfs/vfs-async-handle.c:810-861 | a run touches live memory only and has every record exactly until its COMPLETED update has returned, if and only if for every update that returns the last phase stored in its structure is COMPLETED just when the update was told so |
| XferRuns.RunKeeps | gnomevfs/vfs-async-handle.c:810-861 | every moment of every such run is safe and keeps the invariant |
| XferRuns.RecordLivesUntilCompleted | gnomevfs/vfs-async-handle.c:837-844 | in such runs a record exists exactly until the COMPLETED update has returned, and its four objects are alive |
| XferRuns.CountsOverRuns | gnomevfs/vfs-async-handle.c:934-947 | in every run, whatever is assigned, counts are outside references, live records and active callbacks, as long as no step was unsafe |
| XferRuns.BorrowedOverRuns | gnomevfs/vfs-xfer-progress-info.c:10-13 | in every run, whatever is assigned and however callbacks nest, attribute access on a wrapper raises RuntimeError if and only if no active callback owns the wrapper, as long as no step was unsafe |
| XferSafety.StepIsSound | gnomevfs/vfs-async-handle.c:821-835 | every safe step keeps counts in balance and wrappers borrowed |
| XferSafety.ReturnsRightIff | gnomevfs/vfs-async-handle.c:837-844 | a callback's return is safe and right for every record if and only if it finds COMPLETED just when it was told so |
| XferSafety.StepKeeps | gnomevfs/vfs-async-handle.c:837-844 | every step is safe and keeps the invariant, if a returning update finds COMPLETED just when it was told so |
| XferSafety.FreedByItsLastUpdate | gnomevfs/vfs-async-handle.c:837-844 | a record is then freed by the return of its COMPLETED update and by nothing else, and never comes back |
| XferSafety.QuietModuleHoldsNothing | gnomevfs/vfs-async-handle.c:934-947 | when all transfers have completed and no callback is active, every count is the outside references |
| XferRuns.EnterCalls | gnomevfs/vfs-async-handle.c:815-828 | a progress callback calls, for an update, the update function with a new handle, a new wrapper and the update data, for the sync half the sync function with a new wrapper and the sync data, and else what it was given; the wrapper points to its structure, where the phase is stored |
| XferRuns.StartRegisters | gnomevfs/vfs-async-handle.c:883-937 | a transfer's record has the four objects as they were given |
| XferRuns.RecordHolds | gnomevfs/vfs-async-handle.c:934-937 | and one reference to each |
| XferRuns.AssigningCompletedMisleads | gnomevfs/vfs-xfer-progress-info.c:81-88 | an ordinary update whose Python function assigns COMPLETED will find it |
| XferRuns.PrematureReturn | gnomevfs/vfs-async-handle.c:837-844 | its return then frees the record although no COMPLETED update came, and the one still owed would use freed memory |
| XferRuns.ReturnLoses | gnomevfs/vfs-async-handle.c:837-844 | a COMPLETED update that finds another phase when it returns leaves the record there, lost if no other update of the transfer is active |
| XferRuns.AssigningOtherPhaseLoses | gnomevfs/vfs-xfer-progress-info.c:81-88 | a COMPLETED update whose Python function assigns another phase through its wrapper does so |
| XferRuns.LostForEver | gnomevfs/vfs-async-handle.c:837-844 | and such a record keeps its four references at every later moment of the run |
| FileControl.CountsOverRuns | gnomevfs/gnome-vfs-python-method.c:1127-1170 | over any run a count is the outside references, those of the calls in progress, and one for each earlier event that called Python with the object as argument or destroyed an asynchronous record holding it at IN |
| FileControl.SettledRunLeaksExactly | gnomevfs/vfs-async-handle.c:1109-1121 | when all calls are settled exactly those references are missing |
| FileControl.RecordNamesFirstResult | gnomevfs/gnome-vfs-python-method.c:1163-1165 | over any run a record names the first result a Python method returned for it, or its argument if none did |
| FileControl.MagicMoves | gnomevfs/gnome-vfs-python-method.c:1145-1165 | only a successful Python method turns IN into OUT, and then the record names its result; nothing else changes a living record |
| FileControl.EndSyncSettles | gnomevfs/vfs-handle.c:276-294 | the synchronous call hands over the record's reference on OUT, and on IN gives the argument's reference back and raises |
| FileControl.CallbackGetsFirstResult | gnomevfs/vfs-async-handle.c:1078-1106 | over any run the callback function gets what the first Python method that succeeded returned, and None if none did |
| FileControl.BeginMakes | gnomevfs/vfs-async-handle.c:1144-1160 | a call begins with its argument at IN, an asynchronous one with a callback for the given function and data |
| FileControl.RunKeeps | gnomevfs/vfs-async-handle.c:1144-1170 | the invariant at every moment of every run |
| PyFs.Iterate | gnomevfs/vfs-dir-handle.c:35-56 | any number of `next` calls on a directory handle over pyfs gives the names that are not skipped, in order, each once, and then StopIteration for ever |
| PyFs.CleanVisible | examples/vfs/pygvfsmethod/pyfs.py:40-60 | if no lookup raises, what is seen is the listing without the skipped names |
| PyFs.Ls | examples/vfs/shell.py:47-52 | a `for` loop ends and yields all names that can be looked up if and only if the first raising lookup, if any, crosses as EOF and no such name follows; always if no lookup raises |
| PyFs.EarlyEnd | examples/vfs/pygvfsmethod/pyfs.py:54-60 | a listing whose iteration ends before its last good name |
| PyFs.DescribesAs | examples/vfs/pygvfsmethod/pyfs.py:67-77 | strings are text files of their length with permissions 0444, everything else is a directory with permissions 0555 and no size |
| PyFs.ReadMany | gnomevfs/vfs-handle.c:96-132 | reads of any sizes on an open pyfs file: the strings join to the first min(sum, length) bytes, and EOFError is raised exactly by an acceptable size above 0 after everything was consumed; with positive sizes one of the first length + 1 reads raises it, and what was read before is the file |
| PyFs.ReadAll | examples/vfs/pygvfsmethod/pyfs.py:98-107 | reading in pieces until EOFError ends, with exactly the file |
| PyFs.Less | examples/vfs/shell.py:54-61 | one read of the reported size gives the whole file |
| SyncHandle.CallsAreInOrderIff | gnomevfs/vfs-handle.c:79-109 | over any history, with calls nested and interleaved at will, each descriptor is used and closed only after its opening and before its closing, if and only if no use and no close of it began while a close of it was in progress |
| SyncHandle.ClosedExactlyOnce | gnomevfs/vfs-handle.c:21-37 | when the object is gone each descriptor it got was closed exactly once, if and only if no close began while a close of the same descriptor was in progress, and no `__init__` or close ended while the handle held a descriptor nobody had begun to close |
| SyncHandle.ClosedStaysClosed | gnomevfs/vfs-handle.c:106-109 | after close no operation but file_control reaches the library, until an `__init__` stores a handle |
| SyncHandle.ClosingTwice | gnomevfs/vfs-handle.c:82-90 | a history in which a close nested in a close closes the descriptor twice |
| SyncHandle.ReopeningForgets | gnomevfs/vfs-handle.c:71-76 | a history in which the first descriptor is never closed |
| SyncHandle.ReplyTells | gnomevfs/vfs-handle.c:184-187 | a library answer is a value exactly for OK and unlisted codes, and else raises the class of its code |
| Monitor.FreeIdExists | gnomevfs/vfsmodule.c:894-896 | a free id exists if and only if fewer than 2^32 monitors live, and then one is among the next live + 1 counter values, wherever the counter stands |
| Monitor.IdNamesItsHandle | gnomevfs/vfsmodule.c:916-923 | over any run an id names the handle of its add until cancelled, is given to no other add before, and its cancel reaches that handle |
| Monitor.IdsComeBackAfterARound | gnomevfs/vfsmodule.c:894-896 | a later add gives the same id if and only if the counter has made full rounds in between |
| Monitor.StaleIdsStayStale | gnomevfs/vfsmodule.c:894-902 | with at most m monitors alive, fewer than 2^32 / (m + 1) adds never give an old id again |
| FileInfo.GetterReturnsLast | gnomevfs/vfs-file-info.c:82-175 | after any history the getter gives the number last assigned if and only if it is in range |
| FileInfo.NumberGetter | gnomevfs/vfs-file-info.c:54-175 | the getter gives the word of the last successful assignment, or raises if nothing made it valid |
| FileInfo.ValidIffAssigned | gnomevfs/vfs-file-info.c:205-440 | without assignments to valid_fields an attribute is valid if and only if it was before or something sharing its bit was assigned |
| FileInfo.NumberRoundTrip | gnomevfs/vfs-file-info.c:88-91 | a number comes back as the same integer, int or long, if and only if it is in the range of the field; an int always fits |
| FileInfo.LargeTimeIsNegative | gnomevfs/vfs-file-info.c:381-389 | a time that is accepted and comes back negative |
| FileInfo.StringGetter | gnomevfs/vfs-file-info.c:176-195 | a string getter gives the last string assigned up to its first NUL, None, or raises |
| FileInfo.StringRoundTrip | gnomevfs/vfs-file-info.c:218-226 | a string comes back if and only if it has no NUL |
| FileInfo.AssignmentIsLocal | gnomevfs/vfs-file-info.c:205-440 | an assignment is seen through another attribute only if it succeeds and the two are uid and gid, or permissions and access |
| FileInfo.PermissionsGetters | gnomevfs/vfs-file-info.c:62-75 | after any history without assignments to valid_fields the permissions getter gives the part outside, and the access getter the part inside, the three access bits of the last permissions value together with all later access values; access raises if nothing made it valid |
| FileInfo.PermissionsComeBack | gnomevfs/vfs-file-info.c:247-255 | a permissions value without access bits comes back as it was |
| FileInfo.AccessShows | gnomevfs/vfs-file-info.c:257-265 | an access value within the access bits shows through its getter with those set before, and leaves what the permissions getter gives as it is |
| FileInfo.ValidFieldsComeBack | gnomevfs/vfs-file-info.c:228-235 | a value assigned to valid_fields comes back, and no other field changes |
| FileInfo.TakesExactly | gnomevfs/vfs-file-info.c:205-440 | the types each attribute takes, and the longs for which an OverflowError stays pending behind the success |
| FileInfo.AccessGrows | gnomevfs/vfs-file-info.c:257-265 | between assignments to permissions no bit of either part is taken away |
| PyTuples.DropBalances | bonobo/pybonobo.c:97-98 | giving back references one has never fails, whatever tuples die on the way, and what remains is in balance |
| ClosureSafety.RunKeeps | bonobo/pybonobo.c:26-101 | over any run no step uses or gives back a dead reference or leaves with the lock held, and counts are what the program, tuples, closures and running invocations hold |
| ClosureSafety.CallReceives | bonobo/pybonobo.c:117-143 | over any run between new and invalidate the callable given to new is called, exactly if no needed conversion fails, with n + extras items: the swap data in place of parameter 0, the first n converted parameters, where n leaves out a trailing CORBA exception, and the extra arguments given to new |
| ClosureSafety.InvokePasses | bonobo/pybonobo.c:40-75 | the same for one invocation of a closure as it is |
| ClosureSafety.PrepareBalances | bonobo/pybonobo.c:52-74 | when Python is called the invocation holds exactly its tuple, after a failed conversion nothing |
| ClosureSafety.NewThenInvalidate | bonobo/pybonobo.c:9-24 | new followed by invalidate restores every count, with extra arguments that are no tuple too; the tuple made for them dies |
| ClosureSafety.CallableAliveIff | bonobo/pybonobo.c:75-98 | over any run a closure's callable is alive until the closure is invalidated, and afterwards if and only if the program, another closure, a live tuple or a running call refers to it |
| ClosureSafety.NoBailOut | bonobo/pybonobo.c:55-58 | the early return without cleanup is reached if and only if the closure was invalidated, swaps, and has a parameter |
| ClosureSafety.QuietHoldsNothing | bonobo/pybonobo.c:9-24 | when all closures are invalidated and no invocation runs, the module holds nothing |
| VfsErrors.SilentCodes | gnomevfs/vfsmodule.c:80-243 | no exception is raised exactly for OK and for the codes the switch does not list |
| Bridge.EveryCodeIsListed | gnomevfs/gnome-vfs-python-method.c:1041-1092 | every code other than OK that a `do_*` function returns is one the other side raises |
| Bridge.Interpreter.FailWith | gnomevfs/gnome-vfs-python-method.c:34-46 | both failure exits translate, leave nothing pending and restore lock and depth |
| Bridge.Interpreter.RunScript | gnomevfs/gnome-vfs-python-method.c:59-68 | a Python function with any tree of nested calls ends with the lock and the depth it began with, and keeps pending what its steps left |
| Bridge.Interpreter.RunLibrary | gnomevfs/vfs-handle.c:121-128 | so does a wrapper that lets other threads run during the library call |
| Bridge.Interpreter.DoFunction | gnomevfs/gnome-vfs-python-method.c:313-343 | each exit of a `do_*` function restores lock and depth, returns the specified code and leaves the specified exception |
| Bridge.Interpreter.EndWithCount | gnomevfs/gnome-vfs-python-method.c:439-457 | the three result exits of `do_read`, `do_write` and `do_tell` release once each; only an int or None is OK |
| Bridge.Interpreter.EndWithUri | gnomevfs/gnome-vfs-python-method.c:1075-1091 | the three result exits of `do_find_directory` release once each |
| Bridge.Interpreter.DoIsLocal | gnomevfs/gnome-vfs-python-method.c:776-804 | each exit of `do_is_local` restores lock and depth and leaves the specified exception |
| Bridge.Interpreter.NotifyCallback | gnomevfs/vfs-async-handle.c:149-192 | a marshal callback restores lock and depth and leaves the specified exception |
| Bridge.Interpreter.ProgressCallback | gnomevfs/vfs-async-handle.c:821-861 | the three exits of a progress callback restore lock and depth, and answer abort unless Python returned an int |
| AsyncModule.Module.StartRequest | gnomevfs/vfs-async-handle.c:194-235 | open, create, create_symbolic_link, load_directory and get_file_info make the start step or raise TypeError and change nothing |
| AsyncModule.Module.Close | gnomevfs/vfs-async-handle.c:237-268 | close makes the close step, or raises and changes nothing |
| AsyncModule.Module.Read | gnomevfs/vfs-async-handle.c:332-362 | read makes the read step, or raises and changes nothing |
| AsyncModule.Module.Write | gnomevfs/vfs-async-handle.c:364-404 | write makes the write step, or raises and changes nothing |
| AsyncModule.Module.Cancel | gnomevfs/vfs-async-handle.c:540-550 | cancel closes the handle and leaves outstanding records alone |
| AsyncModule.Module.CallbackBegin | gnomevfs/vfs-async-handle.c:270-313 | a callback up to the call of the Python function makes the delivery step |
| AsyncModule.Module.CallbackEnd | gnomevfs/vfs-async-handle.c:315-330 | a callback from the return of the Python function on makes the return step |
| XferModule.Module.AsyncXfer | gnomevfs/vfs-async-handle.c:883-947 | starting a transfer makes the start step |
| XferModule.Module.ProgressBegin | gnomevfs/vfsmodule.c:991-1004 | a progress callback up to the call of Python makes the enter step, if the record it reads is there |
| XferModule.Module.ProgressEnd | gnomevfs/vfs-async-handle.c:830-844 | a progress callback from the return on makes the exit step, whatever phase it finds, if the record it would free is there |
| XferModule.Module.GetPhase | gnomevfs/vfs-xfer-progress-info.c:6-48 | reading an attribute fails if and only if no active callback owns the wrapper, else it reads that callback's structure |
| XferModule.Module.SetPhaseAttr | gnomevfs/vfs-xfer-progress-info.c:72-88 | assigning an attribute writes through to the structure, or raises RuntimeError; it returns -1 either way |
| FileControlModule.Module.SyncBegin | gnomevfs/vfs-handle.c:278-280 | the record on the stack takes its reference |
| FileControlModule.Module.SyncEnd | gnomevfs/vfs-handle.c:285-294 | the tail of the synchronous call makes the end step and gives the specified answer |
| FileControlModule.Module.AsyncBegin | gnomevfs/vfs-async-handle.c:1144-1160 | the asynchronous call takes references for both its structures |
| FileControlModule.Module.DoFileControl | gnomevfs/gnome-vfs-python-method.c:1127-1170 | makes the Python step; OK if and only if the record was at IN and the method returned, else the translated code |
| FileControlModule.Module.FileControlCallback | gnomevfs/vfs-async-handle.c:1064-1106 | the callback calls the function it was given with the result or None and the data, and gives back function and data |
| FileControlModule.Module.OperationDataFree | gnomevfs/vfs-async-handle.c:1109-1121 | the destructor makes the destroy step |
| PyFs.Handle.ReadDir | examples/vfs/pygvfsmethod/pyfs.py:40-60 | the recursion pops up to and including the first name not skipped, or everything and raises EOFError |
| PyFs.Handle.Open | examples/vfs/pygvfsmethod/pyfs.py:90-96 | only a string can be opened; it is read from its beginning |
| PyFs.Handle.Read | examples/vfs/pygvfsmethod/pyfs.py:98-107 | the chunk written into the caller's buffer and the new position; EOFError exactly at the end, TypeError after close |
| PyFs.DoReadDirectory | gnomevfs/gnome-vfs-python-method.c:671-701 | what ReadDir did, as codes |
| PyFs.DoRead | gnomevfs/gnome-vfs-python-method.c:408-458 | what Read did, as a code and a count |
| PyFs.DirectoryHandle.Next | gnomevfs/vfs-dir-handle.c:35-56 | one `next` takes the head of what is visible, or StopIteration |
| PyFs.HandleRead | gnomevfs/vfs-handle.c:96-132 | one `Handle.read` end to end, with all its refusals |
| SyncHandle.Handle.InitBegin | gnomevfs/vfs-handle.c:39-69 | `__init__` up to the library call makes its step |
| SyncHandle.Handle.InitEnd | gnomevfs/vfs-handle.c:71-76 | `__init__` from the library call on makes its step and answers as the library did |
| SyncHandle.Handle.CloseBegin | gnomevfs/vfs-handle.c:79-83 | close up to the library call keeps the descriptor in the handle |
| SyncHandle.Handle.CloseEnd | gnomevfs/vfs-handle.c:85-93 | close from the library call on always succeeds and leaves the handle closed |
| SyncHandle.Handle.DeallocHandle | gnomevfs/vfs-handle.c:21-37 | an open descriptor is closed with the object |
| SyncHandle.Handle.UseBegin | gnomevfs/vfs-handle.c:161-182 | a closed handle raises ValueError before anything else; otherwise arguments and special sizes are looked at in that order before the library is asked |
| SyncHandle.Handle.UseEnd | gnomevfs/vfs-handle.c:184-187 | the library's answer is given or raised |
| SyncHandle.Handle.FileControlBegin | gnomevfs/vfs-handle.c:264-284 | file_control asks the library whether the handle is open or not |
| Monitor.Table.MonitorAdd | gnomevfs/vfsmodule.c:890-902 | the new id was free, other entries are unchanged, and the loop took at most live + 1 increments |
| Monitor.Table.MonitorCancel | gnomevfs/vfsmodule.c:905-927 | cancel reaches the handle under the id and frees it, or raises ValueError and does nothing |
| FileInfo.FileInfoObject.SetAttr | gnomevfs/vfs-file-info.c:205-440 | setattr makes the assignment, succeeds exactly if the type is accepted, and behind a success leaves an OverflowError pending exactly for a long that does not fit 64 bits |
| ClosureModule.Module.ClosureNew | bonobo/pybonobo.c:117-143 | makes the new step |
| ClosureModule.Module.ClosureInvalidate | bonobo/pybonobo.c:9-24 | makes the invalidate step |
| ClosureModule.Module.MarshalBegin | bonobo/pybonobo.c:40-75 | makes the invoke step; the lock is kept exactly if Python is called |
| ClosureModule.EndCall | bonobo/pybonobo.c:75-101 | on each of the four ways out result and tuple are dropped and the lock is given back once; GObject gets the result exactly if it wants one and no CORBA exception was made |
| ClosureModule.Module.MarshalEnd | bonobo/pybonobo.c:75-101 | makes the return step by each way out; the lock is taken exactly once per invocation in progress |

## Left out

- Finalizers: an object whose count reaches 0 is dead at once; Python code that its death might run is not interleaved with the C function that dropped it.
- Asynchronous machine: the inner objects of result lists (URIs, file infos), a negative read size, and `control` on a closed handle, which the code does not check.
- Asynchronous machine: early returns inside argument parsing, which leak GnomeVFS URIs but no Python object.
- Transfers: argument checks and URI list conversion, the leaked return value of a callback that is no int, and the record leaked when `gnome_vfs_async_xfer` itself fails.
- Transfers: attributes of XferProgressInfo other than `phase`.
- Bridge.Interpreter.DoFunction: argument tuples built inside `do_*` functions are never released there, so counts are not modelled; only file_control's own record is.
- Bridge.Interpreter.Release: the last release in a thread that Python did not create also discards the thread's error indicator; the model keeps it.
- Bridge.Interpreter.EndWithTruth: Python code that the truth test itself runs is not part of the tree of calls, only its failure is.
- AsyncFunctions.FunctionCanDieRunning: what CPython does with a function that dies while it runs is not modelled; the C callback does not touch record or function afterwards.
- Handle containers of `do_open` and `do_close`; loading of method modules.
- FileControlModule.Module.SyncBegin: the argument parser's format asks for three objects and names two keywords; parsing is not modelled.
- PyFs.Handle.ReadDir: Python's recursion limit, which a long run of skipped names would hit, is not modelled.
- PyFs.Handle.Open: text that str() cannot encode is not modelled; resolution of a path to an object is a parameter, as are the modules loaded, and the clock behind the three times is left out.
- SyncHandle.CallsAreInOrderIff: a close that begins while another thread's operation on the descriptor is in progress is not called out of order; what GnomeVFS makes of it is not modelled.
- SyncHandle.Handle.UseBegin: the values read, written or sought are not modelled there (reading is, in PyFs); a failed write frees a buffer that belongs to the string, which is not modelled.
- Monitor.Table.MonitorAdd: with 2^32 live monitors the loop does not end; the model requires fewer. Signed overflow of the counter is taken to wrap around.
- Monitor: the notify record of a monitor, which is never freed, and its callback.
- FileInfo: deletion of attributes.
- Closure: the content of the value returned to GObject and of the CORBA exception set from a Python one.
- `find_directory`, volume, drive, MIME, DNS-SD, URI and resolver wrappers, `_pygvfs_uri_sequence_to_glist`, the gconf and canvas bindings, activation and code generation: pass-through code that would add easy members.
