/**
 * Redirection resolution for a command with `<`, `>` or `2>` targets. The
 * three targets are the command's `in_file`, `out_file` and `err_file`
 * texts, each empty when unset. The decisions made over them are modelled
 * exactly; the calls into the operating system (`open`, `dup2`) are not, and
 * their results are inputs.
 */
module Redirect {

  /** The command fields the resolver reads. */
  datatype RedirCmd = RedirCmd(inFile: string, outFile: string, errFile: string)

  /** `REDIRECT_IN`, `REDIRECT_OUT`, `REDIRECT_ERR`, `REDIRECT_ERR_OUT`, and
      the `-1` returned when no target is set. */
  datatype RedirCase = In | Out | Err | ErrToOut | NoTarget

  /** The integer the C code uses for each case. */
  function Code(c: RedirCase): (n: int)
    ensures -1 <= n <= 3
    ensures n == -1 <==> c == NoTarget
  {
    match c
    case In => 0
    case Out => 1
    case Err => 2
    case ErrToOut => 3
    case NoTarget => -1
  }

  /** The five cases have five different codes. */
  lemma CodesDistinct(a: RedirCase, b: RedirCase)
    requires a != b
    ensures Code(a) != Code(b)
  {
  }

  /** The standard stream slots. */
  datatype Slot = Stdin | Stdout | Stderr

  /** The access mode and the flags handed to `open`. */
  datatype Access = ReadOnly | ReadWrite
  datatype OpenFlags = OpenFlags(access: Access, create: bool, truncate: bool, closeOnExec: bool)

  /** Permission bits of `open`'s mode argument that the resolver can request. */
  datatype Perm = OwnerRead | OwnerWrite

  /** The exit code a process passes to `_exit` when it cannot go on. Both
      `READ_FILE_ERROR` and `EXECERROR` are -1. */
  const READ_FILE_ERROR: int := -1
  const EXECERROR: int := -1

  /** The status a parent observes for an `_exit(code)`: its low eight bits. */
  function ExitStatus(code: int): (s: int)
    ensures 0 <= s < 256
    ensures (s - code) % 256 == 0
  {
    code % 256
  }

  /** A step that either yields a value and goes on, or ends the process. */
  datatype Step<T> = Continue(value: T) | Exit(code: int)

  /** `err_file` names the `&1` marker when its first two characters are `&1`. */
  predicate IsStdoutMarker(errFile: string) {
    "&1" <= errFile
  }

  /** `redirect_case`: first match wins: a set `in_file`, then an `err_file`
      that starts with `&1`, then any other set `err_file`, then a set
      `out_file`. */
  function RedirectCase(r: RedirCmd): (c: RedirCase)
    ensures c == In <==> r.inFile != []
    ensures c == ErrToOut <==> r.inFile == [] && IsStdoutMarker(r.errFile)
    ensures c == Err <==> r.inFile == [] && r.errFile != [] && !IsStdoutMarker(r.errFile)
    ensures c == Out <==> r.inFile == [] && r.errFile == [] && r.outFile != []
    ensures c == NoTarget <==> r.inFile == [] && r.errFile == [] && r.outFile == []
  {
    if |r.inFile| > 0 then In
    else if |r.errFile| > 0 then
      if |r.errFile| >= 2 && r.errFile[0] == '&' && r.errFile[1] == '1' then ErrToOut
      else Err
    else if |r.outFile| > 0 then Out
    else NoTarget
  }

  /** `get_redir_flags`: every case closes on exec; input opens read-only,
      the error file is created and opened read/write without truncation, and
      every other case is created, opened read/write and truncated. */
  function RedirFlags(c: RedirCase): (f: OpenFlags)
    ensures f.closeOnExec
    ensures f.access == ReadOnly <==> c == In
    ensures f.create <==> c != In
    ensures f.truncate <==> c != In && c != Err
  {
    match c
    case In => OpenFlags(ReadOnly, false, false, true)
    case Err => OpenFlags(ReadWrite, true, false, true)
    case _ => OpenFlags(ReadWrite, true, true, true)
  }

  /** `get_redir_file`: the file to open: `in_file` for input, `err_file`
      for the error case and `out_file` for every other case, the `&1` case
      and the no-target case included. */
  function GetRedirFile(r: RedirCmd): (file: string)
    ensures RedirectCase(r) == In ==> file == r.inFile
    ensures RedirectCase(r) == Err ==> file == r.errFile
    ensures RedirectCase(r) !in {In, Err} ==> file == r.outFile
  {
    match RedirectCase(r)
    case In => r.inFile
    case Err => r.errFile
    case _ => r.outFile
  }

  /** The `open` call `open_redir_fd` makes. */
  datatype OpenCall = OpenCall(path: string, flags: OpenFlags, mode: set<Perm>)

  /** `open_redir_fd`: opens `file` with the flags of the case and with the
      owner read and write bits, except for input, which passes mode 0.
      `fd` is what `open` returned; -1 ends the process with
      `READ_FILE_ERROR`. */
  function OpenRedirFd(file: string, c: RedirCase, fd: int): (r: (OpenCall, Step<int>))
    ensures r.0.path == file && r.0.flags == RedirFlags(c)
    ensures r.0.mode == {} <==> c == In
    ensures c != In ==> r.0.mode == {OwnerRead, OwnerWrite}
    ensures fd == -1 ==> r.1 == Exit(READ_FILE_ERROR)
    ensures fd != -1 ==> r.1 == Continue(fd)
    ensures r.1.Exit? ==> ExitStatus(r.1.code) == 255
  {
    var mode := if c != In then {OwnerWrite, OwnerRead} else {};
    var call := OpenCall(file, RedirFlags(c), mode);
    if fd == -1 then (call, Exit(READ_FILE_ERROR)) else (call, Continue(fd))
  }

  /** The result of `dup_redir_std`: the slots passed to `dup2`, in call
      order, and whether the process goes on with `fd` or ends. */
  datatype DupResult = DupResult(calls: seq<Slot>, step: Step<int>)

  /** The slots a redirect case overwrites, in the order they are written. */
  function TargetSlots(c: RedirCase): (s: seq<Slot>)
    ensures |s| <= 2
  {
    match c
    case In => [Stdin]
    case Out => [Stdout]
    case Err => [Stderr]
    case ErrToOut => [Stdout, Stderr]
    case NoTarget => []
  }

  /** `dup_redir_std`: duplicates `fd` onto the slots of the case.
      `firstOk` and `secondOk` are the outcomes of the first and second
      `dup2` call; the second is made only for the `&1` case and only after
      the first succeeded. Any failure ends the process with `EXECERROR`. */
  function DupRedirStd(fd: int, r: RedirCmd, firstOk: bool, secondOk: bool): (d: DupResult)
    ensures d.calls <= TargetSlots(RedirectCase(r))
    ensures d.calls == TargetSlots(RedirectCase(r)) <==> RedirectCase(r) != ErrToOut || firstOk
    ensures d.step == Continue(fd) <==>
              RedirectCase(r) == NoTarget || (firstOk && (RedirectCase(r) == ErrToOut ==> secondOk))
    ensures d.step != Continue(fd) ==> d.step == Exit(EXECERROR)
    ensures Stderr in d.calls <==> RedirectCase(r) == Err || (RedirectCase(r) == ErrToOut && firstOk)
    ensures RedirectCase(r) == ErrToOut && !firstOk ==> d.calls == [Stdout]
    ensures d.step.Exit? ==> ExitStatus(d.step.code) == 255
  {
    match RedirectCase(r)
    case In => DupResult([Stdin], if firstOk then Continue(fd) else Exit(EXECERROR))
    case Out => DupResult([Stdout], if firstOk then Continue(fd) else Exit(EXECERROR))
    case Err => DupResult([Stderr], if firstOk then Continue(fd) else Exit(EXECERROR))
    case ErrToOut =>
      if !firstOk then DupResult([Stdout], Exit(EXECERROR))
      else DupResult([Stdout, Stderr], if secondOk then Continue(fd) else Exit(EXECERROR))
    case NoTarget => DupResult([], Continue(fd))
  }

  /** A set `in_file` decides the case whatever the other two targets hold. */
  lemma InputWins(r: RedirCmd, out': string, err': string)
    requires r.inFile != []
    ensures RedirectCase(r) == In
    ensures RedirectCase(RedirCmd(r.inFile, out', err')) == In
  {
  }

  /** The `&1` test looks only at the first two characters: `&1x` is the
      marker too, and so is `&1` followed by anything. */
  lemma MarkerIsPrefixTest(r: RedirCmd, tail: string)
    requires r.inFile == [] && r.errFile == "&1" + tail
    ensures RedirectCase(r) == ErrToOut
  {
    assert r.errFile[..2] == "&1";
  }

  /** With the `&1` marker the process opens `out_file` created and
      truncated, then writes it over stdout and, if that succeeded, over
      stderr, so both streams reach the same file. */
  lemma {:induction false} ErrToOutSharesOutFile(r: RedirCmd, fd: int)
    requires RedirectCase(r) == ErrToOut && fd != -1
    ensures var (call, step) := OpenRedirFd(GetRedirFile(r), RedirectCase(r), fd);
            call.path == r.outFile && call.flags.create && call.flags.truncate
            && step == Continue(fd)
    ensures DupRedirStd(fd, r, true, true) == DupResult([Stdout, Stderr], Continue(fd))
    ensures DupRedirStd(fd, r, false, true).calls == [Stdout]
  {
  }

  /** Whatever the case, the flags and the mode agree: a file that may be
      created gets owner read and write permission, and only input is opened
      read-only and without `O_CREAT`. */
  lemma CreateImpliesOwnerPerms(file: string, c: RedirCase, fd: int)
    ensures var call := OpenRedirFd(file, c, fd).0;
            (call.flags.create ==> call.mode == {OwnerRead, OwnerWrite})
            && (!call.flags.create ==> call.mode == {})
  {
  }

}
