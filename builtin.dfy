/**
 * The shell's built-in commands as far as they are logic: recognising
 * `exit`, `cd`, `pwd` and `history` on the raw line, and rewriting the
 * prompt buffer in place when `cd` changes directory.
 *
 * `chdir`, `getenv("HOME")` and `getcwd` are outside the model: whether
 * `chdir` succeeded, the value of `HOME` and the result of `getcwd` are
 * inputs.
 */
module Builtin {
  import opened CStrings

  const BUILTIN_ERROR: int := 0
  const BUILTIN_SUCCESS: int := 1

  datatype Option<T> = None | Some(value: T)

  /** `starts_with`: walks `cond` up to its terminator and gives up at the
      first byte of `str` that differs. Past the end of its text `str` holds
      its terminator, which differs from every byte of `cond`. */
  method StartsWith(str: string, cond: string) returns (r: int)
    requires NUL !in cond
    ensures r == 0 || r == 1
    ensures r == 1 <==> cond <= str
  {
    var i := 0;
    while i < |cond|
      invariant 0 <= i <= |cond| && i <= |str|
      invariant cond[..i] == str[..i]
    {
      if At(str, i) != cond[i] {
        return 0;
      }
      i := i + 1;
    }
    return 1;
  }

  /** `exit_shell`: every line that begins with `exit` asks to leave,
      `exitfoo` included. */
  method ExitShell(cmd: string) returns (r: int)
    ensures r == BUILTIN_SUCCESS <==> "exit" <= cmd
    ensures r != BUILTIN_SUCCESS ==> r == BUILTIN_ERROR
  {
    var s := StartsWith(cmd, "exit");
    if s == 1 {
      return BUILTIN_SUCCESS;
    }
    return BUILTIN_ERROR;
  }

  /** `pwd`: handled when the line begins with `pwd` and the working
      directory could be read (`cwd` is what `getcwd` returned). */
  method Pwd(cmd: string, cwd: Option<string>) returns (r: int)
    ensures r == BUILTIN_SUCCESS <==> "pwd" <= cmd && cwd.Some?
    ensures r != BUILTIN_SUCCESS ==> r == BUILTIN_ERROR
  {
    var s := StartsWith(cmd, "pwd");
    if s == 1 {
      if cwd.Some? {
        return BUILTIN_SUCCESS;
      }
    }
    return BUILTIN_ERROR;
  }

  /** `history`: not implemented; it never handles a line. */
  method History(cmd: string) returns (r: int)
    ensures r == BUILTIN_ERROR
  {
    return 0;
  }

  /** What `cd` does with a line. */
  datatype CdAction =
    | ToPath(path: string)  // `cd <path>`
    | ToHome                // exactly `cd`
    | Swallowed             // starts with `cd` otherwise: handled, nothing done
    | NotCd                 // not a `cd` line

  /** The branch `cd` takes for a line. Every line that starts with `cd` is
      claimed by `cd`, including `cd ` alone and words such as `cdrom`. */
  function ClassifyCd(cmd: string): (a: CdAction)
    ensures a.ToPath? <==> |cmd| > 3 && "cd " <= cmd
    ensures a.ToPath? ==> "cd " + a.path == cmd && a.path != []
    ensures a == ToHome <==> cmd == "cd"
    ensures a == NotCd <==> !("cd" <= cmd)
  {
    if |cmd| > 3 && "cd " <= cmd then ToPath(cmd[3..])
    else if |cmd| == 2 && "cd" <= cmd then ToHome
    else if |cmd| > 2 && "cd" <= cmd then Swallowed
    else NotCd
  }

  /** The `..` edit: the last `/` of the prompt text becomes `)` and the byte
      after it a terminator; a prompt without `/` is left as it is. The bytes
      after the new terminator are kept. */
  function StripLastSegment(buf: seq<char>): (b: seq<char>)
    requires NUL in buf
    ensures |b| == |buf|
  {
    var s := CStr(buf);
    if '/' in s then
      var i := LastIndexOf(s, '/');
      buf[..i] + [')', NUL] + buf[i + 2..]
    else buf
  }

  /** Room for the path edit: a non-empty prompt text, and `/`, the path, `)`
      and a terminator fit where the text's last character was. */
  predicate RoomToAppend(buf: seq<char>, path: string)
    requires NUL in buf
  {
    1 <= StrLen(buf) && StrLen(buf) + |path| + 1 < |buf|
  }

  /** The path edit: the prompt's last character is replaced by `/`, the
      path and `)`, and a terminator follows. */
  function AppendPath(buf: seq<char>, path: string): (b: seq<char>)
    requires NUL in buf && NUL !in path && RoomToAppend(buf, path)
    ensures |b| == |buf|
  {
    var n := StrLen(buf);
    buf[..n - 1] + ['/'] + path + [')', NUL] + buf[n + |path| + 2..]
  }

  /** The path edit as builtin.c writes it: the `)` is written over the
      terminator that `strcpy` left, and no terminator follows it. */
  function AppendPathAsWritten(buf: seq<char>, path: string): (b: seq<char>)
    requires NUL in buf && NUL !in path
    requires 1 <= StrLen(buf) && StrLen(buf) + |path| < |buf|
    ensures |b| == |buf|
  {
    var n := StrLen(buf);
    buf[..n - 1] + ['/'] + path + [')'] + buf[n + |path| + 1..]
  }

  /** The home edit: the buffer starts with `(`, the home directory, `)` and
      a terminator. */
  function HomePrompt(buf: seq<char>, home: string): (b: seq<char>)
    requires |home| + 3 <= |buf|
    ensures |b| == |buf|
  {
    ['('] + home + [')', NUL] + buf[|home| + 3..]
  }

  /** After `..` the prompt text ends just before its last `/`, closed by
      `)`; everything after the new terminator is the old buffer. */
  lemma StripLastSegmentText(buf: seq<char>)
    requires NUL in buf
    ensures NUL in StripLastSegment(buf)
    ensures var s := CStr(buf);
            CStr(StripLastSegment(buf))
              == if '/' in s then s[..LastIndexOf(s, '/')] + ")" else s
    ensures var s := CStr(buf);
            '/' in s ==> StripLastSegment(buf)[LastIndexOf(s, '/') + 2..]
                           == buf[LastIndexOf(s, '/') + 2..]
  {
    var s := CStr(buf);
    if '/' in s {
      var i := LastIndexOf(s, '/');
      var t := s[..i] + ")";
      assert buf[..i] == s[..i];
      assert StripLastSegment(buf) == buf[..i] + [')', NUL] + buf[i + 2..];
      assert StripLastSegment(buf) == t + [NUL] + buf[i + 2..];
      CStrOfTerminated(t, buf[i + 2..]);
      assert StripLastSegment(buf)[|t| + 1..] == buf[i + 2..];
    }
  }

  /** After the path edit the prompt text is the old text without its last
      character, then `/`, the path and `)`. */
  lemma AppendPathText(buf: seq<char>, path: string)
    requires NUL in buf && NUL !in path && RoomToAppend(buf, path)
    ensures NUL in AppendPath(buf, path)
    ensures CStr(AppendPath(buf, path)) == CStr(buf)[..StrLen(buf) - 1] + "/" + path + ")"
  {
    var n := StrLen(buf);
    var t := CStr(buf)[..n - 1] + "/" + path + ")";
    assert buf[..n - 1] == CStr(buf)[..n - 1];
    assert AppendPath(buf, path) == t + [NUL] + buf[n + |path| + 2..];
    CStrOfTerminated(t, buf[n + |path| + 2..]);
  }

  /** After the home edit the prompt text is `(`, the home directory and `)`. */
  lemma HomePromptText(buf: seq<char>, home: string)
    requires NUL !in home && |home| + 3 <= |buf|
    ensures NUL in HomePrompt(buf, home)
    ensures CStr(HomePrompt(buf, home)) == "(" + home + ")"
  {
    assert HomePrompt(buf, home) == ("(" + home + ")") + [NUL] + buf[|home| + 3..];
    CStrOfTerminated("(" + home + ")", buf[|home| + 3..]);
  }

  /** `cd ..` undoes `cd <name>` for a name without `/` when the prompt text
      ends with `)`. */
  lemma {:induction false} AppendThenStrip(buf: seq<char>, path: string)
    requires NUL in buf && NUL !in path && '/' !in path && RoomToAppend(buf, path)
    requires CStr(buf)[StrLen(buf) - 1] == ')'
    ensures NUL in AppendPath(buf, path)
    ensures NUL in StripLastSegment(AppendPath(buf, path))
    ensures CStr(StripLastSegment(AppendPath(buf, path))) == CStr(buf)
  {
    var s := CStr(buf);
    var n := |s|;
    AppendPathText(buf, path);
    var b := AppendPath(buf, path);
    var t := CStr(b);
    assert t == s[..n - 1] + "/" + path + ")";
    assert t[n - 1] == '/';
    assert t[n..] == path + ")";
    LastIndexOfUnique(t, '/', n - 1);
    StripLastSegmentText(b);
    assert t[..n - 1] == s[..n - 1];
    assert s == s[..n - 1] + ")";
  }

  /** The same round trip for the path edit as builtin.c writes it, when the
      byte after the new `)` is already a terminator. Without that byte the
      round trip can fail: a `/` left after the terminator becomes part of
      the text and is where `cd ..` cuts. */
  lemma AppendAsWrittenThenStrip(buf: seq<char>, path: string)
    requires NUL in buf && NUL !in path && '/' !in path && RoomToAppend(buf, path)
    requires CStr(buf)[StrLen(buf) - 1] == ')'
    requires buf[StrLen(buf) + |path| + 1] == NUL
    ensures NUL in StripLastSegment(AppendPathAsWritten(buf, path))
    ensures CStr(StripLastSegment(AppendPathAsWritten(buf, path))) == CStr(buf)
  {
    AsWrittenIntendedIff(buf, path);
    AppendThenStrip(buf, path);
  }

  /** The precondition under which the written path edit gives the intended
      prompt: the byte after the place where `)` lands must already be a
      terminator. Then the written edit and the intended one agree. */
  lemma AsWrittenIntendedIff(buf: seq<char>, path: string)
    requires NUL in buf && NUL !in path
    requires 1 <= StrLen(buf) && StrLen(buf) + |path| < |buf|
    ensures var n := StrLen(buf);
            var b := AppendPathAsWritten(buf, path);
            (NUL in b && CStr(b) == CStr(buf)[..n - 1] + "/" + path + ")")
              <==> (n + |path| + 1 < |buf| && buf[n + |path| + 1] == NUL)
    ensures var n := StrLen(buf);
            (n + |path| + 1 < |buf| && buf[n + |path| + 1] == NUL)
            ==> AppendPathAsWritten(buf, path) == AppendPath(buf, path)
  {
    var n := StrLen(buf);
    var t := CStr(buf)[..n - 1] + "/" + path + ")";
    var b := AppendPathAsWritten(buf, path);
    assert buf[..n - 1] == CStr(buf)[..n - 1];
    assert b == t + buf[n + |path| + 1..];
    assert |t| == n + |path| + 1;
    assert |t| < |b| ==> b[|t|] == buf[n + |path| + 1];
    if n + |path| + 1 < |buf| && buf[n + |path| + 1] == NUL {
      assert buf[n + |path| + 1..] == [NUL] + buf[n + |path| + 2..];
      CStrOfTerminated(t, buf[n + |path| + 2..]);
    }
  }

  /** A concrete run of the written edit: from the prompt `(/a/bcd)`, `cd ..`
      leaves `cd)` after the terminator, and a following `cd z` shows the
      prompt `(/a/z)d)`; the intended edit shows `(/a/z)`. */
  lemma StaleByteCounterexample()
    ensures var up := StripLastSegment("(/a/bcd)" + [NUL]);
            NUL in up && CStr(up) == "(/a)" && StrLen(up) == 4
            && NUL in AppendPathAsWritten(up, "z")
            && CStr(AppendPathAsWritten(up, "z")) == "(/a/z)d)"
            && NUL in AppendPath(up, "z")
            && CStr(AppendPath(up, "z")) == "(/a/z)"
  {
    var up := StripUpFromBcd();
    AsWrittenAfterUp(up);
    FixedAfterUp(up);
  }

  /** The written path edit of `z` on the buffer `(/a)`, NUL, `cd)`, NUL. */
  lemma AsWrittenAfterUp(up: seq<char>)
    requires up == "(/a)" + [NUL] + "cd)" + [NUL]
    ensures NUL in up && StrLen(up) == 4
    ensures NUL in AppendPathAsWritten(up, "z")
    ensures CStr(AppendPathAsWritten(up, "z")) == "(/a/z)d)"
  {
    CStrOfTerminated("(/a)", "cd)" + [NUL]);
    assert up[..3] == "(/a" && up[6..] == "d)" + [NUL];
    assert AppendPathAsWritten(up, "z") == "(/a/z)d)" + [NUL];
    CStrOfTerminated("(/a/z)d)", []);
  }

  /** The corrected path edit of `z` on the same buffer. */
  lemma FixedAfterUp(up: seq<char>)
    requires up == "(/a)" + [NUL] + "cd)" + [NUL]
    ensures NUL in up && RoomToAppend(up, "z")
    ensures NUL in AppendPath(up, "z")
    ensures CStr(AppendPath(up, "z")) == "(/a/z)"
  {
    CStrOfTerminated("(/a)", "cd)" + [NUL]);
    assert up[..3] == "(/a" && up[7..] == ")" + [NUL];
    assert AppendPath(up, "z") == "(/a/z)" + [NUL] + ")" + [NUL];
    CStrOfTerminated("(/a/z)", ")" + [NUL]);
  }

  /** `cd ..` on the buffer `(/a/bcd)` leaves `cd)` behind its terminator. */
  lemma StripUpFromBcd() returns (up: seq<char>)
    ensures up == StripLastSegment("(/a/bcd)" + [NUL])
    ensures up == "(/a)" + [NUL] + "cd)" + [NUL]
    ensures NUL in up && CStr(up) == "(/a)" && StrLen(up) == 4
  {
    var before := "(/a/bcd)" + [NUL];
    LastSlashOfBcd();
    up := StripLastSegment(before);
    assert up == before[..3] + [')', NUL] + before[5..];
    CStrOfTerminated("(/a)", "cd)" + [NUL]);
  }

  /** The text of `(/a/bcd)` and its last `/`. */
  lemma LastSlashOfBcd()
    ensures CStr("(/a/bcd)" + [NUL]) == "(/a/bcd)"
    ensures LastIndexOf("(/a/bcd)", '/') == 3
  {
    CStrOfTerminated("(/a/bcd)", []);
    assert "(/a/bcd)"[4..] == "bcd)";
    LastIndexOfUnique("(/a/bcd)", '/', 3);
  }

  /** The buffer after `strcpy(&prompt[n - 1], "/")`, `n` the prompt length. */
  lemma WriteSlash(buf: seq<char>, b1: seq<char>)
    requires NUL in buf && 1 <= StrLen(buf) && StrLen(buf) < |buf|
    requires b1 == buf[..StrLen(buf) - 1] + "/" + [NUL] + buf[StrLen(buf) + 1..]
    ensures NUL in b1 && StrLen(b1) == StrLen(buf) && |b1| == |buf|
    ensures b1[..StrLen(buf)] == buf[..StrLen(buf) - 1] + "/"
    ensures b1[StrLen(buf) + 1..] == buf[StrLen(buf) + 1..]
  {
    var n := StrLen(buf);
    assert b1 == (buf[..n - 1] + "/") + [NUL] + buf[n + 1..];
    CStrOfTerminated(buf[..n - 1] + "/", buf[n + 1..]);
  }

  /** The buffer after the following `strcpy(&prompt[n], path)`, and what
      writing `)` at the new length, with or without a terminator after it,
      makes of it. */
  lemma WritePath(buf: seq<char>, b1: seq<char>, path: string, b2: seq<char>)
    requires NUL in buf && NUL !in path && 1 <= StrLen(buf) && StrLen(buf) + |path| < |buf|
    requires |b1| == |buf|
    requires b1[..StrLen(buf)] == buf[..StrLen(buf) - 1] + "/"
    requires b1[StrLen(buf) + 1..] == buf[StrLen(buf) + 1..]
    requires b2 == b1[..StrLen(buf)] + path + [NUL] + b1[StrLen(buf) + |path| + 1..]
    ensures NUL in b2 && StrLen(b2) == StrLen(buf) + |path|
    ensures b2[StrLen(buf) + |path| := ')'] == AppendPathAsWritten(buf, path)
    ensures RoomToAppend(buf, path) ==>
              b2[StrLen(buf) + |path| := ')'][StrLen(buf) + |path| + 1 := NUL] == AppendPath(buf, path)
  {
    var n := StrLen(buf);
    var t := buf[..n - 1] + "/" + path;
    assert b1[n + |path| + 1..] == buf[n + |path| + 1..];
    assert b2 == t + [NUL] + buf[n + |path| + 1..];
    CStrOfTerminated(t, buf[n + |path| + 1..]);
    assert b2[n + |path| := ')'] == t + [')'] + buf[n + |path| + 1..];
    if RoomToAppend(buf, path) {
      assert buf[n + |path| + 1..] == [buf[n + |path| + 1]] + buf[n + |path| + 2..];
      assert b2[n + |path| := ')'][n + |path| + 1 := NUL] == t + [')', NUL] + buf[n + |path| + 2..];
    }
  }

  /** A `/` of the prompt text with no `/` after it is where `..` cuts. */
  lemma StripAt(buf: seq<char>, i: nat)
    requires NUL in buf && i < StrLen(buf) && buf[i] == '/'
    requires forall k | i < k < StrLen(buf) :: buf[k] != '/'
    ensures NUL in buf[i := ')'][i + 1 := NUL]
    ensures buf[i := ')'][i + 1 := NUL] == StripLastSegment(buf)
  {
    var s := CStr(buf);
    assert s[i] == '/';
    var tail := s[i + 1..];
    assert '/' !in tail by {
      forall k | 0 <= k < |tail| ensures tail[k] != '/' {
        assert tail[k] == buf[i + 1 + k];
      }
    }
    LastIndexOfUnique(s, '/', i);
    assert buf[i := ')'][i + 1 := NUL] == buf[..i] + [')', NUL] + buf[i + 2..];
  }

  /** The shell's prompt: a fixed-size character buffer that `cd` edits in
      place. The whole buffer is kept, including the bytes after the
      terminator. */
  class Shell {
    var prompt: array<char>

    ghost predicate Valid()
      reads this, prompt
    {
      NUL in prompt[..]
    }

    /** The text the prompt shows. */
    function Prompt(): (s: string)
      reads this, prompt
      requires Valid()
      ensures NUL !in s && |s| < prompt.Length && s == prompt[..|s|] && prompt[|s|] == NUL
    {
      CStr(prompt[..])
    }

    /** A zero-filled prompt buffer of `size` characters. */
    constructor (size: nat)
      requires size > 0
      ensures Valid() && fresh(prompt) && prompt.Length == size
      ensures forall i | 0 <= i < size :: prompt[i] == NUL
      ensures Prompt() == ""
    {
      prompt := new char[size](_ => NUL);
      new;
      assert prompt[..][0] == NUL;
    }

    /** The `..` branch of `cd_path`: scans the prompt text backwards for its
      last `/`. */
    method StripLastSegmentInPlace()
      requires Valid()
      modifies prompt
      ensures Valid()
      ensures prompt[..] == StripLastSegment(old(prompt[..]))
    {
      ghost var buf := prompt[..];
      ghost var s := CStr(buf);
      var n := StrLen(prompt[..]);
      var i: int := n as int - 1;
      while i >= 0
        invariant -1 <= i < n
        invariant prompt[..] == buf
        invariant forall k | i < k < n :: buf[k] != '/'
      {
        if prompt[i] == '/' {
          StripAt(buf, i);
          prompt[i] := ')';
          prompt[i + 1] := NUL;
          assert prompt[..] == buf[i := ')'][i + 1 := NUL];
          return;
        }
        i := i - 1;
      }
      assert '/' !in s;
    }

    /** The other branch of `cd_path`, with the terminator written after the
      closing `)`. */
    method AppendPathInPlace(path: string)
      requires Valid() && NUL !in path && RoomToAppend(prompt[..], path)
      modifies prompt
      ensures Valid()
      ensures prompt[..] == AppendPath(old(prompt[..]), path)
    {
      ghost var buf := prompt[..];
      var n := StrLen(prompt[..]);
      StrCpy(prompt, n - 1, "/");
      ghost var b1 := prompt[..];
      WriteSlash(buf, b1);
      StrCpy(prompt, StrLen(prompt[..]), path);
      ghost var b2 := prompt[..];
      WritePath(buf, b1, path, b2);
      var m := StrLen(prompt[..]);
      prompt[m] := ')';
      prompt[m + 1] := NUL;
      assert prompt[..] == b2[m := ')'][m + 1 := NUL];
    }

    /** Lines 48-50 of builtin.c as written: the `)` lands on the terminator
      and no new terminator is written, so the buffer byte that follows
      decides where the prompt text ends. */
    method AppendPathAsWrittenInPlace(path: string)
      requires Valid() && NUL !in path
      requires 1 <= StrLen(prompt[..]) && StrLen(prompt[..]) + |path| < prompt.Length
      modifies prompt
      ensures prompt[..] == AppendPathAsWritten(old(prompt[..]), path)
    {
      ghost var buf := prompt[..];
      var n := StrLen(prompt[..]);
      StrCpy(prompt, n - 1, "/");
      ghost var b1 := prompt[..];
      WriteSlash(buf, b1);
      StrCpy(prompt, StrLen(prompt[..]), path);
      ghost var b2 := prompt[..];
      WritePath(buf, b1, path, b2);
      prompt[StrLen(prompt[..])] := ')';
      assert prompt[..] == b2[n + |path| := ')'];
    }

    /** `cd_path` with the corrected path edit: `path` is the line from index
      3; `chdirOk` is the outcome of `chdir(path)`. A path that merely starts
      with `..` takes the `..` branch. */
    method CdPath(cmd: string, chdirOk: bool) returns (r: int)
      requires Valid() && NUL !in cmd && |cmd| >= 3
      requires chdirOk && !(".." <= cmd[3..]) ==> RoomToAppend(prompt[..], cmd[3..])
      modifies prompt
      ensures Valid()
      ensures r == (if chdirOk then BUILTIN_SUCCESS else BUILTIN_ERROR)
      ensures prompt[..] == if !chdirOk then old(prompt[..])
                            else if ".." <= cmd[3..] then StripLastSegment(old(prompt[..]))
                            else AppendPath(old(prompt[..]), cmd[3..])
    {
      var path := cmd[3..];
      if chdirOk {
        var dots := StartsWith(path, "..");
        if dots == 1 {
          StripLastSegmentInPlace();
        } else {
          AppendPathInPlace(path);
        }
        return BUILTIN_SUCCESS;
      }
      return BUILTIN_ERROR;
    }

    /** `cd_path` as builtin.c writes it. After an earlier `..` the prompt it
      leaves may show stale characters (see `StaleByteCounterexample`), and
      it may leave no terminator in the buffer at all. */
    method CdPathAsWritten(cmd: string, chdirOk: bool) returns (r: int)
      requires Valid() && NUL !in cmd && |cmd| >= 3
      requires chdirOk && !(".." <= cmd[3..]) ==>
                 1 <= StrLen(prompt[..]) && StrLen(prompt[..]) + |cmd| - 3 < prompt.Length
      modifies prompt
      ensures r == (if chdirOk then BUILTIN_SUCCESS else BUILTIN_ERROR)
      ensures prompt[..] == if !chdirOk then old(prompt[..])
                            else if ".." <= cmd[3..] then StripLastSegment(old(prompt[..]))
                            else AppendPathAsWritten(old(prompt[..]), cmd[3..])
    {
      var path := cmd[3..];
      if chdirOk {
        var dots := StartsWith(path, "..");
        if dots == 1 {
          StripLastSegmentInPlace();
        } else {
          AppendPathAsWrittenInPlace(path);
        }
        return BUILTIN_SUCCESS;
      }
      return BUILTIN_ERROR;
    }

    /** `cd_no_path`: `home` is the value of `HOME` and `chdirOk` the outcome
      of `chdir(home)`; on success the prompt becomes `(home)`. */
    method CdNoPath(home: string, chdirOk: bool) returns (r: int)
      requires Valid() && NUL !in home
      requires chdirOk ==> |home| + 3 <= prompt.Length
      modifies prompt
      ensures Valid()
      ensures r == (if chdirOk then BUILTIN_SUCCESS else BUILTIN_ERROR)
      ensures prompt[..] == if chdirOk then HomePrompt(old(prompt[..]), home) else old(prompt[..])
    {
      if chdirOk {
        ghost var buf := prompt[..];
        prompt[0] := '(';
        StrCpy(prompt, 1, home);
        prompt[|home| + 1] := ')';
        prompt[|home| + 2] := NUL;
        assert prompt[..] == HomePrompt(buf, home);
        HomePromptText(buf, home);
        return BUILTIN_SUCCESS;
      }
      return BUILTIN_ERROR;
    }

    /** What `cd` needs of the buffer for the edit it is about to make. */
    ghost predicate CdFits(cmd: string, chdirOk: bool, home: string)
      reads this, prompt
      requires Valid()
    {
      match ClassifyCd(cmd)
      case ToPath(p) => chdirOk && !(".." <= p) ==> RoomToAppend(prompt[..], p)
      case ToHome => chdirOk ==> |home| + 3 <= prompt.Length
      case _ => true
    }

    /** What the written `cd` needs of the buffer for the edit it is about
      to make: one byte less than `CdFits`, since it writes no terminator. */
    ghost predicate CdAsWrittenFits(cmd: string, chdirOk: bool, home: string)
      reads this, prompt
      requires Valid()
    {
      match ClassifyCd(cmd)
      case ToPath(p) =>
        chdirOk && !(".." <= p) ==> 1 <= StrLen(prompt[..]) && StrLen(prompt[..]) + |p| < prompt.Length
      case ToHome => chdirOk ==> |home| + 3 <= prompt.Length
      case _ => true
    }

    /** `cd` as builtin.c writes it: the same dispatch as `Cd`, with the
      path edit of `CdPathAsWritten`. */
    method CdAsWritten(cmd: string, chdirOk: bool, home: string) returns (r: int)
      requires Valid() && NUL !in cmd && NUL !in home
      requires CdAsWrittenFits(cmd, chdirOk, home)
      modifies prompt
      ensures r == BUILTIN_SUCCESS <==>
                ClassifyCd(cmd) == Swallowed || (ClassifyCd(cmd) != NotCd && chdirOk)
      ensures r != BUILTIN_SUCCESS ==> r == BUILTIN_ERROR
      ensures prompt[..] == match ClassifyCd(cmd)
                            case ToPath(p) =>
                              if !chdirOk then old(prompt[..])
                              else if ".." <= p then StripLastSegment(old(prompt[..]))
                              else AppendPathAsWritten(old(prompt[..]), p)
                            case ToHome =>
                              if chdirOk then HomePrompt(old(prompt[..]), home) else old(prompt[..])
                            case _ => old(prompt[..])
    {
      if |cmd| > 3 {
        var s := StartsWith(cmd, "cd ");
        if s == 1 {
          r := CdPathAsWritten(cmd, chdirOk);
          return;
        }
      }
      if |cmd| == 2 {
        var s := StartsWith(cmd, "cd");
        if s == 1 {
          r := CdNoPath(home, chdirOk);
          return;
        }
      }
      if |cmd| > 2 {
        var s := StartsWith(cmd, "cd");
        if s == 1 {
          return BUILTIN_SUCCESS;
        }
      }
      return BUILTIN_ERROR;
    }

    /** `cd` with the corrected path edit: a `cd <path>` line changes to the
      path, a bare `cd` to `HOME`; any other line that starts with `cd` is
      reported handled and changes nothing; every other line is not handled. `chdirOk` is the outcome of
      the `chdir` call the line leads to, if any. */
    method Cd(cmd: string, chdirOk: bool, home: string) returns (r: int)
      requires Valid() && NUL !in cmd && NUL !in home
      requires CdFits(cmd, chdirOk, home)
      modifies prompt
      ensures Valid()
      ensures r == BUILTIN_SUCCESS <==>
                ClassifyCd(cmd) == Swallowed || (ClassifyCd(cmd) != NotCd && chdirOk)
      ensures r != BUILTIN_SUCCESS ==> r == BUILTIN_ERROR
      ensures prompt[..] == match ClassifyCd(cmd)
                            case ToPath(p) =>
                              if !chdirOk then old(prompt[..])
                              else if ".." <= p then StripLastSegment(old(prompt[..]))
                              else AppendPath(old(prompt[..]), p)
                            case ToHome =>
                              if chdirOk then HomePrompt(old(prompt[..]), home) else old(prompt[..])
                            case _ => old(prompt[..])
    {
      if |cmd| > 3 {
        var s := StartsWith(cmd, "cd ");
        if s == 1 {
          r := CdPath(cmd, chdirOk);
          return;
        }
      }
      if |cmd| == 2 {
        var s := StartsWith(cmd, "cd");
        if s == 1 {
          r := CdNoPath(home, chdirOk);
          return;
        }
      }
      if |cmd| > 2 {
        var s := StartsWith(cmd, "cd");
        if s == 1 {
          return BUILTIN_SUCCESS;
        }
      }
      return BUILTIN_ERROR;
    }
  }

  /** The prompt examples: `cd ..` on `(/home/x/y)` shows `(/home/x)`,
      `cd z` on `(/home/x)` shows `(/home/x/z)`, and `cd` with `HOME` set to
      `/home/x` shows `(/home/x)`. */
  lemma PromptExamples(rest: seq<char>)
    ensures var b := StripLastSegment("(/home/x/y)" + [NUL] + rest);
            NUL in b && CStr(b) == "(/home/x)"
    ensures var buf := "(/home/x)" + [NUL, NUL, NUL] + rest;
            NUL in buf && RoomToAppend(buf, "z")
            && NUL in AppendPath(buf, "z") && CStr(AppendPath(buf, "z")) == "(/home/x/z)"
            && NUL in AppendPathAsWritten(buf, "z")
            && CStr(AppendPathAsWritten(buf, "z")) == "(/home/x/z)"
    ensures var b := HomePrompt("(/)" + [NUL] + "abcdef" + rest, "/home/x");
            NUL in b && CStr(b) == "(/home/x)"
  {
    UpExample(rest);
    IntoExample(rest);
    IntoExampleAsWritten("(/home/x)" + [NUL, NUL, NUL] + rest, rest);
    HomeExample(rest);
  }

  /** `cd` with `HOME` set to `/home/x`, over a buffer that held `(/)`. */
  lemma HomeExample(rest: seq<char>)
    ensures var b := HomePrompt("(/)" + [NUL] + "abcdef" + rest, "/home/x");
            NUL in b && CStr(b) == "(/home/x)"
  {
    HomePromptText("(/)" + [NUL] + "abcdef" + rest, "/home/x");
    assert "(" + "/home/x" + ")" == "(/home/x)";
  }

  /** `cd ..` on `(/home/x/y)`. */
  lemma UpExample(rest: seq<char>)
    ensures var b := StripLastSegment("(/home/x/y)" + [NUL] + rest);
            NUL in b && CStr(b) == "(/home/x)"
  {
    var buf := "(/home/x/y)" + [NUL] + rest;
    CStrOfTerminated("(/home/x/y)", rest);
    assert "(/home/x/y)"[9..] == "y)";
    LastIndexOfUnique("(/home/x/y)", '/', 8);
    StripLastSegmentText(buf);
    assert "(/home/x/y)"[..8] + ")" == "(/home/x)";
  }

  /** `cd z` on `(/home/x)`. */
  lemma IntoExample(rest: seq<char>)
    ensures var buf := "(/home/x)" + [NUL, NUL, NUL] + rest;
            NUL in buf && RoomToAppend(buf, "z")
            && NUL in AppendPath(buf, "z") && CStr(AppendPath(buf, "z")) == "(/home/x/z)"
  {
    var buf := "(/home/x)" + [NUL, NUL, NUL] + rest;
    assert buf == "(/home/x)" + [NUL] + ([NUL, NUL] + rest);
    CStrOfTerminated("(/home/x)", [NUL, NUL] + rest);
    AppendPathText(buf, "z");
    assert "(/home/x)"[..8] + "/" + "z" + ")" == "(/home/x/z)";
  }

  /** `cd z` on `(/home/x)` as builtin.c writes it: the byte after the new
      `)` is a terminator, so the written edit agrees with the corrected one. */
  lemma IntoExampleAsWritten(buf: seq<char>, rest: seq<char>)
    requires buf == "(/home/x)" + [NUL, NUL, NUL] + rest
    requires NUL in buf && RoomToAppend(buf, "z")
    requires CStr(AppendPath(buf, "z")) == "(/home/x/z)"
    ensures NUL in AppendPathAsWritten(buf, "z")
    ensures CStr(AppendPathAsWritten(buf, "z")) == "(/home/x/z)"
  {
    assert buf[11] == NUL;
    AsWrittenIntendedIff(buf, "z");
  }


}
