# Shell built-ins, environment assignments and redirection resolution

This project models the deterministic logic of a small Unix shell written in C.
It does not model the process plumbing around that logic. Three pieces are modelled:

- **Environment assignments** (`shell/exec.c`). A `KEY=VALUE` token that comes
  before the program name is split at its first `=`. The key is copied into a
  key buffer and the value into a value buffer, and the pair goes to `setenv`
  with overwriting on. Module `Environ` keeps the C buffers as arrays and the
  copy loops as `while` loops. It proves that each loop leaves exactly
  key-plus-terminator or value-plus-terminator in its buffer and keeps every
  byte after that. It also proves that the split is a round trip and states the
  environment that the whole sequence of assignments produces.
- **Redirection resolution** (`shell/exec.c`). Module `Redirect` covers:
  - the case a command's `in_file`, `out_file` and `err_file` select, first
    match wins;
  - the `open` flags and permission bits of each case;
  - the file that is opened;
  - the standard-stream slots that `dup2` overwrites.

  The results of `open` and `dup2` are inputs. Note what the code does with
  `2>&1`: `get_redir_file` returns `out_file` for this case, and
  `open_redir_fd` opens that file with create and truncate. No file is left
  unopened. The error file (`2>`) is opened without `O_TRUNC`. The model
  follows the code in both places.
- **Built-ins and the prompt** (`shell/builtin.c`). Module `Builtin` covers:
  - the prefix test `starts_with` (a loop, proved to be exactly "is a prefix");
  - the recognition of `exit`, `cd`, `pwd` and `history` on the raw line;
  - the three in-place edits that `cd` makes to the fixed-size prompt buffer,
    in class `Shell`.

  The whole buffer is kept, including the bytes after the terminator, because
  the `..` edit leaves old characters there. The `chdir` outcome, the value of
  `HOME` and the result of `getcwd` are inputs.

Module `CStrings` holds the C-string helpers: `strlen`, the text before the
terminator, first and last index, and `strcpy` into an array.

## Model

| member | source | states |
|---|---|---|
| `Environ.EnvKey` | shell/exec.c:36-44 | the key has no `=`, it is a prefix of the token, and the token has `=` right after it |
| `Environ.EnvValue` | shell/exec.c:56-64 | the value is what follows index `idx` in the token; it is empty when `idx + 1` is negative (a wrap-around in `size_t`) or past the end |
| `Environ.GetEnvironKey` | shell/exec.c:36-44 | the key buffer becomes the characters before the first `=`, then a terminator; every later byte is unchanged |
| `Environ.GetEnvironValue` | shell/exec.c:56-64 | the value buffer becomes the characters after `idx`, then a terminator; every later byte is unchanged |
| `Environ.SplitRoundTrip` | shell/exec.c:80-81 | splitting at the first `=` and joining with `=` gives the token back |
| `Environ.JoinThenSplit` | shell/exec.c:36-64 | a key without `=` joined to any value with `=` splits back into that key and value |
| `Environ.SplitAssignment` | shell/exec.c:77-81 | whenever the key and the value each fit a `fnameSize` buffer, the texts left in fresh key and value buffers joined with `=` are the token, and the key holds no `=` |
| `Environ.PartsFitSeparately` | shell/exec.c:77-81 | the two buffers bound the key and the value separately: `K=vv` is accepted with buffers of four characters |
| `Environ.SetEnvironVars` | shell/exec.c:73-86 | for tokens whose key and value each fit a `fnameSize` buffer, the environment afterwards is the old one with the first `eargc` assignments applied in order; failed `setenv` calls change nothing and the loop goes on |
| `Environ.ApplySnoc` | shell/exec.c:76-85 | one more token at the end of the list is one more `setenv` applied to the result |
| `Environ.ApplyAppend` | shell/exec.c:76-85 | applying two token lists one after the other is applying their concatenation |
| `Environ.LastAssignmentWins` | shell/exec.c:76-85 | a key ends up bound to the value of the last successful assignment naming it, whatever earlier tokens set and whatever later tokens set for other keys |
| `Environ.UntouchedKeysKept` | shell/exec.c:76-85 | a variable named by no successful assignment keeps its old binding, or stays unbound |
| `Redirect.Code` | shell/exec.c:6-10 | the cases are numbered 0 to 3, and -1 exactly when no target is set |
| `Redirect.CodesDistinct` | shell/exec.c:6-10 | different cases have different numbers |
| `Redirect.RedirectCase` | shell/exec.c:132-149 | input iff `in_file` is set; err-to-out iff `in_file` is empty and `err_file` starts with `&1`; error iff `in_file` is empty and `err_file` is set otherwise; output iff only `out_file` is set; -1 iff all three are empty |
| `Redirect.InputWins` | shell/exec.c:135-136 | a set `in_file` gives the input case whatever `out_file` and `err_file` hold |
| `Redirect.MarkerIsPrefixTest` | shell/exec.c:137-142 | any `err_file` that starts with `&1`, such as `&1x`, gives the err-to-out case |
| `Redirect.RedirFlags` | shell/exec.c:88-103 | every case is close-on-exec; only input is read-only and the others are read/write; every case except input creates; only the cases other than input and error truncate |
| `Redirect.OpenRedirFd` | shell/exec.c:115-130 | `open` gets the file and the case's flags; the mode is empty only for input and is owner read+write otherwise; `open` returning -1 ends the process with `READ_FILE_ERROR`, which the parent observes as status 255; anything else continues with that descriptor |
| `Redirect.CreateImpliesOwnerPerms` | shell/exec.c:118-124 | a file that may be created is requested with owner read+write permission, and one that may not is requested with mode 0 |
| `Redirect.GetRedirFile` | shell/exec.c:151-171 | input opens `in_file`, error opens `err_file`, and every other case opens `out_file`, including err-to-out and -1 |
| `Redirect.DupRedirStd` | shell/exec.c:172-202 | the `dup2` targets are a prefix of the case's slots (stdin; stdout; stderr; stdout then stderr); all of them are used unless the first `dup2` of err-to-out failed, which leaves the stdout call alone; stderr is written only by the error case, or by err-to-out after a first success; the process continues with `fd` iff every `dup2` made succeeded, or there was no target, and otherwise ends with `EXECERROR`, observed by the parent as status 255 |
| `Redirect.ErrToOutSharesOutFile` | shell/exec.c:151-193 | with `&1`, `out_file` is opened with create and truncate and duplicated onto stdout and then stderr; if the stdout duplication fails, stderr is not touched |
| `Builtin.StartsWith` | shell/builtin.c:7-17 | returns 0 or 1, and 1 exactly when `cond` is a prefix of the line |
| `Builtin.ExitShell` | shell/builtin.c:23-30 | success exactly when the line begins with `exit` (so `exitfoo` too) and error otherwise |
| `Builtin.Pwd` | shell/builtin.c:104-116 | handled exactly when the line begins with `pwd` and `getcwd` gave a directory |
| `Builtin.History` | shell/builtin.c:123-129 | never handles a line |
| `Builtin.ClassifyCd` | shell/builtin.c:84-97 | path branch iff the line is longer than 3 characters and starts with `cd `, with path = the line from index 3, which is then non-empty; home branch iff the line is exactly `cd`; not a `cd` line iff it does not start with `cd`; every other line (`cd `, `cdrom`) is handled with nothing done |
| `Builtin.StripLastSegmentText` | shell/builtin.c:39-46 | after `..` the prompt text is the old text up to its last `/`, then `)`; with no `/` it is unchanged; the bytes after the new terminator are the old ones |
| `Builtin.AppendPathText` | shell/builtin.c:47-51 | after the corrected path edit the prompt text is the old text without its last character, then `/`, the path and `)`; builtin.c as written reaches this text only under the condition of `AsWrittenIntendedIff` |
| `Builtin.HomePromptText` | shell/builtin.c:60-67 | after a bare `cd` the prompt text is `(`, `HOME` and `)` |
| `Builtin.AppendThenStrip` | shell/builtin.c:39-51 | `cd ..` after the corrected `cd <name>`, where the name has no `/`, restores a prompt text that ends with `)` |
| `Builtin.AppendAsWrittenThenStrip` | shell/builtin.c:39-50 | the same round trip holds for `cd <name>` as builtin.c writes it when the buffer byte after the new `)` is already a terminator |
| `Builtin.AsWrittenIntendedIff` | shell/builtin.c:48-50 | the path edit as written gives the intended prompt iff the buffer byte after the new `)` was already a terminator; then it equals the corrected edit |
| `Builtin.StaleByteCounterexample` | shell/builtin.c:39-50 | from `(/a/bcd)`, `cd ..` then `cd z` shows `(/a/z)d)` as written and `(/a/z)` corrected |
| `Builtin.PromptExamples` | shell/builtin.c:39-67 | `cd ..` on `(/home/x/y)` gives `(/home/x)`; `cd z` on `(/home/x)` followed by terminators gives `(/home/x/z)` with the corrected edit and with the edit as written; `cd` with `HOME=/home/x` gives `(/home/x)` |
| `Builtin.Shell.constructor` | shell/sh.c:8 | the prompt buffer starts zero-filled, so its text is empty |
| `Builtin.Shell.StripLastSegmentInPlace` | shell/builtin.c:39-46 | the backward scan leaves the buffer equal to the `..` edit of the old buffer and keeps a terminator in it |
| `Builtin.Shell.AppendPathInPlace` | shell/builtin.c:47-51 | the two `strcpy` calls and the closing `)` plus a terminator leave the buffer equal to the path edit of the old buffer |
| `Builtin.Shell.AppendPathAsWrittenInPlace` | shell/builtin.c:48-50 | the writes as they stand leave the buffer equal to the written path edit, which has no terminator of its own |
| `Builtin.Shell.CdPath` | shell/builtin.c:32-55 | on a failed `chdir` the buffer is unchanged and 0 is returned; otherwise 1 is returned, a path starting with `..` gets the `..` edit and any other path the corrected path edit |
| `Builtin.Shell.CdPathAsWritten` | shell/builtin.c:32-55 | the same as `CdPath` but with the path edit as written |
| `Builtin.Shell.CdNoPath` | shell/builtin.c:57-70 | on a failed `chdir` the buffer is unchanged and 0 is returned; otherwise the buffer starts with `(`, `HOME`, `)` and a terminator, the rest is kept, and 1 is returned |
| `Builtin.Shell.CdAsWritten` | shell/builtin.c:84-97 | returns success iff the line is a handled-nothing-done `cd` line, or a path or home line whose `chdir` succeeded; the buffer gets exactly the edit of that branch, the path edit being the one builtin.c writes, and is otherwise unchanged |
| `Builtin.Shell.Cd` | shell/builtin.c:84-97 | the same dispatch and return value as `CdAsWritten`, with the corrected path edit in the path branch |

## Findings

| source | as written | input that shows it | evidently intended | confidence | as-written member | corrected member |
|---|---|---|---|---|---|---|
| shell/builtin.c:50 | `prompt[strlen(prompt)] = ')'` overwrites the terminator that `strcpy` left, and no new terminator is written | prompt `(/a/bcd)`, then `cd ..` (buffer `(/a)`, NUL, `cd)`, NUL), then `cd z`: the prompt shows `(/a/z)d)` (`Builtin.StaleByteCounterexample`) | a terminator after the `)`, giving `(/a/z)`, as `cd_no_path` does at line 66 | high; not executed | `Builtin.Shell.CdPathAsWritten` and `Builtin.Shell.CdAsWritten` (with `Builtin.AsWrittenIntendedIff`) | `Builtin.Shell.CdPath` (with `Builtin.AppendPathText`), used by `Builtin.Shell.Cd` |

## Left out

- `exec_cmd` (shell/exec.c:210-342): fork, `execvp`, `pipe`, `dup2`, `waitpid` and `_exit` in every branch. These are process-lifetime effects. The process-wide `parsed_pipe` slot is not modelled either.
- shell/runcmd.c (`run_cmd`): fork, wait and process-group orchestration. The order in which it tries the built-ins is a plain sequence of calls.
- shell/sh.c: alternate signal stack set-up, the asynchronous `SIGCHLD` reaper and the read loop are signal handling and I/O. The initial `(HOME)` prompt that `init_shell` writes is not modelled; the `Shell` constructor models only the zero-filled declaration.
- `free_alt_stack`, and its call before `_exit` in `dup_redir_std`: memory release through `sigaltstack`.
- Foreign calls are inputs rather than models: `setenv` (a success flag per call), `open` (the returned descriptor), `dup2` (a success flag per call), `chdir` (a success flag), `getenv("HOME")` (a string), `getcwd` (an optional string). A `NULL` `HOME` is not representable; `chdir(NULL)` fails, which the model covers with `chdirOk = false`. `perror` messages are not modelled.
- `Builtin.Pwd`: the line `pwd` prints through `printf_debug` is not modelled, only whether the line is handled.
- `block_contains`, `parse_line`, `free_command` and `print_status_info` are not part of this model. `block_contains(arg, '=')` is taken to be the index of the first `=` (`CStrings.IndexOf`).
- `FNAMESIZE` and `PRMTLEN` are defined in a header that is not part of this model. The key and value buffer size is the parameter `fnameSize`, and the prompt size is the array's length.
- The C code does not guard its buffer writes. A token whose key or whose value does not fit a `FNAMESIZE` buffer with its terminator, a prompt edit past the end of the prompt array, a path edit on an empty prompt (it writes at index -1), and a token without `=` (the key loop runs past the terminator) are all memory errors. The model excludes them with preconditions.
