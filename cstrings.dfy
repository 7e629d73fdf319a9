/**
 * C strings as the shell stores them: a character buffer whose text runs up
 * to the first NUL byte. Everything after that NUL is still part of the
 * buffer and is kept by the model, because the prompt edits can expose it.
 */
module CStrings {

  const NUL: char := '\0'

  /** The byte a C loop reads at index `i` of the text `s`: past the end of the
      text it reads the terminator. */
  function At(s: string, i: nat): (c: char)
    ensures i < |s| ==> c == s[i]
    ensures i >= |s| ==> c == NUL
  {
    if i < |s| then s[i] else NUL
  }

  /** Index of the first occurrence of `c` in `s`. */
  function IndexOf(s: string, c: char): (i: nat)
    requires c in s
    ensures i < |s| && s[i] == c
    ensures c !in s[..i]
  {
    if s[0] == c then 0
    else
      assert c in s[1..] by { var k :| 0 <= k < |s| && s[k] == c; assert s[1..][k - 1] == c; }
      var j := IndexOf(s[1..], c);
      assert s[..j + 1] == [s[0]] + s[1..][..j];
      j + 1
  }

  /** Index of the last occurrence of `c` in `s`. */
  function LastIndexOf(s: string, c: char): (i: nat)
    requires c in s
    ensures i < |s| && s[i] == c
    ensures c !in s[i + 1..]
  {
    if s[|s| - 1] == c then |s| - 1
    else
      assert c in s[..|s| - 1] by { var k :| 0 <= k < |s| && s[k] == c; assert s[..|s| - 1][k] == c; }
      var j := LastIndexOf(s[..|s| - 1], c);
      assert s[j + 1..] == s[..|s| - 1][j + 1..] + [s[|s| - 1]];
      j
  }

  /** `strlen`: the index of the first NUL of the buffer. */
  function StrLen(buf: seq<char>): (n: nat)
    requires NUL in buf
    ensures n < |buf| && buf[n] == NUL
    ensures NUL !in buf[..n]
  {
    IndexOf(buf, NUL)
  }

  /** The text a buffer holds: everything before its first NUL. */
  function CStr(buf: seq<char>): (s: string)
    requires NUL in buf
    ensures NUL !in s && |s| < |buf|
    ensures s == buf[..|s|] && buf[|s|] == NUL
  {
    buf[..StrLen(buf)]
  }

  /** A buffer that holds `s`, a terminator and anything after it reads as `s`. */
  lemma {:induction false} CStrOfTerminated(s: string, rest: seq<char>)
    requires NUL !in s
    ensures NUL in s + [NUL] + rest
    ensures CStr(s + [NUL] + rest) == s
    ensures StrLen(s + [NUL] + rest) == |s|
  {
    var buf := s + [NUL] + rest;
    assert buf[|s|] == NUL;
    assert buf[..|s|] == s;
  }

  /** An index holding `c` with no `c` after it is the last occurrence. */
  lemma LastIndexOfUnique(s: string, c: char, i: nat)
    requires i < |s| && s[i] == c && c !in s[i + 1..]
    ensures LastIndexOf(s, c) == i
  {
    var j := LastIndexOf(s, c);
    assert j <= i by {
      assert forall k | i < k < |s| :: s[k] == s[i + 1..][k - i - 1];
    }
    assert j >= i by {
      assert forall k | j < k < |s| :: s[k] == s[j + 1..][k - j - 1];
    }
  }

  /** `strcpy(&a[at], s)`: writes the text `s` and its terminator from index `at`. */
  method StrCpy(a: array<char>, at: nat, s: string)
    requires NUL !in s
    requires at + |s| < a.Length
    modifies a
    ensures a[..] == old(a[..at]) + s + [NUL] + old(a[at + |s| + 1..])
  {
    var j := 0;
    while j < |s|
      invariant 0 <= j <= |s|
      invariant a[..at] == old(a[..at])
      invariant a[at..at + j] == s[..j]
      invariant a[at + j..] == old(a[at + j..])
    {
      a[at + j] := s[j];
      j := j + 1;
      assert a[at..at + j] == a[at..at + j - 1] + [s[j - 1]];
    }
    a[at + |s|] := NUL;
    assert a[..] == a[..at] + a[at..at + |s|] + [a[at + |s|]] + a[at + |s| + 1..];
  }
}
