/**
 * Per-command environment assignments. A token `KEY=VALUE` that precedes the
 * program name is split at its first `=` into a key buffer and a value buffer,
 * and the pair is handed to `setenv` with overwriting switched on.
 *
 * `setenv` itself is outside the model: the environment is a map that the
 * caller passes in, and whether each `setenv` call succeeds is an input.
 */
module Environ {
  import opened CStrings

  /** The key part of an assignment token: the text before its first `=`. */
  function EnvKey(tok: string): (k: string)
    requires '=' in tok
    ensures '=' !in k
    ensures |k| < |tok| && tok[..|k|] == k && tok[|k|] == '='
  {
    tok[..IndexOf(tok, '=')]
  }

  /** The value part: the text after index `idx`. The C loop starts at the
      index `idx + 1` converted to `size_t`; a negative sum wraps to a value
      past any string length, so nothing is copied, as when `idx + 1` is
      already at or past the end. */
  function EnvValue(tok: string, idx: int): (v: string)
    ensures 0 <= idx + 1 <= |tok| ==> tok == tok[..idx + 1] + v
    ensures !(0 <= idx + 1 <= |tok|) ==> v == []
  {
    if 0 <= idx + 1 <= |tok| then tok[idx + 1..] else []
  }

  /** Splitting at the first `=` and joining again with `=` gives the token back. */
  lemma SplitRoundTrip(tok: string)
    requires '=' in tok
    ensures EnvKey(tok) + "=" + EnvValue(tok, IndexOf(tok, '=')) == tok
  {
    var i := IndexOf(tok, '=');
    assert tok == tok[..i] + [tok[i]] + tok[i + 1..];
  }

  /** Conversely, a key without `=` joined to any value splits back into the
      same key and value. */
  lemma {:induction false} JoinThenSplit(k: string, v: string)
    requires '=' !in k
    ensures '=' in k + "=" + v
    ensures EnvKey(k + "=" + v) == k
    ensures EnvValue(k + "=" + v, IndexOf(k + "=" + v, '=')) == v
  {
    var tok := k + "=" + v;
    assert tok[|k|] == '=';
    assert tok[..|k|] == k;
    var i := IndexOf(tok, '=');
    assert i == |k|;
    assert tok[|k| + 1..] == v;
  }

  /** `get_environ_key`: copies the characters of `arg` before its first `=`
      into `key`, then writes a terminator. The token must hold an `=`: the
      loop stops only there. */
  method GetEnvironKey(arg: array<char>, key: array<char>)
    requires arg != key
    requires NUL in arg[..] && '=' in CStr(arg[..])
    requires |EnvKey(CStr(arg[..]))| < key.Length
    modifies key
    ensures key[..] == EnvKey(CStr(arg[..])) + [NUL] + old(key[|EnvKey(CStr(arg[..]))| + 1..])
  {
    ghost var s := CStr(arg[..]);
    ghost var e := IndexOf(s, '=');
    ghost var k0 := key[..];
    var i := 0;
    while arg[i] != '='
      invariant 0 <= i <= e
      invariant arg[..] == old(arg[..])
      invariant forall k | 0 <= k < i :: key[k] == s[k]
      invariant forall k | i <= k < key.Length :: key[k] == k0[k]
      decreases e - i
    {
      assert arg[i] == s[i];
      assert i != e;
      key[i] := arg[i];
      i := i + 1;
    }
    assert i == e;
    key[i] := NUL;
    assert key[..] == s[..e] + [NUL] + k0[e + 1..];
  }

  /** `get_environ_value`: copies the characters of `arg` after index `idx`
      into `value`, then writes a terminator. */
  method GetEnvironValue(arg: array<char>, value: array<char>, idx: int)
    requires arg != value
    requires NUL in arg[..]
    requires |EnvValue(CStr(arg[..]), idx)| < value.Length
    modifies value
    ensures value[..] == EnvValue(CStr(arg[..]), idx) + [NUL]
                         + old(value[|EnvValue(CStr(arg[..]), idx)| + 1..])
  {
    ghost var s := CStr(arg[..]);
    ghost var v := EnvValue(s, idx);
    ghost var v0 := value[..];
    if idx + 1 < 0 {
      value[0] := NUL;
      assert value[..] == [NUL] + v0[1..];
      return;
    }
    var i: nat := idx + 1;
    var j: nat := 0;
    while i < StrLen(arg[..])
      invariant arg[..] == old(arg[..])
      invariant i == idx + 1 + j
      invariant j > 0 ==> i <= |s|
      invariant j <= |v|
      invariant forall k | 0 <= k < j :: value[k] == v[k]
      invariant forall k | j <= k < value.Length :: value[k] == v0[k]
    {
      assert v == s[idx + 1..];
      value[j] := arg[i];
      i, j := i + 1, j + 1;
    }
    assert j == |v|;
    value[j] := NUL;
    assert value[..] == v + [NUL] + v0[j + 1..];
  }

  /** The texts held by the argument buffers. */
  function Texts(args: seq<array<char>>): (ts: seq<string>)
    requires forall a | a in args :: NUL in a[..]
    reads set a | a in args
    ensures |ts| == |args|
    ensures forall i | 0 <= i < |args| :: ts[i] == CStr(args[i][..])
  {
    if args == [] then [] else [CStr(args[0][..])] + Texts(args[1..])
  }

  /** One `setenv(key, value, 1)`: when it succeeds the key is bound to the
      value, replacing any earlier binding; when it fails nothing changes. */
  function Assign(env: map<string, string>, tok: string, ok: bool): (e: map<string, string>)
    requires '=' in tok
    ensures !ok ==> e == env
    ensures ok ==> e.Keys == env.Keys + {EnvKey(tok)}
  {
    if ok then env[EnvKey(tok) := EnvValue(tok, IndexOf(tok, '='))] else env
  }

  /** The environment after the assignments `toks`, in order, where `oks[i]`
      says whether the `i`-th `setenv` call succeeded. */
  function ApplyAssignments(env: map<string, string>, toks: seq<string>, oks: seq<bool>): (e: map<string, string>)
    requires |oks| == |toks|
    requires forall t | t in toks :: '=' in t
    decreases |toks|
  {
    if toks == [] then env
    else ApplyAssignments(Assign(env, toks[0], oks[0]), toks[1..], oks[1..])
  }

  /** Applying one more assignment at the end is one more `Assign`. */
  lemma {:induction false} ApplySnoc(env: map<string, string>, toks: seq<string>, oks: seq<bool>, t: string, ok: bool)
    requires |oks| == |toks|
    requires forall u | u in toks :: '=' in u
    requires '=' in t
    ensures ApplyAssignments(env, toks + [t], oks + [ok]) == Assign(ApplyAssignments(env, toks, oks), t, ok)
    decreases |toks|
  {
    if toks != [] {
      assert (toks + [t])[1..] == toks[1..] + [t];
      assert (oks + [ok])[1..] == oks[1..] + [ok];
      ApplySnoc(Assign(env, toks[0], oks[0]), toks[1..], oks[1..], t, ok);
    }
  }

  /** Applying `toks1` and then `toks2` is applying the two in a row. */
  lemma {:induction false} ApplyAppend(env: map<string, string>, toks1: seq<string>, oks1: seq<bool>,
                                       toks2: seq<string>, oks2: seq<bool>)
    requires |oks1| == |toks1| && |oks2| == |toks2|
    requires forall t | t in toks1 :: '=' in t
    requires forall t | t in toks2 :: '=' in t
    ensures ApplyAssignments(env, toks1 + toks2, oks1 + oks2)
              == ApplyAssignments(ApplyAssignments(env, toks1, oks1), toks2, oks2)
    decreases |toks1|
  {
    if toks1 == [] {
      assert toks1 + toks2 == toks2 && oks1 + oks2 == oks2;
    } else {
      assert (toks1 + toks2)[1..] == toks1[1..] + toks2;
      assert (oks1 + oks2)[1..] == oks1[1..] + oks2;
      ApplyAppend(Assign(env, toks1[0], oks1[0]), toks1[1..], oks1[1..], toks2, oks2);
    }
  }

  /** The command sees, for a key, the value of the last successful
      assignment to it: the `j`-th assignment succeeded and no later
      successful one names the same key. */
  lemma {:induction false} LastAssignmentWins(env: map<string, string>, toks: seq<string>, oks: seq<bool>, j: nat)
    requires |oks| == |toks| && j < |toks|
    requires forall t | t in toks :: '=' in t
    requires oks[j]
    requires forall i | j < i < |toks| && oks[i] :: EnvKey(toks[i]) != EnvKey(toks[j])
    ensures var r := ApplyAssignments(env, toks, oks);
            EnvKey(toks[j]) in r && r[EnvKey(toks[j])] == EnvValue(toks[j], IndexOf(toks[j], '='))
  {
    var k := EnvKey(toks[j]);
    var pre, opre := toks[..j], oks[..j];
    var post, opost := toks[j + 1..], oks[j + 1..];
    assert toks == (pre + [toks[j]]) + post;
    assert oks == (opre + [oks[j]]) + opost;
    ApplySnoc(env, pre, opre, toks[j], oks[j]);
    var mid := ApplyAssignments(env, pre + [toks[j]], opre + [oks[j]]);
    assert k in mid && mid[k] == EnvValue(toks[j], IndexOf(toks[j], '='));
    ApplyAppend(env, pre + [toks[j]], opre + [oks[j]], post, opost);
    forall i | 0 <= i < |post| && opost[i]
      ensures EnvKey(post[i]) != k
    {
      assert post[i] == toks[j + 1 + i] && opost[i] == oks[j + 1 + i];
    }
    UntouchedKeysKept(mid, post, opost, k);
  }

  /** A variable that no successful assignment names keeps its old binding
      (or stays unbound). */
  lemma {:induction false} UntouchedKeysKept(env: map<string, string>, toks: seq<string>, oks: seq<bool>, k: string)
    requires |oks| == |toks|
    requires forall t | t in toks :: '=' in t
    requires forall i | 0 <= i < |toks| && oks[i] :: EnvKey(toks[i]) != k
    ensures var r := ApplyAssignments(env, toks, oks);
            (k in r <==> k in env) && (k in env ==> r[k] == env[k])
    decreases |toks|
  {
    if toks != [] {
      forall i | 0 <= i < |toks| - 1 && oks[1..][i]
        ensures EnvKey(toks[1..][i]) != k
      {
        assert oks[i + 1] && toks[1..][i] == toks[i + 1];
      }
      UntouchedKeysKept(Assign(env, toks[0], oks[0]), toks[1..], oks[1..], k);
    }
  }

  /** The key and the value of `tok` each fit, with their terminators, in
      a buffer of `size` characters. */
  predicate FitsBuffers(tok: string, size: nat)
    requires '=' in tok
  {
    |EnvKey(tok)| < size && |EnvValue(tok, IndexOf(tok, '='))| < size
  }

  /** The two buffers bound the key and the value separately, not the whole
      token: `K=vv` fits buffers of four characters. */
  lemma {:induction false} PartsFitSeparately()
    ensures '=' in "K=vv" && FitsBuffers("K=vv", 4) && |"K=vv"| == 4
  {
    JoinThenSplit("K", "vv");
    assert "K" + "=" + "vv" == "K=vv";
  }

  /** The body of one `set_environ_vars` iteration up to `setenv`: fresh key
      and value buffers of `fnameSize` characters, filled by `get_environ_key`
      and by `get_environ_value` at the index of the first `=`. Returns the
      texts the two buffers then hold. */
  method SplitAssignment(arg: array<char>, fnameSize: nat) returns (k: string, v: string)
    requires NUL in arg[..] && '=' in CStr(arg[..])
    requires FitsBuffers(CStr(arg[..]), fnameSize)
    ensures k + "=" + v == CStr(arg[..])
    ensures '=' !in k
  {
    var key := new char[fnameSize];
    var value := new char[fnameSize];
    var tok := CStr(arg[..]);
    ghost var keyBefore, valueBefore := key[..], value[..];
    GetEnvironKey(arg, key);
    GetEnvironValue(arg, value, IndexOf(tok, '='));
    CStrOfTerminated(EnvKey(tok), keyBefore[|EnvKey(tok)| + 1..]);
    CStrOfTerminated(EnvValue(tok, IndexOf(tok, '=')), valueBefore[|EnvValue(tok, IndexOf(tok, '='))| + 1..]);
    k, v := CStr(key[..]), CStr(value[..]);
    SplitRoundTrip(tok);
  }

  /** `set_environ_vars`: splits each of the first `eargc` tokens and applies
      it with `setenv`. `setenvOk[i]` is the outcome of the `i`-th `setenv`
      call; a failure is reported and the loop goes on. */
  method SetEnvironVars(eargv: seq<array<char>>, eargc: int, fnameSize: nat,
                        env: map<string, string>, setenvOk: seq<bool>)
      returns (env': map<string, string>)
    requires eargc <= |eargv| && |setenvOk| == |eargv|
    requires forall i | 0 <= i < eargc :: NUL in eargv[i][..]
    requires forall i | 0 <= i < eargc :: '=' in CStr(eargv[i][..])
    requires forall i | 0 <= i < eargc :: FitsBuffers(CStr(eargv[i][..]), fnameSize)
    ensures eargc <= 0 ==> env' == env
    ensures eargc > 0 ==> env' == ApplyAssignments(env, Texts(eargv[..eargc]), setenvOk[..eargc])
  {
    env' := env;
    if eargc <= 0 {
      return;
    }
    ghost var toks := Texts(eargv[..eargc]);
    ghost var oks := setenvOk[..eargc];
    var i := 0;
    while i < eargc
      invariant 0 <= i <= eargc
      invariant ApplyAssignments(env', toks[i..], oks[i..]) == ApplyAssignments(env, toks, oks)
    {
      var k, v := SplitAssignment(eargv[i], fnameSize);
      JoinThenSplit(k, v);
      if setenvOk[i] {
        env' := env'[k := v];
      }
      assert toks[i..][1..] == toks[i + 1..];
      assert oks[i..][1..] == oks[i + 1..];
      i := i + 1;
    }
  }
}
