/** The byte layout both sides of the mutual authentication sign. */
module Transcript {
  type Byte = b: int | 0 <= b < 256

  /** The ASCII bytes of the domain-separation label. */
  const LABEL: seq<Byte> := [
    0x6b, 0x65, 0x6e, 0x6e, 0x79, 0x2d, 0x6d, 0x75, 0x74, 0x75,
    0x61, 0x6c, 0x2d, 0x61, 0x75, 0x74, 0x68, 0x2d, 0x76, 0x31]

  const NUL: Byte := 0

  function Bytes(agentId: seq<Byte>, clientNonce: seq<Byte>, serverNonce: seq<Byte>): seq<Byte> {
    LABEL + [NUL] + agentId + [NUL] + clientNonce + [NUL] + serverNonce
  }

  method Build(agentId: seq<Byte>, clientNonce: seq<Byte>, serverNonce: seq<Byte>) returns (t: seq<Byte>)
    ensures t == Bytes(agentId, clientNonce, serverNonce)
  {
    t := [];
    t := t + LABEL;
    t := t + [NUL];
    t := t + agentId;
    t := t + [NUL];
    t := t + clientNonce;
    t := t + [NUL];
    t := t + serverNonce;
  }

  /** Label, id and nonces in this order, a zero byte between neighbours. */
  lemma TranscriptSpelled(agentId: seq<Byte>, clientNonce: seq<Byte>, serverNonce: seq<Byte>)
    ensures |LABEL| == 20 && forall i :: 0 <= i < 20 ==> LABEL[i] == "kenny-mutual-auth-v1"[i] as int
    ensures Bytes(agentId, clientNonce, serverNonce)
         == LABEL + [0] + agentId + [0] + clientNonce + [0] + serverNonce
  {
  }

  ghost predicate NulFree(s: seq<Byte>) {
    forall i :: 0 <= i < |s| ==> s[i] != NUL
  }

  /** The text after the label and its separator. */
  lemma Tail(agentId: seq<Byte>, clientNonce: seq<Byte>, serverNonce: seq<Byte>)
    ensures Bytes(agentId, clientNonce, serverNonce)[|LABEL| + 1..]
         == agentId + [NUL] + clientNonce + [NUL] + serverNonce
  {
  }

  lemma {:induction false} SplitAtNul(a: seq<Byte>, rest: seq<Byte>, b: seq<Byte>, rest': seq<Byte>)
    requires NulFree(a) && NulFree(b)
    requires a + [NUL] + rest == b + [NUL] + rest'
    ensures a == b && rest == rest'
  {
    var s, t := a + [NUL] + rest, b + [NUL] + rest';
    assert s[0] == t[0];
    if a != [] {
      assert b != [] && a[0] == b[0];
      assert s[1..] == a[1..] + [NUL] + rest && t[1..] == b[1..] + [NUL] + rest';
      SplitAtNul(a[1..], rest, b[1..], rest');
      assert a == [a[0]] + a[1..] && b == [b[0]] + b[1..];
    } else {
      assert b == [];
      assert rest == s[1..] && rest' == t[1..];
    }
  }

  /**
   For ids without a NUL byte and client nonces of one length, the transcript determines the id
   and both nonces, whatever the lengths of the server nonces.
   */
  lemma Injective(a: seq<Byte>, c: seq<Byte>, s: seq<Byte>, a': seq<Byte>, c': seq<Byte>, s': seq<Byte>)
    requires NulFree(a) && NulFree(a') && |c| == |c'|
    requires Bytes(a, c, s) == Bytes(a', c', s')
    ensures a == a' && c == c' && s == s'
  {
    Tail(a, c, s);
    Tail(a', c', s');
    var r, r' := c + [NUL] + s, c' + [NUL] + s';
    assert a + [NUL] + c + [NUL] + s == a + [NUL] + r;
    assert a' + [NUL] + c' + [NUL] + s' == a' + [NUL] + r';
    SplitAtNul(a, r, a', r');
    assert c == r[..|c|] == r'[..|c'|] == c';
    assert s == r[|c| + 1..] == r'[|c'| + 1..] == s';
  }

  /** Some nonces, the client's `m` bytes long, give both ids one transcript. */
  ghost predicate Share(a: seq<Byte>, b: seq<Byte>, m: nat) {
    exists c, s, c', s' :: |c| == m && |c'| == m && Bytes(a, c, s) == Bytes(b, c', s')
  }

  /** `b` is `a`, a NUL and a rest too short to fill a client nonce, or with a NUL right after one. */
  predicate Continues(a: seq<Byte>, b: seq<Byte>, m: nat) {
    && |a| < |b| && b[..|a|] == a && b[|a|] == NUL
    && var rest := b[|a| + 1..]; |rest| <= m || rest[m] == NUL
  }

  lemma ZipPrefix(a: seq<Byte>, r: seq<Byte>, b: seq<Byte>, r': seq<Byte>)
    requires a + [NUL] + r == b + [NUL] + r' && |a| < |b|
    ensures b[..|a|] == a && b[|a|] == NUL && r == b[|a| + 1..] + [NUL] + r'
  {
    var x, y := a + [NUL] + r, b + [NUL] + r';
    assert a == x[..|a|] == y[..|a|] == b[..|a|];
    assert NUL == x[|a|] == y[|a|] == b[|a|];
    assert r == x[|a| + 1..] == y[|a| + 1..] == b[|a| + 1..] + [NUL] + r';
  }

  lemma ShareContinues(a: seq<Byte>, b: seq<Byte>, c: seq<Byte>, s: seq<Byte>, c': seq<Byte>, s': seq<Byte>)
    requires |a| < |b| && |c| == |c'| && Bytes(a, c, s) == Bytes(b, c', s')
    ensures Continues(a, b, |c|)
  {
    Tail(a, c, s);
    Tail(b, c', s');
    var r, r' := c + [NUL] + s, c' + [NUL] + s';
    assert a + [NUL] + c + [NUL] + s == a + [NUL] + r && b + [NUL] + c' + [NUL] + s' == b + [NUL] + r';
    ZipPrefix(a, r, b, r');
    var rest := b[|a| + 1..];
    if |rest| > |c| {
      assert rest[|c|] == r[|c|] == NUL;
    }
  }

  lemma SameLengthSame(a: seq<Byte>, b: seq<Byte>, c: seq<Byte>, s: seq<Byte>, c': seq<Byte>, s': seq<Byte>)
    requires |a| == |b| && Bytes(a, c, s) == Bytes(b, c', s')
    ensures a == b
  {
    Tail(a, c, s);
    Tail(b, c', s');
    var x, y := a + [NUL] + c + [NUL] + s, b + [NUL] + c' + [NUL] + s';
    assert a == x[..|a|] == y[..|b|] == b;
  }

  lemma SameTail(a: seq<Byte>, b: seq<Byte>, c: seq<Byte>, s: seq<Byte>, c': seq<Byte>, s': seq<Byte>, rest: seq<Byte>)
    requires b == a + [NUL] + rest
    requires c + [NUL] + s == rest + [NUL] + c' + [NUL] + s'
    ensures Bytes(a, c, s) == Bytes(b, c', s')
  {
    var prefix := LABEL + [NUL] + a + [NUL];
    assert Bytes(a, c, s) == prefix + (c + [NUL] + s);
    assert Bytes(b, c', s') == prefix + (rest + [NUL] + c' + [NUL] + s');
  }

  /** The nonces that show it: the rest of the longer id begins the other's client nonce. */
  lemma ContinuesShare(a: seq<Byte>, b: seq<Byte>, m: nat)
    requires Continues(a, b, m)
    ensures Share(a, b, m)
  {
    var rest := b[|a| + 1..];
    assert b == a + [NUL] + rest;
    var c': seq<Byte> := seq(m, _ => NUL);
    var after := rest + [NUL] + c' + [NUL] + [];
    assert after[m] == NUL;
    var c, s := after[..m], after[m + 1..];
    assert after == c + [NUL] + s;
    SameTail(a, b, c, s, c', [], rest);
    ShareBy(a, b, m, c, s, c', []);
  }

  lemma ShareBy(a: seq<Byte>, b: seq<Byte>, m: nat, c: seq<Byte>, s: seq<Byte>, c': seq<Byte>, s': seq<Byte>)
    requires |c| == m && |c'| == m && Bytes(a, c, s) == Bytes(b, c', s')
    ensures Share(a, b, m)
  {
  }

  /**
   Which ids can share a transcript: different ones exactly when one continues the other past a NUL
   byte. Two ids without a NUL byte never do.
   */
  lemma SharedIff(a: seq<Byte>, b: seq<Byte>, m: nat)
    requires a != b
    ensures Share(a, b, m) <==> Continues(a, b, m) || Continues(b, a, m)
  {
    if Share(a, b, m) {
      var c, s, c', s' :| |c| == m && |c'| == m && Bytes(a, c, s) == Bytes(b, c', s');
      if |a| < |b| {
        ShareContinues(a, b, c, s, c', s');
      } else if |b| < |a| {
        ShareContinues(b, a, c', s', c, s);
      } else {
        SameLengthSame(a, b, c, s, c', s');
      }
    }
    if Continues(a, b, m) {
      ContinuesShare(a, b, m);
    }
    if Continues(b, a, m) {
      ContinuesShare(b, a, m);
      var c, s, c', s' :| |c| == m && |c'| == m && Bytes(b, c, s) == Bytes(a, c', s');
      ShareBy(a, b, m, c', s', c, s);
    }
  }

  /** When what follows the NUL is as long as a client nonce, any nonces of the longer id will do. */
  lemma FullRestAlwaysShares(a: seq<Byte>, rest: seq<Byte>, c: seq<Byte>, s: seq<Byte>)
    requires |rest| == |c|
    ensures Bytes(a + [NUL] + rest, c, s) == Bytes(a, rest, c + [NUL] + s)
  {
  }
}
