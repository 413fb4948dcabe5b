/**
 One agent session over the tunnel: register, prove the server's identity, then serve.

 The session is followed as the sequence of what it received, sent and started. Telemetry,
 heartbeat and log frames come only from the tasks started after the handshake, and appear here
 as that one event.
 */
module Tunnel {
  import opened Numbers
  import opened Wrappers
  import opened Transcript

  datatype Frame =
    | Register(agentId: seq<Byte>, clientNonce: Option<string>)
    | Challenge(serverNonce: string, serverSig: string)
    | Auth(agentSig: string)
    | Request(id: string, tool: string)
    | Policy(version: int)
    | Ping
    | Pong
    | Other

  /** An inbound item of the socket; `Text(None)` does not decode as a frame. */
  datatype Message =
    | Text(frame: Option<Frame>)
    | ControlPing
    | ControlPong
    | Close
    | Binary
    | Raw
    | Broken

  datatype Event =
    | Got(message: Message)
    | Sent(frame: Frame)
    | TasksStarted
    | Dispatched(id: string, tool: string)
    | PolicyApplied(version: int)

  /**
   The foreign functions of the handshake: trimming, base64 decoding, verification against the
   pinned key and signing with the agent's key.
   */
  datatype Crypto = Crypto(
    trim: string -> string,
    decode: string -> Option<seq<Byte>>,
    verify: (seq<Byte>, string) -> bool,
    sign: seq<Byte> -> string)

  /** What stays fixed over one session; `clientNonce` is fresh, and present on the signature path. */
  datatype Config = Config(
    crypto: Crypto,
    agentId: seq<Byte>,
    signaturePath: bool,
    clientNonce: string,
    outboxOpen: bool)

  datatype Outcome = Proven | Aborted

  /** The transcript of this session for a server nonce, when both nonces decode. */
  function SessionTranscript(cfg: Config, serverNonce: string): Option<seq<Byte>> {
    match (cfg.crypto.decode(cfg.clientNonce), cfg.crypto.decode(cfg.crypto.trim(serverNonce)))
    case (Some(c), Some(s)) => Some(Bytes(cfg.agentId, c, s))
    case _ => None
  }

  /** A challenge whose signature verifies over this session's own transcript. */
  predicate Genuine(cfg: Config, m: Message) {
    && m.Text? && m.frame.Some? && m.frame.value.Challenge?
    && SessionTranscript(cfg, m.frame.value.serverNonce).Some?
    && cfg.crypto.verify(SessionTranscript(cfg, m.frame.value.serverNonce).value, m.frame.value.serverSig)
  }

  class Session {
    const cfg: Config
    var inbox: seq<Message>
    var trace: seq<Event>

    constructor (cfg: Config, inbox: seq<Message>)
      ensures this.cfg == cfg && this.inbox == inbox && trace == []
    {
      this.cfg := cfg;
      this.inbox := inbox;
      trace := [];
    }

    method Receive() returns (m: Message)
      requires inbox != []
      modifies this
      ensures m == old(inbox)[0] && inbox == old(inbox)[1..]
      ensures trace == old(trace) + [Got(m)]
    {
      m := inbox[0];
      inbox := inbox[1..];
      trace := trace + [Got(m)];
    }

    /** Reads until the challenge and answers it only when it is genuine. */
    method RunHandshake() returns (outcome: Outcome)
      modifies this
      ensures trace == old(trace) + Handshake(cfg, old(inbox)).0
      ensures outcome == Handshake(cfg, old(inbox)).1
      ensures inbox == Handshake(cfg, old(inbox)).2
    {
      ghost var all := inbox;
      while inbox != []
        invariant Handshakes(cfg, all, old(trace), trace, inbox)
        decreases |inbox|
      {
        ghost var before, rest := trace, inbox;
        var m := Receive();
        if m.ControlPing? || m.ControlPong? {
          continue;
        }
        HandshakeEnds(cfg, all, old(trace), before, rest);
        if !m.Text? || m.frame.None? || !m.frame.value.Challenge? {
          return Aborted;
        }
        var clientNonce := cfg.crypto.decode(cfg.clientNonce);
        var serverNonce := cfg.crypto.decode(cfg.crypto.trim(m.frame.value.serverNonce));
        if clientNonce.None? || serverNonce.None? {
          return Aborted;
        }
        var transcript := Build(cfg.agentId, clientNonce.value, serverNonce.value);
        if !cfg.crypto.verify(transcript, m.frame.value.serverSig) || !cfg.outboxOpen {
          return Aborted;
        }
        trace := trace + [Sent(Auth(cfg.crypto.sign(transcript)))];
        return Proven;
      }
      return Aborted;
    }

    /** Processes inbound messages until the stream ends. */
    method ReadLoop()
      modifies this
      ensures trace == old(trace) + Serving(old(inbox))
    {
      ghost var all, done := inbox, [];
      while inbox != []
        invariant trace == old(trace) + done
        invariant Serving(all) == done + Serving(inbox)
        decreases |inbox|
      {
        ghost var before, rest := done, inbox[1..];
        var m := Receive();
        done := before + [Got(m)];
        assert trace == old(trace) + done;
        if m.Close? || m.Broken? {
          return;
        }
        React(m);
        done := done + Reaction(m);
        assert trace == old(trace) + done;
        Regroup(before, [Got(m)], Reaction(m), Serving(rest));
      }
    }

    /** Acts on one message: a request is dispatched, a policy applied, a ping answered. */
    method React(m: Message)
      modifies this`trace
      ensures trace == old(trace) + Reaction(m)
    {
      match m {
        case Text(Some(Request(id, tool))) => trace := trace + [Dispatched(id, tool)];
        case Text(Some(Policy(version))) => trace := trace + [PolicyApplied(version)];
        case Text(Some(Ping)) => trace := trace + [Sent(Pong)];
        case _ =>
      }
    }

    /** One full session. On the signature path nothing is served before the handshake succeeds. */
    method ServeOnce() returns (outcome: Outcome)
      requires trace == []
      modifies this
      ensures trace == SessionTrace(cfg, old(inbox))
      ensures outcome == if cfg.signaturePath then Handshake(cfg, old(inbox)).1 else Proven
    {
      outcome := Proven;
      SessionShape(cfg, inbox);
      trace := [Hello(cfg)];
      if cfg.signaturePath {
        outcome := RunHandshake();
        if outcome == Aborted {
          return;
        }
      }
      trace := trace + [TasksStarted];
      ReadLoop();
    }
  }

  /** The trace of a session, grouped the way it grows. */
  lemma {:induction false} SessionShape(cfg: Config, inbox: seq<Message>)
    ensures !cfg.signaturePath ==> SessionTrace(cfg, inbox) == [Hello(cfg)] + [TasksStarted] + Serving(inbox)
    ensures cfg.signaturePath ==>
      var (events, outcome, rest) := Handshake(cfg, inbox);
      SessionTrace(cfg, inbox) ==
        if outcome == Aborted then [Hello(cfg)] + events
        else [Hello(cfg)] + events + [TasksStarted] + Serving(rest)
  {
  }

  lemma Regroup<T>(a: seq<T>, b: seq<T>, c: seq<T>, d: seq<T>)
    ensures a + (b + c + d) == a + b + c + d
  {
  }

  // ---- The session as a function of what arrives ----

  function Handshake(cfg: Config, inbox: seq<Message>): (seq<Event>, Outcome, seq<Message>) {
    if inbox == [] then ([], Aborted, [])
    else
      var m, rest := inbox[0], inbox[1..];
      if m.ControlPing? || m.ControlPong? then
        var (events, outcome, left) := Handshake(cfg, rest);
        ([Got(m)] + events, outcome, left)
      else if Genuine(cfg, m) && cfg.outboxOpen then
        ([Got(m), Sent(Auth(cfg.crypto.sign(SessionTranscript(cfg, m.frame.value.serverNonce).value)))], Proven, rest)
      else
        ([Got(m)], Aborted, rest)
  }

  /** What one message makes the serving agent do. */
  function Reaction(m: Message): seq<Event> {
    match m
    case Text(Some(Request(id, tool))) => [Dispatched(id, tool)]
    case Text(Some(Policy(version))) => [PolicyApplied(version)]
    case Text(Some(Ping)) => [Sent(Pong)]
    case _ => []
  }

  function Serving(inbox: seq<Message>): seq<Event> {
    if inbox == [] then []
    else if inbox[0].Close? || inbox[0].Broken? then [Got(inbox[0])]
    else [Got(inbox[0])] + Reaction(inbox[0]) + Serving(inbox[1..])
  }

  /** The registration; a nonce asks the server to prove itself. */
  function Hello(cfg: Config): Event {
    Sent(Register(cfg.agentId, if cfg.signaturePath then Some(cfg.clientNonce) else None))
  }

  function SessionTrace(cfg: Config, inbox: seq<Message>): seq<Event> {
    if !cfg.signaturePath then [Hello(cfg), TasksStarted] + Serving(inbox)
    else
      var (events, outcome, rest) := Handshake(cfg, inbox);
      [Hello(cfg)] + events + (if outcome == Proven then [TasksStarted] + Serving(rest) else [])
  }

  /** The handshake on `all` has grown the trace from `start` to `trace` and still has `inbox` to read. */
  ghost predicate Handshakes(cfg: Config, all: seq<Message>, start: seq<Event>, trace: seq<Event>,
                             inbox: seq<Message>)
  {
    && start + Handshake(cfg, all).0 == trace + Handshake(cfg, inbox).0
    && Handshake(cfg, all).1 == Handshake(cfg, inbox).1
    && Handshake(cfg, all).2 == Handshake(cfg, inbox).2
  }

  lemma {:induction false} HandshakeEnds(cfg: Config, all: seq<Message>, start: seq<Event>, trace: seq<Event>,
      inbox: seq<Message>)
    requires Handshakes(cfg, all, start, trace, inbox)
    requires inbox != [] && !inbox[0].ControlPing? && !inbox[0].ControlPong?
    ensures Handshake(cfg, all).2 == inbox[1..]
    ensures if Genuine(cfg, inbox[0]) && cfg.outboxOpen then
        && Handshake(cfg, all).1 == Proven
        && start + Handshake(cfg, all).0 == trace + [Got(inbox[0])] + [Sent(Auth(cfg.crypto.sign(
             SessionTranscript(cfg, inbox[0].frame.value.serverNonce).value)))]
      else
        Handshake(cfg, all).1 == Aborted && start + Handshake(cfg, all).0 == trace + [Got(inbox[0])]
  {
  }

  // ---- What a server must prove ----

  /** A genuine challenge was received among the first `k` events. */
  ghost predicate ProvenBefore(cfg: Config, trace: seq<Event>, k: nat)
    requires k <= |trace|
  {
    exists j :: 0 <= j < k && trace[j].Got? && Genuine(cfg, trace[j].message)
  }

  /** Events that trust the server: everything but receiving, and registering with it. */
  predicate Trusting(e: Event) {
    !e.Got? && !(e.Sent? && e.frame.Register?)
  }

  lemma {:induction false} HandshakeShape(cfg: Config, inbox: seq<Message>)
    ensures
      var (events, outcome, rest) := Handshake(cfg, inbox);
      && (forall i :: 0 <= i < |events| && !events[i].Got? ==>
            outcome == Proven && i == |events| - 1 && i > 0
            && events[i - 1].Got? && Genuine(cfg, events[i - 1].message)
            && events[i] == Sent(Auth(cfg.crypto.sign(
                 SessionTranscript(cfg, events[i - 1].message.frame.value.serverNonce).value))))
      && (outcome == Proven ==> |events| >= 2 && !events[|events| - 1].Got?)
  {
    if inbox != [] && (inbox[0].ControlPing? || inbox[0].ControlPong?) {
      HandshakeShape(cfg, inbox[1..]);
      var (events, outcome, rest) := Handshake(cfg, inbox);
      var (inner, _, _) := Handshake(cfg, inbox[1..]);
      assert events == [Got(inbox[0])] + inner;
    }
  }

  /**
   On the signature path, whatever arrives, everything the session does that trusts the server
   comes after a challenge whose signature verifies over this session's own transcript.
   */
  lemma TrustNeedsProof(cfg: Config, inbox: seq<Message>, k: nat)
    requires cfg.signaturePath && k < |SessionTrace(cfg, inbox)|
    requires var e := SessionTrace(cfg, inbox)[k]; !e.Got? && !(e.Sent? && e.frame.Register?)
    ensures ProvenBefore(cfg, SessionTrace(cfg, inbox), k)
  {
    HandshakeShape(cfg, inbox);
    TrustAfterHandshake(cfg, Handshake(cfg, inbox).0, SessionTrace(cfg, inbox), k);
  }

  lemma TrustAfterHandshake(cfg: Config, events: seq<Event>, trace: seq<Event>, k: nat)
    requires k < |trace| && Trusting(trace[k])
    requires |trace| > |events| && !Trusting(trace[0]) && trace[1..|events| + 1] == events
    requires forall i :: 0 <= i < |events| && !events[i].Got? ==> i == |events| - 1
    requires |trace| > |events| + 1 || (events != [] && !events[|events| - 1].Got?) ==>
      |events| >= 2 && events[|events| - 2].Got? && Genuine(cfg, events[|events| - 2].message)
    ensures ProvenBefore(cfg, trace, k)
  {
    forall i | 0 <= i < |events|
      ensures trace[i + 1] == events[i]
    {
      assert trace[1..|events| + 1][i] == events[i];
    }
    var last := |events| - 1;
    if k <= |events| {
      assert !events[k - 1].Got?;
    }
    assert trace[last] == events[last - 1];
  }

  /** The answer to the challenge signs the transcript that was verified. */
  lemma {:induction false} AuthSignsVerifiedTranscript(cfg: Config, inbox: seq<Message>)
    requires cfg.signaturePath && Handshake(cfg, inbox).1 == Proven
    ensures
      var trace := SessionTrace(cfg, inbox);
      exists j :: 0 <= j < |trace| - 1 && trace[j].Got? && Genuine(cfg, trace[j].message)
        && trace[j + 1] == Sent(Auth(cfg.crypto.sign(
             SessionTranscript(cfg, trace[j].message.frame.value.serverNonce).value)))
  {
    HandshakeShape(cfg, inbox);
    var trace := SessionTrace(cfg, inbox);
    var (events, outcome, rest) := Handshake(cfg, inbox);
    var last := |events| - 1;
    assert trace[last] == events[last - 1] && trace[last + 1] == events[last];
  }

  /** An aborted session has sent its registration and done nothing else. */
  lemma {:induction false} AbortedSendsOnlyRegister(cfg: Config, inbox: seq<Message>, k: nat)
    requires cfg.signaturePath && Handshake(cfg, inbox).1 == Aborted
    requires k < |SessionTrace(cfg, inbox)|
    ensures SessionTrace(cfg, inbox)[k].Got? || (k == 0 && SessionTrace(cfg, inbox)[k].frame.Register?)
  {
    HandshakeShape(cfg, inbox);
  }

  /** A session first registers, and gives its nonce exactly on the signature path. */
  lemma RegistersFirst(cfg: Config, inbox: seq<Message>)
    ensures
      var trace := SessionTrace(cfg, inbox);
      && trace != [] && trace[0].Sent? && trace[0].frame.Register? && trace[0].frame.agentId == cfg.agentId
      && trace[0].frame.clientNonce == (if cfg.signaturePath then Some(cfg.clientNonce) else None)
      && forall k :: 0 < k < |trace| ==> !(trace[k].Sent? && trace[k].frame.Register?)
  {
    HandshakeSendsAuth(cfg, inbox);
    var (events, outcome, rest) := Handshake(cfg, inbox);
    var trace, served := SessionTrace(cfg, inbox), if cfg.signaturePath then rest else inbox;
    ServingNeverRegisters(served);
    var head: seq<Event> := if cfg.signaturePath then events else [];
    forall k | 0 < k < |trace|
      ensures !(trace[k].Sent? && trace[k].frame.Register?)
    {
      if k <= |head| {
        assert trace[k] == head[k - 1];
      } else if k == |head| + 1 {
        assert trace[k] == TasksStarted;
      } else {
        assert trace[k] == Serving(served)[k - |head| - 2];
      }
    }
  }

  lemma {:induction false} HandshakeSendsAuth(cfg: Config, inbox: seq<Message>)
    ensures forall e :: e in Handshake(cfg, inbox).0 ==> e.Got? || (e.Sent? && e.frame.Auth?)
  {
    if inbox != [] && (inbox[0].ControlPing? || inbox[0].ControlPong?) {
      HandshakeSendsAuth(cfg, inbox[1..]);
    }
  }

  lemma {:induction false} ServingNeverRegisters(inbox: seq<Message>)
    ensures forall k :: 0 <= k < |Serving(inbox)| ==>
      !(Serving(inbox)[k].Sent? && Serving(inbox)[k].frame.Register?)
  {
    if inbox != [] && !inbox[0].Close? && !inbox[0].Broken? {
      ServingNeverRegisters(inbox[1..]);
    }
  }

  /** Message `n` is a genuine challenge and only control pings and pongs precede it. */
  ghost predicate GenuineFirst(cfg: Config, inbox: seq<Message>, n: nat) {
    && n < |inbox| && Genuine(cfg, inbox[n])
    && forall m :: 0 <= m < n ==> inbox[m].ControlPing? || inbox[m].ControlPong?
  }

  /** Proof is also enough: the session serves exactly when a genuine challenge comes first of all frames. */
  lemma {:induction false} ServesIffGenuineFirst(cfg: Config, inbox: seq<Message>)
    ensures Handshake(cfg, inbox).1 == Proven <==> cfg.outboxOpen && exists n :: GenuineFirst(cfg, inbox, n)
  {
    if inbox != [] && (inbox[0].ControlPing? || inbox[0].ControlPong?) {
      var rest := inbox[1..];
      ServesIffGenuineFirst(cfg, rest);
      forall n: nat | GenuineFirst(cfg, rest, n)
        ensures GenuineFirst(cfg, inbox, n + 1)
      {
        assert forall m :: 0 < m < n + 1 ==> inbox[m] == rest[m - 1];
      }
      forall n: nat | GenuineFirst(cfg, inbox, n)
        ensures n > 0 && GenuineFirst(cfg, rest, n - 1)
      {
        assert forall m :: 0 <= m < n - 1 ==> rest[m] == inbox[m + 1];
      }
    } else if inbox != [] {
      assert Genuine(cfg, inbox[0]) ==> GenuineFirst(cfg, inbox, 0);
    }
  }

  /**
   The handshake on the fields of the challenge: when message `n` is the first that is not a control
   ping or pong, and is a challenge, the session is proven exactly when both nonces decode and the
   signature verifies over the transcript of this agent, this session's nonce and the server's, and
   the answer can be sent. The answer signs those very bytes.
   */
  lemma {:induction false} ProvenOnChallenge(cfg: Config, inbox: seq<Message>, n: nat, nonce: string, sig: string)
    requires n < |inbox| && inbox[n] == Text(Some(Challenge(nonce, sig)))
    requires forall m :: 0 <= m < n ==> inbox[m].ControlPing? || inbox[m].ControlPong?
    ensures Handshake(cfg, inbox).1 == Proven <==>
      && cfg.outboxOpen
      && (exists c, s ::
            && cfg.crypto.decode(cfg.clientNonce) == Some(c)
            && cfg.crypto.decode(cfg.crypto.trim(nonce)) == Some(s)
            && cfg.crypto.verify(Bytes(cfg.agentId, c, s), sig))
    ensures Handshake(cfg, inbox).1 == Proven ==>
      var events := Handshake(cfg, inbox).0;
      var decode, serverNonce := cfg.crypto.decode, cfg.crypto.trim(nonce);
      forall c, s | decode(cfg.clientNonce) == Some(c) && decode(serverNonce) == Some(s) ::
        events != [] && events[|events| - 1] == Sent(Auth(cfg.crypto.sign(Bytes(cfg.agentId, c, s))))
  {
    if n == 0 {
      var d, e := cfg.crypto.decode(cfg.clientNonce), cfg.crypto.decode(cfg.crypto.trim(nonce));
      if d.Some? && e.Some? {
        assert SessionTranscript(cfg, nonce) == Some(Bytes(cfg.agentId, d.value, e.value));
      }
    } else {
      ProvenOnChallenge(cfg, inbox[1..], n - 1, nonce, sig);
    }
  }

  /**
   No replay: as long as a signature verifies for no two transcripts, one challenge cannot prove
   sessions of different agents, or of different client nonces, the ids being free of zero bytes and
   the nonces of one length.
   */
  lemma {:induction false} NoReplay(one: Config, two: Config, inbox: seq<Message>, inbox': seq<Message>,
      n: nat, n': nat, nonce: string, sig: string, c: seq<Byte>, c': seq<Byte>)
    requires one.crypto == two.crypto
    requires forall x, y :: one.crypto.verify(x, sig) && one.crypto.verify(y, sig) ==> x == y
    requires n < |inbox| && inbox[n] == Text(Some(Challenge(nonce, sig)))
    requires n' < |inbox'| && inbox'[n'] == Text(Some(Challenge(nonce, sig)))
    requires forall m :: 0 <= m < n ==> inbox[m].ControlPing? || inbox[m].ControlPong?
    requires forall m :: 0 <= m < n' ==> inbox'[m].ControlPing? || inbox'[m].ControlPong?
    requires Handshake(one, inbox).1 == Proven && Handshake(two, inbox').1 == Proven
    requires one.crypto.decode(one.clientNonce) == Some(c) && two.crypto.decode(two.clientNonce) == Some(c')
    requires 0 !in one.agentId && 0 !in two.agentId && |c| == |c'|
    ensures one.agentId == two.agentId && c == c'
  {
    ProvenOnChallenge(one, inbox, n, nonce, sig);
    ProvenOnChallenge(two, inbox', n', nonce, sig);
    var s := one.crypto.decode(one.crypto.trim(nonce)).value;
    Injective(one.agentId, c, s, two.agentId, c', s);
  }

  ghost function Requests(inbox: seq<Message>): seq<Event> {
    if inbox == [] || inbox[0].Close? || inbox[0].Broken? then []
    else
      (match inbox[0]
       case Text(Some(Request(id, tool))) => [Dispatched(id, tool)]
       case _ => []) + Requests(inbox[1..])
  }

  function Dispatches(trace: seq<Event>): seq<Event> {
    if trace == [] then []
    else (if trace[0].Dispatched? then [trace[0]] else []) + Dispatches(trace[1..])
  }

  lemma {:induction false} DispatchesJoin(a: seq<Event>, b: seq<Event>)
    ensures Dispatches(a + b) == Dispatches(a) + Dispatches(b)
  {
    if a == [] {
      assert a + b == b;
    } else {
      DispatchesJoin(a[1..], b);
      assert (a + b)[0] == a[0] && (a + b)[1..] == a[1..] + b;
      DispatchesFirst(a, a + b, Dispatches(b));
    }
  }

  lemma {:induction false} DispatchesFirst(a: seq<Event>, all: seq<Event>, more: seq<Event>)
    requires a != [] && all != [] && all[0] == a[0]
    requires Dispatches(all[1..]) == Dispatches(a[1..]) + more
    ensures Dispatches(all) == Dispatches(a) + more
  {
    var head: seq<Event> := if a[0].Dispatched? then [a[0]] else [];
    JoinLater(head, Dispatches(a[1..]), more);
  }

  lemma JoinLater<T>(a: seq<T>, b: seq<T>, c: seq<T>)
    ensures a + (b + c) == a + b + c
  {
  }

  /**
   Every message up to the end of the stream is read in its turn and acted on at once: a request is
   dispatched, a policy applied, a ping answered, and nothing is done about any other.
   */
  lemma {:induction false} EveryMessageActedOn(inbox: seq<Message>, n: nat) returns (k: nat)
    requires n < |inbox| && forall m :: 0 <= m < n ==> !inbox[m].Close? && !inbox[m].Broken?
    ensures k < |Serving(inbox)| && Serving(inbox)[k] == Got(inbox[n])
    ensures
      var done := if k + 1 < |Serving(inbox)| && !Serving(inbox)[k + 1].Got? then [Serving(inbox)[k + 1]] else [];
      && (forall id, tool :: inbox[n] == Text(Some(Request(id, tool))) ==> done == [Dispatched(id, tool)])
      && (forall version :: inbox[n] == Text(Some(Policy(version))) ==> done == [PolicyApplied(version)])
      && (inbox[n] == Text(Some(Ping)) ==> done == [Sent(Pong)])
      && (done != [] ==>
            && inbox[n].Text? && inbox[n].frame.Some?
            && (inbox[n].frame.value.Request? || inbox[n].frame.value.Policy? || inbox[n].frame.value.Ping?))
  {
    var all := Serving(inbox);
    if inbox[0].Close? || inbox[0].Broken? {
      k := 0;
    } else {
      var head, rest := [Got(inbox[0])] + Reaction(inbox[0]), Serving(inbox[1..]);
      assert all == head + rest;
      if n == 0 {
        k := 0;
        ServingStartsByReading(inbox[1..]);
      } else {
        var j := EveryMessageActedOn(inbox[1..], n - 1);
        k := |head| + j;
        assert all[k] == rest[j] && (j + 1 < |rest| ==> all[k + 1] == rest[j + 1]);
      }
    }
  }

  lemma {:induction false} ServingStartsByReading(inbox: seq<Message>)
    ensures Serving(inbox) != [] ==> Serving(inbox)[0].Got?
  {
  }

  /** A serving session dispatches every request that arrives, once each and in order. */
  lemma {:induction false} EveryRequestDispatched(inbox: seq<Message>)
    ensures Dispatches(Serving(inbox)) == Requests(inbox)
  {
    if inbox != [] && !inbox[0].Close? && !inbox[0].Broken? {
      EveryRequestDispatched(inbox[1..]);
      var head := [Got(inbox[0])] + Reaction(inbox[0]);
      DispatchesJoin(head, Serving(inbox[1..]));
      DispatchesJoin([Got(inbox[0])], Reaction(inbox[0]));
    }
  }

  /** Off the signature path nothing is proven: the first request is dispatched with no challenge at all. */
  lemma LegacyPathNeedsNoProof(cfg: Config, id: string, tool: string)
    requires !cfg.signaturePath
    ensures
      var trace := SessionTrace(cfg, [Text(Some(Request(id, tool)))]);
      exists k :: 0 <= k < |trace| && trace[k] == Dispatched(id, tool) && !ProvenBefore(cfg, trace, k)
  {
    var inbox := [Text(Some(Request(id, tool)))];
    var trace := SessionTrace(cfg, inbox);
    assert Serving(inbox[1..]) == [];
    assert trace[3] == Dispatched(id, tool);
  }

  // ---- Reconnecting ----

  const BACKOFF_MIN: nat := 1
  const BACKOFF_MAX: nat := 60

  function Pow2(n: nat): nat { if n == 0 then 1 else 2 * Pow2(n - 1) }

  /** The latest session up to `i` that closed cleanly, or the first session. */
  function LastClean(clean: seq<bool>, i: nat): (j: nat)
    requires i < |clean|
    ensures j <= i
    ensures j == 0 || clean[j]
    ensures forall k :: j < k <= i ==> !clean[k]
  {
    if i == 0 || clean[i] then i else LastClean(clean, i - 1)
  }

  /** The delay after session `i`: a second doubled once per session since the latest clean one, up to a minute. */
  function Delay(clean: seq<bool>, i: nat): nat
    requires i < |clean|
  {
    Min(Pow2(i - LastClean(clean, i)), BACKOFF_MAX)
  }

  /** A second after a clean session and the first; otherwise twice the delay before, a minute at most. */
  lemma DelayStep(clean: seq<bool>, i: nat)
    requires i < |clean|
    ensures i == 0 || clean[i] ==> Delay(clean, i) == 1
    ensures i > 0 && !clean[i] ==>
      Delay(clean, i) == if Delay(clean, i - 1) < 30 then 2 * Delay(clean, i - 1) else 60
  {
  }

  /** The delays slept after each session in turn, by doubling in place. */
  method Backoffs(clean: seq<bool>) returns (delays: seq<nat>)
    ensures |delays| == |clean|
    ensures forall i :: 0 <= i < |clean| ==> delays[i] == Delay(clean, i)
  {
    delays := [];
    var backoff := BACKOFF_MIN;
    for i := 0 to |clean|
      invariant |delays| == i
      invariant forall j :: 0 <= j < i ==> delays[j] == Delay(clean, j)
      invariant backoff == if i == 0 then BACKOFF_MIN else Min(2 * Delay(clean, i - 1), BACKOFF_MAX)
    {
      if clean[i] {
        backoff := BACKOFF_MIN;
      }
      DelayStep(clean, i);
      delays := delays + [backoff];
      backoff := Min(backoff * 2, BACKOFF_MAX);
    }
  }

  /** Delays lie between a second and a minute and never shrink while sessions keep failing. */
  lemma DelaysGrow(clean: seq<bool>, i: nat)
    requires i < |clean|
    ensures BACKOFF_MIN <= Delay(clean, i) <= BACKOFF_MAX
    ensures i > 0 && !clean[i] ==> Delay(clean, i - 1) <= Delay(clean, i)
  {
    DelayStep(clean, i);
    if i > 0 && !clean[i] {
      DelaysGrow(clean, i - 1);
    }
  }
}
