/**
 The value of a node (node/node.go:59-136) and, as functions on that value, what each
 message handler does to it (node/replica.go, node/leader.go). The class in Node.dfy is
 proved to make exactly these state changes.
 */
module NodeModel {
  import opened Prelude
  import opened Messages
  import opened Quorum

  datatype Role = Client | Replica | Leader

  datatype NodeState = NodeState(
    id: string,
    role: Role,
    pubKey: Key,
    knownKeys: map<string, Option<Key>>,
    view: int,
    seqId: int,
    prepares: map<int, set<string>>,
    commits: map<int, set<string>>,
    log: seq<string>,
    executed: set<int>,
    reputation: real,
    baseReputation: real,
    knownReputations: map<string, real>)

  /** What a handler call returns: an error, nothing to send yet, or a message. */
  datatype Handled<+T> = Rejected | Waiting | Sent(msg: T)

  function Tally(m: map<int, set<string>>, seqId: int): set<string> {
    if seqId in m then m[seqId] else {}
  }

  /** The envelope comes from a sender whose key this node holds, signed with that key. */
  predicate Authentic(s: NodeState, env: Envelope) {
    env.sender in s.knownKeys && ValidateEnvelope(env, s.knownKeys[env.sender])
  }

  /** The node holds `key` as the key of `id`. */
  predicate Trusts(s: NodeState, id: string, key: Key) {
    id in s.knownKeys && s.knownKeys[id] == Some(key)
  }

  // ---- Clusters of nodes -----------------------------------------------------------------

  ghost predicate DistinctIds(c: seq<NodeState>) {
    forall i, j :: 0 <= i < j < |c| ==> c[i].id != c[j].id
  }

  function Ids(c: seq<NodeState>): set<string> {
    set s | s in c :: s.id
  }

  // ---- Tallies and execution -------------------------------------------------------------

  function WithPrepares(s: NodeState, seqId: int, senders: set<string>): NodeState {
    s.(prepares := s.prepares[seqId := Tally(s.prepares, seqId) + senders])
  }

  function WithCommits(s: NodeState, seqId: int, senders: set<string>): NodeState {
    s.(commits := s.commits[seqId := Tally(s.commits, seqId) + senders])
  }

  function Applied(s: NodeState, seqId: int, operation: string): NodeState {
    if seqId in s.executed then s
    else s.(log := s.log + [operation], executed := s.executed + {seqId})
  }

  // ---- StartPBFT -------------------------------------------------------------------------

  function AfterStart(s: NodeState): NodeState {
    s.(seqId := s.seqId + 1)
  }

  function PrePrepareEnvelope(s: NodeState, seqId: int, operation: string): Envelope {
    Envelope(s.id, s.pubKey, PrePrepare(s.view, seqId, Digest(operation), operation))
  }

  // ---- HandlePrePrepare ------------------------------------------------------------------

  function Digits(n: nat): string {
    if n < 10 then ["0123456789"[n]] else Digits(n / 10) + ["0123456789"[n % 10]]
  }

  function Decimal(n: int): string {
    if n < 0 then "-" + Digits(-n) else Digits(n)
  }

  /** The synthetic KnownKeys entry under which an accepted (view, sequence) pair is recorded. */
  function ConflictKey(view: int, seqId: int): string {
    "pp:" + Decimal(view) + ":" + Decimal(seqId)
  }

  predicate AcceptsPrePrepare(s: NodeState, env: Envelope) {
    Authentic(s, env) && env.body.PrePrepare? && env.body.digest == Digest(env.body.message)
  }

  function Recorded(s: NodeState, key: string): NodeState {
    if key in s.knownKeys then s else s.(knownKeys := s.knownKeys[key := None])
  }

  function AfterPrePrepare(s: NodeState, env: Envelope): NodeState {
    if AcceptsPrePrepare(s, env) then Recorded(s, ConflictKey(env.body.view, env.body.seqId)) else s
  }

  function PrepareEnvelope(s: NodeState, body: Body): Envelope
    requires body.PrePrepare?
  {
    Envelope(s.id, s.pubKey, Prepare(body.view, body.seqId, body.digest, s.id))
  }

  // ---- HandlePrepare ---------------------------------------------------------------------

  predicate AcceptsPrepare(s: NodeState, env: Envelope) {
    Authentic(s, env) && env.body.Prepare? && env.body.view == s.view
  }

  function AfterPrepare(s: NodeState, env: Envelope): NodeState {
    if AcceptsPrepare(s, env) then WithPrepares(s, env.body.seqId, {env.sender}) else s
  }

  function CommitEnvelope(s: NodeState, body: Body): Envelope
    requires body.Prepare?
  {
    Envelope(s.id, s.pubKey, Commit(body.view, body.seqId, body.digest, s.id))
  }

  /** The Commit a node sends in its own view. */
  function CommitOf(s: NodeState, seqId: int, operation: string): Envelope {
    Envelope(s.id, s.pubKey, Commit(s.view, seqId, Digest(operation), s.id))
  }

  function PrepareOutcome(s: NodeState, env: Envelope, f: int): Handled<Envelope> {
    if !AcceptsPrepare(s, env) then Rejected
    else if HasQuorumLocal(|Tally(s.prepares, env.body.seqId) + {env.sender}|, f) then
      Sent(CommitEnvelope(s, env.body))
    else Waiting
  }

  // ---- HandleCommit ----------------------------------------------------------------------

  predicate AcceptsCommit(s: NodeState, env: Envelope) {
    Authentic(s, env) && env.body.Commit? && env.body.view == s.view
  }

  predicate CommitQuorum(s: NodeState, env: Envelope, f: int) {
    AcceptsCommit(s, env) && HasQuorumLocal(|Tally(s.commits, env.body.seqId) + {env.sender}|, f)
  }

  function AfterCommit(s: NodeState, env: Envelope, f: int, operation: string): NodeState {
    if !AcceptsCommit(s, env) then s
    else
      var t := WithCommits(s, env.body.seqId, {env.sender});
      if CommitQuorum(s, env, f) then Applied(t, env.body.seqId, operation) else t
  }

  function ReplyOf(s: NodeState, body: Body, operation: string, clientId: string): Reply
    requires body.Commit?
  {
    Reply(body.view, body.seqId, clientId, s.id, OkResult(operation))
  }

  function CommitOutcome(s: NodeState, env: Envelope, f: int, operation: string, clientId: string): Handled<Reply> {
    if !AcceptsCommit(s, env) then Rejected
    else if CommitQuorum(s, env, f) then Sent(ReplyOf(s, env.body, operation, clientId))
    else Waiting
  }

  /** A pre-prepare is accepted exactly from a trusted sender and with its own message's digest. */
  lemma {:induction false} AcceptedPrePrepareIff(s: NodeState, env: Envelope)
    requires env.body.PrePrepare?
    ensures AcceptsPrePrepare(s, env) <==>
            Trusts(s, env.sender, env.signer) && env.body.digest == Digest(env.body.message)
    ensures !AcceptsPrePrepare(s, env) ==> AfterPrePrepare(s, env) == s
  {}

  // ---- Conflict keys ---------------------------------------------------------------------

  lemma {:induction false} DigitsInjective(m: nat, n: nat)
    ensures Digits(m) != [] && forall i :: 0 <= i < |Digits(m)| ==> '0' <= Digits(m)[i] <= '9'
    ensures Digits(m) == Digits(n) ==> m == n
    decreases m
  {
    if m >= 10 {
      DigitsInjective(m / 10, n / 10);
      var d := Digits(m / 10);
      assert Digits(m)[..|d|] == d && Digits(m)[|d|] == "0123456789"[m % 10];
    }
    if n >= 10 {
      NonEmptyDigits(n / 10);
      var d := Digits(n / 10);
      assert Digits(n)[..|d|] == d && Digits(n)[|d|] == "0123456789"[n % 10];
    }
  }

  lemma {:induction false} NonEmptyDigits(n: nat)
    ensures Digits(n) != []
  {}

  lemma {:induction false} DecimalInjective(m: int, n: int)
    ensures Decimal(m) == Decimal(n) ==> m == n
    ensures forall i :: 0 <= i < |Decimal(m)| ==> Decimal(m)[i] != ':'
  {
    DigitsInjective(if m < 0 then -m else m, if n < 0 then -n else n);
    DigitsInjective(if n < 0 then -n else n, 0);
    if Decimal(m) == Decimal(n) {
      assert Decimal(m)[0] == Decimal(n)[0];
      assert m < 0 && n < 0 ==> Decimal(m)[1..] == Digits(-m) && Decimal(n)[1..] == Digits(-n);
    }
  }

  lemma {:induction false} SplitAtColon(p: string, a: string, b: string, c: string, d: string)
    requires p + a + ":" + b == p + c + ":" + d
    requires forall i :: 0 <= i < |a| ==> a[i] != ':'
    requires forall i :: 0 <= i < |c| ==> c[i] != ':'
    ensures a == c && b == d
  {
    var x, y := p + a + ":" + b, p + c + ":" + d;
    var s, t := |p| + |a|, |p| + |c|;
    assert x[s] == ':' && y[t] == ':';
    assert forall i :: |p| <= i < s ==> x[i] == a[i - |p|];
    assert forall i :: |p| <= i < t ==> y[i] == c[i - |p|];
    assert s == t;
    assert x[|p|..s] == a && y[|p|..t] == c;
    assert x[s + 1..] == b && y[t + 1..] == d;
  }

  /** Different pairs of view and sequence number are recorded under different keys. */
  lemma {:induction false} ConflictKeysDiffer(v: int, n: int, w: int, m: int)
    ensures ConflictKey(v, n) == ConflictKey(w, m) <==> v == w && n == m
  {
    if ConflictKey(v, n) == ConflictKey(w, m) {
      DecimalInjective(v, w);
      DecimalInjective(w, v);
      DecimalInjective(n, m);
      SplitAtColon("pp:", Decimal(v), Decimal(n), Decimal(w), Decimal(m));
    }
  }

  /** An accepted pre-prepare leaves a record of its own view and sequence number, and of no other pair. */
  lemma {:induction false} PairIsRecorded(s: NodeState, env: Envelope, v: int, n: int)
    requires env.body.PrePrepare? && env.body.digest == Digest(env.body.message)
    requires Trusts(s, env.sender, env.signer)
    ensures ConflictKey(v, n) in AfterPrePrepare(s, env).knownKeys <==>
            ConflictKey(v, n) in s.knownKeys || (v == env.body.view && n == env.body.seqId)
  {
    ConflictKeysDiffer(v, n, env.body.view, env.body.seqId);
  }

  // ---- What handlers never disturb -------------------------------------------------------

  /** The parts of a node that no message handler changes: identity, key, view and trusted keys. */
  ghost predicate SameIdentity(s: NodeState, t: NodeState) {
    && s.id == t.id && s.role == t.role && s.pubKey == t.pubKey && s.view == t.view
    && forall id, key :: Trusts(s, id, key) <==> Trusts(t, id, key)
  }

  /**
   Recording an accepted pre-prepare inside KnownKeys never makes an envelope authentic that
   was not, nor the reverse, even when a peer's ID happens to look like a conflict key.
   */
  lemma {:induction false} ConflictRecordIsHarmless(s: NodeState, env: Envelope, other: Envelope)
    ensures Authentic(AfterPrePrepare(s, env), other) <==> Authentic(s, other)
  {}

  /**
   Nor does the record reject anything: a second pre-prepare for the same view and sequence number is
   judged on its own merits, whatever digest was accepted before.
   */
  lemma {:induction false} EarlierDigestIsForgotten(s: NodeState, env: Envelope, other: Envelope)
    ensures AcceptsPrePrepare(AfterPrePrepare(s, env), other) <==> AcceptsPrePrepare(s, other)
  {
    ConflictRecordIsHarmless(s, env, other);
  }

  lemma {:induction false} HandlersKeepIdentity(s: NodeState, env: Envelope, f: int, operation: string)
    ensures SameIdentity(s, AfterPrePrepare(s, env))
    ensures SameIdentity(s, AfterPrepare(s, env))
    ensures SameIdentity(s, AfterCommit(s, env, f, operation))
  {}
}
