/**
 The Vote phase as two tallies over the same reply envelopes: one vote per sender, which is what
 RunVotePhase computes (protocol/vote.go:44-89), and one vote per envelope, which is what
 HandleVoteReplies computes (node/leader.go:119-183).
 */
module VoteTally {
  import opened Prelude
  import opened Messages
  import opened Quorum

  /** `Other` decodes but names no known transition; `Malformed` does not decode. */
  datatype Ballot = Global | Local | Other | Malformed

  datatype VoteEnvelope = VoteEnvelope(sender: string, signer: Key, ballot: Ballot)

  datatype Decision = DecidedGlobal | DecidedLocal | NoQuorum

  datatype InterClusterRequest = InterClusterRequest(operation: string, clientId: string, origin: int)

  datatype NextStep =
    | NotTheLeader
    | AwaitMore
    | Multicast(request: InterClusterRequest)
    | Propose(prePrepare: Envelope)

  predicate AuthenticVote(keys: map<string, Option<Key>>, env: VoteEnvelope) {
    env.sender in keys && keys[env.sender] == Some(env.signer)
  }

  /** GLOBAL wins ties. */
  function Decide(globals: nat, locals: nat, f: int): Decision {
    if !HasQuorumLocal(globals + locals, f) then NoQuorum
    else if globals >= locals then DecidedGlobal
    else DecidedLocal
  }

  // ---- One vote per sender ---------------------------------------------------------------

  /** Envelope i is the first authentic one of its sender. */
  predicate IsFirst(keys: map<string, Option<Key>>, envs: seq<VoteEnvelope>, i: nat)
    requires i < |envs|
  {
    AuthenticVote(keys, envs[i]) && forall j :: 0 <= j < i && AuthenticVote(keys, envs[j]) ==>
      envs[j].sender != envs[i].sender
  }

  /** The senders whose first authentic envelope carries `b`. */
  ghost function Voters(keys: map<string, Option<Key>>, envs: seq<VoteEnvelope>, b: Ballot): set<string> {
    set i | 0 <= i < |envs| && IsFirst(keys, envs, i) && envs[i].ballot == b :: envs[i].sender
  }

  ghost function Seen(keys: map<string, Option<Key>>, envs: seq<VoteEnvelope>): set<string> {
    set i | 0 <= i < |envs| && AuthenticVote(keys, envs[i]) :: envs[i].sender
  }

  ghost function DecisionBySenders(keys: map<string, Option<Key>>, envs: seq<VoteEnvelope>, f: int): Decision {
    Decide(|Voters(keys, envs, Global)|, |Voters(keys, envs, Local)|, f)
  }

  lemma {:induction false} SeenStep(keys: map<string, Option<Key>>, envs: seq<VoteEnvelope>, i: nat)
    requires i < |envs|
    ensures Seen(keys, envs[..i + 1]) ==
            Seen(keys, envs[..i]) + (if AuthenticVote(keys, envs[i]) then {envs[i].sender} else {})
    ensures IsFirst(keys, envs, i) <==> AuthenticVote(keys, envs[i]) && envs[i].sender !in Seen(keys, envs[..i])
  {
    assert envs[..i + 1] == envs[..i] + [envs[i]];
    if envs[i].sender in Seen(keys, envs[..i]) {
      var j :| 0 <= j < i && AuthenticVote(keys, envs[..i][j]) && envs[..i][j].sender == envs[i].sender;
    }
    if AuthenticVote(keys, envs[i]) && !IsFirst(keys, envs, i) {
      var j :| 0 <= j < i && AuthenticVote(keys, envs[j]) && envs[j].sender == envs[i].sender;
      assert envs[..i][j] == envs[j];
    }
  }

  lemma {:induction false} FirstInPrefix(keys: map<string, Option<Key>>, envs: seq<VoteEnvelope>, i: nat, n: nat)
    requires i < n <= |envs|
    ensures IsFirst(keys, envs[..n], i) <==> IsFirst(keys, envs, i)
  {
    if !IsFirst(keys, envs, i) && AuthenticVote(keys, envs[i]) {
      var j :| 0 <= j < i && AuthenticVote(keys, envs[j]) && envs[j].sender == envs[i].sender;
      assert envs[..n][j] == envs[j];
    }
  }

  lemma {:induction false} VotersStep(keys: map<string, Option<Key>>, envs: seq<VoteEnvelope>, i: nat, b: Ballot)
    requires i < |envs|
    ensures Voters(keys, envs[..i + 1], b) ==
            Voters(keys, envs[..i], b)
              + (if IsFirst(keys, envs, i) && envs[i].ballot == b then {envs[i].sender} else {})
    ensures IsFirst(keys, envs, i) ==> envs[i].sender !in Voters(keys, envs[..i], b)
  {
    forall k | 0 <= k <= i
      ensures IsFirst(keys, envs[..i + 1], k) <==> IsFirst(keys, envs, k)
      ensures k < i ==> (IsFirst(keys, envs[..i], k) <==> IsFirst(keys, envs, k))
    {
      FirstInPrefix(keys, envs, k, i + 1);
      if k < i {
        FirstInPrefix(keys, envs, k, i);
      }
    }
    SameVoters(keys, envs, i, b);
  }

  lemma {:induction false} SameVoters(keys: map<string, Option<Key>>, envs: seq<VoteEnvelope>, i: nat, b: Ballot)
    requires i < |envs|
    requires forall k :: 0 <= k <= i ==> (IsFirst(keys, envs[..i + 1], k) <==> IsFirst(keys, envs, k))
    requires forall k :: 0 <= k < i ==> (IsFirst(keys, envs[..i], k) <==> IsFirst(keys, envs, k))
    ensures Voters(keys, envs[..i + 1], b) ==
            Voters(keys, envs[..i], b)
              + (if IsFirst(keys, envs, i) && envs[i].ballot == b then {envs[i].sender} else {})
  {
    var before, after := Voters(keys, envs[..i], b), Voters(keys, envs[..i + 1], b);
    forall id | id in before
      ensures id in after
    {
      var k :| 0 <= k < i && IsFirst(keys, envs[..i], k) && envs[..i][k].ballot == b && envs[..i][k].sender == id;
      assert envs[..i + 1][k] == envs[k];
    }
    forall id | id in after && !(IsFirst(keys, envs, i) && envs[i].ballot == b && envs[i].sender == id)
      ensures id in before
    {
      var k :| 0 <= k < i + 1 && IsFirst(keys, envs[..i + 1], k) && envs[..i + 1][k].ballot == b
               && envs[..i + 1][k].sender == id;
      assert envs[..i][k] == envs[k];
    }
    if IsFirst(keys, envs, i) && envs[i].ballot == b {
      assert envs[..i + 1][i] == envs[i];
    }
  }

  /** What one more reply adds to the number of voters. */
  lemma {:induction false} VoterCountStep(keys: map<string, Option<Key>>, envs: seq<VoteEnvelope>, i: nat, b: Ballot)
    requires i < |envs|
    ensures |Voters(keys, envs[..i + 1], b)| == |Voters(keys, envs[..i], b)|
            + (if AuthenticVote(keys, envs[i]) && envs[i].sender !in Seen(keys, envs[..i])
               && envs[i].ballot == b then 1 else 0)
  {
    SeenStep(keys, envs, i);
    VotersStep(keys, envs, i, b);
  }

  // ---- One vote per envelope -------------------------------------------------------------

  function CountVotes(keys: map<string, Option<Key>>, envs: seq<VoteEnvelope>, b: Ballot): nat {
    if envs == [] then 0
    else
      var last := envs[|envs| - 1];
      CountVotes(keys, envs[..|envs| - 1], b) + (if AuthenticVote(keys, last) && last.ballot == b then 1 else 0)
  }

  function DecisionByEnvelopes(keys: map<string, Option<Key>>, envs: seq<VoteEnvelope>, f: int): Decision {
    Decide(CountVotes(keys, envs, Global), CountVotes(keys, envs, Local), f)
  }

  /** What AddVoteReply leaves behind: the latest authentic, decodable vote of every sender. */
  function Remembered(
      m: map<string, Ballot>, keys: map<string, Option<Key>>, envs: seq<VoteEnvelope>): map<string, Ballot> {
    if envs == [] then m
    else
      var before, last := Remembered(m, keys, envs[..|envs| - 1]), envs[|envs| - 1];
      if AuthenticVote(keys, last) && last.ballot != Malformed then before[last.sender := last.ballot] else before
  }

  /** Envelope i is the latest authentic, decodable one of its sender. */
  ghost predicate IsLatest(keys: map<string, Option<Key>>, envs: seq<VoteEnvelope>, i: nat) {
    && i < |envs| && AuthenticVote(keys, envs[i]) && envs[i].ballot != Malformed
    && forall j :: i < j < |envs| && AuthenticVote(keys, envs[j]) && envs[j].ballot != Malformed ==>
         envs[j].sender != envs[i].sender
  }

  lemma {:induction false} LatestIsRemembered(
      m: map<string, Ballot>, keys: map<string, Option<Key>>, envs: seq<VoteEnvelope>, i: nat)
    requires IsLatest(keys, envs, i)
    ensures envs[i].sender in Remembered(m, keys, envs) && Remembered(m, keys, envs)[envs[i].sender] == envs[i].ballot
  {
    var n := |envs| - 1;
    if i < n {
      assert IsLatest(keys, envs[..n], i);
      LatestIsRemembered(m, keys, envs[..n], i);
    }
  }

  /** Nobody else's vote is touched. */
  lemma {:induction false} OthersAreRemembered(
      m: map<string, Ballot>, keys: map<string, Option<Key>>, envs: seq<VoteEnvelope>, id: string)
    requires forall e :: e in envs && AuthenticVote(keys, e) && e.ballot != Malformed ==> e.sender != id
    ensures id in Remembered(m, keys, envs) <==> id in m
    ensures id in m ==> Remembered(m, keys, envs)[id] == m[id]
  {
    if envs != [] {
      OthersAreRemembered(m, keys, envs[..|envs| - 1], id);
    }
  }

  // ---- Forged votes ----------------------------------------------------------------------

  /** What the last envelope adds to the senders seen, to the voters and to the count of votes. */
  lemma {:induction false} LastVote(
      keys: map<string, Option<Key>>, before: seq<VoteEnvelope>, e: VoteEnvelope, v: Ballot)
    ensures var voter := if AuthenticVote(keys, e) then {e.sender} else {};
            && Seen(keys, before + [e]) == Seen(keys, before) + voter
            && Voters(keys, before + [e], v) ==
               Voters(keys, before, v) + (if e.ballot == v then voter - Seen(keys, before) else {})
            && CountVotes(keys, before + [e], v) ==
               CountVotes(keys, before, v) + (if AuthenticVote(keys, e) && e.ballot == v then 1 else 0)
  {
    var n, envs := |before|, before + [e];
    assert envs[..n] == before && envs[..n + 1] == envs;
    SeenStep(keys, envs, n);
    VotersStep(keys, envs, n, v);
  }

  lemma {:induction false} ForgedVoteStep(
      keys: map<string, Option<Key>>, a: seq<VoteEnvelope>, e: VoteEnvelope, b: seq<VoteEnvelope>, v: Ballot)
    requires !(e.sender in keys && keys[e.sender] == Some(e.signer))
    ensures Seen(keys, a + [e] + b) == Seen(keys, a + b)
    ensures Voters(keys, a + [e] + b, v) == Voters(keys, a + b, v)
    ensures CountVotes(keys, a + [e] + b, v) == CountVotes(keys, a + b, v)
  {
    if b == [] {
      assert a + [e] + b == a + [e] && a + b == a;
      LastVote(keys, a, e, v);
    } else {
      var rest, last := b[..|b| - 1], b[|b| - 1];
      ForgedVoteStep(keys, a, e, rest, v);
      assert a + [e] + b == a + [e] + rest + [last] && a + b == a + rest + [last];
      LastVote(keys, a + [e] + rest, last, v);
      LastVote(keys, a + rest, last, v);
    }
  }

  lemma {:induction false} ForgedVoteIsForgotten(
      m: map<string, Ballot>, keys: map<string, Option<Key>>, a: seq<VoteEnvelope>, e: VoteEnvelope,
      b: seq<VoteEnvelope>)
    requires !(e.sender in keys && keys[e.sender] == Some(e.signer))
    ensures Remembered(m, keys, a + [e] + b) == Remembered(m, keys, a + b)
  {
    var n := |a| + |b|;
    var long, short := a + [e] + b, a + b;
    if b == [] {
      assert long == a + [e] && short == a;
      assert long[..n] == a;
    } else {
      var rest := b[..|b| - 1];
      ForgedVoteIsForgotten(m, keys, a, e, rest);
      assert long[..n] == a + [e] + rest;
      assert short[..n - 1] == a + rest;
    }
  }

  /** A vote not signed with the key held for its sender changes nothing, wherever it comes in. */
  lemma {:induction false} ForgedVotesAreIgnored(
      m: map<string, Ballot>, keys: map<string, Option<Key>>, a: seq<VoteEnvelope>, e: VoteEnvelope,
      b: seq<VoteEnvelope>, f: int)
    requires !(e.sender in keys && keys[e.sender] == Some(e.signer))
    ensures DecisionByEnvelopes(keys, a + [e] + b, f) == DecisionByEnvelopes(keys, a + b, f)
    ensures DecisionBySenders(keys, a + [e] + b, f) == DecisionBySenders(keys, a + b, f)
    ensures Remembered(m, keys, a + [e] + b) == Remembered(m, keys, a + b)
  {
    ForgedVoteStep(keys, a, e, b, Global);
    ForgedVoteStep(keys, a, e, b, Local);
    ForgedVoteIsForgotten(m, keys, a, e, b);
  }

  // ---- Repeated votes --------------------------------------------------------------------

  lemma {:induction false} RepeatedVoteStep(
      keys: map<string, Option<Key>>, a: seq<VoteEnvelope>, e: VoteEnvelope, b: seq<VoteEnvelope>, v: Ballot)
    requires e.sender in Seen(keys, a)
    ensures Seen(keys, a + [e] + b) == Seen(keys, a + b)
    ensures Voters(keys, a + [e] + b, v) == Voters(keys, a + b, v)
  {
    if b == [] {
      assert a + [e] + b == a + [e] && a + b == a;
      LastVote(keys, a, e, v);
    } else {
      var rest, last := b[..|b| - 1], b[|b| - 1];
      RepeatedVoteStep(keys, a, e, rest, v);
      assert a + [e] + b == a + [e] + rest + [last] && a + b == a + rest + [last];
      LastVote(keys, a + [e] + rest, last, v);
      LastVote(keys, a + rest, last, v);
    }
  }

  /** By senders, nothing that a sender sends after an authentic vote counts, whatever it says. */
  lemma {:induction false} LaterVotesDoNotCount(
      keys: map<string, Option<Key>>, a: seq<VoteEnvelope>, i: nat, e: VoteEnvelope, b: seq<VoteEnvelope>, f: int)
    requires i < |a| && a[i].sender == e.sender && e.sender in keys && keys[e.sender] == Some(a[i].signer)
    ensures DecisionBySenders(keys, a + [e] + b, f) == DecisionBySenders(keys, a + b, f)
  {
    assert AuthenticVote(keys, a[i]);
    RepeatedVoteStep(keys, a, e, b, Global);
    RepeatedVoteStep(keys, a, e, b, Local);
  }

  // ---- How the two tallies relate --------------------------------------------------------

  /** Authentic envelopes for `b` that are not the first of their sender. */
  ghost predicate Repeats(keys: map<string, Option<Key>>, envs: seq<VoteEnvelope>, b: Ballot) {
    exists i :: 0 <= i < |envs| && AuthenticVote(keys, envs[i]) && envs[i].ballot == b && !IsFirst(keys, envs, i)
  }

  lemma {:induction false} RepeatsStep(keys: map<string, Option<Key>>, envs: seq<VoteEnvelope>, i: nat, b: Ballot)
    requires i < |envs|
    ensures Repeats(keys, envs[..i + 1], b) <==>
            Repeats(keys, envs[..i], b)
              || (AuthenticVote(keys, envs[i]) && envs[i].ballot == b && !IsFirst(keys, envs, i))
  {
    if Repeats(keys, envs[..i], b) {
      var k :| 0 <= k < i && AuthenticVote(keys, envs[..i][k]) && envs[..i][k].ballot == b
               && !IsFirst(keys, envs[..i], k);
      FirstInPrefix(keys, envs, k, i);
      FirstInPrefix(keys, envs, k, i + 1);
      assert envs[..i + 1][k] == envs[k];
    }
    if Repeats(keys, envs[..i + 1], b) {
      var k :| 0 <= k < i + 1 && AuthenticVote(keys, envs[..i + 1][k]) && envs[..i + 1][k].ballot == b
               && !IsFirst(keys, envs[..i + 1], k);
      FirstInPrefix(keys, envs, k, i + 1);
      if k < i {
        FirstInPrefix(keys, envs, k, i);
        assert envs[..i][k] == envs[k];
      }
    }
    if AuthenticVote(keys, envs[i]) && envs[i].ballot == b && !IsFirst(keys, envs, i) {
      FirstInPrefix(keys, envs, i, i + 1);
      assert envs[..i + 1][i] == envs[i];
    }
  }

  lemma {:induction false} TallyStep(keys: map<string, Option<Key>>, envs: seq<VoteEnvelope>, i: nat, b: Ballot)
    requires i < |envs|
    ensures CountVotes(keys, envs[..i + 1], b) ==
            CountVotes(keys, envs[..i], b) + (if AuthenticVote(keys, envs[i]) && envs[i].ballot == b then 1 else 0)
    ensures |Voters(keys, envs[..i + 1], b)| ==
            |Voters(keys, envs[..i], b)| + (if IsFirst(keys, envs, i) && envs[i].ballot == b then 1 else 0)
  {
    VotersStep(keys, envs, i, b);
    assert envs[..i + 1][..i] == envs[..i];
  }

  lemma {:induction false} TalliesOverPrefix(keys: map<string, Option<Key>>, envs: seq<VoteEnvelope>, n: nat, b: Ballot)
    requires n <= |envs|
    ensures CountVotes(keys, envs[..n], b) >= |Voters(keys, envs[..n], b)|
    ensures CountVotes(keys, envs[..n], b) == |Voters(keys, envs[..n], b)| <==> !Repeats(keys, envs[..n], b)
  {
    if n > 0 {
      TalliesOverPrefix(keys, envs, n - 1, b);
      TallyStep(keys, envs, n - 1, b);
      RepeatsStep(keys, envs, n - 1, b);
    }
  }

  /**
   HandleVoteReplies is documented to ignore repeated senders, but counts every envelope. Its count
   for a transition is the number of distinct senders exactly when no authentic envelope for that
   transition follows an earlier authentic envelope of the same sender; otherwise it is larger.
   */
  lemma {:induction false} CountsSendersIffNoRepeat(keys: map<string, Option<Key>>, envs: seq<VoteEnvelope>, b: Ballot)
    ensures CountVotes(keys, envs, b) >= |Voters(keys, envs, b)|
    ensures CountVotes(keys, envs, b) == |Voters(keys, envs, b)| <==> !Repeats(keys, envs, b)
  {
    TalliesOverPrefix(keys, envs, |envs|, b);
    assert envs[..|envs|] == envs;
  }

  /** On replies without repeated senders both tallies reach the same decision, or both none. */
  lemma {:induction false} SameDecisionWithoutRepeats(keys: map<string, Option<Key>>, envs: seq<VoteEnvelope>, f: int)
    requires forall i, j :: 0 <= i < j < |envs| && AuthenticVote(keys, envs[i]) && AuthenticVote(keys, envs[j]) ==>
               envs[i].sender != envs[j].sender
    ensures DecisionByEnvelopes(keys, envs, f) == DecisionBySenders(keys, envs, f)
  {
    CountsSendersIffNoRepeat(keys, envs, Global);
    CountsSendersIffNoRepeat(keys, envs, Local);
  }

  lemma {:induction false} CountOfCopies(keys: map<string, Option<Key>>, vote: VoteEnvelope, n: nat, b: Ballot)
    requires AuthenticVote(keys, vote)
    ensures CountVotes(keys, seq(n, _ => vote), b) == if vote.ballot == b then n else 0
  {
    if n > 0 {
      CountOfCopies(keys, vote, n - 1, b);
      assert seq(n, _ => vote)[..n - 1] == seq(n - 1, _ => vote);
    }
  }

  /**
   For every f >= 1, a single replica that repeats itself 2f+1 times decides by envelopes on its
   own, while by senders it is one vote.
   */
  lemma {:induction false} RepeatedSenderDecidesAlone(key: Key, f: nat)
    requires f >= 1
    ensures var keys, envs := map["r" := Some(key)], seq(2 * f + 1, _ => VoteEnvelope("r", key, Local));
            && DecisionByEnvelopes(keys, envs, f) == DecidedLocal
            && DecisionBySenders(keys, envs, f) == NoQuorum
  {
    var keys, vote := map["r" := Some(key)], VoteEnvelope("r", key, Local);
    var envs := seq(2 * f + 1, _ => vote);
    CountOfCopies(keys, vote, 2 * f + 1, Global);
    CountOfCopies(keys, vote, 2 * f + 1, Local);
    SubsetSize(Voters(keys, envs, Local), {"r"});
    assert Voters(keys, envs, Global) == {};
  }

  // ---- What a decision says --------------------------------------------------------------

  /** 2f+1 votes decide; as many for one transition as for the other count as GLOBAL. */
  ghost predicate Decides(globals: nat, locals: nat, f: int, d: Decision) {
    && (d == NoQuorum <==> globals + locals < 2 * f + 1)
    && (d == DecidedGlobal <==> globals + locals >= 2 * f + 1 && globals >= locals)
    && (d == DecidedLocal <==> globals + locals >= 2 * f + 1 && globals < locals)
  }

  lemma {:induction false} DecisionIff(keys: map<string, Option<Key>>, envs: seq<VoteEnvelope>, f: int)
    ensures Decides(|Voters(keys, envs, Global)|, |Voters(keys, envs, Local)|, f, DecisionBySenders(keys, envs, f))
    ensures Decides(CountVotes(keys, envs, Global), CountVotes(keys, envs, Local), f,
                    DecisionByEnvelopes(keys, envs, f))
  {}

  /** One vote each way is decided in favour of GLOBAL by both tallies, whichever came first. */
  lemma {:induction false} SplitVoteIsGlobal(a: VoteEnvelope, b: VoteEnvelope)
    requires a.sender != b.sender && {a.ballot, b.ballot} == {Global, Local}
    ensures var keys, envs := map[a.sender := Some(a.signer), b.sender := Some(b.signer)], [a, b];
            DecisionBySenders(keys, envs, 0) == DecisionByEnvelopes(keys, envs, 0) == DecidedGlobal
  {
    var keys, envs := map[a.sender := Some(a.signer), b.sender := Some(b.signer)], [a, b];
    assert envs[..1] == [a] && envs[..1][..0] == [];
    assert CountVotes(keys, envs[..1], Global) + CountVotes(keys, envs[..1], Local) == 1;
    assert CountVotes(keys, envs, Global) == CountVotes(keys, envs, Local) == 1;
    SameDecisionWithoutRepeats(keys, envs, 0);
  }

  // ---- Faulty voters ---------------------------------------------------------------------

  function DecisionFor(b: Ballot): Decision {
    if b == Global then DecidedGlobal else if b == Local then DecidedLocal else NoQuorum
  }

  lemma {:induction false} DissentersAreFaulty(
      keys: map<string, Option<Key>>, envs: seq<VoteEnvelope>, faulty: set<string>, v: Ballot, b: Ballot)
    requires forall e :: e in envs && AuthenticVote(keys, e) && e.sender !in faulty ==> e.ballot == v
    requires b != v
    ensures Voters(keys, envs, b) <= faulty
  {
    forall id | id in Voters(keys, envs, b)
      ensures id in faulty
    {
      var i :| 0 <= i < |envs| && IsFirst(keys, envs, i) && envs[i].ballot == b && envs[i].sender == id;
      assert envs[i] in envs;
    }
  }

  /**
   With at most f faulty senders, and all others voting alike, a decision by senders is the correct
   senders' vote whenever it is reached at all; it is reached exactly when 2f+1 senders voted.
   */
  lemma {:induction false} CorrectSendersDecide(
      keys: map<string, Option<Key>>, envs: seq<VoteEnvelope>, f: nat, faulty: set<string>, v: Ballot)
    requires |faulty| <= f && (v == Global || v == Local)
    requires forall e :: e in envs && AuthenticVote(keys, e) && e.sender !in faulty ==> e.ballot == v
    ensures DecisionBySenders(keys, envs, f) ==
            if HasQuorumLocal(|Voters(keys, envs, Global)| + |Voters(keys, envs, Local)|, f) then DecisionFor(v)
            else NoQuorum
  {
    var other := if v == Global then Local else Global;
    DissentersAreFaulty(keys, envs, faulty, v, other);
    SubsetSize(Voters(keys, envs, other), faulty);
  }
}
