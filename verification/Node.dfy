/**
 A vehicle node as the mutable object of node/node.go, node/replica.go and node/leader.go.
 Every method is proved to take the node from one NodeState to the next exactly as the
 functions of NodeModel say.
 */
module NodeObject {
  import opened Prelude
  import opened Messages
  import opened Quorum
  import opened NodeModel
  import opened Weights
  import opened VoteTally
  import opened Geometry

  class Node {
    const id: string
    const pubKey: Key
    var role: Role
    var knownKeys: map<string, Option<Key>>
    var view: int
    var seqId: int
    var prepares: map<int, set<string>>
    var commits: map<int, set<string>>
    var log: seq<string>
    var executed: set<int>
    var reputation: real
    var baseReputation: real
    var knownReputations: map<string, real>
    var clusterIdx: int
    var location: Point
    var voteReplies: map<string, Ballot>

    ghost function State(): NodeState
      reads this
    {
      NodeState(id, role, pubKey, knownKeys, view, seqId, prepares, commits, log, executed,
                reputation, baseReputation, knownReputations)
    }

    /** NewNode: everything empty except the node's own key, so that it can verify itself. */
    constructor (id: string, role: Role, clusterIdx: int, location: Point, pubKey: Key)
      ensures this.id == id && this.pubKey == pubKey
      ensures this.clusterIdx == clusterIdx && this.location == location && voteReplies == map[]
      ensures State() ==
              NodeState(id, role, pubKey, map[id := Some(pubKey)], 0, 0, map[], map[], [], {}, 0.0, 0.0, map[])
    {
      this.id := id;
      this.role := role;
      this.pubKey := pubKey;
      knownKeys := map[id := Some(pubKey)];
      view, seqId := 0, 0;
      prepares, commits := map[], map[];
      log, executed := [], {};
      reputation, baseReputation, knownReputations := 0.0, 0.0, map[];
      this.clusterIdx, this.location, voteReplies := clusterIdx, location, map[];
    }

    method AddPrepare(seqId: int, sender: string) returns (count: nat)
      modifies this
      ensures State() == WithPrepares(old(State()), seqId, {sender})
      ensures count == |Tally(old(prepares), seqId) + {sender}|
    {
      if seqId !in prepares {
        prepares := prepares[seqId := {}];
      }
      prepares := prepares[seqId := prepares[seqId] + {sender}];
      count := |prepares[seqId]|;
    }

    method AddCommit(seqId: int, sender: string) returns (count: nat)
      modifies this
      ensures State() == WithCommits(old(State()), seqId, {sender})
      ensures count == |Tally(old(commits), seqId) + {sender}|
    {
      if seqId !in commits {
        commits := commits[seqId := {}];
      }
      commits := commits[seqId := commits[seqId] + {sender}];
      count := |commits[seqId]|;
    }

    method ApplyOperation(seqId: int, operation: string)
      modifies this
      ensures State() == Applied(old(State()), seqId, operation)
    {
      if seqId in executed {
        return;
      }
      log := log + [operation];
      executed := executed + {seqId};
    }

    method NextSequenceID() returns (next: int)
      modifies this`seqId
      ensures State() == AfterStart(old(State())) && next == State().seqId
    {
      seqId := seqId + 1;
      next := seqId;
    }

    /** None when the node is not a leader. */
    method StartPBFT(operation: string) returns (env: Option<Envelope>)
      modifies this`seqId
      ensures old(role) != Leader ==> env == None && State() == old(State())
      ensures old(role) == Leader ==>
                && State() == AfterStart(old(State()))
                && env == Some(PrePrepareEnvelope(State(), State().seqId, operation))
    {
      if role != Leader {
        return None;
      }
      var next := NextSequenceID();
      env := Some(Envelope(id, pubKey, PrePrepare(view, next, Digest(operation), operation)));
    }

    method HandlePrePrepare(env: Envelope) returns (r: Handled<Envelope>)
      modifies this
      ensures State() == AfterPrePrepare(old(State()), env)
      ensures r == if AcceptsPrePrepare(old(State()), env) then Sent(PrepareEnvelope(State(), env.body)) else Rejected
    {
      if env.sender !in knownKeys || !ValidateEnvelope(env, knownKeys[env.sender]) || !env.body.PrePrepare? {
        return Rejected;
      }
      if Digest(env.body.message) != env.body.digest {
        return Rejected;
      }
      var conflictKey := ConflictKey(env.body.view, env.body.seqId);
      if conflictKey !in knownKeys {
        knownKeys := knownKeys[conflictKey := None];
      }
      r := Sent(Envelope(id, pubKey, Prepare(env.body.view, env.body.seqId, env.body.digest, id)));
    }

    method HandlePrepare(env: Envelope, f: int) returns (r: Handled<Envelope>)
      modifies this
      ensures State() == AfterPrepare(old(State()), env)
      ensures r == PrepareOutcome(old(State()), env, f)
    {
      if env.sender !in knownKeys || !ValidateEnvelope(env, knownKeys[env.sender]) || !env.body.Prepare? {
        return Rejected;
      }
      if env.body.view != view {
        return Rejected;
      }
      var count := AddPrepare(env.body.seqId, env.sender);
      if !HasQuorumLocal(count, f) {
        return Waiting;
      }
      r := Sent(Envelope(id, pubKey, Commit(env.body.view, env.body.seqId, env.body.digest, id)));
    }

    method HandleCommit(env: Envelope, f: int, operation: string, clientId: string) returns (r: Handled<Reply>)
      modifies this
      ensures State() == AfterCommit(old(State()), env, f, operation)
      ensures r == CommitOutcome(old(State()), env, f, operation, clientId)
    {
      if env.sender !in knownKeys || !ValidateEnvelope(env, knownKeys[env.sender]) || !env.body.Commit? {
        return Rejected;
      }
      if env.body.view != view {
        return Rejected;
      }
      var count := AddCommit(env.body.seqId, env.sender);
      if !HasQuorumLocal(count, f) {
        return Waiting;
      }
      ApplyOperation(env.body.seqId, operation);
      r := Sent(Reply(env.body.view, env.body.seqId, clientId, id, OkResult(operation)));
    }

    // ---- Votes ---------------------------------------------------------------------------

    method AddVoteReply(sender: string, ballot: Ballot) returns (count: nat)
      modifies this`voteReplies
      ensures voteReplies == old(voteReplies)[sender := ballot] && count == |voteReplies|
    {
      voteReplies := voteReplies[sender := ballot];
      count := |voteReplies|;
    }

    method ClearVoteReplies()
      modifies this`voteReplies
      ensures voteReplies == map[]
    {
      voteReplies := map[];
    }

    /**
     One vote is counted per authentic envelope. Until 2f+1 are counted the node only remembers the
     votes; a decision clears them, and LOCAL also draws a sequence number.
     */
    method HandleVoteReplies(envs: seq<VoteEnvelope>, f: int, operation: string, clientId: string)
      returns (next: NextStep)
      modifies this`voteReplies, this`seqId
      ensures old(role) != Leader ==> next == NotTheLeader && State() == old(State()) && voteReplies == old(voteReplies)
      ensures old(role) == Leader ==>
                match DecisionByEnvelopes(knownKeys, envs, f)
                case NoQuorum =>
                  && next == AwaitMore && State() == old(State())
                  && voteReplies == Remembered(old(voteReplies), knownKeys, envs)
                case DecidedGlobal =>
                  && next == Multicast(InterClusterRequest(operation, clientId, clusterIdx)) && State() == old(State())
                  && voteReplies == map[]
                case DecidedLocal =>
                  && State() == AfterStart(old(State()))
                  && next == Propose(PrePrepareEnvelope(State(), State().seqId, operation))
                  && voteReplies == map[]
    {
      if role != Leader {
        return NotTheLeader;
      }
      var globals, locals := 0, 0;
      for i := 0 to |envs|
        invariant globals == CountVotes(knownKeys, envs[..i], Global)
        invariant locals == CountVotes(knownKeys, envs[..i], Local)
        invariant voteReplies == Remembered(old(voteReplies), knownKeys, envs[..i])
        modifies this`voteReplies
      {
        assert envs[..i + 1][..i] == envs[..i];
        var env := envs[i];
        if AuthenticVote(knownKeys, env) && env.ballot != Malformed {
          var _ := AddVoteReply(env.sender, env.ballot);
          if env.ballot == Global {
            globals := globals + 1;
          } else if env.ballot == Local {
            locals := locals + 1;
          }
        }
      }
      assert envs[..|envs|] == envs;
      if !HasQuorumLocal(globals + locals, f) {
        return AwaitMore;
      }
      if globals >= locals {
        ClearVoteReplies();
        return Multicast(InterClusterRequest(operation, clientId, clusterIdx));
      }
      var pp := StartPBFT(operation);
      ClearVoteReplies();
      next := Propose(pp.value);
    }

    // ---- Reputation ----------------------------------------------------------------------

    method InitReputation(rep: real, clusterReps: map<string, real>)
      modifies this
      ensures State() == old(State()).(reputation := rep, baseReputation := rep, knownReputations := clusterReps)
    {
      reputation, baseReputation := rep, rep;
      knownReputations := clusterReps;
    }

    method SumWeights(senders: set<string>) returns (total: real)
      ensures total == Weight(knownReputations, senders)
    {
      total := 0.0;
      var rest := senders;
      while rest != {}
        invariant rest <= senders
        invariant total + Weight(knownReputations, rest) == Weight(knownReputations, senders)
        decreases rest
      {
        var sender :| sender in rest;
        WeightRemove(knownReputations, rest, sender);
        total := total + RepOf(knownReputations, sender);
        rest := rest - {sender};
      }
    }

    method GetPrepareWeight(seqId: int) returns (total: real)
      ensures total == Weight(knownReputations, Tally(prepares, seqId))
    {
      if seqId !in prepares {
        return 0.0;
      }
      total := SumWeights(prepares[seqId]);
    }

    method GetCommitWeight(seqId: int) returns (total: real)
      ensures total == Weight(knownReputations, Tally(commits, seqId))
    {
      if seqId !in commits {
        return 0.0;
      }
      total := SumWeights(commits[seqId]);
    }

    method UpdateReputation(honest: bool, alpha: real, beta: real, gamma: real, ln: real -> real)
      requires LogLike(ln) && beta > 0.0
      modifies this
      ensures State() == old(State()).(
                reputation := Updated(old(reputation), old(baseReputation), honest, alpha, beta, gamma, ln))
    {
      if honest {
        var excess := Max(reputation - baseReputation, 0.0);
        reputation := reputation + alpha / (ln(excess) + beta);
      } else {
        reputation := reputation * gamma;
      }
      if reputation < 0.0 {
        reputation := 0.0;
      }
    }

    /** Peer scores are overwritten; the node's own entry is left as it was. */
    method SyncReputations(reps: map<string, real>)
      modifies this
      ensures State() == old(State()).(knownReputations := old(knownReputations) + (reps - {id}))
    {
      var rest := reps.Keys;
      while rest != {}
        invariant rest <= reps.Keys
        invariant State() == old(State()).(knownReputations := old(knownReputations) + (reps - {id} - rest))
        decreases rest
      {
        var peer :| peer in rest;
        rest := rest - {peer};
        if peer != id {
          knownReputations := knownReputations[peer := reps[peer]];
        }
      }
    }
  }
}
