/** RunVotePhase (protocol/vote.go:35-89). */
module Vote {
  import opened Prelude
  import opened Messages
  import opened Quorum
  import opened NodeModel
  import opened NodeObject
  import opened VoteTally

  /** None when the node asked is not a leader. */
  method RunVotePhase(leader: Node, f: int, replies: seq<VoteEnvelope>) returns (decision: Option<Decision>)
    ensures decision == if leader.role == Leader then Some(DecisionBySenders(leader.knownKeys, replies, f)) else None
  {
    if leader.role != Leader {
      return None;
    }
    var globals, locals := 0, 0;
    var seen: set<string> := {};
    for i := 0 to |replies|
      invariant seen == Seen(leader.knownKeys, replies[..i])
      invariant globals == |Voters(leader.knownKeys, replies[..i], Global)|
      invariant locals == |Voters(leader.knownKeys, replies[..i], Local)|
    {
      SeenStep(leader.knownKeys, replies, i);
      VoterCountStep(leader.knownKeys, replies, i, Global);
      VoterCountStep(leader.knownKeys, replies, i, Local);
      var env := replies[i];
      if AuthenticVote(leader.knownKeys, env) && env.sender !in seen {
        seen := seen + {env.sender};
        if env.ballot == Global {
          globals := globals + 1;
        } else if env.ballot == Local {
          locals := locals + 1;
        }
      }
    }
    assert replies[..|replies|] == replies;
    decision := Some(Decide(globals, locals, f));
  }
}
