/**
 One cluster's RunPBFT call as the other clusters see it: at most five turns, four phases and then
 the reputation epoch (protocol/pbft.go:168-382).
 */
module ClusterRun {
  import opened Prelude
  import opened NodeModel
  import opened Round
  import opened Epochs
  import opened PbftInstance
  import opened GlobalOutcomes
  import opened GlobalTransition

  /** What a cluster is asked to do, and how it is configured. */
  datatype Job = Job(call: Call, rule: Rule, updates: bool, tuning: Tuning)

  /** Between its phases a call remembers who sent a Prepare; its result is out once the epoch is over. */
  datatype Stage =
    | InRound(progress: Progress, participants: set<string>)
    | Finished(outcome: Outcome)

  datatype Local = Local(nodes: seq<NodeState>, stage: Stage)

  const STARTING := InRound(Ready, {})

  ghost predicate CanMove(l: Local, job: Job) {
    |l.nodes| > 0 && (job.updates ==> Sound(job.tuning))
  }

  function SiteOf(c: seq<NodeState>, job: Job): Site {
    Site(c, job.rule, job.updates, job.tuning)
  }

  /** Phase 2 is the one that finds out who takes part. */
  ghost function Participating(r: RoundState, before: set<string>): set<string> {
    if r.progress.Announced? then Senders(Gather(PrepareMsgs(r.nodes, r.progress.pp))) else before
  }

  ghost function Concluded(r: RoundState, participants: set<string>, job: Job): (l: Local)
    requires r.progress.Done? && (job.updates ==> Sound(job.tuning))
    ensures |l.nodes| == |r.nodes|
  {
    var outcome := r.progress.outcome;
    Local(if outcome.Replies? && job.updates then EpochUpdate(r.nodes, participants, job.tuning) else r.nodes,
          Finished(outcome))
  }

  /** The next turn: a phase, the epoch, or nothing once the call has returned. */
  ghost function Move(l: Local, job: Job): (next: Local)
    requires CanMove(l, job)
    ensures |next.nodes| == |l.nodes|
  {
    match l.stage
    case Finished(_) => l
    case InRound(progress, participants) =>
      var r := RoundState(l.nodes, progress);
      if progress.Done? then Concluded(r, participants, job)
      else
        var next := Advance(r, job.call, job.rule);
        Local(next.nodes, InRound(next.progress, Participating(r, participants)))
  }

  function TurnsLeft(stage: Stage): nat {
    match stage
    case InRound(progress, _) => PhasesLeft(progress) + 1
    case Finished(_) => 0
  }

  ghost function MoveToEnd(l: Local, job: Job): (final: Local)
    requires CanMove(l, job)
    ensures |final.nodes| == |l.nodes| && final.stage.Finished?
    decreases TurnsLeft(l.stage)
  {
    if l.stage.Finished? then l else MoveToEnd(Move(l, job), job)
  }

  /** The participants a call in progress ends up with. */
  ghost function FinalParticipants(r: RoundState, participants: set<string>, call: Call): set<string>
    requires Staffed(r)
  {
    if r.progress.Ready? then Participants(r.nodes, call) else Participating(r, participants)
  }

  lemma {:induction false} TurnByTurn(r: RoundState, participants: set<string>, job: Job)
    requires Staffed(r) && (job.updates ==> Sound(job.tuning)) && (r.progress.Ready? ==> participants == {})
    ensures MoveToEnd(Local(r.nodes, InRound(r.progress, participants)), job) ==
            Concluded(RunToEnd(r, job.call, job.rule), FinalParticipants(r, participants, job.call), job)
    decreases PhasesLeft(r.progress)
  {
    if !r.progress.Done? {
      var next := Advance(r, job.call, job.rule);
      var after := Participating(r, participants);
      assert FinalParticipants(next, after, job.call) == FinalParticipants(r, participants, job.call);
      TurnByTurn(next, after, job);
    }
  }

  /** Turn by turn, a call ends with the nodes and the outcome of RunPBFT. */
  lemma {:induction false} TurnsAreTheCall(c: seq<NodeState>, job: Job)
    requires |c| > 0 && (job.updates ==> Sound(job.tuning))
    ensures MoveToEnd(Local(c, STARTING), job) ==
            Local(Finish(SiteOf(c, job), job.call), Finished(OutcomeAt(SiteOf(c, job), job.call)))
  {
    TurnByTurn(RoundState(c, Ready), {}, job);
  }
}
