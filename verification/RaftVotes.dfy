/** What `voted_for` records, and when a node votes for two candidates in one term. */
module RaftVotes {
  import opened Options
  import opened Runs
  import opened RaftModel
  import opened RaftElections
  import opened RaftSteps

  /** `voted_for` names the candidate of every vote the node has cast in its current term. */
  predicate VotesRecorded(s: State) {
    forall b | b in s.ballots && b.voter < |s.nodes| && b.term == s.nodes[b.voter].term ::
      s.nodes[b.voter].votedFor == Some(b.candidate)
  }

  /** Nobody has voted for two candidates in one term. */
  predicate SingleVote(s: State) {
    forall b, b' | b in s.ballots && b' in s.ballots && b.term == b'.term && b.voter == b'.voter ::
      b.candidate == b'.candidate
  }

  /** A candidate handles AppendEntries of its own term. */
  predicate ForgetsVote(s: State, e: Event) {
    Enabled(s, e) && match Delivered(s, e)
      case Some(AppendCall(p, r)) => s.nodes[p].role == Candidate && s.nodes[p].term == r.term
      case _ => false
  }

  /** A node with no vote on record handles a request of its own term, and finds the log it is about up to date,
      although it has stood for election in this term. */
  predicate AsksForgetful(s: State, e: Event) {
    Enabled(s, e) && match Delivered(s, e)
      case Some(VoteCall(p, r)) =>
        && s.nodes[p].term == r.term && s.nodes[p].votedFor == None
        && UpToDate(s.nodes[p].log.entries, r.lastIndex, r.lastTerm) && Ballot(r.term, p, p) in s.ballots
      case _ => false
  }

  // ---------------------------------------------------------------- whose votes a node has cast

  /** A vote on record was cast. Without one, or as a candidate, a node has voted for nobody but itself. */
  predicate VotesKnown(s: State, i: Id)
    requires i < |s.nodes|
  {
    var n := s.nodes[i];
    && (n.votedFor.Some? ==> Ballot(n.term, i, n.votedFor.value) in s.ballots)
    && (n.votedFor.None? || n.role == Candidate ==>
          forall b | b in s.ballots && b.voter == i && b.term == n.term :: b.candidate == i)
  }

  predicate AllKnown(s: State) { forall i: nat | i < |s.nodes| :: VotesKnown(s, i) }

  lemma KnownKeeps(s: State, s': State, i: Id)
    requires Dated(s) && AllKnown(s) && i < |s.nodes| == |s'.nodes|
    requires s'.ballots == s.ballots && KeepsVote(s.nodes[i], s'.nodes[i])
    requires forall j: nat | j < |s.nodes| && j != i :: s'.nodes[j] == s.nodes[j]
    ensures AllKnown(s')
  {
    forall j: nat | j < |s'.nodes| ensures VotesKnown(s', j) {
      assert VotesKnown(s, j);
    }
  }

  lemma KnownVote(s: State, p: Id, r: VoteRequest)
    requires Dated(s) && AllKnown(s) && Idle(s, p) && RoleOk(s, p) && r.candidate != p
    ensures AllKnown(Handled(s, VoteCall(p, r)))
  {
    var s' := Handled(s, VoteCall(p, r));
    forall j: nat | j < |s'.nodes| ensures VotesKnown(s', j) {
      assert VotesKnown(s, j);
    }
  }

  lemma KnownAppend(s: State, p: Id, r: AppendRequest)
    requires Dated(s) && AllKnown(s) && Idle(s, p)
    ensures AllKnown(Handled(s, AppendCall(p, r)))
  {
    var s' := Handled(s, AppendCall(p, r));
    forall j: nat | j < |s'.nodes| ensures VotesKnown(s', j) {
      assert VotesKnown(s, j);
    }
  }

  lemma KnownHandled(s: State, call: Call)
    requires Inv(s) && AllKnown(s) && Idle(s, call.to) && CallOk(s, call)
    ensures AllKnown(Handled(s, call))
  {
    match call
    case VoteCall(p, r) => assert RoleOk(s, p); KnownVote(s, p, r);
    case AppendCall(p, r) => KnownAppend(s, p, r);
  }

  lemma KnownTimeout(s: State, c: Id)
    requires Dated(s) && AllKnown(s) && Enabled(s, Timeout(c))
    ensures AllKnown(Step(s, Timeout(c)))
  {
    var s' := Step(s, Timeout(c));
    forall j: nat | j < |s'.nodes| ensures VotesKnown(s', j) {
      assert VotesKnown(s, j);
    }
  }

  lemma KnownStep(s: State, e: Event)
    requires Inv(s) && AllKnown(s)
    ensures AllKnown(Step(s, e))
  {
    if Enabled(s, e) {
      if e.Timeout? {
        KnownTimeout(s, e.c);
      } else {
        TheRest(s, e);
        var s1 := PeerSide(s, e);
        if Delivered(s, e).Some? {
          DeliveredOk(s, e);
          KnownHandled(s, Delivered(s, e).value);
          HandledKeeps(s, Delivered(s, e).value);
        }
        if Actor(e).Some? {
          KnownKeeps(s1, Step(s, e), Actor(e).value);
        }
      }
    }
  }

  lemma {:induction false} KnownThroughout(ss: seq<State>, es: seq<Event>, k: nat)
    requires Run(Step, ss, es) && Initial(ss[0]) && k <= |es|
    ensures Inv(ss[k]) && AllKnown(ss[k])
  {
    InvThroughout(ss, es, k);
    if k > 0 {
      KnownThroughout(ss, es, k - 1);
      KnownStep(ss[k - 1], es[k - 1]);
    }
  }

  // ---------------------------------------------------------------- what voted_for records

  lemma RecordKeeps(s: State, s': State, i: Id)
    requires Dated(s) && i < |s.nodes| == |s'.nodes|
    requires s'.ballots == s.ballots && KeepsVote(s.nodes[i], s'.nodes[i])
    requires forall j: nat | j < |s.nodes| && j != i :: s'.nodes[j] == s.nodes[j]
    ensures VotesRecorded(s) ==> VotesRecorded(s')
  {
  }

  lemma RecordedVote(s: State, p: Id, r: VoteRequest)
    requires Dated(s) && VotesRecorded(s) && Idle(s, p)
    ensures VotesRecorded(Handled(s, VoteCall(p, r)))
  {
  }

  lemma RecordedAppend(s: State, p: Id, r: AppendRequest)
    requires Dated(s) && VotesRecorded(s) && Idle(s, p) && !(s.nodes[p].role == Candidate && s.nodes[p].term == r.term)
    ensures VotesRecorded(Handled(s, AppendCall(p, r)))
  {
    RecordKeeps(s, Handled(s, AppendCall(p, r)), p);
  }

  lemma RecordedTimeout(s: State, c: Id)
    requires Dated(s) && VotesRecorded(s) && Enabled(s, Timeout(c))
    ensures VotesRecorded(Step(s, Timeout(c)))
  {
  }

  /** A candidate that has forgotten its vote has its own ballot to tell of it. */
  lemma ForgetsStep(s: State, e: Event)
    requires Inv(s) && AllKnown(s) && ForgetsVote(s, e)
    ensures !VotesRecorded(Step(s, e))
  {
    TheRest(s, e);
    DeliveredOk(s, e);
    var p := Delivered(s, e).value.to;
    assert RoleOk(s, p) && VotesKnown(s, p);
    var b := Ballot(s.nodes[p].term, p, p);
    assert b in Step(s, e).ballots && Step(s, e).nodes[p] == PeerSide(s, e).nodes[p];
  }

  lemma RecordedStep(s: State, e: Event)
    requires Inv(s) && AllKnown(s) && VotesRecorded(s)
    ensures VotesRecorded(Step(s, e)) <==> !ForgetsVote(s, e)
  {
    if ForgetsVote(s, e) {
      ForgetsStep(s, e);
    } else if Enabled(s, e) {
      if e.Timeout? {
        RecordedTimeout(s, e.c);
      } else {
        TheRest(s, e);
        var s1 := PeerSide(s, e);
        if Delivered(s, e).Some? {
          DeliveredOk(s, e);
          var call := Delivered(s, e).value;
          HandledKeeps(s, call);
          match call
          case VoteCall(p, r) => RecordedVote(s, p, r);
          case AppendCall(p, r) => RecordedAppend(s, p, r);
        }
        if Actor(e).Some? {
          RecordKeeps(s1, Step(s, e), Actor(e).value);
        }
      }
    }
  }

  /** In a run voted_for tells of every vote cast in the current term exactly when no candidate ever handles
      AppendEntries of its own term. */
  lemma VotesRecordedThroughout(ss: seq<State>, es: seq<Event>)
    requires Run(Step, ss, es) && Initial(ss[0])
    ensures Always(VotesRecorded, ss) <==> !SomeStep(ForgetsVote, ss, es, |es|)
  {
    forall k | 0 <= k < |es| ensures KeepsUnlessBad(Step, VotesRecorded, ForgetsVote, ss[k], es[k]) {
      if VotesRecorded(ss[k]) {
        KnownThroughout(ss, es, k);
        RecordedStep(ss[k], es[k]);
      }
    }
    KeptIffNoBadStep(Step, VotesRecorded, ForgetsVote, ss, es);
  }

  // ---------------------------------------------------------------- voting twice

  /** The vote of a node that has voted in this term is a second one exactly if its own is no longer on record. */
  lemma SingleVoteHandled(s: State, p: Id, r: VoteRequest)
    requires Idle(s, p) && Dated(s) && VotesKnown(s, p) && SingleVote(s) && r.candidate != p
    ensures SingleVote(Handled(s, VoteCall(p, r))) <==>
            !(s.nodes[p].term == r.term && s.nodes[p].votedFor == None
              && UpToDate(s.nodes[p].log.entries, r.lastIndex, r.lastTerm) && Ballot(r.term, p, p) in s.ballots)
  {
    var s' := Handled(s, VoteCall(p, r));
    if s.nodes[p].term == r.term && s.nodes[p].votedFor == None
       && UpToDate(s.nodes[p].log.entries, r.lastIndex, r.lastTerm) && Ballot(r.term, p, p) in s.ballots {
      assert Ballot(r.term, p, p) in s'.ballots && Ballot(r.term, p, r.candidate) in s'.ballots;
    }
  }

  lemma SingleVoteStep(s: State, e: Event)
    requires Inv(s) && AllKnown(s) && SingleVote(s)
    ensures SingleVote(Step(s, e)) <==> !AsksForgetful(s, e)
  {
    if Enabled(s, e) && !e.Timeout? {
      TheRest(s, e);
      assert Step(s, e).ballots == PeerSide(s, e).ballots;
      if Delivered(s, e).Some? {
        DeliveredOk(s, e);
        match Delivered(s, e).value
        case VoteCall(p, r) => assert VotesKnown(s, p); SingleVoteHandled(s, p, r);
        case AppendCall(p, r) =>
      }
    }
  }

  /** In a run nobody votes for two candidates in one term exactly when no node that has stood for election in a
      term, and forgotten it, is asked for its vote in that term on behalf of a log that is up to date. */
  lemma SingleVoteThroughout(ss: seq<State>, es: seq<Event>)
    requires Run(Step, ss, es) && Initial(ss[0])
    ensures Always(SingleVote, ss) <==> !SomeStep(AsksForgetful, ss, es, |es|)
  {
    forall k | 0 <= k < |es| ensures KeepsUnlessBad(Step, SingleVote, AsksForgetful, ss[k], es[k]) {
      if SingleVote(ss[k]) {
        KnownThroughout(ss, es, k);
        SingleVoteStep(ss[k], es[k]);
      }
    }
    KeptIffNoBadStep(Step, SingleVote, AsksForgetful, ss, es);
  }

  // ---------------------------------------------------------------- a node that votes twice

  /** Node 3 fails to be elected, node 0 is elected and reaches node 3, and node 4 then gets node 3's vote. */
  function DoubleVoteEvents(): seq<Event> {
    [Timeout(3), Count(3), Timeout(0), Ask(0, 1, Answered), Ask(0, 2, Answered), Count(0),
     Timeout(4), Replicate(0, 3, true, Answered), Ask(4, 3, Answered)]
  }

  /** The nodes after k of these events. */
  function DoubleVoteNodes(k: nat): seq<Node> {
    var f := NewNode(5);
    var failed := f.(term := 1, votedFor := Some(3), role := Candidate);
    var backer := f.(term := 1, votedFor := Some(0));
    var leader := BecomeLeader(backer);
    var open4 := BecomeCandidate(f, 4);
    if k == 0 then [f, f, f, f, f]
    else if k == 1 then [f, f, f, BecomeCandidate(f, 3), f]
    else if k == 2 then [f, f, f, failed, f]
    else if k == 3 then [BecomeCandidate(f, 0), f, f, failed, f]
    else if k == 4 then [BecomeCandidate(f, 0).(poll := Some(Poll({1}, 2))), backer, f, failed, f]
    else if k == 5 then [BecomeCandidate(f, 0).(poll := Some(Poll({1, 2}, 3))), backer, backer, failed, f]
    else if k == 6 then [leader, backer, backer, failed, f]
    else if k == 7 then [leader, backer, backer, failed, open4]
    else if k == 8 then [leader, backer, backer, f.(term := 1), open4]
    else [leader, backer, backer, f.(term := 1, votedFor := Some(4)), open4.(poll := Some(Poll({3}, 2)))]
  }

  lemma DoubleVoteOpening(s: State, k: nat)
    requires k < 3 && s.nodes == DoubleVoteNodes(k)
    ensures Step(s, DoubleVoteEvents()[k]).nodes == DoubleVoteNodes(k + 1)
  {
  }

  lemma DoubleVotePoll(s: State, k: nat)
    requires 3 <= k < 5 && s.nodes == DoubleVoteNodes(k)
    ensures Step(s, DoubleVoteEvents()[k]).nodes == DoubleVoteNodes(k + 1)
  {
    var n, n' := Step(s, DoubleVoteEvents()[k]).nodes, DoubleVoteNodes(k + 1);
    assert n[0].poll.value.asked == n'[0].poll.value.asked;
  }

  lemma DoubleVoteWin(s: State, k: nat)
    requires 5 <= k < 7 && s.nodes == DoubleVoteNodes(k)
    ensures Step(s, DoubleVoteEvents()[k]).nodes == DoubleVoteNodes(k + 1)
  {
  }

  lemma Heartbeat(leader: Node, peer: Node)
    requires leader == BecomeLeader(NewNode(5).(term := 1, votedFor := Some(0)))
    requires peer == NewNode(5).(term := 1, votedFor := Some(3), role := Candidate)
    ensures var sent := Replication(leader, 0, 3);
      && HandleAppend(peer, sent.(entries := [])) == (NewNode(5).(term := 1), AppendResponse(1, true, 0))
      && Replicated(leader, 3, sent, AppendResponse(1, true, 0)) == leader
  {
    var sent := Replication(leader, 0, 3);
    assert Replicated(leader, 3, sent, AppendResponse(1, true, 0)).peers == leader.peers;
  }

  lemma DoubleVoteForgets(s: State)
    requires s.nodes == DoubleVoteNodes(7)
    ensures Step(s, DoubleVoteEvents()[7]).nodes == DoubleVoteNodes(8)
  {
    var leader, peer, peer' := s.nodes[0], s.nodes[3], NewNode(5).(term := 1);
    Heartbeat(leader, peer);
    assert s.nodes[3 := peer'][0 := leader] == DoubleVoteNodes(8);
    assert DoubleVoteEvents()[7] == Replicate(0, 3, true, Answered);
    ReplicateNodes(s, 0, 3, true, peer', AppendResponse(1, true, 0));
  }

  lemma SecondVote(s: State)
    requires s.nodes == DoubleVoteNodes(8)
    ensures Ballot(1, 3, 4) in Step(s, DoubleVoteEvents()[8]).ballots
  {
  }

  lemma {:induction false} DoubleVoteRun(ss: seq<State>, k: nat)
    requires Run(Step, ss, DoubleVoteEvents()) && ss[0].nodes == DoubleVoteNodes(0) && 1 <= k <= 8
    ensures ss[k].nodes == DoubleVoteNodes(k) && Ballot(1, 3, 3) in ss[k].ballots
  {
    var es := DoubleVoteEvents();
    assert ss[k] == Step(ss[k - 1], es[k - 1]);
    if k > 1 {
      DoubleVoteRun(ss, k - 1);
    }
    if k <= 3 {
      DoubleVoteOpening(ss[k - 1], k - 1);
    } else if k <= 5 {
      DoubleVotePoll(ss[k - 1], k - 1);
    } else if k <= 7 {
      DoubleVoteWin(ss[k - 1], k - 1);
    } else {
      DoubleVoteForgets(ss[k - 1]);
    }
    if k == 1 {
      assert Ballot(1, 3, 3) in Step(ss[0], Timeout(3)).ballots;
    } else {
      BallotsGrow(ss[k - 1], es[k - 1]);
    }
  }

  lemma BallotsGrow(s: State, e: Event)
    ensures s.ballots <= Step(s, e).ballots
  {
    if Enabled(s, e) && !e.Timeout? {
      TheRest(s, e);
    }
  }

  lemma DoubleVoteHappens(ss: seq<State>)
    requires Run(Step, ss, DoubleVoteEvents()) && ss[0].nodes == DoubleVoteNodes(0)
    ensures Ballot(1, 3, 3) in ss[9].ballots && Ballot(1, 3, 4) in ss[9].ballots
  {
    var es := DoubleVoteEvents();
    DoubleVoteRun(ss, 8);
    assert ss[9] == Step(ss[8], es[8]);
    SecondVote(ss[8]);
    BallotsGrow(ss[8], es[8]);
  }

  /** A run of a new cluster in which a node votes for two candidates in one term. */
  lemma NodeVotesTwice()
    ensures exists ss: seq<State>, es: seq<Event> ::
      && Run(Step, ss, es) && Initial(ss[0])
      && Ballot(1, 3, 3) in ss[|es|].ballots && Ballot(1, 3, 4) in ss[|es|].ballots
  {
    var ss := EveryListRuns(Step, NewCluster(5), DoubleVoteEvents());
    DoubleVoteHappens(ss);
  }
}
