/** A step of the cluster: what the peer does that handles a call, and then what the caller does. */
module RaftSteps {
  import opened Options
  import opened RaftModel
  import opened RaftElections

  /** The state after the peer's side of an event. */
  function PeerSide(s: State, e: Event): State
    requires Enabled(s, e) && (Delivered(s, e).Some? ==> Delivered(s, e).value.to < |s.nodes|)
  {
    match Delivered(s, e)
    case Some(call) => Handled(s, call)
    case None => s
  }

  /** The node whose own side of an event follows that of the peer. */
  function Actor(e: Event): Option<Id> {
    match e
    case Timeout(c) => Some(c)
    case Ask(c, _, _) => Some(c)
    case Count(c) => Some(c)
    case Submit(l, _) => Some(l)
    case Replicate(l, _, _, _) => Some(l)
    case Commit(l) => Some(l)
    case Late(_, _) => None
    case Restart(c, _) => Some(c)
  }

  lemma DeliveredOk(s: State, e: Event)
    requires Inv(s) && Enabled(s, e) && Delivered(s, e).Some?
    ensures Idle(s, Delivered(s, e).value.to) && CallOk(s, Delivered(s, e).value)
    ensures Actor(e) != Some(Delivered(s, e).value.to)
  {
    match e
    case Ask(c, p, _) =>
    case Replicate(l, p, _, _) => assert RoleOk(s, l);
    case Late(call, dropped) => assert CallOk(s, call);
  }

  /** A node has a later term and no vote, or the same term and vote, without becoming a candidate. */
  predicate KeepsVote(n: Node, n': Node) {
    || (n'.term > n.term && n'.votedFor.None? && n'.role == Follower && n'.poll.None?)
    || (n'.term == n.term && n'.votedFor == n.votedFor && (n'.role == n.role || n'.role != Candidate))
  }

  /** A node keeps its vote so and, as it does on an answer, its log. */
  predicate Quiet(n: Node, n': Node) {
    && KeepsVote(n, n') && n'.log == n.log && |n'.peers| == |n.peers|
    && (n'.role == n.role || n'.role == Follower) && (n'.poll.Some? ==> n.poll.Some?)
  }

  predicate IsCall(e: Event) { e.Ask? || e.Replicate? || e.Late? }

  /** Apart from an election opened, what is left after the peer's side is one node that keeps its vote; after a
      call that node is quiet, and but for the call made and its acknowledgement nothing is recorded. */
  predicate RestOk(s: State, s1: State, s': State, e: Event) {
    && |s'.nodes| == |s1.nodes| == |s.nodes| && s'.ballots == s1.ballots
    && (match Actor(e)
        case Some(c) =>
          && c < |s.nodes| && s1.nodes[c] == s.nodes[c] && KeepsVote(s.nodes[c], s'.nodes[c])
          && (IsCall(e) ==> Quiet(s.nodes[c], s'.nodes[c]))
          && forall j: nat | j < |s.nodes| && j != c :: s'.nodes[j] == s1.nodes[j]
        case None => s' == s1)
    && (IsCall(e) ==> s'.wins == s.wins && s'.books == s.books && s.calls <= s'.calls && s.acks <= s'.acks)
  }

  lemma AnswersAreQuiet(n: Node, p: Id)
    ensures forall answer :: n.poll.Some? ==> Quiet(n, Polled(n, p, answer))
    ensures forall sent, answer :: p < |n.peers| ==> Quiet(n, Replicated(n, p, sent, answer))
  {
  }

  lemma RestOfAsk(s: State, c: Id, p: Id, reach: Reach)
    requires Enabled(s, Ask(c, p, reach))
    ensures var e := Ask(c, p, reach); RestOk(s, PeerSide(s, e), Step(s, e), e)
  {
    var call := VoteCall(p, RequestOf(s, c));
    var s1 := Handled(Called(s, call), call);
    assert s1.nodes == Handled(s, call).nodes && s1.ballots == Handled(s, call).ballots;
    AnswersAreQuiet(s.nodes[c], p);
  }

  lemma AnswerRest(s: State, l: Id, p: Id, sent: AppendRequest, answer: AppendResponse)
    requires l < |s.nodes| && p < |s.nodes[l].peers|
    ensures var s' := Answer(s, l, p, sent, answer);
      && s'.nodes == s.nodes[l := Replicated(s.nodes[l], p, sent, answer)] && Quiet(s.nodes[l], s'.nodes[l])
      && s'.ballots == s.ballots && s'.wins == s.wins && s'.books == s.books && s'.calls == s.calls && s.acks <= s'.acks
  {
    AnswersAreQuiet(s.nodes[l], p);
  }

  /** The state in which a leader takes the answer. */
  function BeforeAnswer(s: State, l: Id, p: Id, dropped: bool, reach: Reach): State
    requires Enabled(s, Replicate(l, p, dropped, reach))
  {
    var call := AppendCall(p, Replication(s.nodes[l], l, p));
    if reach.Missed? then Called(s, call) else Handled(Called(s, call), AsHandled(call, dropped))
  }

  lemma BeforeAnswerIs(s: State, l: Id, p: Id, dropped: bool, reach: Reach)
    requires Enabled(s, Replicate(l, p, dropped, reach))
    ensures var s1, s2 := PeerSide(s, Replicate(l, p, dropped, reach)), BeforeAnswer(s, l, p, dropped, reach);
      && s2.nodes == s1.nodes && s2.ballots == s1.ballots && s2.nodes[l] == s.nodes[l] && |s2.nodes| == |s.nodes|
      && s2.wins == s.wins && s2.books == s.books && s.calls <= s2.calls && s2.acks == s.acks
  {
  }

  lemma RestOfReplicate(s: State, l: Id, p: Id, dropped: bool, reach: Reach)
    requires Enabled(s, Replicate(l, p, dropped, reach))
    ensures var e := Replicate(l, p, dropped, reach); RestOk(s, PeerSide(s, e), Step(s, e), e)
  {
    var call := AppendCall(p, Replication(s.nodes[l], l, p));
    var s2 := BeforeAnswer(s, l, p, dropped, reach);
    BeforeAnswerIs(s, l, p, dropped, reach);
    var answer :=
      if reach.Answered? then HandleAppend(s.nodes[p], AsHandled(call, dropped).append).1 else AppendResponse(0, false, 0);
    assert Step(s, Replicate(l, p, dropped, reach)) == Answer(s2, l, p, call.append, answer);
    AnswerRest(s2, l, p, call.append, answer);
  }

  lemma RestOfOwn(s: State, e: Event)
    requires Enabled(s, e) && !e.Timeout? && !IsCall(e)
    ensures RestOk(s, s, Step(s, e), e)
  {
  }

  lemma TheRest(s: State, e: Event)
    requires Enabled(s, e) && !e.Timeout?
    ensures Delivered(s, e).Some? ==> Delivered(s, e).value.to < |s.nodes|
    ensures RestOk(s, PeerSide(s, e), Step(s, e), e)
  {
    match e
    case Ask(c, p, reach) => RestOfAsk(s, c, p, reach);
    case Replicate(l, p, dropped, reach) => RestOfReplicate(s, l, p, dropped, reach);
    case Late(_, _) =>
    case _ => RestOfOwn(s, e);
  }

  /** An answered AppendEntries changes the peer and the leader. */
  lemma ReplicateNodes(s: State, l: Id, p: Id, dropped: bool, n: Node, answer: AppendResponse)
    requires Enabled(s, Replicate(l, p, dropped, Answered))
    requires (n, answer) == HandleAppend(s.nodes[p], AsHandled(AppendCall(p, Replication(s.nodes[l], l, p)), dropped).append)
    ensures Step(s, Replicate(l, p, dropped, Answered)).nodes ==
            s.nodes[p := n][l := Replicated(s.nodes[l], p, Replication(s.nodes[l], l, p), answer)]
  {
    var call := AppendCall(p, Replication(s.nodes[l], l, p));
    AnswerRest(Handled(Called(s, call), AsHandled(call, dropped)), l, p, call.append, answer);
  }

  /** An answered vote request changes the peer and the candidate. */
  lemma AskNodes(s: State, c: Id, p: Id, n: Node, answer: VoteResponse)
    requires Enabled(s, Ask(c, p, Answered)) && (n, answer) == HandleVote(s.nodes[p], RequestOf(s, c))
    ensures Step(s, Ask(c, p, Answered)).nodes == s.nodes[p := n][c := Polled(s.nodes[c], p, answer)]
  {
  }
}
