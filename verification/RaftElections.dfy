/** At most one leader per term, although a node may vote twice in one. */
module RaftElections {
  import opened Options
  import opened Runs
  import opened RaftModel

  // ---------------------------------------------------------------- what every run keeps

  /** Term t has a leader already. */
  ghost predicate Led(s: State, t: nat) { exists w :: w in s.wins && w.term == t }

  ghost predicate Won(s: State, t: nat, l: Id) { exists w :: w in s.wins && w.term == t && w.leader == l }

  /** Only a candidate polls; it has voted for itself and has not won its term. A leader has. */
  ghost predicate RoleOk(s: State, i: Id)
    requires i < |s.nodes|
  {
    var n := s.nodes[i];
    && (n.poll.Some? ==> n.role == Candidate)
    && (n.role == Candidate ==> n.votedFor == Some(i) && !Won(s, n.term, i))
    && (n.role == Leader ==> Won(s, n.term, i))
  }

  /** Votes lie in the past or the present of the voter, and so do wins. */
  predicate Dated(s: State) {
    && (forall b | b in s.ballots :: b.voter < |s.nodes| && b.term <= s.nodes[b.voter].term)
    && (forall w | w in s.wins :: w.leader < |s.nodes| && w.term <= s.nodes[w.leader].term)
  }

  /** While a term has no leader, a node in it remembers its vote, and nobody has voted twice in it. */
  ghost predicate VotesHold(s: State) {
    && (forall b | b in s.ballots && b.voter < |s.nodes| && b.term == s.nodes[b.voter].term ::
          Led(s, b.term) || s.nodes[b.voter].votedFor == Some(b.candidate))
    && (forall b, b' | b in s.ballots && b' in s.ballots && b.term == b'.term && b.voter == b'.voter ::
          Led(s, b.term) || b.candidate == b'.candidate)
  }

  /** The backers of a winner: a majority that voted for it, and in its term for nobody else, then or later. */
  predicate Backed(s: State, w: Win) {
    && Quorum(s) <= |w.backers|
    && (forall v | v in w.backers :: v < |s.nodes| && Ballot(w.term, v, w.leader) in s.ballots)
    && (forall b | b in s.ballots :: b.term == w.term && b.voter in w.backers ==> b.candidate == w.leader)
    && (forall v | v in w.backers && v < |s.nodes| && s.nodes[v].term == w.term ::
          s.nodes[v].votedFor == Some(w.leader) && s.nodes[v].role != Candidate)
  }

  /** The votes a candidate has counted were cast, one by each of as many nodes. */
  predicate PollOk(s: State, i: Id)
    requires i < |s.nodes|
  {
    s.nodes[i].poll.Some? ==>
      && i !in s.nodes[i].poll.value.asked
      && s.nodes[i].poll.value.votes <= |Backers(s, i) * (s.nodes[i].poll.value.asked + {i})|
  }

  /** Calls go to other nodes, and AppendEntries comes from a winner of its term. */
  ghost predicate CallOk(s: State, call: Call) {
    match call
    case VoteCall(p, r) => r.candidate != p
    case AppendCall(p, r) => r.leader != p && Won(s, r.term, r.leader)
  }

  ghost predicate Inv(s: State) {
    && (forall i: nat | i < |s.nodes| :: RoleOk(s, i) && PollOk(s, i))
    && Dated(s) && VotesHold(s)
    && (forall w | w in s.wins :: Backed(s, w))
    && (forall call | call in s.calls :: CallOk(s, call))
  }

  // ---------------------------------------------------------------- majorities meet

  function Below(n: nat): (r: set<nat>)
    ensures |r| == n && forall x: nat :: x in r <==> x < n
  {
    if n == 0 then {} else Below(n - 1) + {n - 1}
  }

  lemma MajoritiesMeet(n: nat, a: set<nat>, b: set<nat>) returns (v: nat)
    requires forall x | x in a + b :: x < n
    requires n < |a| + |b|
    ensures v in a && v in b
  {
    SubsetSize(a + b, Below(n));
    assert a * b == {} ==> |a + b| == |a| + |b|;
    v :| v in a * b;
  }

  lemma {:induction false} SubsetSize<T>(a: set<T>, b: set<T>)
    requires a <= b
    ensures |a| <= |b|
  {
    if a != {} {
      var x :| x in a;
      SubsetSize(a - {x}, b - {x});
    }
  }

  /** One leader per term, as far as the wins have majorities behind them. */
  lemma WinnersAgree(s: State, w: Win, w': Win)
    requires Backed(s, w) && Backed(s, w') && w.term == w'.term
    ensures w.leader == w'.leader
  {
    var v := MajoritiesMeet(|s.nodes|, w.backers, w'.backers);
    assert Ballot(w.term, v, w.leader) in s.ballots;
  }

  // ---------------------------------------------------------------- the moves a node makes

  /** A node hears of a later term. */
  lemma StepsDown(s: State, i: Id, t: nat)
    requires Inv(s) && i < |s.nodes| && s.nodes[i].term < t
    ensures Inv(SetNode(s, i, BecomeFollower(s.nodes[i], t)))
  {
    var s' := SetNode(s, i, BecomeFollower(s.nodes[i], t));
    OthersKeep(s, s', i);
    forall w | w in s'.wins ensures Backed(s', w) {
      assert Backed(s, w);
    }
    CallsStay(s, s');
  }

  /** A candidate forgets its vote, which it does only in a term that has a leader. */
  lemma Forgets(s: State, i: Id)
    requires Inv(s) && i < |s.nodes| && s.nodes[i].role == Candidate && Led(s, s.nodes[i].term)
    ensures Inv(SetNode(s, i, BecomeFollower(s.nodes[i], s.nodes[i].term)))
  {
    var s' := SetNode(s, i, BecomeFollower(s.nodes[i], s.nodes[i].term));
    OthersKeep(s, s', i);
    forall w | w in s'.wins ensures Backed(s', w) {
      assert Backed(s, w);
    }
    CallsStay(s, s');
  }

  /** Calls stay in order as wins are added. */
  lemma CallsStay(s: State, s': State)
    requires s'.calls == s.calls && s.wins <= s'.wins
    requires forall call | call in s.calls :: CallOk(s, call)
    ensures forall call | call in s'.calls :: CallOk(s', call)
  {
    forall call | call in s'.calls ensures CallOk(s', call) {
      assert CallOk(s, call);
    }
  }

  /** Without a new term, vote or candidacy, what is said of votes and wins still holds. */
  lemma VotesKeep(s: State, i: Id, n: Node)
    requires Inv(s) && i < |s.nodes| && n.term == s.nodes[i].term && n.votedFor == s.nodes[i].votedFor
    requires n.role == s.nodes[i].role || n.role == Follower
    ensures Dated(SetNode(s, i, n)) && VotesHold(SetNode(s, i, n))
    ensures forall w | w in s.wins :: Backed(SetNode(s, i, n), w)
  {
    forall w | w in s.wins ensures Backed(SetNode(s, i, n), w) {
      assert Backed(s, w);
    }
  }

  /** A node keeps its term and its vote, and stops polling; it may fall back to follower. */
  lemma Settles(s: State, i: Id, n: Node)
    requires Inv(s) && i < |s.nodes| && n.term == s.nodes[i].term && n.votedFor == s.nodes[i].votedFor && n.poll.None?
    requires n.role == s.nodes[i].role || n.role == Follower
    ensures Inv(SetNode(s, i, n))
  {
    OthersKeep(s, SetNode(s, i, n), i);
    VotesKeep(s, i, n);
    CallsStay(s, SetNode(s, i, n));
    assert RoleOk(s, i);
  }

  /** The histories that elections do not read. */
  lemma Records(s: State, s': State)
    requires Inv(s) && s' == s.(books := s'.books, acks := s'.acks)
    ensures Inv(s')
  {
    forall i: nat | i < |s'.nodes| ensures RoleOk(s', i) && PollOk(s', i) {
      assert RoleOk(s, i) && PollOk(s, i);
      assert Backers(s', i) == Backers(s, i);
    }
    forall w | w in s'.wins ensures Backed(s', w) {
      assert Backed(s, w);
    }
    CallsStay(s, s');
  }

  /** What is said of the other nodes still holds if neither ballots nor wins have changed. */
  lemma OthersKeep(s: State, s': State, i: Id)
    requires (forall j: nat | j < |s.nodes| :: RoleOk(s, j) && PollOk(s, j))
    requires i < |s.nodes| == |s'.nodes| && s' == SetNode(s, i, s'.nodes[i])
    ensures forall j: nat | j < |s'.nodes| && j != i :: RoleOk(s', j) && PollOk(s', j)
  {
    forall j: nat | j < |s'.nodes| && j != i ensures RoleOk(s', j) && PollOk(s', j) {
      assert RoleOk(s, j) && PollOk(s, j);
      assert Backers(s', j) == Backers(s, j);
    }
  }

  function Granted(s: State, p: Id, c: Id): State
    requires p < |s.nodes|
  {
    SetNode(s, p, s.nodes[p].(votedFor := Some(c))).(ballots := s.ballots + {Ballot(s.nodes[p].term, p, c)})
  }

  /** Backers only become more as ballots are added. */
  lemma BackersGrow(s: State, s': State, i: Id)
    requires i < |s.nodes| == |s'.nodes| && s'.nodes[i].term == s.nodes[i].term && s'.nodes[i].poll == s.nodes[i].poll
    requires s.ballots <= s'.ballots && PollOk(s, i)
    ensures PollOk(s', i)
  {
    if s.nodes[i].poll.Some? {
      var seen := s.nodes[i].poll.value.asked + {i};
      SubsetSize(Backers(s, i) * seen, Backers(s', i) * seen);
    }
  }

  /** Who backs a winner is not free to vote for another. */
  lemma GrantKeepsWins(s: State, p: Id, c: Id, w: Win)
    requires Inv(s) && p < |s.nodes| && p != c && w in s.wins
    requires s.nodes[p].votedFor == None || s.nodes[p].votedFor == Some(c)
    ensures Backed(Granted(s, p, c), w)
  {
    assert Backed(s, w);
  }

  lemma GrantKeepsVotes(s: State, p: Id, c: Id)
    requires Dated(s) && VotesHold(s) && p < |s.nodes|
    requires s.nodes[p].votedFor == None || s.nodes[p].votedFor == Some(c)
    ensures Dated(Granted(s, p, c)) && VotesHold(Granted(s, p, c))
  {
  }

  /** A node that is free to, or has before, votes for another node, be that polling still or not. */
  lemma Grants(s: State, p: Id, c: Id)
    requires Inv(s) && p < |s.nodes| && p != c && s.nodes[p].poll.None?
    requires s.nodes[p].votedFor == None || s.nodes[p].votedFor == Some(c)
    ensures Inv(Granted(s, p, c))
  {
    var s' := Granted(s, p, c);
    assert RoleOk(s, p);
    forall j: nat | j < |s'.nodes| ensures RoleOk(s', j) && PollOk(s', j) {
      assert RoleOk(s, j) && PollOk(s, j);
      if j != p {
        BackersGrow(s, s', j);
      }
    }
    GrantKeepsVotes(s, p, c);
    forall w | w in s'.wins ensures Backed(s', w) {
      GrantKeepsWins(s, p, c, w);
    }
    CallsStay(s, s');
  }

  /** One vote more, from a peer not asked before, is one backer more among those asked. */
  lemma CountsOnce(backers: set<Id>, asked: set<Id>, c: Id, p: Id, granted: bool)
    requires p !in asked && p != c && (granted ==> p in backers)
    ensures |backers * (asked + {c})| + (if granted then 1 else 0) <= |backers * (asked + {p} + {c})|
  {
    var seen, seen' := backers * (asked + {c}), backers * (asked + {p} + {c});
    if granted {
      assert seen' == seen + {p};
    } else {
      SubsetSize(seen, seen');
    }
  }

  function Noted(n: Node, p: Id, granted: bool): Node
    requires n.poll.Some?
  {
    n.(poll := Some(Poll(n.poll.value.asked + {p}, n.poll.value.votes + (if granted then 1 else 0))))
  }

  /** A candidate takes note of an answer: a vote granted was cast by a peer not asked before. */
  lemma TakesNote(s: State, c: Id, p: Id, granted: bool)
    requires Inv(s) && c < |s.nodes| && p != c && s.nodes[c].poll.Some? && p !in s.nodes[c].poll.value.asked
    requires granted ==> Ballot(s.nodes[c].term, p, c) in s.ballots
    ensures Inv(SetNode(s, c, Noted(s.nodes[c], p, granted)))
  {
    var s' := SetNode(s, c, Noted(s.nodes[c], p, granted));
    OthersKeep(s, s', c);
    VotesKeep(s, c, Noted(s.nodes[c], p, granted));
    CallsStay(s, s');
    assert RoleOk(s, c) && PollOk(s, c);
    assert Backers(s', c) == Backers(s, c);
    if granted {
      assert Ballot(s.nodes[c].term, p, c).voter in Backers(s, c);
    }
    CountsOnce(Backers(s, c), s.nodes[c].poll.value.asked, c, p, granted);
  }

  /** A node opens an election in a new term, in which it has not voted and nobody it votes for has won. */
  lemma OpensElection(s: State, c: Id)
    requires Inv(s) && Enabled(s, Timeout(c))
    ensures Inv(Step(s, Timeout(c)))
  {
    var s' := Step(s, Timeout(c));
    forall j: nat | j < |s'.nodes| ensures RoleOk(s', j) && PollOk(s', j) {
      assert RoleOk(s, j) && PollOk(s, j);
      if j != c {
        BackersGrow(s, s', j);
      } else {
        var b := Ballot(s'.nodes[c].term, c, c);
        assert b in s'.ballots && b.voter == c;
        assert Backers(s', c) * ({} + {c}) == {c};
      }
    }
    forall w | w in s'.wins ensures Backed(s', w) {
      assert Backed(s, w);
    }
    CallsStay(s, s');
  }

  // ---------------------------------------------------------------- winning

  lemma BackersVoted(s: State, c: Id)
    requires c < |s.nodes|
    ensures forall v | v in Backers(s, c) :: Ballot(s.nodes[c].term, v, c) in s.ballots
  {
    forall v | v in Backers(s, c) ensures Ballot(s.nodes[c].term, v, c) in s.ballots {
      var b :| b in s.ballots && b.term == s.nodes[c].term && b.candidate == c && b.voter == v;
      assert b == Ballot(s.nodes[c].term, v, c);
    }
  }

  /** When a candidate has counted a majority, its term has no leader yet: a majority that backs another
      winner would meet this one in a node that voted for both, and its own win would have ended its poll. */
  lemma WinnerIsFirst(s: State, c: Id)
    requires Inv(s) && Polling(s, c) && s.nodes[c].poll.value.votes >= Quorum(s)
    ensures !Led(s, s.nodes[c].term) && Quorum(s) <= |Backers(s, c)|
  {
    var t, backers := s.nodes[c].term, Backers(s, c);
    assert RoleOk(s, c) && PollOk(s, c);
    BackersVoted(s, c);
    SubsetSize(backers * (s.nodes[c].poll.value.asked + {c}), backers);
    if Led(s, t) {
      var w :| w in s.wins && w.term == t;
      assert Backed(s, w);
      var v := MajoritiesMeet(|s.nodes|, backers, w.backers);
      assert false;
    }
  }

  lemma NewWinIsBacked(s: State, c: Id)
    requires Inv(s) && Polling(s, c) && s.nodes[c].poll.value.votes >= Quorum(s)
    ensures Backed(OnCount(s, c), Win(s.nodes[c].term, c, Backers(s, c)))
  {
    WinnerIsFirst(s, c);
    BackersVoted(s, c);
    var s', t := OnCount(s, c), s.nodes[c].term;
    forall v | v in Backers(s, c)
      ensures v < |s.nodes| && Ballot(t, v, c) in s.ballots
      ensures s.nodes[v].term == t ==> s'.nodes[v].votedFor == Some(c) && s'.nodes[v].role != Candidate
    {
      assert Ballot(t, v, c) in s.ballots && RoleOk(s, v);
    }
  }

  lemma OldWinsStayBacked(s: State, c: Id, w: Win)
    requires Inv(s) && Polling(s, c) && s.nodes[c].poll.value.votes >= Quorum(s) && w in s.wins
    ensures Backed(OnCount(s, c), w) && w.term != s.nodes[c].term
  {
    WinnerIsFirst(s, c);
    assert Backed(s, w);
  }

  lemma Wins(s: State, c: Id)
    requires Inv(s) && Polling(s, c) && s.nodes[c].poll.value.votes >= Quorum(s)
    ensures Inv(OnCount(s, c))
  {
    var s', w0 := OnCount(s, c), Win(s.nodes[c].term, c, Backers(s, c));
    forall w | w in s'.wins ensures Backed(s', w) {
      if w == w0 {
        NewWinIsBacked(s, c);
      } else {
        OldWinsStayBacked(s, c, w);
      }
    }
    WinKeepsRoles(s, c);
    WinKeepsVotes(s, c);
    CallsStay(s, s');
  }

  lemma WinKeepsRoles(s: State, c: Id)
    requires Inv(s) && Polling(s, c) && s.nodes[c].poll.value.votes >= Quorum(s)
    ensures forall j: nat | j < |s.nodes| :: RoleOk(OnCount(s, c), j) && PollOk(OnCount(s, c), j)
  {
    var s', w0 := OnCount(s, c), Win(s.nodes[c].term, c, Backers(s, c));
    forall j: nat | j < |s'.nodes| ensures RoleOk(s', j) && PollOk(s', j) {
      assert RoleOk(s, j) && PollOk(s, j);
      if j != c {
        BackersGrow(s, s', j);
      } else {
        assert w0 in s'.wins;
      }
    }
  }

  lemma WinKeepsVotes(s: State, c: Id)
    requires Inv(s) && Polling(s, c) && s.nodes[c].poll.value.votes >= Quorum(s)
    ensures Dated(OnCount(s, c)) && VotesHold(OnCount(s, c))
  {
    var s' := OnCount(s, c);
    assert Win(s.nodes[c].term, c, Backers(s, c)) in s'.wins;
    assert s'.ballots == s.ballots && s.wins <= s'.wins;
  }

  // ---------------------------------------------------------------- calls handled

  lemma HandledVoteKeeps(s: State, p: Id, r: VoteRequest)
    requires Inv(s) && Idle(s, p) && r.candidate != p
    ensures Inv(Handled(s, VoteCall(p, r)))
  {
    var s1 := s;
    if r.term > s.nodes[p].term {
      StepsDown(s, p, r.term);
      s1 := SetNode(s, p, BecomeFollower(s.nodes[p], r.term));
    }
    if HandleVote(s.nodes[p], r).1.granted {
      Grants(s1, p, r.candidate);
      assert Handled(s, VoteCall(p, r)) == Granted(s1, p, r.candidate);
    } else {
      assert Handled(s, VoteCall(p, r)).nodes == s1.nodes;
    }
  }

  lemma HandledAppendKeeps(s: State, p: Id, r: AppendRequest)
    requires Inv(s) && Idle(s, p) && Led(s, r.term)
    ensures Inv(Handled(s, AppendCall(p, r)))
  {
    var node := s.nodes[p];
    var n := HandleAppend(node, r).0;
    if r.term > node.term {
      StepsDown(s, p, r.term);
      FollowerSettles(s, p, BecomeFollower(node, r.term), n);
    } else if r.term == node.term && node.role == Candidate {
      Forgets(s, p);
      FollowerSettles(s, p, BecomeFollower(node, r.term), n);
    } else {
      Settles(s, p, n);
    }
  }

  lemma FollowerSettles(s: State, p: Id, f: Node, n: Node)
    requires p < |s.nodes| && Inv(SetNode(s, p, f))
    requires n == f.(log := n.log) && f.role == Follower && f.poll.None?
    ensures Inv(SetNode(s, p, n))
  {
    Settles(SetNode(s, p, f), p, n);
    assert SetNode(SetNode(s, p, f), p, n) == SetNode(s, p, n);
  }

  lemma HandledKeeps(s: State, call: Call)
    requires Inv(s) && Idle(s, call.to) && CallOk(s, call)
    ensures Inv(Handled(s, call))
  {
    match call
    case VoteCall(p, r) => HandledVoteKeeps(s, p, r);
    case AppendCall(p, r) => HandledAppendKeeps(s, p, r);
  }

  lemma CalledKeeps(s: State, call: Call)
    requires Inv(s) && CallOk(s, call)
    ensures Inv(Called(s, call))
  {
    var s' := Called(s, call);
    forall i: nat | i < |s'.nodes| ensures RoleOk(s', i) && PollOk(s', i) {
      assert RoleOk(s, i) && PollOk(s, i);
      assert Backers(s', i) == Backers(s, i);
    }
    forall w | w in s'.wins ensures Backed(s', w) {
      assert Backed(s, w);
    }
    forall c | c in s'.calls ensures CallOk(s', c) {
      assert CallOk(s, c);
    }
  }

  // ---------------------------------------------------------------- steps and runs

  lemma AskKeeps(s: State, c: Id, p: Id, reach: Reach)
    requires Inv(s) && Enabled(s, Ask(c, p, reach))
    ensures Inv(OnAsk(s, c, p, reach))
  {
    var call := VoteCall(p, RequestOf(s, c));
    var s1 := Called(s, call);
    CalledKeeps(s, call);
    var s2 := s1;
    if !reach.Missed? {
      HandledKeeps(s1, call);
      s2 := Handled(s1, call);
    }
    var answer := if reach.Answered? then HandleVote(s.nodes[p], call.vote).1 else VoteResponse(0, false);
    if answer.term > s.nodes[c].term {
      StepsDown(s2, c, answer.term);
    } else {
      TakesNote(s2, c, p, answer.granted);
    }
  }

  lemma ReplicateKeeps(s: State, l: Id, p: Id, dropped: bool, reach: Reach)
    requires Inv(s) && Enabled(s, Replicate(l, p, dropped, reach))
    ensures Inv(OnReplicate(s, l, p, dropped, reach))
  {
    var call := AppendCall(p, Replication(s.nodes[l], l, p));
    var handled := AsHandled(call, dropped);
    assert RoleOk(s, l);
    var s1 := Called(s, call);
    CalledKeeps(s, call);
    var s2 := s1;
    if !reach.Missed? {
      HandledKeeps(s1, handled);
      s2 := Handled(s1, handled);
    }
    var answer := if reach.Answered? then HandleAppend(s.nodes[p], handled.append).1 else AppendResponse(0, false, 0);
    AnswerKeeps(s2, l, p, call.append, answer);
  }

  lemma AnswerKeeps(s: State, l: Id, p: Id, sent: AppendRequest, answer: AppendResponse)
    requires Inv(s) && Leading(s, l) && p < |s.nodes[l].peers|
    ensures Inv(Answer(s, l, p, sent, answer))
  {
    var n := Replicated(s.nodes[l], p, sent, answer);
    if answer.term > s.nodes[l].term {
      StepsDown(s, l, answer.term);
    } else {
      Settles(s, l, n);
    }
    Records(SetNode(s, l, n), Answer(s, l, p, sent, answer));
  }

  lemma InvStep(s: State, e: Event)
    requires Inv(s)
    ensures Inv(Step(s, e))
  {
    if Enabled(s, e) {
      match e
      case Timeout(c) => OpensElection(s, c);
      case Ask(c, p, reach) => AskKeeps(s, c, p, reach);
      case Count(c) =>
        if s.nodes[c].poll.value.votes >= Quorum(s) {
          Wins(s, c);
        } else {
          Settles(s, c, s.nodes[c].(poll := None));
        }
      case Submit(l, command) =>
        var n := Submitted(s.nodes[l], command);
        Settles(s, l, n);
        Records(SetNode(s, l, n), Written(s, l, n));
      case Replicate(l, p, dropped, reach) => ReplicateKeeps(s, l, p, dropped, reach);
      case Commit(l) => Settles(s, l, OnCommit(s, l).nodes[l]);
      case Late(call, dropped) =>
        assert CallOk(s, call);
        HandledKeeps(s, AsHandled(call, dropped));
      case Restart(c, stopped) => Settles(s, c, Restarted(s.nodes[c], stopped));
    }
  }

  lemma {:induction false} InvThroughout(ss: seq<State>, es: seq<Event>, k: nat)
    requires Run(Step, ss, es) && Initial(ss[0]) && k <= |es|
    ensures Inv(ss[k])
  {
    if k > 0 {
      InvThroughout(ss, es, k - 1);
      InvStep(ss[k - 1], es[k - 1]);
    }
  }

  lemma SameWinner(s: State, t: nat, l: Id, l': Id)
    requires Inv(s) && Won(s, t, l) && Won(s, t, l')
    ensures l == l'
  {
    var w :| w in s.wins && w.term == t && w.leader == l;
    var w' :| w' in s.wins && w'.term == t && w'.leader == l';
    WinnersAgree(s, w, w');
  }

  /** Election safety: in every run, whatever is lost, late, restarted or forgotten, a term has at most one
      leader, counting all that ever won it. */
  lemma ElectionSafety(ss: seq<State>, es: seq<Event>, k: nat, w: Win, w': Win)
    requires Run(Step, ss, es) && Initial(ss[0]) && k <= |es|
    requires w in ss[k].wins && w' in ss[k].wins && w.term == w'.term
    ensures w.leader == w'.leader
  {
    InvThroughout(ss, es, k);
    WinnersAgree(ss[k], w, w');
  }

  /** And so no two nodes are leaders of one term at one time. */
  lemma OneLeaderAtATime(ss: seq<State>, es: seq<Event>, k: nat, i: Id, j: Id)
    requires Run(Step, ss, es) && Initial(ss[0]) && k <= |es|
    requires i < |ss[k].nodes| && j < |ss[k].nodes|
    requires ss[k].nodes[i].role == Leader && ss[k].nodes[j].role == Leader && ss[k].nodes[i].term == ss[k].nodes[j].term
    ensures i == j
  {
    InvThroughout(ss, es, k);
    assert RoleOk(ss[k], i) && RoleOk(ss[k], j);
    SameWinner(ss[k], ss[k].nodes[i].term, i, j);
  }

  /** Nobody votes twice in a term that has no leader yet. */
  lemma DoubleVotesComeTooLate(ss: seq<State>, es: seq<Event>, k: nat, b: Ballot, b': Ballot)
    requires Run(Step, ss, es) && Initial(ss[0]) && k <= |es|
    requires b in ss[k].ballots && b' in ss[k].ballots && b.term == b'.term && b.voter == b'.voter
    ensures b.candidate == b'.candidate || Led(ss[k], b.term)
  {
    InvThroughout(ss, es, k);
  }
}
