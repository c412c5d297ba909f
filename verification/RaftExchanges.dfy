/** What one event does to the nodes it concerns. */
module RaftExchanges {
  import opened Options
  import opened Runs
  import opened RaftModel
  import opened RaftSteps
  import opened RaftLog
  import opened RaftMatching
  import opened RaftRecovery
  import opened RaftProgress

  // ---------------------------------------------------------------- one vote

  function LastTermOf(log: seq<Entry>): nat { if log == [] then 0 else log[|log| - 1].term }

  /** One log is at least as up to date as another: its last entry is of a later term, or of the same and it is as long. */
  predicate NotBehind(a: seq<Entry>, b: seq<Entry>) {
    LastTermOf(a) > LastTermOf(b) || (LastTermOf(a) == LastTermOf(b) && |a| >= |b|)
  }

  /** The voter is free to vote for c in the term. */
  predicate Free(n: Node, term: nat, c: Id) {
    n.term < term || (n.term == term && (n.votedFor.None? || n.votedFor.value == c))
  }

  /** Who votes for whom: a voter that is in no later term, has not voted for another, and is not ahead of the candidate. */
  lemma VotesIff(n: Node, log: seq<Entry>, term: nat, c: Id)
    ensures var (n', answer) := HandleVote(n, VoteRequest(term, c, |log|, LastTerm(log)));
      && (answer.granted <==> Free(n, term, c) && NotBehind(log, n.log.entries))
      && answer.term == n'.term == Max(n.term, term)
      && n'.votedFor == (if answer.granted then Some(c) else if n.term < term then None else n.votedFor)
      && n' == n.(term := n'.term, votedFor := n'.votedFor, role := if n.term < term then Follower else n.role,
                  poll := if n.term < term then None else n.poll)
  {
  }

  /** An answered request for a vote. */
  lemma AnsweredAsk(s: State, c: Id, p: Id)
    requires Enabled(s, Ask(c, p, Answered))
    ensures var n, v, s' := s.nodes[c], s.nodes[p], Step(s, Ask(c, p, Answered));
      && |s'.nodes| == |s.nodes| && s'.nodes == s.nodes[p := s'.nodes[p]][c := s'.nodes[c]]
      && s'.nodes[c].term == s'.nodes[p].term == Max(n.term, v.term)
      && (v.term > n.term ==>
            && s'.nodes[p] == v
            && s'.nodes[c].role == Follower && s'.nodes[c].votedFor.None? && s'.nodes[c].poll.None?)
      && (v.term <= n.term ==>
            var granted := Free(v, n.term, c) && NotBehind(n.log.entries, v.log.entries);
            && s'.nodes[p].votedFor == (if granted then Some(c) else if v.term < n.term then None else v.votedFor)
            && s'.nodes[p].role == (if v.term < n.term then Follower else v.role)
            && s'.nodes[p].log == v.log && s'.nodes[p].peers == v.peers && s'.nodes[p].poll.None?
            && s'.nodes[c] == n.(poll := Some(Poll(n.poll.value.asked + {p}, n.poll.value.votes + if granted then 1 else 0))))
  {
    var n := s.nodes[c];
    var (v', answer) := HandleVote(s.nodes[p], RequestOf(s, c));
    AskNodes(s, c, p, v', answer);
    VotesIff(s.nodes[p], n.log.entries, n.term, c);
  }

  // ---------------------------------------------------------------- one call to append

  /** The peer has the entry before the first one passed, or there is none before it. */
  predicate HasPrevious(leader: seq<Entry>, peer: seq<Entry>, prev: nat) {
    prev == 0 || (prev <= |peer| && peer[prev - 1].term == (if prev <= |leader| then leader[prev - 1].term else 0))
  }

  /** After an answered call leader and peer are in the later of their terms, and whoever was in another follows. */
  lemma TermsMeet(s: State, l: Id, p: Id, dropped: bool)
    requires Enabled(s, Replicate(l, p, dropped, Answered))
    ensures var n, v, s' := s.nodes[l], s.nodes[p], Step(s, Replicate(l, p, dropped, Answered));
      && |s'.nodes| == |s.nodes| && s'.nodes == s.nodes[p := s'.nodes[p]][l := s'.nodes[l]]
      && s'.nodes[l].term == s'.nodes[p].term == Max(n.term, v.term)
      && (v.term > n.term ==>
            s'.nodes[p] == v && s'.nodes[l] == n.(term := v.term, votedFor := None, role := Follower, poll := None))
      && (v.term <= n.term ==>
            && s'.nodes[l].role == n.role && s'.nodes[l].votedFor == n.votedFor && s'.nodes[l].log == n.log
            && (s'.nodes[p].role, s'.nodes[p].votedFor) ==
               (if v.term < n.term || v.role == Candidate then (Follower, None) else (v.role, v.votedFor)))
  {
    var sent := Replication(s.nodes[l], l, p);
    var r := AsHandled(AppendCall(p, sent), dropped).append;
    var (v', answer) := HandleAppend(s.nodes[p], r);
    ReplicateNodes(s, l, p, dropped, v', answer);
    PieceSent(s.nodes[l], l, p);
    Handles(s.nodes[p], r);
  }

  lemma Handles(n: Node, r: AppendRequest)
    ensures var (n', answer) := HandleAppend(n, r);
      && answer.term == n'.term == Max(n.term, r.term) && n'.peers == n.peers
      && (r.term < n.term ==> n' == n)
      && (r.term >= n.term ==>
            (n'.role, n'.votedFor) ==
            (if n.term < r.term || n.role == Candidate then (Follower, None) else (n.role, n.votedFor)))
  {
  }

  /** A peer that accepts a call commits what the leader has committed, as far as its log goes. */
  lemma AcceptedIsTold(s: State, l: Id, p: Id, dropped: bool, reach: Reach)
    requires Enabled(s, Replicate(l, p, dropped, reach)) && !reach.Missed?
    requires s.nodes[p].term <= s.nodes[l].term
    requires HasPrevious(s.nodes[l].log.entries, s.nodes[p].log.entries, s.nodes[l].peers[p].next - 1)
    ensures var s' := Step(s, Replicate(l, p, dropped, reach));
      |s'.nodes| == |s.nodes| && s'.nodes[p].log.commit >= Min(s.nodes[l].log.commit, |s'.nodes[p].log.entries|)
  {
    var sent := Replication(s.nodes[l], l, p);
    var r := AsHandled(AppendCall(p, sent), dropped).append;
    PieceSent(s.nodes[l], l, p);
    TheRest(s, Replicate(l, p, dropped, reach));
    Told(s.nodes[p], r);
    assert Step(s, Replicate(l, p, dropped, reach)).nodes[p] == HandleAppend(s.nodes[p], r).0;
  }

  lemma Told(n: Node, r: AppendRequest)
    requires n.term <= r.term && Consistent(n.log.entries, r)
    ensures var n' := HandleAppend(n, r).0; n'.log.commit >= Min(r.leaderCommit, |n'.log.entries|)
  {
  }

  /** Why a call is refused, and what the answer then tells: 0 to a request of an older term, or else the last index
      before the one asked for that the log has. */
  lemma RefusalTells(n: Node, r: AppendRequest)
    ensures var answer := HandleAppend(n, r).1;
      && (answer.success <==> r.term >= n.term && (r.prevIndex == 0 || HasEntry(n.log.entries, r.prevIndex, r.prevTerm)))
      && (!answer.success && r.term < n.term ==> answer.matchIndex == 0)
      && (!answer.success && r.term >= n.term ==>
            && answer.matchIndex < r.prevIndex && answer.matchIndex <= |n.log.entries|
            && (answer.matchIndex == |n.log.entries| || answer.matchIndex + 1 == r.prevIndex))
  {
  }

  predicate HasEntry(log: seq<Entry>, index: nat, term: nat) { 1 <= index <= |log| && log[index - 1].term == term }

  // ---------------------------------------------------------------- calls that come late

  /** What a peer makes of a call. */
  predicate Receives(s: State, call: Call, dropped: bool, s': State) {
    && call.to < |s.nodes| == |s'.nodes|
    && s'.nodes == s.nodes[call.to := s'.nodes[call.to]]
    && s'.nodes[call.to] ==
       (match call
        case VoteCall(_, r) => HandleVote(s.nodes[call.to], r).0
        case AppendCall(_, r) =>
          HandleAppend(s.nodes[call.to], if dropped then r.(entries := []) else r).0)
  }

  lemma CallsGrow(s: State, e: Event)
    ensures s.calls <= Step(s, e).calls
  {
    if Enabled(s, e) && IsCall(e) {
      TheRest(s, e);
    }
  }

  lemma {:induction false} CallsStayMade(ss: seq<State>, es: seq<Event>, j: nat, k: nat)
    requires Run(Step, ss, es) && j <= k <= |es|
    ensures ss[j].calls <= ss[k].calls
  {
    if j < k {
      CallsStayMade(ss, es, j, k - 1);
      CallsGrow(ss[k - 1], es[k - 1]);
    }
  }

  /** A call once made, even one that was missed, may reach its peer at any later time. */
  lemma MayComeLate(ss: seq<State>, es: seq<Event>, j: nat, k: nat, call: Call, dropped: bool)
    requires Run(Step, ss, es) && j < k <= |es| && Enabled(ss[j], es[j]) && Idle(ss[k], call.to)
    requires match es[j]
      case Ask(c, p, _) => call == VoteCall(p, RequestOf(ss[j], c))
      case Replicate(l, p, _, _) => call == AppendCall(p, Replication(ss[j].nodes[l], l, p))
      case _ => false
    ensures Receives(ss[k], call, dropped, Step(ss[k], Late(call, dropped)))
  {
    CallIsMade(ss[j], es[j], call);
    assert ss[j + 1] == Step(ss[j], es[j]);
    CallsStayMade(ss, es, j + 1, k);
    HandledNodes(ss[k], AsHandled(call, dropped));
  }

  lemma CallIsMade(s: State, e: Event, call: Call)
    requires Enabled(s, e)
    requires match e
      case Ask(c, p, _) => call == VoteCall(p, RequestOf(s, c))
      case Replicate(l, p, _, _) => call == AppendCall(p, Replication(s.nodes[l], l, p))
      case _ => false
    ensures call in Step(s, e).calls
  {
    match e
    case Ask(c, p, reach) => AskIsMade(s, c, p, reach);
    case Replicate(l, p, dropped, reach) =>
      var s2 := BeforeAnswer(s, l, p, dropped, reach);
      var answer := if reach.Answered? then HandleAppend(s.nodes[p], AsHandled(call, dropped).append).1
                    else AppendResponse(0, false, 0);
      assert Step(s, e) == Answer(s2, l, p, call.append, answer);
      AnswerRest(s2, l, p, call.append, answer);
  }

  lemma AskIsMade(s: State, c: Id, p: Id, reach: Reach)
    requires Enabled(s, Ask(c, p, reach))
    ensures VoteCall(p, RequestOf(s, c)) in Step(s, Ask(c, p, reach)).calls
  {
  }

  /** A call that gets no answer leaves the caller no wiser: no vote is counted, and a leader steps back by one. */
  lemma Unanswered(s: State, e: Event)
    requires Enabled(s, e) && (e.Ask? || e.Replicate?) && !e.reach.Answered?
    ensures |Step(s, e).nodes| == |s.nodes|
    ensures var s' := Step(s, e);
      match e
      case Ask(c, p, _) =>
        s'.nodes[c] == s.nodes[c].(poll := Some(Poll(s.nodes[c].poll.value.asked + {p}, s.nodes[c].poll.value.votes)))
      case Replicate(l, p, _, _) =>
        var known := s.nodes[l].peers[p];
        s'.nodes[l] == s.nodes[l].(peers := s.nodes[l].peers[p := Progress(Max(1, known.next - 1), known.matched)])
      case _ => true
    ensures e.reach.Missed? ==> Step(s, e).nodes[e.p] == s.nodes[e.p]
  {
    TheRest(s, e);
    match e
    case Ask(c, p, reach) => UnansweredAsk(s, c, p, reach);
    case Replicate(l, p, dropped, reach) =>
      var call := AppendCall(p, Replication(s.nodes[l], l, p));
      var s2 := BeforeAnswer(s, l, p, dropped, reach);
      BeforeAnswerIs(s, l, p, dropped, reach);
      assert Step(s, e) == Answer(s2, l, p, call.append, AppendResponse(0, false, 0));
      AnswerRest(s2, l, p, call.append, AppendResponse(0, false, 0));
      assert s.nodes[l].peers[p := s.nodes[l].peers[p]] == s.nodes[l].peers;
  }

  lemma UnansweredAsk(s: State, c: Id, p: Id, reach: Reach)
    requires Enabled(s, Ask(c, p, reach)) && !reach.Answered?
    ensures Step(s, Ask(c, p, reach)).nodes[c] ==
            s.nodes[c].(poll := Some(Poll(s.nodes[c].poll.value.asked + {p}, s.nodes[c].poll.value.votes)))
  {
  }

  // ---------------------------------------------------------------- behind the SQL wrapper

  lemma NothingPassed(n: Node, r: AppendRequest)
    requires r.entries == []
    ensures HandleAppend(n, r).0.log.entries == n.log.entries
  {
    AnswerIs(n, r);
  }

  lemma PeerPassedNothing(s: State, call: Call)
    requires call.to < |s.nodes| && (call.AppendCall? ==> call.append.entries == [])
    ensures var s' := Handled(s, call);
      |s'.nodes| == |s.nodes| && forall i: nat | i < |s.nodes| :: s'.nodes[i].log.entries == s.nodes[i].log.entries
  {
    if call.AppendCall? {
      NothingPassed(s.nodes[call.to], call.append);
    }
  }

  lemma RestPassesNothing(s: State, s1: State, s': State, e: Event, i: Id)
    requires IsCall(e) && RestOk(s, s1, s', e) && i < |s.nodes|
    ensures s'.nodes[i].log.entries == s1.nodes[i].log.entries
  {
  }

  /** Where the entries of all requests are dropped no call ever changes the entries of a log. */
  lemma WrapperPassesNothing(s: State, e: Event, i: Id)
    requires Enabled(s, e) && IsCall(e) && Dropped(e) && i < |s.nodes|
    ensures |Step(s, e).nodes| == |s.nodes| && Step(s, e).nodes[i].log.entries == s.nodes[i].log.entries
  {
    TheRest(s, e);
    if Delivered(s, e).Some? {
      PeerPassedNothing(s, Delivered(s, e).value);
    }
    RestPassesNothing(s, PeerSide(s, e), Step(s, e), e, i);
  }

  /** So in every run behind it a log grows only while its node is elected or takes commands. */
  lemma {:induction false} NobodyCatchesUp(ss: seq<State>, es: seq<Event>, j: nat, k: nat, i: Id)
    requires Run(Step, ss, es) && Initial(ss[0]) && j <= k <= |es| && i < |ss[j].nodes|
    requires forall m | 0 <= m < |es| :: Dropped(es[m])
    requires forall m | j <= m < k :: es[m] != Count(i) && !(es[m].Submit? && es[m].l == i)
    ensures i < |ss[k].nodes| && ss[k].nodes[i].log.entries == ss[j].nodes[i].log.entries
  {
    if j < k {
      NobodyCatchesUp(ss, es, j, k - 1, i);
      var s, e := ss[k - 1], es[k - 1];
      WrapperNeverCuts(ss, es);
      assert Durable(s) && Dropped(e);
      if Enabled(s, e) {
        if IsCall(e) {
          WrapperPassesNothing(s, e, i);
        } else {
          OwnEntries(s, e, i);
        }
      }
    }
  }

  lemma OwnEntries(s: State, e: Event, i: Id)
    requires Durable(s) && Enabled(s, e) && !IsCall(e) && i < |s.nodes|
    requires e != Count(i) && !(e.Submit? && e.l == i)
    ensures |Step(s, e).nodes| == |s.nodes| && Step(s, e).nodes[i].log.entries == s.nodes[i].log.entries
  {
    assert OnDisk(s.nodes[i].log);
  }
}
