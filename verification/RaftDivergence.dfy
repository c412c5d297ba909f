/** A cluster of three that commits two entries at one index, behind the SQL wrapper and without any failure. */
module RaftDivergence {
  import opened Options
  import opened Runs
  import opened RaftModel
  import opened RaftElections
  import opened RaftSteps
  import opened RaftAcks
  import opened RaftRecovery

  /** Node 0 leads term 1 and node 1 term 2, by the vote of node 2. Node 0 then acknowledges with its entry of term 1
      the one of term 2, which node 1 commits. In term 3 it is the other way round. */
  function Events(): seq<Event> {
    [Timeout(0), Ask(0, 2, Answered), Count(0),
     Timeout(1), Count(1), Timeout(1), Ask(1, 2, Answered), Count(1),
     Replicate(1, 0, true, Answered), Commit(1), Submit(1, "x"),
     Timeout(0), Ask(0, 2, Answered), Count(0),
     Replicate(0, 1, true, Answered), Replicate(0, 1, true, Answered), Commit(0)]
  }

  // ---------------------------------------------------------------- what matters of a node

  predicate Is(n: Node, term: nat, role: Role, entries: seq<Entry>, commit: nat) {
    n.term == term && n.role == role && n.log.entries == entries && n.log.commit == commit && n.poll.None? && |n.peers| == 3
  }

  /** Three nodes, of which the last has an empty log and follows whoever asks for its vote. */
  predicate Three(s: State) { |s.nodes| == 3 && Is(s.nodes[2], s.nodes[2].term, Follower, [], 0) }

  /** A node is elected by the vote of node 2. */
  lemma Elected(s: State, c: Id, role: Role, entries: seq<Entry>, term: nat)
    requires Three(s) && c < 2 && Is(s.nodes[c], term, role, entries, 0) && role != Leader && s.nodes[2].term <= term
    ensures var s' := Step(Step(Step(s, Timeout(c)), Ask(c, 2, Answered)), Count(c));
      && Three(s') && s'.nodes[2].term == term + 1 && s'.nodes[1 - c] == s.nodes[1 - c]
      && Is(s'.nodes[c], term + 1, Leader, entries + [Noop(term + 1)], 0)
      && s'.nodes[c].peers == NoProgress(3, |entries|)
  {
    var s1 := Step(s, Timeout(c));
    VoteOf2(s1, c, entries, term + 1);
  }

  lemma VoteOf2(s: State, c: Id, entries: seq<Entry>, term: nat)
    requires Three(s) && c < 2 && s.nodes[2].term < term
    requires s.nodes[c].(poll := None).log.entries == entries && s.nodes[c].term == term && s.nodes[c].log.commit == 0
    requires s.nodes[c].poll == Some(Poll({}, 1)) && |s.nodes[c].peers| == 3
    ensures var s' := Step(Step(s, Ask(c, 2, Answered)), Count(c));
      && Three(s') && s'.nodes[2].term == term && s'.nodes[1 - c] == s.nodes[1 - c]
      && Is(s'.nodes[c], term, Leader, entries + [Noop(term)], 0) && s'.nodes[c].peers == NoProgress(3, |entries|)
  {
    var voter := s.nodes[2].(term := term, votedFor := Some(c), role := Follower);
    assert HandleVote(s.nodes[2], RequestOf(s, c)) == (voter, VoteResponse(term, true));
    AskNodes(s, c, 2, voter, VoteResponse(term, true));
    var s1 := Step(s, Ask(c, 2, Answered));
    assert s1.nodes[c] == s.nodes[c].(poll := Some(Poll({} + {2}, 2)));
    assert Step(s1, Count(c)).nodes == s1.nodes[c := BecomeLeader(s1.nodes[c])];
  }

  /** A run, whose steps are looked at one at a time. */
  ghost predicate Trace(ss: seq<State>, es: seq<Event>) {
    |ss| == |es| + 1 && forall k: nat {:trigger At(k)} | k < |es| && At(k) :: ss[k + 1] == Step(ss[k], es[k])
  }

  predicate At(k: nat) { true }

  lemma RunIsTrace(ss: seq<State>, es: seq<Event>)
    requires Run(Step, ss, es)
    ensures Trace(ss, es)
  {
  }

  lemma ElectedInRun(ss: seq<State>, es: seq<Event>, k: nat, c: Id, role: Role, entries: seq<Entry>, term: nat, log: seq<Entry>)
    requires Trace(ss, es) && k + 3 <= |es|
    requires es[k] == Timeout(c) && es[k + 1] == Ask(c, 2, Answered) && es[k + 2] == Count(c)
    requires Three(ss[k]) && c < 2 && Is(ss[k].nodes[c], term, role, entries, 0) && role != Leader
    requires ss[k].nodes[2].term <= term && log == entries + [Noop(term + 1)]
    ensures var s, s' := ss[k], ss[k + 3];
      && Three(s') && s'.nodes[2].term == term + 1 && s'.nodes[1 - c] == s.nodes[1 - c]
      && Is(s'.nodes[c], term + 1, Leader, log, 0) && s'.nodes[c].peers == NoProgress(3, |entries|)
  {
    assert At(k) && At(k + 1) && At(k + 2);
    Elected(ss[k], c, role, entries, term);
  }

  lemma NotElected(s: State, c: Id, term: nat)
    requires Three(s) && c < 2 && Is(s.nodes[c], term, Follower, [], 0)
    ensures var s' := Step(Step(s, Timeout(c)), Count(c));
      s'.nodes[c := s.nodes[c]] == s.nodes && Is(s'.nodes[c], term + 1, Candidate, [], 0)
  {
  }

  /** Asked to follow a log that begins with another entry, a peer of an earlier term that is passed no entries falls
      in line and acknowledges its own last index. */
  lemma AcknowledgesOwn(s: State, l: Id, p: Id, commit: nat)
    requires Three(s) && l < 2 && p == 1 - l
    requires s.nodes[l].role == Leader && s.nodes[l].poll.None? && |s.nodes[l].peers| == 3 && s.nodes[l].log.commit == 0
    requires s.nodes[l].log.entries != [] && s.nodes[l].peers[p].next == 1
    requires s.nodes[p].term <= s.nodes[l].term && s.nodes[p].role != Candidate && s.nodes[p].poll.None?
    requires s.nodes[p].role == Leader ==> s.nodes[p].term < s.nodes[l].term
    requires s.nodes[p].log.commit == commit && |s.nodes[p].peers| == 3
    ensures var s', last := Step(s, Replicate(l, p, true, Answered)), |s.nodes[p].log.entries|;
      && Three(s') && s'.nodes[2] == s.nodes[2] && Is(s'.nodes[p], s.nodes[l].term, Follower, s.nodes[p].log.entries, commit)
      && s'.nodes[l] == s.nodes[l].(peers := s.nodes[l].peers[p := Progress(last + 1, last)])
  {
    var sent := Replication(s.nodes[l], l, p);
    var r := sent.(entries := []);
    var n := if r.term > s.nodes[p].term then BecomeFollower(s.nodes[p], r.term) else s.nodes[p];
    assert Followed(n.log, r) == n.log;
    assert HandleAppend(s.nodes[p], r) == (n, AppendResponse(r.term, true, |n.log.entries|));
    ReplicateNodes(s, l, p, true, n, AppendResponse(r.term, true, |n.log.entries|));
  }

  /** A peer that has another entry before the next one refuses, and is tried again from there. */
  lemma RefusesOther(s: State, l: Id, p: Id)
    requires Three(s) && l < 2 && p == 1 - l
    requires s.nodes[l].role == Leader && s.nodes[l].poll.None? && |s.nodes[l].peers| == 3 && s.nodes[l].peers[p].next == 2
    requires s.nodes[l].log.entries != [] && s.nodes[p].log.entries != []
    requires s.nodes[l].log.entries[0].term != s.nodes[p].log.entries[0].term
    requires s.nodes[p].term < s.nodes[l].term && s.nodes[p].poll.None?
    ensures Step(s, Replicate(l, p, true, Answered)).nodes ==
            s.nodes[p := BecomeFollower(s.nodes[p], s.nodes[l].term)]
                   [l := s.nodes[l].(peers := s.nodes[l].peers[p := s.nodes[l].peers[p].(next := 1)])]
  {
    var r := Replication(s.nodes[l], l, p).(entries := []);
    var n := BecomeFollower(s.nodes[p], r.term);
    assert !Consistent(n.log.entries, r);
    assert HandleAppend(s.nodes[p], r) == (n, AppendResponse(r.term, false, 0));
    ReplicateNodes(s, l, p, true, n, AppendResponse(r.term, false, 0));
  }

  /** With its last entry acknowledged by one of two peers, a leader of three commits it. */
  lemma Commits(s: State, l: Id, p: Id)
    requires Three(s) && l < 2 && p == 1 - l && Leading(s, l) && |s.nodes[l].peers| == 3
    requires s.nodes[l].log.entries != [] && LastTerm(s.nodes[l].log.entries) == s.nodes[l].term
    requires s.nodes[l].log.commit < |s.nodes[l].log.entries| <= s.nodes[l].peers[p].matched
    ensures var n := s.nodes[l];
      Step(s, Commit(l)).nodes == s.nodes[l := n.(log := n.log.(commit := |n.log.entries|))]
  {
    var n := s.nodes[l];
    assert p in Matching(n, l, |n.log.entries|);
    assert |Matching(n, l, |n.log.entries|)| >= 1 by {
      SubsetSize({p}, Matching(n, l, |n.log.entries|));
    }
  }

  // ---------------------------------------------------------------- the run

  lemma NewIs()
    ensures var s := NewCluster(3);
      Three(s) && s.nodes[2].term == 0 && Is(s.nodes[0], 0, Follower, [], 0) && Is(s.nodes[1], 0, Follower, [], 0)
  {
  }

  lemma FirstLeader(ss: seq<State>, es: seq<Event>, c: Id)
    requires Trace(ss, es) && |es| > 3 && c < 2
    requires es[0] == Timeout(c) && es[1] == Ask(c, 2, Answered) && es[2] == Count(c)
    requires Three(ss[0]) && ss[0].nodes[2].term == 0
    requires Is(ss[0].nodes[c], 0, Follower, [], 0) && Is(ss[0].nodes[1 - c], 0, Follower, [], 0)
    ensures Three(ss[3]) && ss[3].nodes[2].term == 1
    ensures Is(ss[3].nodes[c], 1, Leader, [Noop(1)], 0) && Is(ss[3].nodes[1 - c], 0, Follower, [], 0)
  {
    assert [] + [Noop(1)] == [Noop(1)];
    ElectedInRun(ss, es, 0, c, Follower, [], 0, [Noop(1)]);
  }

  lemma FirstTerm(ss: seq<State>)
    requires Trace(ss, Events()) && ss[0] == NewCluster(3)
    ensures Three(ss[5]) && ss[5].nodes[2].term == 1
    ensures Is(ss[5].nodes[0], 1, Leader, [Noop(1)], 0) && Is(ss[5].nodes[1], 1, Candidate, [], 0)
  {
    NewIs();
    FirstLeader(ss, Events(), 0);
    assert At(3) && At(4);
    NotElected(ss[3], 1, 0);
    assert ss[5].nodes[0] == ss[3].nodes[0] && ss[5].nodes[2] == ss[3].nodes[2];
  }

  lemma SecondLeader(ss: seq<State>)
    requires Trace(ss, Events()) && ss[0] == NewCluster(3)
    ensures Three(ss[8]) && ss[8].nodes[2].term == 2 && Is(ss[8].nodes[0], 1, Leader, [Noop(1)], 0)
    ensures Is(ss[8].nodes[1], 2, Leader, [Noop(2)], 0) && ss[8].nodes[1].peers == NoProgress(3, 0)
  {
    FirstTerm(ss);
    ElectedInRun(ss, Events(), 5, 1, Candidate, [], 1, [Noop(2)]);
  }

  lemma SecondTerm(ss: seq<State>)
    requires Trace(ss, Events()) && ss[0] == NewCluster(3)
    ensures Three(ss[10]) && ss[10].nodes[2].term == 2
    ensures Is(ss[10].nodes[0], 2, Follower, [Noop(1)], 0) && Is(ss[10].nodes[1], 2, Leader, [Noop(2)], 1)
  {
    SecondLeader(ss);
    assert At(8);
    AcknowledgesOwn(ss[8], 1, 0, 0);
    assert At(9);
    Commits(ss[9], 1, 0);
  }

  lemma ThirdTerm(ss: seq<State>)
    requires Trace(ss, Events()) && ss[0] == NewCluster(3)
    ensures Three(ss[14]) && Is(ss[14].nodes[1], 2, Leader, [Noop(2), Command(2, "x")], 1)
    ensures Is(ss[14].nodes[0], 3, Leader, [Noop(1), Noop(3)], 0) && ss[14].nodes[0].peers == NoProgress(3, 1)
  {
    SecondTerm(ss);
    assert At(10);
    assert ss[11].nodes == ss[10].nodes[1 := Submitted(ss[10].nodes[1], "x")];
    ElectedInRun(ss, Events(), 11, 0, Follower, [Noop(1)], 2, [Noop(1), Noop(3)]);
  }

  lemma LastSteps(ss: seq<State>)
    requires Trace(ss, Events()) && ss[0] == NewCluster(3)
    ensures |ss[17].nodes| == 3
    ensures ss[17].nodes[1].log.entries == [Noop(2), Command(2, "x")] && ss[17].nodes[1].log.commit == 1
    ensures ss[17].nodes[0].log.entries == [Noop(1), Noop(3)] && ss[17].nodes[0].log.commit == 2
  {
    ThirdTerm(ss);
    assert At(14);
    RefusesOther(ss[14], 0, 1);
    assert At(15);
    AcknowledgesOwn(ss[15], 0, 1, 1);
    assert At(16);
    Commits(ss[16], 0, 1);
  }

  /** A follower of the new leader acknowledges an entry it was not passed, and does not have. */
  lemma OverstatedAnswer()
    ensures exists ss: seq<State>, es: seq<Event> ::
      && Run(Step, ss, es) && Initial(ss[0]) && |es| == 9 && FalseAck(ss[8], es[8]) && !MatchTrue(ss[9])
  {
    var es := Events()[..9];
    var ss := EveryListRuns(Step, NewCluster(3), Events());
    RunIsTrace(ss, Events());
    SecondLeader(ss);
    assert Events()[8] == Replicate(1, 0, true, Answered);
    FalseAnswer(ss[8]);
    assert At(8);
    AcknowledgesOwn(ss[8], 1, 0, 0);
    assert !MatchesTruly(ss[9], 1, 0);
    FirstSteps(ss, Events(), 9);
    assert ss[..10][8] == ss[8] && ss[..10][9] == ss[9] && es[8] == Events()[8];
  }

  lemma FalseAnswer(s: State)
    requires Three(s) && Is(s.nodes[0], 1, Leader, [Noop(1)], 0)
    requires Is(s.nodes[1], 2, Leader, [Noop(2)], 0) && s.nodes[1].peers == NoProgress(3, 0)
    ensures FalseAck(s, Replicate(1, 0, true, Answered))
  {
    var sent := Replication(s.nodes[1], 1, 0);
    assert sent.entries == [Noop(2)];
  }

  lemma FirstSteps(ss: seq<State>, es: seq<Event>, n: nat)
    requires Run(Step, ss, es) && n <= |es|
    ensures Run(Step, ss[..n + 1], es[..n])
  {
  }

  lemma AllDropped()
    ensures forall k | 0 <= k < |Events()| :: Dropped(Events()[k])
  {
  }

  /** The last committed entry of node i is in no other log. */
  predicate CommittedAlone(s: State, i: Id) {
    && i < |s.nodes| && 1 <= s.nodes[i].log.commit <= |s.nodes[i].log.entries|
    && forall j: nat | j < |s.nodes| && j != i :: s.nodes[i].log.entries[s.nodes[i].log.commit - 1] !in s.nodes[j].log.entries
  }

  lemma AloneAfterTen(s: State)
    requires Three(s) && Is(s.nodes[0], 2, Follower, [Noop(1)], 0) && Is(s.nodes[1], 2, Leader, [Noop(2)], 1)
    ensures CommittedAlone(s, 1)
  {
    forall j: nat | j < |s.nodes| && j != 1 ensures Noop(2) !in s.nodes[j].log.entries {
      assert j == 0 || j == 2;
    }
  }

  /** A run, behind the wrapper and with all calls answered, in which a leader commits an entry only it has. */
  lemma CommitsAlone()
    ensures exists ss: seq<State>, es: seq<Event> ::
      && Run(Step, ss, es) && Initial(ss[0]) && (forall k | 0 <= k < |es| :: Dropped(es[k]))
      && CommittedAlone(ss[|es|], 1)
  {
    var ss := EveryListRuns(Step, NewCluster(3), Events());
    RunIsTrace(ss, Events());
    SecondTerm(ss);
    AloneAfterTen(ss[10]);
    FirstSteps(ss, Events(), 10);
    AllDropped();
    PieceOf(ss, Events(), 10);
  }

  lemma PieceOf(ss: seq<State>, es: seq<Event>, n: nat)
    requires n <= |es| < |ss| && forall k | 0 <= k < |es| :: Dropped(es[k])
    ensures |es[..n]| == n && ss[..n + 1][n] == ss[n] && ss[..n + 1][0] == ss[0]
    ensures forall k | 0 <= k < n :: Dropped(es[..n][k])
  {
  }

  /** And it goes on to where two nodes have committed different entries at index 1. */
  lemma CommitsDiverge()
    ensures exists ss: seq<State>, es: seq<Event> ::
      && Run(Step, ss, es) && Initial(ss[0]) && (forall k | 0 <= k < |es| :: Dropped(es[k]))
      && Diverged(ss[|es|], 0, 1)
  {
    var ss := EveryListRuns(Step, NewCluster(3), Events());
    RunIsTrace(ss, Events());
    LastSteps(ss);
    assert Diverged(ss[|Events()|], 0, 1);
  }

  predicate Diverged(s: State, i: Id, j: Id) {
    && i < |s.nodes| && j < |s.nodes|
    && var a, b := s.nodes[i].log, s.nodes[j].log;
      1 <= a.commit <= |a.entries| && 1 <= b.commit <= |b.entries| && a.entries[0] != b.entries[0]
  }

  // ---------------------------------------------------------------- a restart that mixes logs

  /** Node 1 leads term 1 and node 0 term 2, whose two entries replace the one of node 1. Started again, node 1 has
      its old entry back, with the second of the new ones after it. */
  function MixEvents(): seq<Event> {
    [Timeout(1), Ask(1, 2, Answered), Count(1),
     Timeout(0), Count(0), Timeout(0), Ask(0, 2, Answered), Count(0),
     Submit(0, "x"), Replicate(0, 1, false, Answered), Restart(1, false)]
  }

  lemma MixFirst(ss: seq<State>)
    requires Trace(ss, MixEvents()) && ss[0] == NewCluster(3)
    ensures Three(ss[5]) && ss[5].nodes[2].term == 1
    ensures Is(ss[5].nodes[1], 1, Leader, [Noop(1)], 0) && Is(ss[5].nodes[0], 1, Candidate, [], 0)
  {
    NewIs();
    FirstLeader(ss, MixEvents(), 1);
    assert At(3) && At(4);
    NotElected(ss[3], 0, 0);
    assert ss[5].nodes[1] == ss[3].nodes[1] && ss[5].nodes[2] == ss[3].nodes[2];
  }

  lemma MixSecond(ss: seq<State>)
    requires Trace(ss, MixEvents()) && ss[0] == NewCluster(3)
    ensures Three(ss[8]) && Is(ss[8].nodes[1], 1, Leader, [Noop(1)], 0)
    ensures Is(ss[8].nodes[0], 2, Leader, [Noop(2)], 0) && ss[8].nodes[0].peers == NoProgress(3, 0)
  {
    MixFirst(ss);
    ElectedInRun(ss, MixEvents(), 5, 0, Candidate, [], 1, [Noop(2)]);
  }

  lemma MixSubmitted(ss: seq<State>)
    requires Trace(ss, MixEvents()) && ss[0] == NewCluster(3)
    ensures Three(ss[9]) && Is(ss[9].nodes[1], 1, Leader, [Noop(1)], 0)
    ensures Is(ss[9].nodes[0], 2, Leader, [Noop(2), Command(2, "x")], 0) && ss[9].nodes[0].peers == NoProgress(3, 0)
  {
    MixSecond(ss);
    assert At(8);
    assert ss[9].nodes == ss[8].nodes[0 := Submitted(ss[8].nodes[0], "x")];
  }

  lemma NothingToCut(s: State, e: Event)
    requires !e.Replicate? && !e.Late?
    ensures !CutsLog(s, e)
  {
  }

  lemma MixEarly(k: nat)
    requires k < 9
    ensures !MixEvents()[k].Replicate? && !MixEvents()[k].Late?
  {
  }

  lemma {:induction false} MixDurable(ss: seq<State>, k: nat)
    requires Run(Step, ss, MixEvents()) && Initial(ss[0]) && k <= 9
    ensures Durable(ss[k])
  {
    if k > 0 {
      MixDurable(ss, k - 1);
      InvThroughout(ss, MixEvents(), k - 1);
      MixEarly(k - 1);
      NothingToCut(ss[k - 1], MixEvents()[k - 1]);
      DurableStep(ss[k - 1], MixEvents()[k - 1]);
      assert ss[k] == Step(ss[k - 1], MixEvents()[k - 1]);
    }
  }

  lemma MixCut(log: Log)
    requires log.entries == [Noop(1)] && OnDisk(log)
    ensures var log' := Merged(log, 0, [Noop(2), Command(2, "x")]);
      log'.entries == [Noop(2), Command(2, "x")] && log'.disk.entries == [Noop(1), Command(2, "x")]
  {
    var sent := [Noop(2), Command(2, "x")];
    var cut := Truncate(log, 0);
    assert cut.entries == [] && cut.disk.entries == [Noop(1)];
    var log1 := Append(cut, sent[0]);
    assert AppendAll(cut, sent, 0, 1) == log1;
    assert log1.entries == [Noop(2)] && log1.disk.entries == [Noop(1)];
    assert AppendAll(cut, sent, 0, 2) == Append(log1, sent[1]);
    assert Extended([Noop(1)], sent, 1) == [Noop(1)];
    assert Extended([Noop(1)], sent, 2) == [Noop(1)] + [sent[1]];
    assert [Noop(2)] + [sent[1]] == sent;
  }

  lemma MixFollowed(n: Node, r: AppendRequest)
    requires n.term < r.term && n.log.entries == [Noop(1)] && OnDisk(n.log)
    requires r.prevIndex == 0 && r.entries == [Noop(2), Command(2, "x")]
    ensures HandleAppend(n, r).0.log.disk.entries == [Noop(1), Command(2, "x")]
  {
    MixCut(n.log);
    assert Followed(n.log, r).disk == Merged(n.log, 0, r.entries).disk;
  }

  lemma MixReplaced(s: State)
    requires Three(s) && Is(s.nodes[1], 1, Leader, [Noop(1)], 0) && OnDisk(s.nodes[1].log)
    requires Is(s.nodes[0], 2, Leader, [Noop(2), Command(2, "x")], 0) && s.nodes[0].peers == NoProgress(3, 0)
    ensures var s' := Step(s, Replicate(0, 1, false, Answered));
      && |s'.nodes| == 3 && s'.nodes[0].log == s.nodes[0].log
      && s'.nodes[1].log.disk.entries == [Noop(1), Command(2, "x")]
  {
    var sent := Replication(s.nodes[0], 0, 1);
    assert sent.entries == [Noop(2), Command(2, "x")];
    var (n, answer) := HandleAppend(s.nodes[1], sent);
    MixFollowed(s.nodes[1], sent);
    ReplicateNodes(s, 0, 1, false, n, answer);
    AnswersAreQuiet(s.nodes[0], 1);
  }

  /** A run in which two nodes have the same second entry after different first ones. */
  lemma RestartMixesLogs()
    ensures exists ss: seq<State>, es: seq<Event> ::
      && Run(Step, ss, es) && Initial(ss[0]) && Mixed(ss[|es|])
  {
    var ss := EveryListRuns(Step, NewCluster(3), MixEvents());
    RunIsTrace(ss, MixEvents());
    MixSubmitted(ss);
    MixDurable(ss, 9);
    assert At(9);
    MixReplaced(ss[9]);
    assert At(10);
    assert Mixed(ss[|MixEvents()|]);
  }

  predicate Mixed(s: State) {
    |s.nodes| == 3 && var a, b := s.nodes[0].log.entries, s.nodes[1].log.entries;
      |a| == 2 && |b| == 2 && a[1] == b[1] && a[0] != b[0]
  }
}
