/** What answered calls bring about: peers caught up, entries committed, candidates elected. */
module RaftProgress {
  import opened Runs
  import opened RaftModel
  import opened RaftElections
  import opened RaftSteps
  import opened RaftLog
  import opened RaftMatching
  import opened RaftAcks
  import opened RaftCommit

  // ---------------------------------------------------------------- what two logs have in common

  /** How many entries two logs begin with alike. */
  function Common(a: seq<Entry>, b: seq<Entry>): (c: nat)
    ensures c <= |a| && c <= |b| && a[..c] == b[..c]
    ensures c < |a| && c < |b| ==> a[c] != b[c]
  {
    CommonUpTo(a, b, 0)
  }

  function CommonUpTo(a: seq<Entry>, b: seq<Entry>, i: nat): (c: nat)
    requires i <= |a| && i <= |b| && a[..i] == b[..i]
    ensures c <= |a| && c <= |b| && a[..c] == b[..c]
    ensures c < |a| && c < |b| ==> a[c] != b[c]
    decreases |a| - i
  {
    if i == |a| || i == |b| || a[i] != b[i] then i
    else
      assert a[..i + 1] == a[..i] + [a[i]] && b[..i + 1] == b[..i] + [b[i]];
      CommonUpTo(a, b, i + 1)
  }

  lemma AlikeAt(a: seq<Entry>, b: seq<Entry>, i: nat)
    requires i <= |a| && i <= |b| && a[..i] == b[..i]
    ensures forall j | 0 <= j < i :: a[j] == b[j]
  {
    forall j | 0 <= j < i ensures a[j] == b[j] {
      assert a[..i][j] == b[..i][j];
    }
  }

  lemma AlikeIsCommon(a: seq<Entry>, b: seq<Entry>, i: nat)
    requires i <= |a| && i <= |b| && a[..i] == b[..i]
    ensures i <= Common(a, b)
  {
    AlikeAt(a, b, i);
  }

  lemma CommonIs(a: seq<Entry>, b: seq<Entry>, c: nat)
    requires c <= |a| && c <= |b| && a[..c] == b[..c] && (c < |a| && c < |b| ==> a[c] != b[c])
    ensures Common(a, b) == c
  {
    AlikeIsCommon(a, b, c);
    AlikeAt(a, b, Common(a, b));
  }

  /** A peer accepts exactly what goes on from what it has in common with the leader. */
  lemma AcceptsFromCommon(books: Books, log: seq<Entry>, book: seq<Entry>, r: AppendRequest)
    requires BooksOk(books) && Good(books, log) && Good(books, book) && r.prevTerm == TermAt(book, r.prevIndex)
    ensures Consistent(log, r) <==> r.prevIndex <= Common(log, book)
  {
    var i := r.prevIndex;
    if 0 < i <= |log| {
      assert EntryOk(books, log, i - 1);
      BookIsGood(books, log[i - 1].term);
      if TermAt(log, i) == TermAt(book, i) {
        Matching2(books, log, book, i - 1);
        AlikeIsCommon(log, book, i);
      }
      if i <= Common(log, book) {
        var c := Common(log, book);
        assert log[..c][i - 1] == book[..c][i - 1];
      }
    }
  }

  // ---------------------------------------------------------------- one answered call

  function Max(a: nat, b: nat): nat { if a < b then b else a }

  /** Where a call ends that goes on from index `prev`: it passes at most 100 entries. */
  function End(prev: nat, last: nat): nat { Min(prev + 100, last) }

  /** What an answered call makes of the log of a peer that has the first c entries in common with the leader. If the
      call goes on from there or before, the peer has the leader's entries up to its end, or has all that is passed. */
  function LogAfter(log: seq<Entry>, book: seq<Entry>, prev: nat): seq<Entry> {
    var c, end := Common(log, book), End(prev, |book|);
    if prev <= c < end then book[..end] else log
  }

  /** What it makes of its commit index. */
  function CommitAfter(log: Log, book: seq<Entry>, prev: nat, told: nat): nat {
    var c, log' := Common(log.entries, book), LogAfter(log.entries, book, prev);
    if prev > c then log.commit
    else Max(if c < End(prev, |book|) then Min(log.commit, c) else log.commit, Min(told, |log'|))
  }

  /** And what the leader then knows of the peer. */
  function ProgressAfter(known: Progress, log: seq<Entry>, book: seq<Entry>): Progress {
    var prev := known.next - 1;
    if prev > Common(log, book) then Progress(prev, known.matched)
    else if prev < |book| then Progress(|LogAfter(log, book, prev)| + 1, |LogAfter(log, book, prev)|)
    else known
  }

  lemma PieceSent(n: Node, l: Id, p: Id)
    requires p < |n.peers|
    ensures var sent, prev, book := Replication(n, l, p), n.peers[p].next - 1, n.log.entries;
      && sent.prevIndex == prev && sent.prevTerm == TermAt(book, prev) && sent.leaderCommit == n.log.commit
      && sent.term == n.term && (prev <= |book| ==> sent.entries == book[prev..End(prev, |book|)])
      && (sent.entries == [] <==> prev >= |book|)
  {
  }

  lemma FitIsCommon(books: Books, log: seq<Entry>, book: seq<Entry>, at: nat, entries: seq<Entry>)
    requires BooksOk(books) && Good(books, log) && Good(books, book)
    requires at <= Common(log, book) && at + |entries| <= |book| && entries == book[at..at + |entries|]
    ensures at + Fit(log, at, entries) == Min(Common(log, book), at + |entries|)
  {
    var c, k := Common(log, book), Fit(log, at, entries);
    assert log[..at] == log[..c][..at] == book[..c][..at] == book[..at];
    FitAgrees(books, log, book, at, entries);
    AlikeIsCommon(log, book, at + k);
    AlikeAt(log, book, c);
    assert forall j | at <= j < at + |entries| :: entries[j - at] == book[j];
  }

  /** What a piece of the leader's log makes of a log that has all before it. */
  lemma PieceFollows(books: Books, log: seq<Entry>, book: seq<Entry>, at: nat, entries: seq<Entry>)
    requires BooksOk(books) && Good(books, log) && Good(books, book)
    requires at <= Common(log, book) && at + |entries| <= |book| && entries == book[at..at + |entries|]
    ensures at + Fit(log, at, entries) == Min(Common(log, book), at + |entries|)
    ensures Overlaid(log, at, entries) == if Common(log, book) < at + |entries| then book[..at + |entries|] else log
  {
    var c := Common(log, book);
    FitIsCommon(books, log, book, at, entries);
    assert log[..at] == log[..c][..at] == book[..c][..at] == book[..at];
    FollowsPiece(books, log, book, at, entries);
  }

  lemma CommitFollows(log: Log, r: AppendRequest, c: nat, log': seq<Entry>)
    requires r.prevIndex <= c <= |log.entries| && log.commit <= |log.entries|
    requires Fit(log.entries, r.prevIndex, r.entries) == Min(c, r.prevIndex + |r.entries|) - r.prevIndex
    requires log' == Overlaid(log.entries, r.prevIndex, r.entries)
    ensures Followed(log, r).commit ==
            Max(if c < r.prevIndex + |r.entries| then Min(log.commit, c) else log.commit, Min(r.leaderCommit, |log'|))
  {
    FollowedEntries(log, r);
    var k := Fit(log.entries, r.prevIndex, r.entries);
    if k < |r.entries| {
      assert Truncate(log, c).commit == Min(log.commit, c);
      assert Merged(log, r.prevIndex, r.entries).commit == Min(log.commit, c);
    }
  }

  lemma EntriesFollow(books: Books, leader: Node, l: Id, p: Id, log: seq<Entry>)
    requires BooksOk(books) && Good(books, leader.log.entries) && Good(books, log) && p < |leader.peers|
    ensures var sent, prev, book := Replication(leader, l, p), leader.peers[p].next - 1, leader.log.entries;
      && (Consistent(log, sent) <==> prev <= Common(log, book))
      && (prev <= Common(log, book) ==>
            && prev + Fit(log, prev, sent.entries) == Min(Common(log, book), prev + |sent.entries|)
            && prev + |sent.entries| == End(prev, |book|)
            && Overlaid(log, prev, sent.entries) == LogAfter(log, book, prev))
  {
    var sent, prev, book := Replication(leader, l, p), leader.peers[p].next - 1, leader.log.entries;
    PieceSent(leader, l, p);
    AcceptsFromCommon(books, log, book, sent);
    if prev <= Common(log, book) {
      PieceFollows(books, log, book, prev, sent.entries);
    }
  }

  /** An answered call, as the two nodes see it. */
  lemma PeerFollows(books: Books, leader: Node, l: Id, p: Id, peer: Node)
    requires BooksOk(books) && NodeOk(books, leader) && NodeOk(books, peer) && p < |leader.peers|
    requires peer.term <= leader.term && peer.log.commit <= |peer.log.entries|
    ensures var sent, prev, book := Replication(leader, l, p), leader.peers[p].next - 1, leader.log.entries;
      var peer' := HandleAppend(peer, sent).0;
      && peer'.log.entries == LogAfter(peer.log.entries, book, prev)
      && peer'.log.commit == CommitAfter(peer.log, book, prev, leader.log.commit)
  {
    var sent := Replication(leader, l, p);
    PieceSent(leader, l, p);
    AnswerIs(peer, sent);
    EntriesFollow(books, leader, l, p, peer.log.entries);
    if Consistent(peer.log.entries, sent) {
      var log, book := peer.log.entries, leader.log.entries;
      CommitFollows(peer.log, sent, Common(log, book), LogAfter(log, book, sent.prevIndex));
    }
  }

  lemma Learns(leader: Node, p: Id, sent: AppendRequest, answer: AppendResponse, log: seq<Entry>)
    requires p < |leader.peers| && answer.term <= leader.term
    requires var prev, book := leader.peers[p].next - 1, leader.log.entries;
      && (answer.success <==> prev <= Common(log, book)) && (sent.entries == [] <==> prev >= |book|)
      && (answer.success ==> answer.matchIndex == |LogAfter(log, book, prev)|)
    ensures Replicated(leader, p, sent, answer) ==
            leader.(peers := leader.peers[p := ProgressAfter(leader.peers[p], log, leader.log.entries)])
  {
    assert leader.peers[p := leader.peers[p]] == leader.peers;
  }

  lemma LeaderLearns(books: Books, leader: Node, l: Id, p: Id, peer: Node)
    requires BooksOk(books) && NodeOk(books, leader) && NodeOk(books, peer) && p < |leader.peers|
    requires peer.term <= leader.term
    ensures var sent := Replication(leader, l, p);
      Replicated(leader, p, sent, HandleAppend(peer, sent).1) ==
      leader.(peers := leader.peers[p := ProgressAfter(leader.peers[p], peer.log.entries, leader.log.entries)])
  {
    var sent := Replication(leader, l, p);
    PieceSent(leader, l, p);
    AnswerIs(peer, sent);
    EntriesFollow(books, leader, l, p, peer.log.entries);
    AnswerTerm(peer, sent);
    Learns(leader, p, sent, HandleAppend(peer, sent).1, peer.log.entries);
  }

  lemma AnswerTerm(n: Node, r: AppendRequest)
    ensures HandleAppend(n, r).1.term == HandleAppend(n, r).0.term == Max(n.term, r.term)
  {
  }

  // ---------------------------------------------------------------- what is committed is there

  predicate LogSized(log: Log) { log.commit <= |log.entries| && log.disk.commit <= |log.disk.entries| }

  predicate NodeSized(n: Node, size: nat) { LogSized(n.log) && |n.peers| == size }

  /** Commit indices lie within their logs, in memory and on disk, and every node knows all others. */
  predicate Sized(s: State) { forall i: nat | i < |s.nodes| :: NodeSized(s.nodes[i], |s.nodes|) }

  lemma PersistedSized(d: Disk, entries: seq<Entry>, commit: nat)
    requires d.commit <= |d.entries|
    ensures Persisted(d, entries, commit).commit <= |Persisted(d, entries, commit).entries|
  {
  }

  lemma AppendSized(log: Log, entry: Entry)
    requires LogSized(log)
    ensures LogSized(Append(log, entry))
  {
    PersistedSized(log.disk, log.entries + [entry], log.commit);
  }

  lemma {:induction false} AllSized(log: Log, entries: seq<Entry>, i: nat, j: nat)
    requires LogSized(log) && i <= j <= |entries|
    ensures LogSized(AppendAll(log, entries, i, j))
    decreases j
  {
    if i < j {
      AllSized(log, entries, i, j - 1);
      AppendSized(AppendAll(log, entries, i, j - 1), entries[j - 1]);
    }
  }

  lemma FollowedSized(log: Log, r: AppendRequest)
    requires LogSized(log) && r.prevIndex <= |log.entries|
    ensures LogSized(Followed(log, r))
  {
    var k := Fit(log.entries, r.prevIndex, r.entries);
    if k < |r.entries| {
      var cut := Truncate(log, r.prevIndex + k);
      assert LogSized(cut);
      AllSized(cut, r.entries, k, |r.entries|);
    }
  }

  lemma PeerSized(n: Node, r: AppendRequest, size: nat)
    requires NodeSized(n, size)
    ensures NodeSized(HandleAppend(n, r).0, size)
  {
    if n.term <= r.term && Consistent(n.log.entries, r) {
      FollowedSized(n.log, r);
    }
  }

  lemma HandledSized(s: State, call: Call)
    requires Sized(s) && call.to < |s.nodes|
    ensures Sized(Handled(s, call)) && |Handled(s, call).nodes| == |s.nodes|
  {
    if call.AppendCall? {
      PeerSized(s.nodes[call.to], call.append, |s.nodes|);
    }
  }

  lemma {:induction false} NewCommitSized(n: Node, id: Id, quorum: nat, i: nat)
    requires i <= |n.log.entries| && n.log.commit <= |n.log.entries|
    ensures NewCommit(n, id, quorum, i) <= |n.log.entries|
  {
    if i > n.log.commit {
      NewCommitSized(n, id, quorum, i - 1);
    }
  }

  lemma OwnSized(s: State, e: Event)
    requires Sized(s) && Enabled(s, e) && !IsCall(e)
    ensures Sized(Step(s, e)) && |Step(s, e).nodes| == |s.nodes|
  {
    match e
    case Commit(l) => NewCommitSized(s.nodes[l], l, Quorum(s), |s.nodes[l].log.entries|);
    case Count(c) => AppendSized(s.nodes[c].log, Noop(s.nodes[c].term));
    case Submit(l, command) => AppendSized(s.nodes[l].log, Command(s.nodes[l].term, command));
    case Restart(c, stopped) => PersistedSized(s.nodes[c].log.disk, s.nodes[c].log.entries, s.nodes[c].log.commit);
    case Timeout(_) =>
  }

  lemma SizedStep(s: State, e: Event)
    requires Inv(s) && Sized(s)
    ensures Sized(Step(s, e)) && |Step(s, e).nodes| == |s.nodes|
  {
    if Enabled(s, e) {
      if IsCall(e) {
        TheRest(s, e);
        if Delivered(s, e).Some? {
          HandledSized(s, Delivered(s, e).value);
        }
        RestSized(s, PeerSide(s, e), Step(s, e), e);
      } else {
        OwnSized(s, e);
      }
    }
  }

  lemma RestSized(s: State, s1: State, s': State, e: Event)
    requires Sized(s) && Sized(s1) && |s1.nodes| == |s.nodes| && IsCall(e) && RestOk(s, s1, s', e)
    ensures Sized(s')
  {
    forall i: nat | i < |s'.nodes| ensures NodeSized(s'.nodes[i], |s'.nodes|) {
      assert NodeSized(s.nodes[i], |s.nodes|) && NodeSized(s1.nodes[i], |s.nodes|);
    }
  }

  /** In every run, restarts and all: nothing is committed that is not there. */
  lemma {:induction false} CommittedIsThere(ss: seq<State>, es: seq<Event>, k: nat)
    requires Run(Step, ss, es) && Initial(ss[0]) && k <= |es|
    ensures Sized(ss[k]) && |ss[k].nodes| == |ss[0].nodes|
  {
    if k > 0 {
      CommittedIsThere(ss, es, k - 1);
      InvThroughout(ss, es, k - 1);
      SizedStep(ss[k - 1], es[k - 1]);
    }
  }

  // ---------------------------------------------------------------- what a leader knows of its peers

  /** A peer that is to be sent nothing is known to have everything. */
  predicate Tracks(n: Node) {
    n.role == Leader ==>
      forall q | 0 <= q < |n.peers| :: n.peers[q].next <= |n.log.entries| || n.peers[q].next <= n.peers[q].matched + 1
  }

  predicate AllTrack(s: State) { forall i: nat | i < |s.nodes| :: Tracks(s.nodes[i]) }

  lemma PeerTracks(s: State, call: Call)
    requires Inv(s) && Idle(s, call.to) && CallOk(s, call) && Tracks(s.nodes[call.to])
    ensures Tracks(Handled(s, call).nodes[call.to])
  {
    if call.AppendCall? {
      NotToLeader(s, call.to, call.append);
      AnswerIs(s.nodes[call.to], call.append);
      RolesAfter(s.nodes[call.to], call.append);
      PeersAfter(s.nodes[call.to], call.append);
    }
  }

  lemma ReplicatingTracks(s: State, l: Id, p: Id, dropped: bool, reach: Reach)
    requires Enabled(s, Replicate(l, p, dropped, reach)) && Tracks(s.nodes[l])
    ensures |Step(s, Replicate(l, p, dropped, reach)).nodes| == |s.nodes|
    ensures Tracks(Step(s, Replicate(l, p, dropped, reach)).nodes[l])
  {
    var call := AppendCall(p, Replication(s.nodes[l], l, p));
    var s2 := BeforeAnswer(s, l, p, dropped, reach);
    BeforeAnswerIs(s, l, p, dropped, reach);
    var answer :=
      if reach.Answered? then HandleAppend(s.nodes[p], AsHandled(call, dropped).append).1 else AppendResponse(0, false, 0);
    assert Step(s, Replicate(l, p, dropped, reach)) == Answer(s2, l, p, call.append, answer);
    AnswerRest(s2, l, p, call.append, answer);
    AnswerTracks(s.nodes[l], p, call.append, answer);
  }

  lemma AnswerTracks(n: Node, p: Id, sent: AppendRequest, answer: AppendResponse)
    requires p < |n.peers| && Tracks(n)
    ensures Tracks(Replicated(n, p, sent, answer))
  {
  }

  lemma OwnTracks(s: State, e: Event)
    requires Inv(s) && AllTrack(s) && Enabled(s, e) && !IsCall(e)
    ensures AllTrack(Step(s, e))
  {
  }

  lemma CallTracks(s: State, e: Event, i: Id)
    requires Inv(s) && AllTrack(s) && Enabled(s, e) && IsCall(e) && i < |s.nodes|
    ensures |Step(s, e).nodes| == |s.nodes| && Tracks(Step(s, e).nodes[i])
  {
    if e.Replicate? && e.l == i {
      ReplicatingTracks(s, e.l, e.p, e.dropped, e.reach);
    } else {
      TheRest(s, e);
      if Delivered(s, e).Some? {
        DeliveredOk(s, e);
        HandledNodes(s, Delivered(s, e).value);
        PeerTracks(s, Delivered(s, e).value);
      }
      if e.Ask? {
        assert RoleOk(s, e.c);
      }
    }
  }

  lemma AllTrackStep(s: State, e: Event)
    requires Inv(s) && AllTrack(s)
    ensures AllTrack(Step(s, e))
  {
    if Enabled(s, e) {
      if IsCall(e) {
        TheRest(s, e);
        forall i: nat | i < |s.nodes| ensures Tracks(Step(s, e).nodes[i]) {
          CallTracks(s, e, i);
        }
      } else {
        OwnTracks(s, e);
      }
    }
  }

  // ---------------------------------------------------------------- rounds of replication

  ghost predicate Healthy(s: State) { Inv(s) && LogInv(s) && Sized(s) && AllTrack(s) }

  /** A leader and a peer that can be called and is in no later term. */
  ghost predicate Reaches(s: State, l: Id, p: Id) {
    && Healthy(s) && Leading(s, l) && Idle(s, p) && p != l && s.nodes[p].term <= s.nodes[l].term
  }

  /** What an answered call changes: the peer, and what the leader knows of it. */
  predicate RoundIs(s: State, l: Id, p: Id, s': State) {
    && l < |s.nodes| && p < |s.nodes| && p < |s.nodes[l].peers| && |s'.nodes| == |s.nodes|
    && s'.nodes == s.nodes[p := s'.nodes[p]][l := s'.nodes[l]]
    && AnswersTo(s.nodes[l], p, s.nodes[p], s'.nodes[p], s'.nodes[l])
  }

  lemma FollowerAfter(n: Node, r: AppendRequest)
    requires n.term <= r.term && n.poll.None?
    ensures HandleAppend(n, r).0.term == r.term && HandleAppend(n, r).0.poll.None?
  {
  }

  /** What an answered call makes of the peer, and of what the leader knows of it. */
  predicate AnswersTo(leader: Node, p: Id, peer: Node, peer': Node, leader': Node)
    requires p < |leader.peers|
  {
    var known, book := leader.peers[p], leader.log.entries;
    && peer'.log.entries == LogAfter(peer.log.entries, book, known.next - 1)
    && peer'.log.commit == CommitAfter(peer.log, book, known.next - 1, leader.log.commit)
    && peer'.term == leader.term && peer'.poll.None?
    && leader' == leader.(peers := leader.peers[p := ProgressAfter(known, peer.log.entries, book)])
  }

  lemma PeerRound(books: Books, leader: Node, l: Id, p: Id, peer: Node)
    requires BooksOk(books) && NodeOk(books, leader) && NodeOk(books, peer) && p < |leader.peers|
    requires peer.term <= leader.term && peer.log.commit <= |peer.log.entries| && peer.poll.None?
    ensures var (peer', answer) := HandleAppend(peer, Replication(leader, l, p));
      AnswersTo(leader, p, peer, peer', Replicated(leader, p, Replication(leader, l, p), answer))
  {
    PieceSent(leader, l, p);
    FollowerAfter(peer, Replication(leader, l, p));
    PeerFollows(books, leader, l, p, peer);
    LeaderLearns(books, leader, l, p, peer);
  }

  lemma NodesAre(s: State, l: Id, p: Id)
    requires LogInv(s) && Sized(s) && l < |s.nodes| && p < |s.nodes|
    ensures NodeOk(s.books, s.nodes[l]) && NodeOk(s.books, s.nodes[p])
    ensures s.nodes[p].log.commit <= |s.nodes[p].log.entries| && s.nodes[l].log.commit <= |s.nodes[l].log.entries|
    ensures |s.nodes[l].peers| == |s.nodes|
  {
    assert NodeSized(s.nodes[l], |s.nodes|) && NodeSized(s.nodes[p], |s.nodes|);
  }

  lemma StillReaches(s: State, l: Id, p: Id, s': State)
    requires Reaches(s, l, p) && RoundIs(s, l, p, s') && Healthy(s')
    ensures Reaches(s', l, p)
  {
  }

  lemma OneRound(s: State, l: Id, p: Id)
    requires Reaches(s, l, p)
    ensures var s' := Step(s, Replicate(l, p, false, Answered)); RoundIs(s, l, p, s') && Reaches(s', l, p)
  {
    NodesAre(s, l, p);
    var (n, answer) := HandleAppend(s.nodes[p], Replication(s.nodes[l], l, p));
    PeerRound(s.books, s.nodes[l], l, p, s.nodes[p]);
    ReplicateNodes(s, l, p, false, n, answer);
    StepKeeps(s, Replicate(l, p, false, Answered));
    StillReaches(s, l, p, Step(s, Replicate(l, p, false, Answered)));
  }

  lemma StepKeeps(s: State, e: Event)
    requires Healthy(s) && !LosesLog(s, e)
    ensures Healthy(Step(s, e)) && |Step(s, e).nodes| == |s.nodes|
  {
    AllTrackStep(s, e);
    InvStep(s, e);
    LogInvStep(s, e);
    SizedStep(s, e);
  }

  /** The peer has the leader's entries, commits as far, and the leader knows it. */
  predicate CaughtUp(s: State, l: Id, p: Id) {
    && l < |s.nodes| && p < |s.nodes| && p < |s.nodes[l].peers|
    && s.nodes[l].log.entries <= s.nodes[p].log.entries && s.nodes[l].log.commit <= s.nodes[p].log.commit
    && s.nodes[l].peers[p].matched >= |s.nodes[l].log.entries|
  }

  /** n answered calls of one leader to one peer. */
  function Rounds(l: Id, p: Id, n: nat): seq<Event> {
    seq(n, i => Replicate(l, p, false, Answered))
  }

  lemma RoundsFrom(s: State, l: Id, p: Id, n: nat)
    ensures After(Step, s, Rounds(l, p, n + 1)) == After(Step, After(Step, s, Rounds(l, p, 1)), Rounds(l, p, n))
  {
    assert Rounds(l, p, n + 1) == Rounds(l, p, 1) + Rounds(l, p, n);
    AfterConcat(Step, s, Rounds(l, p, 1), Rounds(l, p, n));
  }

  /** How many calls it takes at most: one for each step back to what both have, and one for each 100 entries on. */
  function Budget(known: Progress, log: seq<Entry>, book: seq<Entry>): nat {
    var c, prev := Common(log, book), known.next - 1;
    (if prev < c then 1 + |log| - c else prev - c) + (|book| - c + 99) / 100 + 1
  }

  /** One call uses up some of them. */
  lemma BudgetShrinks(known: Progress, log: seq<Entry>, book: seq<Entry>)
    ensures var prev, log' := known.next - 1, LogAfter(log, book, known.next - 1);
      var known' := ProgressAfter(known, log, book);
      if prev <= Common(log, book) && prev >= |book| then book <= log' && known' == known && log' == log
      else Budget(known', log', book) < Budget(known, log, book)
  {
    var c, prev := Common(log, book), known.next - 1;
    var log', end := LogAfter(log, book, prev), End(prev, |book|);
    if prev <= c < end {
      CommonIs(log', book, end);
    } else if prev >= |book| && prev <= c {
      assert book == book[..c] == log[..c];
    }
  }

  /** What a leader's rounds with one peer leave alone, and leave possible. */
  ghost predicate RoundsKeep(s: State, l: Id, p: Id, s': State) {
    && Reaches(s, l, p) && Reaches(s', l, p) && |s'.nodes| == |s.nodes|
    && (forall j: nat | j < |s.nodes| && j != l && j != p :: s'.nodes[j] == s.nodes[j])
    && s'.nodes[l].log == s.nodes[l].log && s'.nodes[l].term == s.nodes[l].term && |s'.nodes[l].peers| == |s.nodes[l].peers|
    && (forall q: nat | q < |s.nodes[l].peers| && q != p :: s'.nodes[l].peers[q] == s.nodes[l].peers[q])
  }

  lemma RoundKeeps(s: State, l: Id, p: Id, s': State)
    requires Reaches(s, l, p) && Reaches(s', l, p) && RoundIs(s, l, p, s')
    ensures RoundsKeep(s, l, p, s')
  {
  }

  lemma RoundsKeepOn(s: State, l: Id, p: Id, s1: State, s2: State)
    requires RoundsKeep(s, l, p, s1) && RoundsKeep(s1, l, p, s2)
    ensures RoundsKeep(s, l, p, s2)
  {
  }

  function BudgetOf(s: State, l: Id, p: Id): nat
    requires l < |s.nodes| && p < |s.nodes| && p < |s.nodes[l].peers|
  {
    Budget(s.nodes[l].peers[p], s.nodes[p].log.entries, s.nodes[l].log.entries)
  }

  lemma AnswerShrinks(leader: Node, p: Id, peer: Node, peer': Node, leader': Node)
    requires p < |leader.peers| && leader.role == Leader && Tracks(leader) && leader.log.commit <= |leader.log.entries|
    requires AnswersTo(leader, p, peer, peer', leader')
    ensures || (leader'.log.entries <= peer'.log.entries && leader'.log.commit <= peer'.log.commit
                && leader'.peers[p].matched >= |leader'.log.entries|)
            || Budget(leader'.peers[p], peer'.log.entries, leader'.log.entries) <
               Budget(leader.peers[p], peer.log.entries, leader.log.entries)
  {
    BudgetShrinks(leader.peers[p], peer.log.entries, leader.log.entries);
  }

  /** A call catches the peer up, or uses up some of the budget. */
  lemma RoundShrinks(s: State, l: Id, p: Id, s': State)
    requires Reaches(s, l, p) && RoundIs(s, l, p, s')
    ensures CaughtUp(s', l, p) || BudgetOf(s', l, p) < BudgetOf(s, l, p)
  {
    NodesAre(s, l, p);
    assert Tracks(s.nodes[l]);
    AnswerShrinks(s.nodes[l], p, s.nodes[p], s'.nodes[p], s'.nodes[l]);
  }

  lemma FirstRound(s: State, l: Id, p: Id)
    requires Reaches(s, l, p) && p < |s.nodes[l].peers|
    ensures var s' := After(Step, s, Rounds(l, p, 1));
      RoundsKeep(s, l, p, s') && (CaughtUp(s', l, p) || BudgetOf(s', l, p) < BudgetOf(s, l, p))
  {
    var e := Replicate(l, p, false, Answered);
    assert Rounds(l, p, 1) == [e];
    AfterOne(Step, s, e);
    OneRound(s, l, p);
    RoundKeeps(s, l, p, Step(s, e));
    RoundShrinks(s, l, p, Step(s, e));
  }

  /** Enough answered calls bring a peer's entries and commit index to the leader's, within the budget. */
  lemma {:induction false} CatchesUp(s: State, l: Id, p: Id) returns (n: nat)
    requires Reaches(s, l, p) && p < |s.nodes[l].peers|
    ensures n <= BudgetOf(s, l, p)
    ensures var s' := After(Step, s, Rounds(l, p, n)); RoundsKeep(s, l, p, s') && CaughtUp(s', l, p)
    decreases BudgetOf(s, l, p)
  {
    FirstRound(s, l, p);
    var s1 := After(Step, s, Rounds(l, p, 1));
    n := 1;
    if !CaughtUp(s1, l, p) {
      n := CatchesUp(s1, l, p);
      RoundsFrom(s, l, p, n);
      RoundsKeepOn(s, l, p, s1, After(Step, s1, Rounds(l, p, n)));
      n := n + 1;
    }
  }

  // ---------------------------------------------------------------- the commit index of a leader

  /** The leader may commit index i: an entry of its term that it and more than half of all nodes with it have, as
      far as it knows. */
  predicate MayCommit(s: State, l: Id, i: nat)
    requires l < |s.nodes|
  {
    var n := s.nodes[l];
    && n.log.commit < i <= |n.log.entries| && n.log.entries[i - 1].term == n.term
    && 2 * (1 + |set p: nat | p < |n.peers| && p != l && n.peers[p].matched >= i|) > |s.nodes|
  }

  lemma {:induction false} NewCommitIsLast(n: Node, id: Id, quorum: nat, i: nat, j: nat)
    requires n.log.commit < j <= i <= |n.log.entries|
    requires n.log.entries[j - 1].term == n.term && 1 + |Matching(n, id, j)| >= quorum
    ensures NewCommit(n, id, quorum, i) >= j
  {
    if j < i && !(n.log.entries[i - 1].term == n.term && 1 + |Matching(n, id, i)| >= quorum) {
      NewCommitIsLast(n, id, quorum, i - 1, j);
    }
  }

  lemma MayCommitIff(s: State, l: Id, i: nat)
    requires l < |s.nodes|
    ensures var n := s.nodes[l];
      MayCommit(s, l, i) <==> n.log.commit < i <= |n.log.entries| && n.log.entries[i - 1].term == n.term
                              && 1 + |Matching(n, l, i)| >= Quorum(s)
  {
    var n := s.nodes[l];
    assert Matching(n, l, i) == set p: nat | p < |n.peers| && p != l && n.peers[p].matched >= i;
  }

  /** A leader commits the last index it may, if there is one, and changes nothing else. */
  lemma CommitsAllItMay(s: State, l: Id)
    requires Leading(s, l)
    ensures var s' := Step(s, Commit(l));
      && |s'.nodes| == |s.nodes|
      && var n, c := s.nodes[l], s'.nodes[l].log.commit;
      && s' == s.(nodes := s.nodes[l := n.(log := n.log.(commit := c))])
      && (c == n.log.commit || MayCommit(s, l, c))
      && forall i: nat {:trigger MayCommit(s, l, i)} | MayCommit(s, l, i) :: i <= c
  {
    var n := s.nodes[l];
    var last := |n.log.entries|;
    NewCommitIs(n, l, Quorum(s), last);
    MayCommitIff(s, l, NewCommit(n, l, Quorum(s), last));
    forall i: nat {:trigger MayCommit(s, l, i)} | MayCommit(s, l, i) ensures i <= NewCommit(n, l, Quorum(s), last) {
      MayCommitIff(s, l, i);
      NewCommitIsLast(n, l, Quorum(s), last, i);
    }
  }

  // ---------------------------------------------------------------- a leader and a majority

  predicate Distinct(qs: seq<Id>) { forall i, j | 0 <= i < j < |qs| :: qs[i] != qs[j] }

  /** Only answered calls of the leader to some peers, and its own commits. */
  predicate Only(es: seq<Event>, l: Id, qs: seq<Id>) {
    forall e | e in es :: e == Commit(l) || exists q :: q in qs && e == Replicate(l, q, false, Answered)
  }

  lemma OnlyRounds(l: Id, qs: seq<Id>, q: Id, n: nat)
    requires q in qs
    ensures Only(Rounds(l, q, n), l, qs)
  {
  }

  /** The leader stays what it is, and goes on reaching whom it reaches. */
  ghost predicate Goes(s: State, l: Id, s': State) {
    && l < |s.nodes| == |s'.nodes|
    && s'.nodes[l].log.entries == s.nodes[l].log.entries && s'.nodes[l].term == s.nodes[l].term
    && s'.nodes[l].log.commit >= s.nodes[l].log.commit
    && forall q {:trigger Reaches(s', l, q)} | Reaches(s, l, q) :: Reaches(s', l, q)
  }

  lemma RoundsGo(s: State, l: Id, p: Id, s': State)
    requires RoundsKeep(s, l, p, s')
    ensures Goes(s, l, s')
    ensures forall q: nat | q < |s.nodes| && q != p && q != l && CaughtUp(s, l, q) :: CaughtUp(s', l, q)
  {
  }

  lemma GoesOn(s: State, l: Id, s1: State, s2: State)
    requires Goes(s, l, s1) && Goes(s1, l, s2)
    ensures Goes(s, l, s2)
  {
    forall q {:trigger Reaches(s2, l, q)} | Reaches(s, l, q) ensures Reaches(s2, l, q) {
      assert Reaches(s1, l, q);
    }
  }

  lemma OneCatchesUp(s: State, l: Id, q: Id, qs: seq<Id>) returns (es: seq<Event>)
    requires Reaches(s, l, q) && q in qs
    ensures var s' := After(Step, s, es);
      && Only(es, l, qs) && Goes(s, l, s') && s'.nodes[l].log == s.nodes[l].log && CaughtUp(s', l, q)
      && forall p: nat | p < |s.nodes| && p != q && p != l && CaughtUp(s, l, p) :: CaughtUp(s', l, p)
  {
    NodesAre(s, l, q);
    var n := CatchesUp(s, l, q);
    es := Rounds(l, q, n);
    OnlyRounds(l, qs, q, n);
    RoundsGo(s, l, q, After(Step, s, es));
  }

  /** Enough answered calls bring all of several peers up to date. */
  lemma {:induction false} AllCatchUp(s: State, l: Id, qs: seq<Id>) returns (es: seq<Event>)
    requires Distinct(qs) && l < |s.nodes| && l !in qs && forall q | q in qs :: Reaches(s, l, q)
    ensures var s' := After(Step, s, es);
      && Only(es, l, qs) && Goes(s, l, s') && s'.nodes[l].log == s.nodes[l].log
      && (forall q | q in qs :: CaughtUp(s', l, q)) && (qs == [] ==> es == [])
  {
    if qs == [] {
      return [];
    }
    var init, q := qs[..|qs| - 1], qs[|qs| - 1];
    es := AllCatchUp(s, l, init);
    var s1 := After(Step, s, es);
    assert Reaches(s, l, q) && Reaches(s1, l, q);
    var es1 := OneCatchesUp(s1, l, q, qs);
    AfterConcat(Step, s, es, es1);
    GoesOn(s, l, s1, After(Step, s1, es1));
    LastOf(qs);
    es := es + es1;
  }

  lemma LastOf(qs: seq<Id>)
    requires qs != [] && Distinct(qs)
    ensures Distinct(qs[..|qs| - 1]) && qs[|qs| - 1] !in qs[..|qs| - 1]
    ensures forall q | q in qs :: q in qs[..|qs| - 1] || q == qs[|qs| - 1]
  {
    assert qs == qs[..|qs| - 1] + [qs[|qs| - 1]];
  }

  function Members(qs: seq<Id>): (m: set<Id>)
    ensures forall q :: q in m <==> q in qs
  {
    if qs == [] then {} else
      assert qs == qs[..|qs| - 1] + [qs[|qs| - 1]];
      Members(qs[..|qs| - 1]) + {qs[|qs| - 1]}
  }

  lemma {:induction false} SizeOf(qs: seq<Id>)
    requires Distinct(qs)
    ensures |Members(qs)| == |qs|
  {
    if qs != [] {
      LastOf(qs);
      SizeOf(qs[..|qs| - 1]);
    }
  }

  lemma KnownToHave(n: Node, l: Id, qs: seq<Id>, i: nat)
    requires Distinct(qs) && l !in qs && forall q | q in qs :: q < |n.peers| && n.peers[q].matched >= i
    ensures |set p: nat | p < |n.peers| && p != l && n.peers[p].matched >= i| >= |qs|
  {
    SizeOf(qs);
    SubsetSize(Members(qs), set p: nat | p < |n.peers| && p != l && n.peers[p].matched >= i);
  }

  /** With a majority caught up, a leader commits all it has. */
  lemma CommitsLast(s: State, l: Id, qs: seq<Id>)
    requires Healthy(s) && Leading(s, l) && Distinct(qs) && l !in qs && 2 * (1 + |qs|) > |s.nodes|
    requires forall q | q in qs :: CaughtUp(s, l, q)
    ensures var n := s.nodes[l];
      Step(s, Commit(l)).nodes == s.nodes[l := n.(log := n.log.(commit := |n.log.entries|))]
  {
    var n := s.nodes[l];
    assert NodeSized(n, |s.nodes|) && NodeOk(s.books, n) && BookOk(s.books, n.term);
    KnownToHave(n, l, qs, |n.log.entries|);
    CommitsAllItMay(s, l);
    if n.log.commit < |n.log.entries| {
      assert MayCommit(s, l, |n.log.entries|);
    }
  }

  lemma CommitGoes(s: State, l: Id, s': State)
    requires Leading(s, l) && Healthy(s') && s.nodes[l].log.commit <= |s.nodes[l].log.entries|
    requires var n := s.nodes[l]; s'.nodes == s.nodes[l := n.(log := n.log.(commit := |n.log.entries|))]
    ensures Goes(s, l, s')
  {
  }

  /** All that the leader has is committed, by it and by its peers. */
  predicate AllCommitted(s: State, l: Id, qs: seq<Id>) {
    && l < |s.nodes| && s.nodes[l].log.commit == |s.nodes[l].log.entries|
    && forall q | q in qs ::
         && q < |s.nodes| && s.nodes[l].log.entries <= s.nodes[q].log.entries
         && |s.nodes[l].log.entries| <= s.nodes[q].log.commit
  }

  /** A leader that reaches a majority can commit all it has. */
  lemma CommitsItself(s: State, l: Id, qs: seq<Id>) returns (es: seq<Event>)
    requires Healthy(s) && Leading(s, l) && Distinct(qs) && l !in qs && 2 * (1 + |qs|) > |s.nodes|
    requires forall q | q in qs :: Reaches(s, l, q)
    ensures var s' := After(Step, s, es);
      Only(es, l, qs) && Goes(s, l, s') && s'.nodes[l].log.commit == |s'.nodes[l].log.entries|
  {
    es := AllCatchUp(s, l, qs);
    var s1 := After(Step, s, es);
    StillLeading(s, l, qs, es);
    CommitLeads(s1, l, qs);
    GoesOn(s, l, s1, Step(s1, Commit(l)));
    AfterConcat(Step, s, es, [Commit(l)]);
    AfterOne(Step, s1, Commit(l));
    es := es + [Commit(l)];
  }

  /** And have it committed by every peer it reaches. */
  lemma LeaderCommits(s: State, l: Id, qs: seq<Id>) returns (es: seq<Event>)
    requires Healthy(s) && Leading(s, l) && Distinct(qs) && l !in qs && 2 * (1 + |qs|) > |s.nodes|
    requires forall q | q in qs :: Reaches(s, l, q)
    ensures var s' := After(Step, s, es); Only(es, l, qs) && Goes(s, l, s') && AllCommitted(s', l, qs)
  {
    es := CommitsItself(s, l, qs);
    var s1 := After(Step, s, es);
    var es2 := AllCatchUp(s1, l, qs);
    GoesOn(s, l, s1, After(Step, s1, es2));
    AfterConcat(Step, s, es, es2);
    es := es + es2;
  }

  lemma CommitLeads(s: State, l: Id, qs: seq<Id>)
    requires Healthy(s) && Leading(s, l) && Distinct(qs) && l !in qs && 2 * (1 + |qs|) > |s.nodes|
    requires forall q | q in qs :: CaughtUp(s, l, q)
    ensures var s' := Step(s, Commit(l)); Goes(s, l, s') && s'.nodes[l].log.commit == |s'.nodes[l].log.entries|
  {
    CommitsLast(s, l, qs);
    StepKeeps(s, Commit(l));
    NodesAre(s, l, l);
    CommitGoes(s, l, Step(s, Commit(l)));
  }

  lemma StillLeading(s: State, l: Id, qs: seq<Id>, es: seq<Event>)
    requires Healthy(s) && Leading(s, l) && Goes(s, l, After(Step, s, es))
    requires (forall q | q in qs :: Reaches(s, l, q)) && (qs == [] ==> es == [])
    ensures Healthy(After(Step, s, es)) && Leading(After(Step, s, es), l)
    ensures |After(Step, s, es).nodes| == |s.nodes|
  {
    if qs != [] {
      assert Reaches(s, l, qs[0]) && Reaches(After(Step, s, es), l, qs[0]);
    }
  }
}
