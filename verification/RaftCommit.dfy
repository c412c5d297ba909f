/** Commit indices: when they are right, what is committed is on a majority for good, and the same for all nodes. */
module RaftCommit {
  import opened Options
  import opened Runs
  import opened RaftModel
  import opened RaftElections
  import opened RaftSteps
  import opened RaftLog
  import opened RaftMatching
  import opened RaftAcks
  import opened RaftCompleteness
  import opened RaftRecovery

  function BookOf(s: State, t: nat): seq<Entry> { if t in s.books then s.books[t] else [] }

  /** What a node counts as committed is what the leader of its term has, if there is one. */
  predicate CommitsTruly(s: State, i: Id)
    requires i < |s.nodes|
  {
    var n := s.nodes[i];
    n.term in s.books ==>
      n.log.commit <= |n.log.entries| && n.log.entries[..n.log.commit] <= s.books[n.term]
  }

  predicate CommitTrue(s: State) { forall i: nat | i < |s.nodes| :: CommitsTruly(s, i) }

  /** A request makes a node commit entries beyond those it was passed, and the last of them is not the leader's. */
  predicate CommitsBeyond(n: Node, r: AppendRequest, book: seq<Entry>) {
    var log, end := n.log.entries, r.prevIndex + |r.entries|;
    var commit := Min(r.leaderCommit, |log|);
    && n.term <= r.term && Consistent(log, r) && r.leaderCommit > n.log.commit
    && commit > end && !Conflicts(log, r.prevIndex, r.entries) && TermAt(book, commit) != TermAt(log, commit)
  }

  predicate FalseCommit(s: State, e: Event) {
    Enabled(s, e) && match Delivered(s, e)
      case Some(AppendCall(p, r)) => CommitsBeyond(s.nodes[p], r, BookOf(s, r.term))
      case _ => false
  }

  // ---------------------------------------------------------------- what supports a commit index

  /** The first c entries were chosen in a term up to t. */
  ghost predicate Supported(s: State, log: seq<Entry>, c: nat, t: nat) {
    c == 0 || exists t': nat, i: nat :: ChosenAs(s, log, c, t, t', i)
  }

  predicate ChosenAs(s: State, log: seq<Entry>, c: nat, t: nat, t': nat, i: nat) {
    Chosen(s, t', i) && t' <= t && c <= i && c <= |log| && log[..c] == s.books[t'][..c]
  }

  /** And nothing beyond them is committed on disk. */
  ghost predicate NodeCommitOk(s: State, n: Node) {
    n.log.disk.commit <= n.log.commit && Supported(s, n.log.entries, n.log.commit, n.term)
  }

  ghost predicate CommitInv(s: State) {
    && (forall i: nat | i < |s.nodes| :: NodeCommitOk(s, s.nodes[i]))
    && (forall call | call in s.calls && call.AppendCall? ::
          Supported(s, BookOf(s, call.append.term), call.append.leaderCommit, call.append.term))
  }

  lemma ChosenGrows(s: State, s': State, t: nat, i: nat)
    requires Grown(s.books, s'.books) && s.acks <= s'.acks && |s'.nodes| == |s.nodes| && Chosen(s, t, i)
    ensures Chosen(s', t, i) && s'.books[t][..i] == s.books[t][..i]
  {
    SubsetSize(Holders(s, t, i), Holders(s', t, i));
    assert s.books[t] <= s'.books[t];
  }

  lemma SupportedGrows(s: State, s': State, log: seq<Entry>, log': seq<Entry>, c: nat, t: nat, t': nat)
    requires Grown(s.books, s'.books) && s.acks <= s'.acks && |s'.nodes| == |s.nodes|
    requires Supported(s, log, c, t) && t <= t' && (c <= |log| ==> c <= |log'| && log[..c] == log'[..c])
    ensures Supported(s', log', c, t')
  {
    if c > 0 {
      var u: nat, i: nat :| ChosenAs(s, log, c, t, u, i);
      ChosenGrows(s, s', u, i);
      assert s'.books[u][..c] == s'.books[u][..i][..c] && s.books[u][..c] == s.books[u][..i][..c];
      assert ChosenAs(s', log', c, t', u, i);
    }
  }

  /** A shorter piece of what is supported is. */
  lemma SupportedPrefix(s: State, log: seq<Entry>, c: nat, c': nat, t: nat)
    requires Supported(s, log, c, t) && c' <= c
    ensures Supported(s, log, c', t)
  {
    if c' > 0 {
      var u: nat, i: nat :| ChosenAs(s, log, c, t, u, i);
      assert log[..c'] == log[..c][..c'] == s.books[u][..c][..c'] == s.books[u][..c'];
      assert ChosenAs(s, log, c', t, u, i);
    }
  }

  lemma LeadersHave(s: State, t: nat, i: nat, u: nat)
    requires Sound(s) && Chosen(s, t, i) && t <= u && u in s.books
    ensures s.books[t][..i] <= s.books[u]
  {
    if t < u {
      LaterLeadersHave(s, t, i, u);
    }
  }

  /** Supported entries are in the book of every leader of their term or later. */
  lemma SupportedInBook(s: State, log: seq<Entry>, c: nat, t: nat, u: nat)
    requires Sound(s) && Supported(s, log, c, t) && t <= u && u in s.books
    ensures c == 0 || (c <= |log| && log[..c] <= s.books[u])
  {
    if c > 0 {
      var t': nat, i: nat :| ChosenAs(s, log, c, t, t', i);
      LeadersHave(s, t', i, u);
      PrefixOfPrefix(s.books[t'], i, s.books[u], c);
    }
  }

  lemma PrefixOfPrefix(a: seq<Entry>, i: nat, b: seq<Entry>, c: nat)
    requires c <= i <= |a| && a[..i] <= b
    ensures a[..c] <= b
  {
  }

  // ---------------------------------------------------------------- a follower's commit index

  lemma {:induction false} DiskBehindAll(log: Log, entries: seq<Entry>, i: nat, j: nat)
    requires log.disk.commit <= log.commit && i <= j <= |entries|
    ensures AppendAll(log, entries, i, j).disk.commit <= log.commit
    decreases j
  {
    if i < j {
      DiskBehindAll(log, entries, i, j - 1);
    }
  }

  /** A conflict comes after what log and book share. */
  lemma ConflictIsBeyond(log: seq<Entry>, b: seq<Entry>, at: nat, entries: seq<Entry>, c: nat)
    requires at <= |log| && Follows(log, b, at, entries) && c <= |log| && log[..c] <= b
    ensures Fit(log, at, entries) < |entries| ==> c <= at + Fit(log, at, entries)
  {
    var k := Fit(log, at, entries);
    if k < |entries| {
      assert entries[k] == b[at + k];
    }
  }

  lemma TruncateBehind(log: Log, after: nat)
    requires log.commit <= after
    ensures Truncate(log, after).commit == log.commit
    ensures log.disk.commit <= log.commit ==> Truncate(log, after).disk.commit <= log.commit
  {
  }

  lemma MergedBehind(log: Log, at: nat, entries: seq<Entry>)
    requires at <= |log.entries| && log.disk.commit <= log.commit
    requires Fit(log.entries, at, entries) < |entries| ==> log.commit <= at + Fit(log.entries, at, entries)
    ensures Merged(log, at, entries).commit == log.commit
    ensures Merged(log, at, entries).disk.commit <= log.commit
  {
    var k := Fit(log.entries, at, entries);
    if k < |entries| {
      var cut := Truncate(log, at + k);
      TruncateBehind(log, at + k);
      DiskBehindAll(cut, entries, k, |entries|);
      assert Merged(log, at, entries) == AppendAll(cut, entries, k, |entries|);
    }
  }

  /** What log and book share is neither cut off nor taken back. */
  lemma CommitStays(log: Log, b: seq<Entry>, at: nat, entries: seq<Entry>)
    requires at <= |log.entries| && Follows(log.entries, b, at, entries) && log.disk.commit <= log.commit
    requires log.commit <= |log.entries| && log.entries[..log.commit] <= b
    ensures Merged(log, at, entries).commit == log.commit
    ensures Merged(log, at, entries).disk.commit <= log.commit
  {
    ConflictIsBeyond(log.entries, b, at, entries, log.commit);
    MergedBehind(log, at, entries);
  }

  /** The new commit index covers nothing but the leader's entries exactly if it does not go beyond them. */
  lemma CommitIff(books: Books, n: Node, r: AppendRequest)
    requires BooksOk(books) && NodeOk(books, n) && r.term in books && Fits(books[r.term], r)
    requires n.term <= r.term && Consistent(n.log.entries, r) && r.leaderCommit > n.log.commit
    ensures r.prevIndex <= |n.log.entries|
    ensures var log' := Overlaid(n.log.entries, r.prevIndex, r.entries);
      log'[..Min(r.leaderCommit, |log'|)] <= books[r.term] <==> !CommitsBeyond(n, r, books[r.term])
  {
    var log, b, at, end := n.log.entries, books[r.term], r.prevIndex, r.prevIndex + |r.entries|;
    FollowsBook(books, log, r);
    ConflictsIff(log, at, r.entries);
    BookIsGood(books, r.term);
    if Fit(log, at, r.entries) == |r.entries| {
      var c := Min(r.leaderCommit, |log|);
      if c <= end {
        assert log[..c] == log[..end][..c] && b[..c] == b[..end][..c];
      } else {
        LastShared(books, log, b, c);
      }
    }
  }

  lemma LastShared(books: Books, log: seq<Entry>, b: seq<Entry>, c: nat)
    requires BooksOk(books) && Good(books, log) && Good(books, b) && 0 < c <= |log|
    ensures log[..c] <= b <==> TermAt(b, c) == TermAt(log, c)
  {
    GoodPrefix(books, log, c);
    LastIsOurs(books, log[..c], b);
  }

  lemma SupportedSame(s: State, log: seq<Entry>, log': seq<Entry>, c: nat, t: nat, t': nat)
    requires Supported(s, log, c, t) && t <= t' && (c <= |log| ==> c <= |log'| && log[..c] == log'[..c])
    ensures Supported(s, log', c, t')
  {
    SupportedGrows(s, s, log, log', c, t, t');
  }

  lemma SupportedLength(s: State, log: seq<Entry>, c: nat, t: nat)
    requires Supported(s, log, c, t)
    ensures c <= |log|
  {
  }

  /** What a follower has committed stays in its log, and committed. */
  lemma FollowerKeeps(s: State, n: Node, r: AppendRequest)
    requires Sound(s) && NodeOk(s.books, n) && NodeCommitOk(s, n) && r.term in s.books && Fits(s.books[r.term], r)
    requires n.term <= r.term && Consistent(n.log.entries, r)
    ensures r.prevIndex <= |n.log.entries| && n.log.commit <= |n.log.entries|
    ensures n.log.entries[..n.log.commit] <= Overlaid(n.log.entries, r.prevIndex, r.entries)
    ensures var merged := Merged(n.log, r.prevIndex, r.entries);
      merged.commit == n.log.commit && merged.disk.commit <= n.log.commit
  {
    var b, c := s.books[r.term], n.log.commit;
    SupportedLength(s, n.log.entries, c, n.term);
    SupportedInBook(s, n.log.entries, c, n.term, r.term);
    FollowsBook(s.books, n.log.entries, r);
    CommitStays(n.log, b, r.prevIndex, r.entries);
    PrefixStays(n.log.entries, b, r.prevIndex, r.entries, n.log.entries[..c]);
  }

  lemma FollowedCommit(log: Log, r: AppendRequest)
    requires r.prevIndex <= |log.entries| && log.commit <= |Overlaid(log.entries, r.prevIndex, r.entries)|
    requires var merged := Merged(log, r.prevIndex, r.entries);
      merged.commit == log.commit && merged.disk.commit <= log.commit
    ensures var log', overlaid := Followed(log, r), Overlaid(log.entries, r.prevIndex, r.entries);
      && log'.entries == overlaid && log'.disk.commit <= log'.commit
      && log'.commit == if r.leaderCommit > log.commit then Min(r.leaderCommit, |overlaid|) else log.commit
  {
    FollowedEntries(log, r);
  }

  /** What a follower is newly told is committed is supported, as far as its log is the leader's. */
  lemma FollowerTold(s: State, log: seq<Entry>, b: seq<Entry>, told: nat, t: nat)
    requires Supported(s, b, told, t) && log[..Min(told, |log|)] <= b
    ensures Supported(s, log, Min(told, |log|), t)
  {
    var c := Min(told, |log|);
    SupportedLength(s, b, told, t);
    SupportedPrefix(s, b, told, c, t);
    SupportedSame(s, b, log, c, t, t);
  }

  /** A follower that is not made to commit beyond what it was passed commits what is supported. */
  lemma FollowerCommits(s: State, n: Node, r: AppendRequest)
    requires Sound(s) && NodeOk(s.books, n) && NodeCommitOk(s, n)
    requires r.term in s.books && Fits(s.books[r.term], r) && Supported(s, s.books[r.term], r.leaderCommit, r.term)
    requires n.term <= r.term && Consistent(n.log.entries, r) && !CommitsBeyond(n, r, s.books[r.term])
    ensures r.prevIndex <= |n.log.entries|
    ensures var log := Followed(n.log, r); log.disk.commit <= log.commit && Supported(s, log.entries, log.commit, r.term)
  {
    FollowerKeeps(s, n, r);
    FollowedCommit(n.log, r);
    FollowerSupport(s, n, r);
  }

  lemma FollowerSupport(s: State, n: Node, r: AppendRequest)
    requires BooksOk(s.books) && NodeOk(s.books, n) && NodeCommitOk(s, n)
    requires r.term in s.books && Fits(s.books[r.term], r) && Supported(s, s.books[r.term], r.leaderCommit, r.term)
    requires n.term <= r.term && Consistent(n.log.entries, r) && !CommitsBeyond(n, r, s.books[r.term])
    requires r.prevIndex <= |n.log.entries| && n.log.commit <= |n.log.entries|
    requires n.log.entries[..n.log.commit] <= Overlaid(n.log.entries, r.prevIndex, r.entries)
    ensures var log := Overlaid(n.log.entries, r.prevIndex, r.entries);
      Supported(s, log, if r.leaderCommit > n.log.commit then Min(r.leaderCommit, |log|) else n.log.commit, r.term)
  {
    var log := Overlaid(n.log.entries, r.prevIndex, r.entries);
    if r.leaderCommit > n.log.commit {
      CommitIff(s.books, n, r);
      FollowerTold(s, log, s.books[r.term], r.leaderCommit, r.term);
    } else {
      SupportedSame(s, n.log.entries, log, n.log.commit, n.term, r.term);
    }
  }

  // ---------------------------------------------------------------- a leader's commit index

  lemma {:induction false} NewCommitIs(n: Node, id: Id, quorum: nat, i: nat)
    requires i <= |n.log.entries|
    ensures var c := NewCommit(n, id, quorum, i);
      || c == n.log.commit
      || (n.log.commit < c <= i && n.log.entries[c - 1].term == n.term && 1 + |Matching(n, id, c)| >= quorum)
  {
    if i > n.log.commit && !(n.log.entries[i - 1].term == n.term && 1 + |Matching(n, id, i)| >= quorum) {
      NewCommitIs(n, id, quorum, i - 1);
    }
  }

  lemma MatchingHold(s: State, l: Id, c: nat)
    requires l < |s.nodes| && s.nodes[l].role == Leader && LeaderOk(s, l) && 1 <= c <= |s.nodes[l].log.entries|
    ensures 1 + |Matching(s.nodes[l], l, c)| <= |Holders(s, s.nodes[l].term, c)|
  {
    var n := s.nodes[l];
    forall p | p in Matching(n, l, c) + {l} ensures p in Holders(s, n.term, c) {
      var a := Ack(n.term, p, c);
      assert a in Acks(n.term, p, if p == l then |n.log.entries| else n.peers[p].matched);
      assert a in s.acks && a.node == p;
    }
    SubsetSize(Matching(n, l, c) + {l}, Holders(s, n.term, c));
  }

  /** What a leader commits is chosen. */
  lemma LeaderChooses(s: State, l: Id)
    requires Leading(s, l) && LeaderOk(s, l) && NodeOk(s.books, s.nodes[l])
    ensures var n := s.nodes[l]; var c := NewCommit(n, l, Quorum(s), |n.log.entries|);
      c == n.log.commit || (n.log.commit < c && Chosen(s, n.term, c))
  {
    var n := s.nodes[l];
    NewCommitIs(n, l, Quorum(s), |n.log.entries|);
    var c := NewCommit(n, l, Quorum(s), |n.log.entries|);
    if c != n.log.commit {
      MatchingHold(s, l, c);
    }
  }

  // ---------------------------------------------------------------- steps

  ghost predicate CallSupported(s: State, call: Call) {
    call.AppendCall? ==>
      Supported(s, BookOf(s, call.append.term), call.append.leaderCommit, call.append.term)
  }

  lemma LogSame(s: State, n: Node, n': Node)
    requires NodeCommitOk(s, n) && n'.log == n.log && n.term <= n'.term
    ensures NodeCommitOk(s, n')
  {
    SupportedSame(s, n.log.entries, n.log.entries, n.log.commit, n.term, n'.term);
  }

  lemma PeerCommits(s: State, n: Node, r: AppendRequest)
    requires Sound(s) && NodeOk(s.books, n) && NodeCommitOk(s, n)
    requires r.term in s.books && Fits(s.books[r.term], r) && Supported(s, s.books[r.term], r.leaderCommit, r.term)
    requires !CommitsBeyond(n, r, s.books[r.term])
    ensures NodeCommitOk(s, HandleAppend(n, r).0)
  {
    AnswerIs(n, r);
    RolesAfter(n, r);
    if n.term <= r.term && Consistent(n.log.entries, r) {
      FollowerCommits(s, n, r);
    } else {
      LogSame(s, n, HandleAppend(n, r).0);
    }
  }

  lemma VoterCommits(s: State, n: Node, r: VoteRequest)
    requires NodeCommitOk(s, n)
    ensures NodeCommitOk(s, HandleVote(n, r).0)
  {
    LogSame(s, n, HandleVote(n, r).0);
  }

  lemma HandledCommits(s: State, call: Call)
    requires Sound(s) && CommitInv(s) && Idle(s, call.to) && CallFits(s.books, call) && CallSupported(s, call)
    requires call.AppendCall? ==> !CommitsBeyond(s.nodes[call.to], call.append, BookOf(s, call.append.term))
    ensures NodeCommitOk(s, Handled(s, call).nodes[call.to])
  {
    var n := s.nodes[call.to];
    assert NodeOk(s.books, n) && NodeCommitOk(s, n);
    match call
    case VoteCall(p, r) =>
      VoterCommits(s, n, r);
      assert Handled(s, call).nodes[p] == HandleVote(n, r).0;
    case AppendCall(p, r) =>
      PeerCommits(s, n, r);
      assert Handled(s, call).nodes[p] == HandleAppend(n, r).0;
  }

  lemma ReplicationSupported(s: State, l: Id, p: Id)
    requires LogInv(s) && CommitInv(s) && Leading(s, l) && p < |s.nodes[l].peers|
    ensures Supported(s, BookOf(s, s.nodes[l].term), Replication(s.nodes[l], l, p).leaderCommit, s.nodes[l].term)
  {
    assert NodeOk(s.books, s.nodes[l]) && NodeCommitOk(s, s.nodes[l]);
  }

  lemma DeliveredSupported(s: State, e: Event)
    requires LogInv(s) && CommitInv(s) && Enabled(s, e) && Delivered(s, e).Some?
    ensures CallSupported(s, Delivered(s, e).value)
  {
    if e.Replicate? {
      ReplicationSupported(s, e.l, e.p);
    }
  }

  lemma PeerSideCommits(s: State, e: Event)
    requires Sound(s) && CommitInv(s) && Enabled(s, e) && IsCall(e) && !FalseCommit(s, e) && Delivered(s, e).Some?
    ensures var call := Delivered(s, e).value;
      && call.to < |s.nodes| && NodeCommitOk(s, Handled(s, call).nodes[call.to])
      && Handled(s, call).nodes == s.nodes[call.to := Handled(s, call).nodes[call.to]]
  {
    var call := Delivered(s, e).value;
    DeliveredOk(s, e);
    DeliveredFits(s, e);
    DeliveredSupported(s, e);
    HandledNodes(s, call);
    HandledCommits(s, call);
  }

  lemma RestKeepsCommits(s: State, s1: State, s': State, e: Event, i: Id)
    requires IsCall(e) && RestOk(s, s1, s', e) && i < |s.nodes| && NodeCommitOk(s, s1.nodes[i])
    ensures |s'.nodes| == |s.nodes| && NodeCommitOk(s, s'.nodes[i])
  {
    if Actor(e) == Some(i) {
      LogSame(s, s.nodes[i], s'.nodes[i]);
    }
  }

  lemma CallKeepsCommits(s: State, e: Event, i: Id)
    requires Sound(s) && CommitInv(s) && i < |s.nodes| && Enabled(s, e) && IsCall(e) && !FalseCommit(s, e)
    ensures |Step(s, e).nodes| == |s.nodes| && NodeCommitOk(s, Step(s, e).nodes[i])
  {
    assert NodeCommitOk(s, s.nodes[i]);
    TheRest(s, e);
    if Delivered(s, e).Some? {
      PeerSideCommits(s, e);
    }
    RestKeepsCommits(s, PeerSide(s, e), Step(s, e), e, i);
  }

  lemma EntryAppended(s: State, n: Node, n': Node, e: Entry)
    requires NodeCommitOk(s, n) && n'.log == Append(n.log, e) && n'.term == n.term
    ensures NodeCommitOk(s, n')
  {
    SupportedLength(s, n.log.entries, n.log.commit, n.term);
    SupportedSame(s, n.log.entries, n'.log.entries, n.log.commit, n.term, n.term);
  }

  lemma CommitKeeps(s: State, l: Id)
    requires Sound(s) && CommitInv(s) && Leading(s, l)
    ensures NodeCommitOk(s, OnCommit(s, l).nodes[l])
  {
    var n := s.nodes[l];
    var c := NewCommit(n, l, Quorum(s), |n.log.entries|);
    assert NodeCommitOk(s, n) && LeaderOk(s, l) && NodeOk(s.books, n);
    LeaderChooses(s, l);
    if c != n.log.commit {
      assert ChosenAs(s, n.log.entries, c, n.term, n.term, c);
    }
  }

  lemma RestartKeeps(s: State, n: Node, stopped: bool)
    requires NodeCommitOk(s, n) && Restarted(n, stopped).log.entries == n.log.entries
    ensures NodeCommitOk(s, Restarted(n, stopped))
  {
    var n' := Restarted(n, stopped);
    SupportedPrefix(s, n.log.entries, n.log.commit, n'.log.commit, n.term);
  }

  /** The nodes after an event without a call. */
  function OwnSide(s: State, e: Event, i: Id): Node
    requires i < |s.nodes| && Enabled(s, e) && !IsCall(e)
  {
    var n := s.nodes[i];
    if Actor(e) != Some(i) then n
    else match e
      case Timeout(_) => BecomeCandidate(n, i)
      case Count(_) => if n.poll.value.votes >= Quorum(s) then BecomeLeader(n) else n.(poll := None)
      case Submit(_, command) => Submitted(n, command)
      case Commit(_) => OnCommit(s, i).nodes[i]
      case Restart(_, stopped) => Restarted(n, stopped)
  }

  lemma OwnSideIs(s: State, e: Event, i: Id)
    requires i < |s.nodes| && Enabled(s, e) && !IsCall(e)
    ensures |Step(s, e).nodes| == |s.nodes| && Step(s, e).nodes[i] == OwnSide(s, e, i)
  {
  }

  lemma OwnKeepsCommits(s: State, e: Event, i: Id)
    requires Sound(s) && CommitInv(s) && i < |s.nodes| && Enabled(s, e) && !IsCall(e) && !LosesLog(s, e)
    ensures |Step(s, e).nodes| == |s.nodes| && NodeCommitOk(s, Step(s, e).nodes[i])
  {
    var n := s.nodes[i];
    OwnSideIs(s, e, i);
    assert NodeCommitOk(s, n);
    if e == Commit(i) {
      CommitKeeps(s, i);
    } else if Actor(e) == Some(i) {
      OtherOwnSides(s, e, i);
    }
  }

  lemma OtherOwnSides(s: State, e: Event, i: Id)
    requires i < |s.nodes| && NodeCommitOk(s, s.nodes[i]) && Enabled(s, e) && !IsCall(e) && !LosesLog(s, e)
    requires Actor(e) == Some(i) && !e.Commit?
    ensures NodeCommitOk(s, OwnSide(s, e, i))
  {
    var n := s.nodes[i];
    match e
    case Timeout(_) => LogSame(s, n, BecomeCandidate(n, i));
    case Count(_) =>
      LogSame(s, n, n.(poll := None));
      EntryAppended(s, n, BecomeLeader(n), Noop(n.term));
    case Submit(_, command) => EntryAppended(s, n, Submitted(n, command), Command(n.term, command));
    case Restart(_, stopped) => RestartKeeps(s, n, stopped);
  }

  lemma AcksGrow(s: State, e: Event)
    ensures s.acks <= Step(s, e).acks
  {
    if Enabled(s, e) && IsCall(e) {
      TheRest(s, e);
    }
  }

  lemma CallsSupported(s: State, e: Event, call: Call)
    requires LogInv(s) && CommitInv(s) && call in Step(s, e).calls
    ensures CallSupported(s, call)
  {
    if call !in s.calls && call.AppendCall? {
      OnlyReplicates(s, e, call);
      ReplicationSupported(s, e.l, e.p);
    }
  }

  lemma OnlyReplicates(s: State, e: Event, call: Call)
    requires call in Step(s, e).calls && call !in s.calls && call.AppendCall?
    ensures e.Replicate? && Enabled(s, e) && call == AppendCall(e.p, Replication(s.nodes[e.l], e.l, e.p))
  {
    if Enabled(s, e) && e.Replicate? {
      ReplicateCalls(s, e.l, e.p, e.dropped, e.reach);
    }
  }

  lemma CommitInvStep(s: State, e: Event)
    requires Sound(s) && CommitInv(s) && !LosesLog(s, e) && !FalseCommit(s, e)
    ensures CommitInv(Step(s, e))
  {
    var s' := Step(s, e);
    BooksGrow(s, e);
    AcksGrow(s, e);
    NodeCount(s, e);
    forall i: nat | i < |s'.nodes| ensures NodeCommitOk(s', s'.nodes[i]) {
      if Enabled(s, e) && IsCall(e) {
        CallKeepsCommits(s, e, i);
      } else if Enabled(s, e) {
        OwnKeepsCommits(s, e, i);
      } else {
        assert NodeCommitOk(s, s.nodes[i]);
      }
      var n := s'.nodes[i];
      SupportedGrows(s, s', n.log.entries, n.log.entries, n.log.commit, n.term, n.term);
    }
    forall call | call in s'.calls && call.AppendCall?
      ensures Supported(s', BookOf(s', call.append.term), call.append.leaderCommit, call.append.term)
    {
      CallsSupported(s, e, call);
      BookSupportGrows(s, s', call.append.leaderCommit, call.append.term);
    }
  }

  lemma BookSupportGrows(s: State, s': State, c: nat, t: nat)
    requires Grown(s.books, s'.books) && s.acks <= s'.acks && |s'.nodes| == |s.nodes|
    requires Supported(s, BookOf(s, t), c, t)
    ensures Supported(s', BookOf(s', t), c, t)
  {
    SupportedLength(s, BookOf(s, t), c, t);
    SupportedGrows(s, s', BookOf(s, t), BookOf(s', t), c, t, t);
  }

  lemma {:induction false} CommitsThroughout(ss: seq<State>, es: seq<Event>, k: nat)
    requires Run(Step, ss, es) && Initial(ss[0]) && k <= |es| && !SomeStep(LosesLog, ss, es, k)
    requires !SomeStep(FalseAck, ss, es, k) && !SomeStep(FalseCommit, ss, es, k)
    ensures Sound(ss[k]) && CommitInv(ss[k])
  {
    SoundThroughout(ss, es, k);
    if k > 0 {
      CommitsThroughout(ss, es, k - 1);
      var e := es[k - 1];
      assert !LosesLog(ss[k - 1], e) && !FalseCommit(ss[k - 1], e);
      CommitInvStep(ss[k - 1], e);
    }
  }

  // ---------------------------------------------------------------- match and commit indices

  /** What leaders count as replicated, and nodes as committed, is so. */
  predicate IndicesTrue(s: State) { MatchTrue(s) && CommitTrue(s) }

  /** A peer acknowledges, or commits, what lies beyond the entries it was passed and is not the leader's. */
  predicate FalseIndex(s: State, e: Event) { FalseAck(s, e) || FalseCommit(s, e) }

  lemma CommitsAreTrue(s: State)
    requires Sound(s) && CommitInv(s)
    ensures CommitTrue(s)
  {
    forall i: nat | i < |s.nodes| ensures CommitsTruly(s, i) {
      var n := s.nodes[i];
      assert NodeCommitOk(s, n);
      SupportedLength(s, n.log.entries, n.log.commit, n.term);
      if n.term in s.books {
        SupportedInBook(s, n.log.entries, n.log.commit, n.term, n.term);
      }
    }
  }

  lemma BeyondIsWrong(books: Books, n: Node, r: AppendRequest)
    requires BooksOk(books) && NodeOk(books, n) && r.term in books && Fits(books[r.term], r)
    requires CommitsBeyond(n, r, books[r.term])
    ensures var n' := HandleAppend(n, r).0;
      && n'.term == r.term && n'.log.commit <= |n'.log.entries|
      && !(n'.log.entries[..n'.log.commit] <= books[r.term])
  {
    AnswerIs(n, r);
    CommitIff(books, n, r);
    ConflictsIff(n.log.entries, r.prevIndex, r.entries);
    assert Merged(n.log, r.prevIndex, r.entries) == n.log;
  }

  lemma FalseCommitBreaks(s: State, e: Event)
    requires Inv(s) && LogInv(s) && FalseCommit(s, e)
    ensures !CommitTrue(Step(s, e))
  {
    var call := Delivered(s, e).value;
    var p, r := call.to, call.append;
    TheRest(s, e);
    DeliveredOk(s, e);
    DeliveredFits(s, e);
    assert NodeOk(s.books, s.nodes[p]);
    BeyondIsWrong(s.books, s.nodes[p], r);
    assert Step(s, e).nodes[p] == HandleAppend(s.nodes[p], r).0;
    assert !CommitsTruly(Step(s, e), p);
  }

  lemma FalseIndexBreaks(s: State, e: Event)
    requires Inv(s) && LogInv(s) && FalseIndex(s, e)
    ensures !IndicesTrue(Step(s, e))
  {
    if FalseAck(s, e) {
      FalseAckBreaks(s, e);
    } else {
      FalseCommitBreaks(s, e);
    }
  }

  lemma IndicesAreTrue(ss: seq<State>, es: seq<Event>, k: nat)
    requires Run(Step, ss, es) && Initial(ss[0]) && k <= |es|
    requires !SomeStep(LosesLog, ss, es, k) && !SomeStep(FalseIndex, ss, es, k)
    ensures Sound(ss[k]) && CommitInv(ss[k]) && IndicesTrue(ss[k])
  {
    assert forall j | 0 <= j < k :: !FalseIndex(ss[j], es[j]);
    CommitsThroughout(ss, es, k);
    CommitsAreTrue(ss[k]);
    forall l: nat, p: nat | l < |ss[k].nodes| && p < |ss[k].nodes| ensures MatchesTruly(ss[k], l, p) {
      AcksMatch(ss[k], l, p);
    }
  }

  /** In a run in which no node starts again with another log than it had, all match and commit indices are true
      throughout exactly when no peer acknowledges or commits entries beyond those it was passed that are not the
      leader's. */
  lemma IndicesTrueThroughout(ss: seq<State>, es: seq<Event>)
    requires Run(Step, ss, es) && Initial(ss[0]) && !SomeStep(LosesLog, ss, es, |es|)
    ensures Always(IndicesTrue, ss) <==> !SomeStep(FalseIndex, ss, es, |es|)
  {
    if Always(IndicesTrue, ss) {
      forall k | 0 <= k < |es| ensures !FalseIndex(ss[k], es[k]) {
        LogsThroughout(ss, es, k);
        assert IndicesTrue(ss[k + 1]) && ss[k + 1] == Step(ss[k], es[k]);
        if FalseIndex(ss[k], es[k]) {
          FalseIndexBreaks(ss[k], es[k]);
        }
      }
    }
    if !SomeStep(FalseIndex, ss, es, |es|) {
      forall k | 0 <= k < |ss| ensures IndicesTrue(ss[k]) {
        IndicesAreTrue(ss, es, k);
      }
    }
  }

  predicate Reliable(s: State) { Durable(s) && IndicesTrue(s) }

  predicate GoesWrong(s: State, e: Event) { CutsLog(s, e) || FalseIndex(s, e) }

  /** In every run, files give back all logs and all indices are true throughout exactly when no log is cut off and
      no peer acknowledges or commits beyond what it was passed. */
  lemma ReliableThroughout(ss: seq<State>, es: seq<Event>)
    requires Run(Step, ss, es) && Initial(ss[0])
    ensures Always(Reliable, ss) <==> !SomeStep(GoesWrong, ss, es, |es|)
  {
    DurableThroughout(ss, es);
    if !SomeStep(CutsLog, ss, es, |es|) {
      WithoutCutsNothingIsLost(ss, es);
      IndicesTrueThroughout(ss, es);
    }
    SomeStepOfTwo(ss, es);
    assert Always(Reliable, ss) <==> Always(Durable, ss) && Always(IndicesTrue, ss);
  }

  lemma SomeStepOfTwo(ss: seq<State>, es: seq<Event>)
    requires |es| < |ss|
    ensures SomeStep(GoesWrong, ss, es, |es|) <==>
            SomeStep(CutsLog, ss, es, |es|) || SomeStep(FalseIndex, ss, es, |es|)
  {
  }

  // ---------------------------------------------------------------- committed entries

  /** The nodes whose log begins with the entries. */
  function Having(s: State, entries: seq<Entry>): set<Id> {
    set v: nat | v < |s.nodes| && entries <= s.nodes[v].log.entries
  }

  /** What is supported stays supported. */
  lemma {:induction false} SupportedForGood(ss: seq<State>, es: seq<Event>, k: nat, m: nat, log: seq<Entry>, c: nat, t: nat)
    requires Run(Step, ss, es) && Initial(ss[0]) && k <= m <= |es|
    requires !SomeStep(LosesLog, ss, es, m) && Supported(ss[k], log, c, t)
    ensures Supported(ss[m], log, c, t)
  {
    if k < m {
      SupportedForGood(ss, es, k, m - 1, log, c, t);
      LogsThroughout(ss, es, m - 1);
      var s, e := ss[m - 1], es[m - 1];
      BooksGrow(s, e);
      AcksGrow(s, e);
      NodeCount(s, e);
      SupportedGrows(s, ss[m], log, log, c, t, t);
    }
  }

  lemma SupportedByMajority(s: State, log: seq<Entry>, c: nat, t: nat)
    requires Sound(s) && Supported(s, log, c, t) && c > 0
    ensures c <= |log| && |Having(s, log[..c])| >= Quorum(s)
  {
    var t': nat, i: nat :| ChosenAs(s, log, c, t, t', i);
    forall v | v in Holders(s, t', i) ensures v in Having(s, log[..c]) {
      HoldersHave(s, t', i, v);
      PrefixOfPrefix(s.books[t'], i, s.nodes[v].log.entries, c);
    }
    SubsetSize(Holders(s, t', i), Having(s, log[..c]));
  }

  /** Without such steps, what a node has committed is in the logs of a majority, then and ever after. */
  lemma CommittedOnMajority(ss: seq<State>, es: seq<Event>, k: nat, m: nat, i: Id)
    requires Run(Step, ss, es) && Initial(ss[0]) && k <= m <= |es| && i < |ss[k].nodes|
    requires !SomeStep(LosesLog, ss, es, m) && !SomeStep(FalseIndex, ss, es, m)
    requires ss[k].nodes[i].log.commit > 0
    ensures var log := ss[k].nodes[i].log;
      log.commit <= |log.entries| && |Having(ss[m], log.entries[..log.commit])| >= Quorum(ss[m])
  {
    var n := ss[k].nodes[i];
    NoneBefore(ss, es, k, m);
    IndicesAreTrue(ss, es, k);
    IndicesAreTrue(ss, es, m);
    assert NodeCommitOk(ss[k], n);
    SupportedForGood(ss, es, k, m, n.log.entries, n.log.commit, n.term);
    SupportedByMajority(ss[m], n.log.entries, n.log.commit, n.term);
  }

  lemma NoneBefore(ss: seq<State>, es: seq<Event>, k: nat, m: nat)
    requires k <= m <= |es| < |ss| && !SomeStep(LosesLog, ss, es, m) && !SomeStep(FalseIndex, ss, es, m)
    ensures !SomeStep(LosesLog, ss, es, k) && !SomeStep(FalseIndex, ss, es, k)
  {
  }

  lemma ChosenNest(s: State, t: nat, i: nat, u: nat, j: nat)
    requires Sound(s) && Chosen(s, t, i) && Chosen(s, u, j)
    ensures s.books[t][..i] <= s.books[u] || s.books[u][..j] <= s.books[t]
  {
    if t <= u {
      LeadersHave(s, t, i, u);
    } else {
      LeadersHave(s, u, j, t);
    }
  }

  lemma ChosenAgree(s: State, a: seq<Entry>, b: seq<Entry>, c: nat, d: nat, t: nat, t': nat, i: nat, u: nat, u': nat, j: nat, x: nat)
    requires ChosenAs(s, a, c, t, t', i) && ChosenAs(s, b, d, u, u', j) && x < c && x < d
    requires s.books[t'][..i] <= s.books[u'] || s.books[u'][..j] <= s.books[t']
    ensures a[..x + 1] == b[..x + 1]
  {
    PrefixesAgree(s.books[t'], i, s.books[u'], j, x);
    assert a[..x + 1] == a[..c][..x + 1] && b[..x + 1] == b[..d][..x + 1];
  }

  lemma SupportedAgree(s: State, a: seq<Entry>, b: seq<Entry>, c: nat, d: nat, t: nat, u: nat, x: nat)
    requires Sound(s) && Supported(s, a, c, t) && Supported(s, b, d, u) && x < c && x < d
    ensures x < |a| && x < |b| && a[..x + 1] == b[..x + 1]
  {
    var t': nat, i: nat :| ChosenAs(s, a, c, t, t', i);
    var u': nat, j: nat :| ChosenAs(s, b, d, u, u', j);
    ChosenNest(s, t', i, u', j);
    ChosenAgree(s, a, b, c, d, t, t', i, u, u', j, x);
  }

  lemma PrefixesAgree(a: seq<Entry>, i: nat, b: seq<Entry>, j: nat, x: nat)
    requires x < i <= |a| && x < j <= |b| && (a[..i] <= b || b[..j] <= a)
    ensures a[..x + 1] == b[..x + 1]
  {
  }

  /** And no two nodes ever commit different entries at an index, or after different entries. */
  lemma CommittedAgree(ss: seq<State>, es: seq<Event>, k: nat, m: nat, i: Id, j: Id, x: nat)
    requires Run(Step, ss, es) && Initial(ss[0]) && k <= m <= |es| && i < |ss[k].nodes| && j < |ss[m].nodes|
    requires !SomeStep(LosesLog, ss, es, m) && !SomeStep(FalseIndex, ss, es, m)
    requires x < ss[k].nodes[i].log.commit && x < ss[m].nodes[j].log.commit
    ensures var a, b := ss[k].nodes[i].log.entries, ss[m].nodes[j].log.entries;
      x < |a| && x < |b| && a[..x + 1] == b[..x + 1]
  {
    var a, b := ss[k].nodes[i], ss[m].nodes[j];
    NoneBefore(ss, es, k, m);
    IndicesAreTrue(ss, es, k);
    IndicesAreTrue(ss, es, m);
    assert NodeCommitOk(ss[k], a) && NodeCommitOk(ss[m], b);
    SupportedForGood(ss, es, k, m, a.log.entries, a.log.commit, a.term);
    SupportedAgree(ss[m], a.log.entries, b.log.entries, a.log.commit, b.log.commit, a.term, b.term, x);
  }
}
