/** What a leader knows of its peers' logs, and when it is wrong. */
module RaftAcks {
  import opened Runs
  import opened RaftModel
  import opened RaftElections
  import opened RaftSteps
  import opened RaftLog
  import opened RaftMatching

  /** What leader l counts as replicated on peer p, while both are in the leader's term, p has as the leader has it. */
  predicate MatchesTruly(s: State, l: Id, p: Id)
    requires l < |s.nodes| && p < |s.nodes|
  {
    var leader, peer := s.nodes[l], s.nodes[p];
    l != p && p < |leader.peers| && leader.role == Leader && peer.term == leader.term ==>
      var m := leader.peers[p].matched;
      m <= |leader.log.entries| && leader.log.entries[..m] <= peer.log.entries
  }

  predicate MatchTrue(s: State) {
    forall l: nat, p: nat | l < |s.nodes| && p < |s.nodes| :: MatchesTruly(s, l, p)
  }

  /** A peer answers that it keeps entries beyond those it was passed, and the last of them is not the leader's. */
  predicate FalseAck(s: State, e: Event) {
    e.Replicate? && Enabled(s, e) && e.reach.Answered? &&
    var leader, peer := s.nodes[e.l], s.nodes[e.p].log.entries;
    var sent := Replication(leader, e.l, e.p);
    var r := AsHandled(AppendCall(e.p, sent), e.dropped).append;
    && sent.entries != [] && s.nodes[e.p].term <= r.term && Consistent(peer, r)
    && |peer| > r.prevIndex + |r.entries| && !Conflicts(peer, r.prevIndex, r.entries)
    && TermAt(leader.log.entries, |peer|) != LastTerm(peer)
  }

  /** The log after the call is the leader's, as far as it goes, exactly if the answer is no false one. */
  lemma AckTrueIff(books: Books, log: seq<Entry>, r: AppendRequest)
    requires BooksOk(books) && Good(books, log) && r.term in books && Fits(books[r.term], r) && Consistent(log, r)
    ensures r.prevIndex <= |log|
    ensures Overlaid(log, r.prevIndex, r.entries) <= books[r.term] <==>
            !(|log| > r.prevIndex + |r.entries| && !Conflicts(log, r.prevIndex, r.entries)
              && TermAt(books[r.term], |log|) != LastTerm(log))
  {
    FollowsBook(books, log, r);
    ConflictsIff(log, r.prevIndex, r.entries);
    BookIsGood(books, r.term);
    LastIsOurs(books, log, books[r.term]);
    var k := Fit(log, r.prevIndex, r.entries);
    if k == |r.entries| && |log| <= r.prevIndex + k {
      assert log == log[..r.prevIndex + k];
    }
  }

  /** Of two good logs, one begins with the other exactly if it has the other's last entry. */
  lemma LastIsOurs(books: Books, a: seq<Entry>, b: seq<Entry>)
    requires BooksOk(books) && Good(books, a) && Good(books, b)
    ensures a <= b <==> a == [] || TermAt(b, |a|) == LastTerm(a)
  {
    if a != [] {
      assert EntryOk(books, a, |a| - 1);
      BookIsGood(books, LastTerm(a));
      if TermAt(b, |a|) == LastTerm(a) {
        Matching2(books, a, b, |a| - 1);
        assert a == a[..|a|];
      }
    }
  }

  // ---------------------------------------------------------------- what has been acknowledged

  predicate AckOk(books: Books, a: Ack) {
    a.term in books && 1 <= a.index <= |books[a.term]|
  }

  function Prefix(books: Books, a: Ack): seq<Entry>
    requires AckOk(books, a)
  {
    books[a.term][..a.index]
  }

  /** A leader of a term after a's, and before u, does not have the acknowledged entries. */
  ghost predicate Lost(books: Books, a: Ack, u: nat)
    requires AckOk(books, a)
  {
    exists t :: a.term < t < u && t in books && !(Prefix(books, a) <= books[t])
  }

  /** The node has what it acknowledged, unless a leader it may have followed since did not. */
  ghost predicate Kept(books: Books, a: Ack, n: Node)
    requires AckOk(books, a)
  {
    Prefix(books, a) <= n.log.entries || Lost(books, a, n.term + 1)
  }

  lemma LostLater(books: Books, a: Ack, u: nat, u': nat)
    requires AckOk(books, a) && Lost(books, a, u) && u <= u'
    ensures Lost(books, a, u')
  {
  }

  /** What a book lacks it lacks for good, for it goes on with entries of its own term. */
  lemma LackStays(books: Books, books': Books, a: Ack, t: nat)
    requires BooksOk(books) && BooksOk(books') && Grown(books, books') && AckOk(books, a)
    requires a.term < t && t in books && !(Prefix(books, a) <= books[t])
    ensures AckOk(books', a) && Prefix(books', a) == Prefix(books, a) && !(Prefix(books, a) <= books'[t])
  {
    assert BookOk(books, t) && BookOk(books, a.term);
    var p, b := Prefix(books, a), books[t];
    assert books[a.term] <= books'[a.term];
    if |b| < |p| {
      assert p[|b| - 1].term <= a.term < b[|b| - 1].term && b <= books'[t];
    }
  }

  lemma AckGrows(books: Books, books': Books, a: Ack)
    requires Grown(books, books') && AckOk(books, a)
    ensures AckOk(books', a) && Prefix(books', a) == Prefix(books, a)
  {
    assert books[a.term] <= books'[a.term];
  }

  lemma LostStays(books: Books, books': Books, a: Ack, u: nat)
    requires BooksOk(books) && BooksOk(books') && Grown(books, books') && AckOk(books, a) && Lost(books, a, u)
    ensures AckOk(books', a) && Lost(books', a, u)
  {
    var t :| a.term < t < u && t in books && !(Prefix(books, a) <= books[t]);
    LackStays(books, books', a, t);
    assert t in books';
  }

  // ---------------------------------------------------------------- a node keeps what it acknowledged

  lemma KeptQuietly(books: Books, a: Ack, n: Node, n': Node)
    requires AckOk(books, a) && Kept(books, a, n)
    requires n.log.entries <= n'.log.entries && n.term <= n'.term
    ensures Kept(books, a, n')
  {
    if Lost(books, a, n.term + 1) {
      LostLater(books, a, n.term + 1, n'.term + 1);
    }
  }

  lemma KeptInLog(books: Books, a: Ack, log: seq<Entry>, r: AppendRequest)
    requires BooksOk(books) && Good(books, log) && r.term in books && Fits(books[r.term], r) && Consistent(log, r)
    requires AckOk(books, a) && Prefix(books, a) <= log && Prefix(books, a) <= books[r.term]
    ensures r.prevIndex <= |log| && Prefix(books, a) <= Overlaid(log, r.prevIndex, r.entries)
  {
    FollowsBook(books, log, r);
    PrefixStays(log, books[r.term], r.prevIndex, r.entries, Prefix(books, a));
  }

  /** Term and entries of a node that has handled AppendEntries. */
  predicate AfterAppend(n: Node, r: AppendRequest, n': Node) {
    && n'.term == (if r.term > n.term then r.term else n.term)
    && (if n.term <= r.term && Consistent(n.log.entries, r)
        then r.prevIndex <= |n.log.entries| && n'.log.entries == Overlaid(n.log.entries, r.prevIndex, r.entries)
        else n'.log.entries == n.log.entries)
  }

  lemma HandleAppendIs(n: Node, r: AppendRequest)
    ensures AfterAppend(n, r, HandleAppend(n, r).0)
  {
    AnswerIs(n, r);
    RolesAfter(n, r);
  }

  lemma KeptByFollower(books: Books, a: Ack, n: Node, r: AppendRequest, n': Node)
    requires BooksOk(books) && NodeOk(books, n) && r.term in books && Fits(books[r.term], r)
    requires AckOk(books, a) && a.term <= n.term && Kept(books, a, n) && AfterAppend(n, r, n')
    ensures Kept(books, a, n')
  {
    if Lost(books, a, n.term + 1) {
      LostLater(books, a, n.term + 1, n'.term + 1);
    } else if n.term <= r.term && Consistent(n.log.entries, r) {
      if Prefix(books, a) <= books[r.term] {
        KeptInLog(books, a, n.log.entries, r);
      } else {
        assert a.term < r.term < n'.term + 1;
      }
    }
  }

  // ---------------------------------------------------------------- states and steps

  ghost predicate AckKept(s: State, a: Ack) {
    AckOk(s.books, a) && a.node < |s.nodes| && a.term <= s.nodes[a.node].term && Kept(s.books, a, s.nodes[a.node])
  }

  /** What a leader has itself, and what it counts as replicated, was acknowledged in its term. */
  predicate LeaderOk(s: State, l: Id)
    requires l < |s.nodes|
  {
    var n := s.nodes[l];
    n.role == Leader ==>
      && Acks(n.term, l, |n.log.entries|) <= s.acks
      && forall p | 0 <= p < |n.peers| && p != l :: Acks(n.term, p, n.peers[p].matched) <= s.acks
  }

  ghost predicate AckInv(s: State) {
    && (forall a | a in s.acks :: AckKept(s, a))
    && (forall l: nat | l < |s.nodes| :: LeaderOk(s, l))
  }

  /** A node's log grows at its end, or follows a book. */
  ghost predicate Moves(books: Books, n: Node, n': Node) {
    || (n.log.entries <= n'.log.entries && n.term <= n'.term)
    || exists r: AppendRequest :: r.term in books && Fits(books[r.term], r) && AfterAppend(n, r, n')
  }

  lemma PeerMoves(s: State, call: Call)
    requires call.to < |s.nodes| && CallFits(s.books, call)
    ensures Moves(s.books, s.nodes[call.to], Handled(s, call).nodes[call.to])
  {
    if call.AppendCall? {
      HandleAppendIs(s.nodes[call.to], call.append);
    }
  }

  lemma NodeMoves(s: State, e: Event, i: Id)
    requires Inv(s) && LogInv(s) && !LosesLog(s, e) && i < |s.nodes|
    ensures |Step(s, e).nodes| == |s.nodes| && Moves(s.books, s.nodes[i], Step(s, e).nodes[i])
  {
    if Enabled(s, e) && IsCall(e) {
      TheRest(s, e);
      if Delivered(s, e).Some? {
        DeliveredOk(s, e);
        DeliveredFits(s, e);
        HandledNodes(s, Delivered(s, e).value);
        PeerMoves(s, Delivered(s, e).value);
      }
    } else {
      OwnMoves(s, e, i);
    }
  }

  lemma OwnMoves(s: State, e: Event, i: Id)
    requires i < |s.nodes| && !LosesLog(s, e) && (Enabled(s, e) ==> !IsCall(e))
    ensures |Step(s, e).nodes| == |s.nodes|
    ensures s.nodes[i].log.entries <= Step(s, e).nodes[i].log.entries && s.nodes[i].term <= Step(s, e).nodes[i].term
  {
  }

  lemma MovesKeep(books: Books, a: Ack, n: Node, n': Node)
    requires BooksOk(books) && NodeOk(books, n) && Moves(books, n, n')
    requires AckOk(books, a) && a.term <= n.term && Kept(books, a, n)
    ensures Kept(books, a, n') && n.term <= n'.term
  {
    if n.log.entries <= n'.log.entries && n.term <= n'.term {
      KeptQuietly(books, a, n, n');
    } else {
      var r: AppendRequest :| r.term in books && Fits(books[r.term], r) && AfterAppend(n, r, n');
      KeptByFollower(books, a, n, r, n');
    }
  }

  lemma BooksGrow(s: State, e: Event)
    requires Inv(s) && LogInv(s)
    ensures Grown(s.books, Step(s, e).books)
  {
    if Enabled(s, e) {
      if IsCall(e) {
        TheRest(s, e);
      } else if e.Count? {
        var n := s.nodes[e.c];
        if n.poll.value.votes >= Quorum(s) {
          WinnerIsFirst(s, e.c);
          assert n.term in s.books ==> Led(s, n.term);
        }
      } else if e.Submit? {
        assert NodeOk(s.books, s.nodes[e.l]);
      }
    }
  }

  lemma OldAckStays(s: State, e: Event, a: Ack)
    requires Inv(s) && LogInv(s) && !LosesLog(s, e) && AckKept(s, a)
    ensures AckKept(Step(s, e), a)
  {
    var s' := Step(s, e);
    NodeMoves(s, e, a.node);
    assert NodeOk(s.books, s.nodes[a.node]);
    MovesKeep(s.books, a, s.nodes[a.node], s'.nodes[a.node]);
    BooksGrow(s, e);
    LogInvStep(s, e);
    KeptGrows(s.books, s'.books, a, s'.nodes[a.node]);
  }

  lemma KeptGrows(books: Books, books': Books, a: Ack, n: Node)
    requires BooksOk(books) && BooksOk(books') && Grown(books, books') && AckOk(books, a) && Kept(books, a, n)
    ensures AckOk(books', a) && Kept(books', a, n)
  {
    AckGrows(books, books', a);
    if Lost(books, a, n.term + 1) {
      LostStays(books, books', a, n.term + 1);
    }
  }

  // ---------------------------------------------------------------- new acknowledgements

  /** An acknowledgement just made: the node is in the leader's term and has the entries. */
  predicate Fresh(s: State, a: Ack) {
    && AckOk(s.books, a) && a.node < |s.nodes| && a.term == s.nodes[a.node].term
    && Prefix(s.books, a) <= s.nodes[a.node].log.entries
  }

  lemma WrittenAcks(s: State, l: Id, n: Node, a: Ack)
    requires l < |s.nodes| && a in Written(s, l, n).acks
    ensures a in s.acks || Fresh(Written(s, l, n), a)
  {
  }

  /** A peer that answers has the leader's entries and no others exactly if its answer is no false one. */
  lemma AnswerIff(s: State, l: Id, p: Id, dropped: bool)
    requires Inv(s) && LogInv(s) && Enabled(s, Replicate(l, p, dropped, Answered))
    ensures var leader, peer, sent := s.nodes[l], s.nodes[p], Replication(s.nodes[l], l, p);
      var (n, answer) := HandleAppend(peer, AsHandled(AppendCall(p, sent), dropped).append);
      answer.success && sent.entries != [] ==>
        && n.term == leader.term && answer.matchIndex == |n.log.entries| && answer.term == leader.term
        && (n.log.entries <= leader.log.entries <==> !FalseAck(s, Replicate(l, p, dropped, Answered)))
  {
    var leader, peer, sent := s.nodes[l], s.nodes[p], Replication(s.nodes[l], l, p);
    var r := AsHandled(AppendCall(p, sent), dropped).append;
    assert NodeOk(s.books, leader) && NodeOk(s.books, peer);
    AnswerIs(peer, r);
    if peer.term <= r.term && Consistent(peer.log.entries, r) {
      ReplicationFits(leader, l, p);
      DroppedFits(s.books, AppendCall(p, sent), dropped);
      AckTrueIff(s.books, peer.log.entries, r);
    }
  }

  /** An answer that is no false one acknowledges entries that the peer has. */
  lemma AnsweredAcks(s: State, l: Id, p: Id, dropped: bool, a: Ack)
    requires Inv(s) && LogInv(s) && Enabled(s, Replicate(l, p, dropped, Answered))
    requires !FalseAck(s, Replicate(l, p, dropped, Answered))
    requires a in Step(s, Replicate(l, p, dropped, Answered)).acks
    ensures a in s.acks || Fresh(Step(s, Replicate(l, p, dropped, Answered)), a)
  {
    if a !in s.acks {
      var e := Replicate(l, p, dropped, Answered);
      var (n, answer) := HandleAppend(s.nodes[p], AsHandled(AppendCall(p, Replication(s.nodes[l], l, p)), dropped).append);
      AckedByAnswer(s, l, p, dropped, a);
      AnswerIff(s, l, p, dropped);
      ReplicateNodes(s, l, p, dropped, n, answer);
      assert NodeOk(s.books, s.nodes[l]);
      TheRest(s, e);
      IsFresh(s, Step(s, e), n, a);
    }
  }

  lemma IsFresh(s: State, s': State, n: Node, a: Ack)
    requires a.term in s.books && s'.books == s.books && n.log.entries <= s.books[a.term] && n.term == a.term
    requires a.node < |s'.nodes| && s'.nodes[a.node] == n && 1 <= a.index <= |n.log.entries|
    ensures Fresh(s', a)
  {
  }

  lemma AckedByAnswer(s: State, l: Id, p: Id, dropped: bool, a: Ack)
    requires Enabled(s, Replicate(l, p, dropped, Answered))
    requires a in Step(s, Replicate(l, p, dropped, Answered)).acks && a !in s.acks
    ensures var leader, sent := s.nodes[l], Replication(s.nodes[l], l, p);
      var answer := HandleAppend(s.nodes[p], AsHandled(AppendCall(p, sent), dropped).append).1;
      && sent.entries != [] && answer.success && a.term == leader.term && a.node == p && 1 <= a.index <= answer.matchIndex
  {
  }

  lemma UnansweredAcks(s: State, e: Event)
    requires Enabled(s, e) && IsCall(e) && !(e.Replicate? && e.reach.Answered?)
    ensures Step(s, e).acks == s.acks
  {
  }

  lemma NewAckIsFresh(s: State, e: Event, a: Ack)
    requires Inv(s) && LogInv(s) && !FalseAck(s, e) && a in Step(s, e).acks
    ensures a in s.acks || Fresh(Step(s, e), a)
  {
    if Enabled(s, e) {
      match e
      case Replicate(l, p, dropped, reach) =>
        if reach.Answered? {
          AnsweredAcks(s, l, p, dropped, a);
        } else {
          UnansweredAcks(s, e);
        }
      case Ask(_, _, _) => UnansweredAcks(s, e);
      case Late(_, _) => UnansweredAcks(s, e);
      case Count(c) => CountAcks(s, c, a);
      case Submit(l, command) => WrittenAcks(s, l, Submitted(s.nodes[l], command), a);
      case _ =>
    }
  }

  lemma CountAcks(s: State, c: Id, a: Ack)
    requires Polling(s, c) && a in OnCount(s, c).acks
    ensures a in s.acks || Fresh(OnCount(s, c), a)
  {
    if s.nodes[c].poll.value.votes >= Quorum(s) {
      WrittenAcks(s, c, BecomeLeader(s.nodes[c]), a);
    }
  }

  // ---------------------------------------------------------------- what leaders count

  predicate StaysLeader(n: Node, n': Node) {
    n'.role == Leader ==>
      && n.role == Leader && n'.term == n.term && n'.log.entries == n.log.entries && |n'.peers| == |n.peers|
      && forall p | 0 <= p < |n.peers| :: n'.peers[p].matched == n.peers[p].matched
  }

  lemma LeaderStays(s: State, s': State, l: Id)
    requires l < |s.nodes| == |s'.nodes| && LeaderOk(s, l) && s.acks <= s'.acks && StaysLeader(s.nodes[l], s'.nodes[l])
    ensures LeaderOk(s', l)
  {
  }

  lemma PeerStays(s: State, call: Call)
    requires Inv(s) && Idle(s, call.to) && CallOk(s, call)
    ensures StaysLeader(s.nodes[call.to], Handled(s, call).nodes[call.to])
  {
    if call.AppendCall? {
      NotToLeader(s, call.to, call.append);
      AnswerIs(s.nodes[call.to], call.append);
      RolesAfter(s.nodes[call.to], call.append);
      PeersAfter(s.nodes[call.to], call.append);
    }
  }

  lemma PeersAfter(n: Node, r: AppendRequest)
    ensures HandleAppend(n, r).0.peers == n.peers
  {
  }

  lemma ReplicatingStays(s: State, l: Id, p: Id, dropped: bool, reach: Reach)
    requires Enabled(s, Replicate(l, p, dropped, reach)) && LeaderOk(s, l)
    ensures LeaderOk(Step(s, Replicate(l, p, dropped, reach)), l)
  {
    var call := AppendCall(p, Replication(s.nodes[l], l, p));
    var handled := AsHandled(call, dropped);
    var s2 := if reach.Missed? then Called(s, call) else Handled(Called(s, call), handled);
    var answer := if reach.Answered? then HandleAppend(s.nodes[p], handled.append).1 else AppendResponse(0, false, 0);
    assert s2.nodes[l] == s.nodes[l] && s2.acks == s.acks;
    assert Step(s, Replicate(l, p, dropped, reach)) == Answer(s2, l, p, call.append, answer);
    AnswerStays(s2, l, p, call.append, answer);
  }

  lemma AnswerStays(s: State, l: Id, p: Id, sent: AppendRequest, answer: AppendResponse)
    requires l < |s.nodes| && p < |s.nodes[l].peers| && LeaderOk(s, l)
    ensures LeaderOk(Answer(s, l, p, sent, answer), l)
  {
  }

  lemma OwnStays(s: State, e: Event, l: Id)
    requires Inv(s) && l < |s.nodes| && LeaderOk(s, l) && Enabled(s, e) && !IsCall(e)
    ensures |Step(s, e).nodes| == |s.nodes| && LeaderOk(Step(s, e), l)
  {
  }

  lemma LeaderOkStep(s: State, e: Event, l: Id)
    requires Inv(s) && l < |s.nodes| && LeaderOk(s, l)
    ensures |Step(s, e).nodes| == |s.nodes| && LeaderOk(Step(s, e), l)
  {
    if Enabled(s, e) {
      if !IsCall(e) {
        OwnStays(s, e, l);
      } else if e.Replicate? && e.l == l {
        ReplicatingStays(s, l, e.p, e.dropped, e.reach);
      } else {
        TheRest(s, e);
        if Delivered(s, e).Some? {
          DeliveredOk(s, e);
          HandledNodes(s, Delivered(s, e).value);
          PeerStays(s, Delivered(s, e).value);
        }
        if e.Ask? && e.c == l {
          assert RoleOk(s, l);
        }
        LeaderStays(s, Step(s, e), l);
      }
    }
  }

  lemma AckInvStep(s: State, e: Event)
    requires Inv(s) && LogInv(s) && AckInv(s) && !LosesLog(s, e) && !FalseAck(s, e)
    ensures AckInv(Step(s, e))
  {
    var s' := Step(s, e);
    forall a | a in s'.acks ensures AckKept(s', a) {
      if a in s.acks {
        OldAckStays(s, e, a);
      } else {
        NewAckIsFresh(s, e, a);
      }
    }
    forall l: nat | l < |s'.nodes| ensures LeaderOk(s', l) {
      NodeMoves(s, e, 0);
      LeaderOkStep(s, e, l);
    }
  }

  lemma {:induction false} AcksThroughout(ss: seq<State>, es: seq<Event>, k: nat)
    requires Run(Step, ss, es) && Initial(ss[0]) && k <= |es|
    requires !SomeStep(LosesLog, ss, es, k) && !SomeStep(FalseAck, ss, es, k)
    ensures Inv(ss[k]) && LogInv(ss[k]) && AckInv(ss[k])
  {
    LogsThroughout(ss, es, k);
    if k > 0 {
      AcksThroughout(ss, es, k - 1);
      var e := es[k - 1];
      assert !LosesLog(ss[k - 1], e) && !FalseAck(ss[k - 1], e);
      AckInvStep(ss[k - 1], e);
    }
  }

  // ---------------------------------------------------------------- match indices

  lemma AcksMatch(s: State, l: Id, p: Id)
    requires LogInv(s) && AckInv(s) && l < |s.nodes| && p < |s.nodes|
    ensures MatchesTruly(s, l, p)
  {
    var leader, peer := s.nodes[l], s.nodes[p];
    if l != p && p < |leader.peers| && leader.role == Leader && peer.term == leader.term && leader.peers[p].matched > 0 {
      var a := Ack(leader.term, p, leader.peers[p].matched);
      assert LeaderOk(s, l) && a in Acks(leader.term, p, leader.peers[p].matched);
      assert AckKept(s, a) && NodeOk(s.books, leader);
    }
  }

  lemma FalseAckBreaks(s: State, e: Event)
    requires Inv(s) && LogInv(s) && FalseAck(s, e)
    ensures !MatchTrue(Step(s, e))
  {
    var l, p := e.l, e.p;
    var sent := Replication(s.nodes[l], l, p);
    var (n, answer) := HandleAppend(s.nodes[p], AsHandled(AppendCall(p, sent), e.dropped).append);
    AnswerIs(s.nodes[p], AsHandled(AppendCall(p, sent), e.dropped).append);
    AnswerIff(s, l, p, e.dropped);
    ReplicateNodes(s, l, p, e.dropped, n, answer);
    assert Step(s, e).nodes[p] == n;
    assert Step(s, e).nodes[l].peers[p].matched == |n.log.entries|;
    assert !MatchesTruly(Step(s, e), l, p);
  }

  /** In a run in which no node starts again with another log than it had, what leaders count as replicated is so
      throughout exactly when no peer acknowledges entries beyond those it was passed that are not the leader's. */
  lemma MatchTrueThroughout(ss: seq<State>, es: seq<Event>)
    requires Run(Step, ss, es) && Initial(ss[0]) && !SomeStep(LosesLog, ss, es, |es|)
    ensures Always(MatchTrue, ss) <==> !SomeStep(FalseAck, ss, es, |es|)
  {
    if Always(MatchTrue, ss) {
      forall k | 0 <= k < |es| ensures !FalseAck(ss[k], es[k]) {
        LogsThroughout(ss, es, k);
        assert MatchTrue(ss[k + 1]) && ss[k + 1] == Step(ss[k], es[k]);
        if FalseAck(ss[k], es[k]) {
          FalseAckBreaks(ss[k], es[k]);
        }
      }
    }
    if !SomeStep(FalseAck, ss, es, |es|) {
      forall k | 0 <= k < |ss| ensures MatchTrue(ss[k]) {
        AcksThroughout(ss, es, k);
        forall l: nat, p: nat | l < |ss[k].nodes| && p < |ss[k].nodes| ensures MatchesTruly(ss[k], l, p) {
          AcksMatch(ss[k], l, p);
        }
      }
    }
  }
}
