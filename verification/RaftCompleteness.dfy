/** Leader completeness: what a majority has acknowledged, every later leader has. */
module RaftCompleteness {
  import opened Runs
  import opened RaftModel
  import opened RaftElections
  import opened RaftSteps
  import opened RaftMatching
  import opened RaftAcks

  /** The last acknowledged entry is of the term it was acknowledged in. */
  predicate Own(books: Books, a: Ack)
    requires AckOk(books, a)
  {
    books[a.term][a.index - 1].term == a.term
  }

  /** Whoever was granted the vote of a node has what the node acknowledged before, or a leader in between has not. */
  ghost predicate VoteOk(s: State, c: Id, a: Ack)
    requires c < |s.nodes| && AckOk(s.books, a)
  {
    var n := s.nodes[c];
    n.poll.Some? && Ballot(n.term, a.node, c) in s.ballots && a.term < n.term && n.term !in s.books && Own(s.books, a) ==>
      Prefix(s.books, a) <= n.log.entries || Lost(s.books, a, n.term)
  }

  /** So has a winner what its backers acknowledged before. */
  ghost predicate WinOk(s: State, w: Win, a: Ack)
    requires AckOk(s.books, a) && w.term in s.books
  {
    a.node in w.backers && a.term < w.term && Own(s.books, a) ==>
      Prefix(s.books, a) <= s.books[w.term] || Lost(s.books, a, w.term)
  }

  /** A vote request of the term that its candidate polls in tells of the candidate's log. */
  predicate RequestCurrent(s: State, call: Call) {
    call.VoteCall? ==>
      var c := call.vote.candidate;
      && c < |s.nodes| && call.vote.term <= s.nodes[c].term
      && (s.nodes[c].poll.Some? && call.vote.term == s.nodes[c].term ==> call.vote == RequestOf(s, c))
  }

  ghost predicate VoteInv(s: State) {
    && (forall c: nat, a {:trigger VoteOk(s, c, a)} | c < |s.nodes| && a in s.acks :: AckOk(s.books, a) ==> VoteOk(s, c, a))
    && (forall w, a {:trigger WinOk(s, w, a)} | w in s.wins && a in s.acks :: AckOk(s.books, a) && w.term in s.books ==> WinOk(s, w, a))
    && (forall call | call in s.calls :: RequestCurrent(s, call))
    && (forall b | b in s.ballots :: b.candidate < |s.nodes| && b.term <= s.nodes[b.candidate].term)
  }

  // ---------------------------------------------------------------- the vote

  lemma Sorted(books: Books, log: seq<Entry>, i: nat, j: nat)
    requires BooksOk(books) && Good(books, log) && i <= j < |log|
    ensures log[i].term <= log[j].term
  {
    assert EntryOk(books, log, j);
    var b := books[log[j].term];
    BookIsGood(books, log[j].term);
    assert log[i] == log[..j + 1][i] == b[..j + 1][i] == b[i];
  }

  /** A log that is up to date for a voter has what the voter acknowledged, or its last leader has not. */
  lemma UpToDateHas(books: Books, a: Ack, mine: seq<Entry>, log: seq<Entry>, u: nat)
    requires BooksOk(books) && Good(books, mine) && Good(books, log) && AckOk(books, a) && Own(books, a)
    requires Prefix(books, a) <= mine && UpToDate(mine, |log|, LastTerm(log))
    requires u !in books && forall i | 0 <= i < |log| :: log[i].term <= u
    ensures Prefix(books, a) <= log || Lost(books, a, u)
  {
    var p := Prefix(books, a);
    assert mine[a.index - 1] == p[a.index - 1];
    Sorted(books, mine, a.index - 1, |mine| - 1);
    assert LastTerm(mine) >= a.term;
    BookIsGood(books, a.term);
    var t := LastTerm(log);
    if log != [] {
      assert EntryOk(books, log, |log| - 1);
      if t == LastTerm(mine) {
        assert EntryOk(books, mine, |mine| - 1);
        assert log == log[..|log|] == books[t][..|log|] && mine == mine[..|mine|] == books[t][..|mine|];
      } else if p <= books[t] {
        assert log == log[..|log|] == books[t][..|log|];
      } else {
        assert a.term < t < u;
      }
    }
  }

  // ---------------------------------------------------------------- what a step changes

  lemma TermGrows(s: State, e: Event, i: Id)
    requires Inv(s) && LogInv(s) && !LosesLog(s, e) && i < |s.nodes|
    ensures |Step(s, e).nodes| == |s.nodes| && s.nodes[i].term <= Step(s, e).nodes[i].term
  {
    NodeMoves(s, e, i);
    var n, n' := s.nodes[i], Step(s, e).nodes[i];
    if !(n.log.entries <= n'.log.entries && n.term <= n'.term) {
      var r: AppendRequest :| r.term in s.books && Fits(s.books[r.term], r) && AfterAppend(n, r, n');
    }
  }

  predicate SamePoll(n: Node, n': Node) {
    n'.poll.Some? ==> n.poll.Some? && n'.term == n.term && n'.log.entries == n.log.entries
  }

  lemma RestPolls(s: State, s1: State, s': State, e: Event, c: Id)
    requires IsCall(e) && RestOk(s, s1, s', e) && c < |s.nodes| && SamePoll(s.nodes[c], s1.nodes[c])
    ensures |s'.nodes| == |s.nodes| && SamePoll(s.nodes[c], s'.nodes[c])
  {
  }

  /** A node that polls has neither changed its term nor its log since it started to. */
  lemma PollingStays(s: State, e: Event, c: Id)
    requires Inv(s) && c < |s.nodes| && e != Timeout(c)
    ensures |Step(s, e).nodes| == |s.nodes| && SamePoll(s.nodes[c], Step(s, e).nodes[c])
  {
    if Enabled(s, e) {
      if IsCall(e) {
        TheRest(s, e);
        if Delivered(s, e).Some? {
          DeliveredOk(s, e);
          HandledNodes(s, Delivered(s, e).value);
          PeerPoll(s, Delivered(s, e).value);
        }
        RestPolls(s, PeerSide(s, e), Step(s, e), e, c);
      } else {
        OwnPoll(s, e, c);
      }
    }
  }

  lemma PeerPoll(s: State, call: Call)
    requires Idle(s, call.to)
    ensures Handled(s, call).nodes[call.to].poll.None?
  {
  }

  lemma OwnPoll(s: State, e: Event, c: Id)
    requires c < |s.nodes| && Enabled(s, e) && !IsCall(e) && e != Timeout(c)
    ensures |Step(s, e).nodes| == |s.nodes| && SamePoll(s.nodes[c], Step(s, e).nodes[c])
  {
  }

  /** The vote request of an event is granted, as the ballot says. */
  predicate Grant(s: State, e: Event, b: Ballot) {
    Enabled(s, e) && match Delivered(s, e)
      case Some(VoteCall(p, r)) =>
        && p < |s.nodes| && b == Ballot(r.term, p, r.candidate) && s.nodes[p].term <= r.term
        && UpToDate(s.nodes[p].log.entries, r.lastIndex, r.lastTerm)
      case _ => false
  }

  lemma NewBallot(s: State, e: Event, b: Ballot)
    requires Inv(s) && b in Step(s, e).ballots && b !in s.ballots
    ensures (e.Timeout? && Enabled(s, e) && b == Ballot(s.nodes[e.c].term + 1, e.c, e.c)) || Grant(s, e, b)
  {
    if Enabled(s, e) && !e.Timeout? {
      TheRest(s, e);
      if Delivered(s, e).Some? {
        DeliveredOk(s, e);
      }
    }
  }

  /** The request that an event has handled is one made, now or before. */
  lemma DeliveredCurrent(s: State, e: Event)
    requires Inv(s) && VoteInv(s) && Enabled(s, e) && Delivered(s, e).Some?
    ensures RequestCurrent(s, Delivered(s, e).value)
  {
  }

  // ---------------------------------------------------------------- steps

  lemma VoteOkGrows(s: State, s': State, c: Id, a: Ack)
    requires BooksOk(s.books) && BooksOk(s'.books) && Grown(s.books, s'.books) && c < |s.nodes| == |s'.nodes|
    requires AckOk(s.books, a) && VoteOk(s, c, a) && SamePoll(s.nodes[c], s'.nodes[c])
    requires s'.nodes[c].poll.Some? && Ballot(s'.nodes[c].term, a.node, c) in s.ballots
    ensures AckOk(s'.books, a) && VoteOk(s', c, a)
  {
    AckGrows(s.books, s'.books, a);
    OwnSame(s.books, s'.books, a);
    if Lost(s.books, a, s.nodes[c].term) {
      LostStays(s.books, s'.books, a, s.nodes[c].term);
    }
  }

  lemma OwnSame(books: Books, books': Books, a: Ack)
    requires Grown(books, books') && AckOk(books, a)
    ensures AckOk(books', a) && (Own(books', a) <==> Own(books, a))
  {
    assert books[a.term] <= books'[a.term];
  }

  /** A candidate votes for itself with the log it has. */
  lemma VoteOkAtTimeout(s: State, c: Id, a: Ack)
    requires Inv(s) && VoteInv(s) && AckKept(s, a) && Enabled(s, Timeout(c))
    ensures VoteOk(Step(s, Timeout(c)), c, a)
  {
    var u := s.nodes[c].term + 1;
    var b := Ballot(u, a.node, c);
    if b in s.ballots {
      assert false;
    }
  }

  /** A peer that grants its vote finds the candidate's log up to date. */
  lemma VoteOkAtGrant(s: State, e: Event, c: Id, a: Ack)
    requires Inv(s) && LogInv(s) && VoteInv(s) && AckKept(s, a) && c < |s.nodes| && s.nodes[c].poll.Some?
    requires Grant(s, e, Ballot(s.nodes[c].term, a.node, c))
    requires a.term < s.nodes[c].term && s.nodes[c].term !in s.books && Own(s.books, a)
    ensures Prefix(s.books, a) <= s.nodes[c].log.entries || Lost(s.books, a, s.nodes[c].term)
  {
    var n, v := s.nodes[c], s.nodes[a.node];
    DeliveredCurrent(s, e);
    assert NodeOk(s.books, n) && NodeOk(s.books, v);
    if Lost(s.books, a, v.term + 1) {
      var t :| a.term < t < v.term + 1 && t in s.books && !(Prefix(s.books, a) <= s.books[t]);
      assert t != n.term;
    } else {
      UpToDateHas(s.books, a, v.log.entries, n.log.entries, n.term);
    }
  }

  lemma VoteOkStep(s: State, e: Event, c: Id, a: Ack)
    requires Inv(s) && LogInv(s) && VoteInv(s) && AckKept(s, a) && a in s.acks && c < |s.nodes| && !LosesLog(s, e)
    ensures AckKept(Step(s, e), a) && c < |Step(s, e).nodes| && VoteOk(Step(s, e), c, a)
  {
    var s' := Step(s, e);
    OldAckStays(s, e, a);
    BooksGrow(s, e);
    LogInvStep(s, e);
    TermGrows(s, e, c);
    var n := s'.nodes[c];
    var b := Ballot(n.term, a.node, c);
    OwnSame(s.books, s'.books, a);
    if n.poll.Some? && b in s'.ballots && a.term < n.term && n.term !in s'.books && Own(s'.books, a) {
      if e == Timeout(c) {
        TimeoutCase(s, c, a);
      } else {
        PollingStays(s, e, c);
        assert VoteOk(s, c, a);
        if b in s.ballots {
          VoteOkGrows(s, s', c, a);
        } else {
          NewBallot(s, e, b);
          VoteOkAtGrant(s, e, c, a);
          VoteOkByGrant(s, s', c, a);
        }
      }
    }
  }

  lemma TimeoutCase(s: State, c: Id, a: Ack)
    requires Inv(s) && VoteInv(s) && AckKept(s, a) && a in s.acks && c < |s.nodes| && VoteOk(s, c, a)
    ensures VoteOk(Step(s, Timeout(c)), c, a)
  {
    if Enabled(s, Timeout(c)) {
      VoteOkAtTimeout(s, c, a);
    }
  }

  lemma VoteOkByGrant(s: State, s': State, c: Id, a: Ack)
    requires BooksOk(s.books) && BooksOk(s'.books) && Grown(s.books, s'.books) && c < |s.nodes| == |s'.nodes|
    requires AckOk(s.books, a) && SamePoll(s.nodes[c], s'.nodes[c]) && s'.nodes[c].poll.Some?
    requires Prefix(s.books, a) <= s.nodes[c].log.entries || Lost(s.books, a, s.nodes[c].term)
    ensures AckOk(s'.books, a) && VoteOk(s', c, a)
  {
    AckGrows(s.books, s'.books, a);
    if Lost(s.books, a, s.nodes[c].term) {
      LostStays(s.books, s'.books, a, s.nodes[c].term);
    }
  }

  /** What a node has acknowledged just now is of its own term, and it has voted in no later one. */
  lemma FreshIsOk(s: State, a: Ack)
    requires Inv(s) && LogInv(s) && Fresh(s, a)
    ensures forall c: nat | c < |s.nodes| :: VoteOk(s, c, a)
    ensures forall w | w in s.wins :: w.term in s.books && WinOk(s, w, a)
  {
    forall c: nat | c < |s.nodes| ensures VoteOk(s, c, a) {
      var b := Ballot(s.nodes[c].term, a.node, c);
      assert b in s.ballots ==> b.term <= s.nodes[b.voter].term;
    }
    forall w | w in s.wins ensures w.term in s.books && WinOk(s, w, a) {
      assert Backed(s, w);
      if a.node in w.backers {
        var b := Ballot(w.term, a.node, w.leader);
        assert b in s.ballots && b.term <= s.nodes[b.voter].term;
      }
    }
  }

  lemma OldWinOk(s: State, e: Event, w: Win, a: Ack)
    requires Inv(s) && LogInv(s) && VoteInv(s) && AckKept(s, a) && a in s.acks && w in s.wins && !LosesLog(s, e)
    ensures AckOk(Step(s, e).books, a) && w.term in Step(s, e).books && WinOk(Step(s, e), w, a)
  {
    var s' := Step(s, e);
    BooksGrow(s, e);
    LogInvStep(s, e);
    AckGrows(s.books, s'.books, a);
    OwnSame(s.books, s'.books, a);
    assert w.term in s.books && WinOk(s, w, a) && s.books[w.term] <= s'.books[w.term];
    if Lost(s.books, a, w.term) {
      LostStays(s.books, s'.books, a, w.term);
    }
  }

  lemma BackerHad(s: State, c: Id, a: Ack)
    requires Polling(s, c) && AckOk(s.books, a) && VoteOk(s, c, a) && a.node in Backers(s, c)
    requires a.term < s.nodes[c].term && s.nodes[c].term !in s.books && Own(s.books, a)
    ensures Prefix(s.books, a) <= s.nodes[c].log.entries || Lost(s.books, a, s.nodes[c].term)
  {
    BackersVoted(s, c);
    assert Ballot(s.nodes[c].term, a.node, c) in s.ballots;
  }

  lemma WinBooks(s: State, c: Id)
    requires Inv(s) && LogInv(s) && Polling(s, c) && s.nodes[c].poll.value.votes >= Quorum(s)
    ensures var n, books' := s.nodes[c], OnCount(s, c).books;
      && BooksOk(books') && Grown(s.books, books') && n.term !in s.books
      && n.term in books' && n.log.entries <= books'[n.term]
  {
    WinnerIsFirst(s, c);
    BooksGrow(s, Count(c));
    LogInvStep(s, Count(c));
    assert Step(s, Count(c)) == OnCount(s, c);
  }

  lemma NewWinOk(s: State, c: Id, a: Ack)
    requires Inv(s) && LogInv(s) && VoteInv(s) && AckKept(s, a) && a in s.acks
    requires Polling(s, c) && s.nodes[c].poll.value.votes >= Quorum(s)
    ensures AckOk(OnCount(s, c).books, a)
    ensures WinOk(OnCount(s, c), Win(s.nodes[c].term, c, Backers(s, c)), a)
  {
    var books', n := OnCount(s, c).books, s.nodes[c];
    WinBooks(s, c);
    AckGrows(s.books, books', a);
    OwnSame(s.books, books', a);
    if a.node in Backers(s, c) && a.term < n.term && Own(s.books, a) {
      assert VoteOk(s, c, a);
      BackerHad(s, c, a);
      HadByWinner(s.books, books', a, n.log.entries, n.term);
    }
  }

  lemma HadByWinner(books: Books, books': Books, a: Ack, log: seq<Entry>, t: nat)
    requires BooksOk(books) && BooksOk(books') && Grown(books, books') && AckOk(books, a)
    requires t in books' && log <= books'[t]
    requires Prefix(books, a) <= log || Lost(books, a, t)
    ensures AckOk(books', a) && (Prefix(books', a) <= books'[t] || Lost(books', a, t))
  {
    AckGrows(books, books', a);
    if Lost(books, a, t) {
      LostStays(books, books', a, t);
    }
  }

  lemma CallsCurrent(s: State, e: Event, call: Call)
    requires Inv(s) && LogInv(s) && VoteInv(s) && !LosesLog(s, e) && call in Step(s, e).calls
    ensures RequestCurrent(Step(s, e), call)
  {
    assert RequestCurrent(s, call) by {
      if call !in s.calls {
        MadeNow(s, e, call);
      }
    }
    if call.VoteCall? {
      var c := call.vote.candidate;
      TermGrows(s, e, c);
      if e != Timeout(c) {
        PollingStays(s, e, c);
      }
    }
  }

  lemma MadeNow(s: State, e: Event, call: Call)
    requires call in Step(s, e).calls && call !in s.calls
    ensures RequestCurrent(s, call)
  {
    if Enabled(s, e) && e.Replicate? {
      ReplicateCalls(s, e.l, e.p, e.dropped, e.reach);
    }
  }

  lemma ReplicateCalls(s: State, l: Id, p: Id, dropped: bool, reach: Reach)
    requires Enabled(s, Replicate(l, p, dropped, reach))
    ensures Step(s, Replicate(l, p, dropped, reach)).calls == s.calls + {AppendCall(p, Replication(s.nodes[l], l, p))}
  {
  }

  lemma BallotsCurrent(s: State, e: Event, b: Ballot)
    requires Inv(s) && LogInv(s) && VoteInv(s) && !LosesLog(s, e) && b in Step(s, e).ballots
    ensures b.candidate < |Step(s, e).nodes| && b.term <= Step(s, e).nodes[b.candidate].term
  {
    if b in s.ballots {
      TermGrows(s, e, b.candidate);
    } else {
      NewBallot(s, e, b);
      if Grant(s, e, b) {
        DeliveredCurrent(s, e);
        TermGrows(s, e, b.candidate);
      }
    }
  }

  /** A win that a step adds is that of a candidate with a quorum. */
  lemma WonNow(s: State, e: Event, w: Win)
    requires w in Step(s, e).wins && w !in s.wins
    ensures e.Count? && Polling(s, e.c) && s.nodes[e.c].poll.value.votes >= Quorum(s)
    ensures w == Win(s.nodes[e.c].term, e.c, Backers(s, e.c)) && Step(s, e) == OnCount(s, e.c)
  {
    if Enabled(s, e) && IsCall(e) {
      TheRest(s, e);
    }
  }

  lemma WinOkStep(s: State, e: Event, w: Win, a: Ack)
    requires Inv(s) && LogInv(s) && AckInv(s) && VoteInv(s) && !LosesLog(s, e) && a in s.acks && w in Step(s, e).wins
    ensures AckOk(Step(s, e).books, a) && (w.term in Step(s, e).books ==> WinOk(Step(s, e), w, a))
  {
    assert AckKept(s, a);
    if w in s.wins {
      OldWinOk(s, e, w, a);
    } else {
      WonNow(s, e, w);
      NewWinOk(s, e.c, a);
    }
  }

  lemma VoteInvStep(s: State, e: Event)
    requires Inv(s) && LogInv(s) && AckInv(s) && VoteInv(s) && !LosesLog(s, e) && !FalseAck(s, e)
    ensures VoteInv(Step(s, e))
  {
    var s' := Step(s, e);
    InvStep(s, e);
    LogInvStep(s, e);
    forall a | a in s'.acks && a !in s.acks ensures Fresh(s', a) {
      NewAckIsFresh(s, e, a);
    }
    NodeCount(s, e);
    forall c: nat, a | c < |s'.nodes| && a in s'.acks && AckOk(s'.books, a) ensures VoteOk(s', c, a) {
      if a in s.acks {
        assert AckKept(s, a);
        VoteOkStep(s, e, c, a);
      } else {
        FreshIsOk(s', a);
      }
    }
    forall w, a | w in s'.wins && a in s'.acks && AckOk(s'.books, a) && w.term in s'.books ensures WinOk(s', w, a) {
      if a in s.acks {
        WinOkStep(s, e, w, a);
      } else {
        FreshIsOk(s', a);
      }
    }
    forall call | call in s'.calls ensures RequestCurrent(s', call) {
      CallsCurrent(s, e, call);
    }
    forall b | b in s'.ballots ensures b.candidate < |s'.nodes| && b.term <= s'.nodes[b.candidate].term {
      BallotsCurrent(s, e, b);
    }
  }

  lemma NodeCount(s: State, e: Event)
    requires Inv(s)
    ensures |Step(s, e).nodes| == |s.nodes|
  {
    if Enabled(s, e) && IsCall(e) {
      TheRest(s, e);
    }
  }

  /** Everything above, as long as no restart loses a log and no peer acknowledges what is not the leader's. */
  ghost predicate Sound(s: State) { Inv(s) && LogInv(s) && AckInv(s) && VoteInv(s) }

  lemma {:induction false} SoundThroughout(ss: seq<State>, es: seq<Event>, k: nat)
    requires Run(Step, ss, es) && Initial(ss[0]) && k <= |es|
    requires !SomeStep(LosesLog, ss, es, k) && !SomeStep(FalseAck, ss, es, k)
    ensures Sound(ss[k])
  {
    AcksThroughout(ss, es, k);
    if k > 0 {
      SoundThroughout(ss, es, k - 1);
      var e := es[k - 1];
      assert !LosesLog(ss[k - 1], e) && !FalseAck(ss[k - 1], e);
      VoteInvStep(ss[k - 1], e);
    }
  }

  // ---------------------------------------------------------------- chosen entries

  /** The nodes that have acknowledged the entry at index i of the leader of term t. */
  function Holders(s: State, t: nat, i: nat): set<Id> {
    set a | a in s.acks && a.term == t && a.index == i :: a.node
  }

  /** A majority has acknowledged an entry of the leader's own term. */
  predicate Chosen(s: State, t: nat, i: nat) {
    t in s.books && 1 <= i <= |s.books[t]| && s.books[t][i - 1].term == t && |Holders(s, t, i)| >= Quorum(s)
  }

  lemma HolderAcked(s: State, t: nat, i: nat, v: Id)
    requires v in Holders(s, t, i)
    ensures Ack(t, v, i) in s.acks
  {
    var a :| a in s.acks && a.term == t && a.index == i && a.node == v;
    assert a == Ack(t, v, i);
  }

  lemma HoldersExist(s: State, t: nat, i: nat)
    requires AckInv(s)
    ensures forall v | v in Holders(s, t, i) :: v < |s.nodes| && AckOk(s.books, Ack(t, v, i))
  {
    forall v | v in Holders(s, t, i) ensures v < |s.nodes| && AckOk(s.books, Ack(t, v, i)) {
      HolderAcked(s, t, i, v);
      assert AckKept(s, Ack(t, v, i));
    }
  }

  lemma WonBy(s: State, u: nat) returns (w: Win)
    requires Sound(s) && u in s.books
    ensures w in s.wins && w.term == u && Backed(s, w)
  {
    assert Led(s, u);
    w :| w in s.wins && w.term == u;
  }

  lemma VoterMeets(s: State, holders: set<Id>, w: Win) returns (v: Id)
    requires Backed(s, w) && |holders| >= Quorum(s) && forall v | v in holders :: v < |s.nodes|
    ensures v in holders && v in w.backers
  {
    v := MajoritiesMeet(|s.nodes|, holders, w.backers);
  }

  /** The leader of a later term won the vote of a node that has acknowledged what is chosen. */
  lemma ChosenByVoter(s: State, t: nat, i: nat, u: nat) returns (a: Ack)
    requires Sound(s) && Chosen(s, t, i) && t < u && u in s.books
    ensures a.term == t && a.index == i && AckOk(s.books, a)
    ensures Prefix(s.books, a) <= s.books[u] || Lost(s.books, a, u)
  {
    var w, v := ChosenBacker(s, t, i, u);
    a := Ack(t, v, i);
    ChosenIsOwn(s, t, i, v);
    WinnerHas(s, w, a);
  }

  lemma ChosenIsOwn(s: State, t: nat, i: nat, v: Id)
    requires Chosen(s, t, i)
    ensures AckOk(s.books, Ack(t, v, i)) && Own(s.books, Ack(t, v, i))
  {
  }

  lemma ChosenBacker(s: State, t: nat, i: nat, u: nat) returns (w: Win, v: Id)
    requires Sound(s) && Chosen(s, t, i) && t < u && u in s.books
    ensures w in s.wins && w.term == u && v in w.backers && Ack(t, v, i) in s.acks && AckOk(s.books, Ack(t, v, i))
  {
    w := WonBy(s, u);
    HoldersExist(s, t, i);
    v := VoterMeets(s, Holders(s, t, i), w);
    HolderAcked(s, t, i, v);
  }

  lemma WinnerHas(s: State, w: Win, a: Ack)
    requires VoteInv(s) && w in s.wins && w.term in s.books && a in s.acks && AckOk(s.books, a)
    requires a.node in w.backers && a.term < w.term && Own(s.books, a)
    ensures Prefix(s.books, a) <= s.books[w.term] || Lost(s.books, a, w.term)
  {
    assert WinOk(s, w, a);
  }

  /** Leader completeness: what has been chosen, the leader of every later term has. The first leader without it would
      have won the vote of a node that had acknowledged it, and had it when it voted. */
  lemma {:induction false} LaterLeadersHave(s: State, t: nat, i: nat, u: nat)
    requires Sound(s) && Chosen(s, t, i) && t < u && u in s.books
    ensures s.books[t][..i] <= s.books[u]
    decreases u
  {
    var a := ChosenByVoter(s, t, i, u);
    if Lost(s.books, a, u) {
      var u' :| t < u' < u && u' in s.books && !(Prefix(s.books, a) <= s.books[u']);
      LaterLeadersHave(s, t, i, u');
    }
  }

  /** And so every node that acknowledged a chosen entry still has it, with all before it. */
  lemma HoldersHave(s: State, t: nat, i: nat, v: Id)
    requires Sound(s) && Chosen(s, t, i) && v in Holders(s, t, i)
    ensures v < |s.nodes| && s.books[t][..i] <= s.nodes[v].log.entries
  {
    HolderAcked(s, t, i, v);
    var a := Ack(t, v, i);
    assert AckKept(s, a);
    if Lost(s.books, a, s.nodes[v].term + 1) {
      var u :| t < u < s.nodes[v].term + 1 && u in s.books && !(Prefix(s.books, a) <= s.books[u]);
      LaterLeadersHave(s, t, i, u);
    }
  }
}
