/** Log matching: logs that share an entry share all before it, as long as no restart gives back replaced entries. */
module RaftMatching {
  import opened Options
  import opened Runs
  import opened RaftModel
  import opened RaftElections
  import opened RaftSteps
  import opened RaftLog

  type Books = map<nat, seq<Entry>>

  /** The log is, up to its entry at index i + 1, the one that the leader of that entry's term wrote. */
  predicate EntryOk(books: Books, log: seq<Entry>, i: nat)
    requires i < |log|
  {
    var t := log[i].term;
    t in books && i < |books[t]| && log[..i + 1] == books[t][..i + 1]
  }

  predicate Good(books: Books, log: seq<Entry>) {
    forall i: nat | i < |log| :: EntryOk(books, log, i)
  }

  /** The log of the leader of term t ends with entries of that term. */
  predicate BookOk(books: Books, t: nat)
    requires t in books
  {
    var b := books[t];
    && t > 0 && b != [] && b[|b| - 1].term == t && Good(books, b)
    && (forall i | 0 <= i < |b| :: b[i].term <= t)
  }

  predicate BooksOk(books: Books) {
    forall t {:trigger BookOk(books, t)} | t in books :: BookOk(books, t)
  }

  /** The request sends a piece of the book, or names a previous entry that nobody has. */
  predicate Fits(b: seq<Entry>, r: AppendRequest) {
    || (r.prevIndex > 0 && r.prevTerm == 0 && r.entries == [])
    || (&& r.prevIndex + |r.entries| <= |b| && r.entries == b[r.prevIndex..r.prevIndex + |r.entries|]
        && r.prevTerm == TermAt(b, r.prevIndex))
  }

  predicate NodeOk(books: Books, n: Node) {
    && Good(books, n.log.entries)
    && (forall i | 0 <= i < |n.log.entries| :: n.log.entries[i].term <= n.term)
    && (n.role == Leader ==> n.term in books && books[n.term] == n.log.entries)
    && (n.role == Candidate ==> n.term > 0)
  }

  predicate CallFits(books: Books, call: Call) {
    call.AppendCall? ==> call.append.term in books && Fits(books[call.append.term], call.append)
  }

  ghost predicate LogInv(s: State) {
    && BooksOk(s.books) && (forall t | t in s.books :: Led(s, t))
    && (forall w | w in s.wins :: w.term in s.books)
    && (forall i: nat | i < |s.nodes| :: NodeOk(s.books, s.nodes[i]))
    && (forall call | call in s.calls :: CallFits(s.books, call))
  }

  /** A node starts again with another log than it had. */
  predicate LosesLog(s: State, e: Event) {
    e.Restart? && Enabled(s, e) && Restarted(s.nodes[e.c], e.stopped).log.entries != s.nodes[e.c].log.entries
  }

  // ---------------------------------------------------------------- books and logs

  lemma BookIsGood(books: Books, t: nat)
    requires BooksOk(books) && t in books
    ensures Good(books, books[t]) && t > 0 && forall i | 0 <= i < |books[t]| :: books[t][i].term <= t
  {
    assert BookOk(books, t);
  }

  /** Two logs that have entries of one term at one index agree up to there. */
  lemma Matching2(books: Books, a: seq<Entry>, b: seq<Entry>, i: nat)
    requires Good(books, a) && Good(books, b) && i < |a| && i < |b| && a[i].term == b[i].term
    ensures a[..i + 1] == b[..i + 1]
  {
    assert EntryOk(books, a, i) && EntryOk(books, b, i);
  }

  lemma GoodPrefix(books: Books, a: seq<Entry>, n: nat)
    requires Good(books, a) && n <= |a|
    ensures Good(books, a[..n])
  {
    forall i: nat | i < n ensures EntryOk(books, a[..n], i) {
      assert EntryOk(books, a, i) && a[..n][..i + 1] == a[..i + 1];
    }
  }

  /** Books grow at their end. */
  predicate Grown(books: Books, books': Books) {
    forall t | t in books :: t in books' && books[t] <= books'[t]
  }

  lemma GoodGrows(books: Books, books': Books, a: seq<Entry>)
    requires Good(books, a) && Grown(books, books')
    ensures Good(books', a)
  {
    forall i: nat | i < |a| ensures EntryOk(books', a, i) {
      assert EntryOk(books, a, i);
      var t := a[i].term;
      assert books[t] <= books'[t] && books'[t][..i + 1] == books[t][..i + 1];
    }
  }

  lemma FitsGrows(b: seq<Entry>, b': seq<Entry>, r: AppendRequest)
    requires Fits(b, r) && b <= b'
    ensures Fits(b', r)
  {
    var end := r.prevIndex + |r.entries|;
    if end <= |b| {
      assert b'[r.prevIndex..end] == b[r.prevIndex..end];
    }
  }

  /** A previous entry that is there is the leader's, with all before it. */
  lemma PreviousAgrees(books: Books, log: seq<Entry>, r: AppendRequest)
    requires BooksOk(books) && Good(books, log)
    requires r.term in books && Fits(books[r.term], r) && Consistent(log, r)
    ensures r.prevIndex <= |log| && r.prevIndex + |r.entries| <= |books[r.term]|
    ensures log[..r.prevIndex] == books[r.term][..r.prevIndex]
    ensures r.entries == books[r.term][r.prevIndex..r.prevIndex + |r.entries|]
  {
    var b, at := books[r.term], r.prevIndex;
    if at > 0 {
      assert EntryOk(books, log, at - 1);
      BookIsGood(books, log[at - 1].term);
      BookIsGood(books, r.term);
      Matching2(books, log, b, at - 1);
    }
  }

  /** And so is what fits. */
  lemma FitAgrees(books: Books, log: seq<Entry>, b: seq<Entry>, at: nat, entries: seq<Entry>)
    requires Good(books, log) && Good(books, b)
    requires at <= |log| && at + |entries| <= |b| && log[..at] == b[..at] && entries == b[at..at + |entries|]
    ensures log[..at + Fit(log, at, entries)] == b[..at + Fit(log, at, entries)]
  {
    var k := Fit(log, at, entries);
    if k > 0 {
      var j := at + k - 1;
      assert log[j].term == entries[j - at].term == b[j].term;
      Matching2(books, log, b, j);
    }
  }

  lemma SplitPiece(b: seq<Entry>, at: nat, mid: nat, end: nat)
    requires at <= mid <= end <= |b|
    ensures b[..mid] + b[at..end][mid - at..] == b[..end]
  {
  }

  lemma OverlaysPiece(log: seq<Entry>, b: seq<Entry>, at: nat, entries: seq<Entry>)
    requires at <= |log| && at + |entries| <= |b| && entries == b[at..at + |entries|]
    requires log[..at + Fit(log, at, entries)] == b[..at + Fit(log, at, entries)]
    ensures Overlaid(log, at, entries) == if Fit(log, at, entries) == |entries| then log else b[..at + |entries|]
  {
    SplitPiece(b, at, at + Fit(log, at, entries), at + |entries|);
  }

  /** The request sends what the log has there already, or cuts it off: the log afterwards is the one before, or the
      book up to the last entry sent. */
  predicate Follows(log: seq<Entry>, b: seq<Entry>, at: nat, entries: seq<Entry>)
    requires at <= |log|
  {
    var k := Fit(log, at, entries);
    && at + |entries| <= |b| && entries == b[at..at + |entries|] && log[..at + k] == b[..at + k]
    && Overlaid(log, at, entries) == (if k == |entries| then log else b[..at + |entries|])
  }

  lemma FollowsPiece(books: Books, log: seq<Entry>, b: seq<Entry>, at: nat, entries: seq<Entry>)
    requires Good(books, log) && Good(books, b)
    requires at <= |log| && at + |entries| <= |b| && log[..at] == b[..at] && entries == b[at..at + |entries|]
    ensures Follows(log, b, at, entries)
  {
    FitAgrees(books, log, b, at, entries);
    OverlaysPiece(log, b, at, entries);
  }

  /** So does every request that is consistent with a good log. */
  lemma FollowsBook(books: Books, log: seq<Entry>, r: AppendRequest)
    requires BooksOk(books) && Good(books, log)
    requires r.term in books && Fits(books[r.term], r) && Consistent(log, r)
    ensures r.prevIndex <= |log| && Follows(log, books[r.term], r.prevIndex, r.entries)
  {
    PreviousAgrees(books, log, r);
    BookIsGood(books, r.term);
    FollowsPiece(books, log, books[r.term], r.prevIndex, r.entries);
  }

  /** What the log and the book both begin with, the log after the request begins with. */
  lemma PrefixStays(log: seq<Entry>, b: seq<Entry>, at: nat, entries: seq<Entry>, prefix: seq<Entry>)
    requires at <= |log| && Follows(log, b, at, entries) && prefix <= log && prefix <= b
    ensures prefix <= Overlaid(log, at, entries)
  {
    var k := Fit(log, at, entries);
    if k < |entries| {
      assert entries[k] == b[at + k];
      assert prefix == b[..|prefix|] && prefix == log[..|prefix|];
    }
  }

  // ---------------------------------------------------------------- steps

  /** A node keeps its entries, and neither becomes a leader nor enters another term as one. */
  predicate KeepsLog(n: Node, n': Node) {
    && n'.log.entries == n.log.entries && n.term <= n'.term
    && (n'.role == Leader ==> n.role == Leader && n'.term == n.term)
    && (n'.role == Candidate ==> n'.term > 0)
  }

  lemma NodesKeep(s: State, s': State)
    requires LogInv(s) && s'.books == s.books && s'.wins == s.wins && |s'.nodes| == |s.nodes|
    requires forall i: nat | i < |s.nodes| :: NodeOk(s.books, s.nodes[i]) ==> NodeOk(s.books, s'.nodes[i])
    requires forall call | call in s'.calls :: CallFits(s.books, call)
    ensures LogInv(s')
  {
    forall i: nat | i < |s'.nodes| ensures NodeOk(s'.books, s'.nodes[i]) {
      assert NodeOk(s.books, s.nodes[i]);
    }
    forall t | t in s'.books ensures Led(s', t) {
      assert Led(s, t);
    }
  }

  lemma OneKeepsLog(s: State, s': State, i: Id)
    requires LogInv(s) && i < |s.nodes| == |s'.nodes| && KeepsLog(s.nodes[i], s'.nodes[i])
    requires s'.nodes == s.nodes[i := s'.nodes[i]]
    requires s'.books == s.books && s'.wins == s.wins && s'.calls == s.calls
    ensures LogInv(s')
  {
    NodesKeep(s, s');
  }

  lemma OverlaidGood(books: Books, log: seq<Entry>, r: AppendRequest)
    requires BooksOk(books) && Good(books, log) && forall i | 0 <= i < |log| :: log[i].term <= r.term
    requires r.term in books && Fits(books[r.term], r) && Consistent(log, r)
    ensures r.prevIndex <= |log|
    ensures var log' := Overlaid(log, r.prevIndex, r.entries);
      Good(books, log') && forall i | 0 <= i < |log'| :: log'[i].term <= r.term
  {
    FollowsBook(books, log, r);
    BookIsGood(books, r.term);
    GoodPrefix(books, books[r.term], r.prevIndex + |r.entries|);
  }

  lemma HandledOk(books: Books, n: Node, r: AppendRequest)
    requires BooksOk(books) && NodeOk(books, n) && r.term in books && Fits(books[r.term], r)
    requires !(n.role == Leader && n.term == r.term)
    ensures NodeOk(books, HandleAppend(n, r).0)
  {
    AnswerIs(n, r);
    RolesAfter(n, r);
    if n.term <= r.term && Consistent(n.log.entries, r) {
      OverlaidGood(books, n.log.entries, r);
    }
  }

  lemma RolesAfter(n: Node, r: AppendRequest)
    ensures var n' := HandleAppend(n, r).0;
      && n'.term == (if r.term > n.term then r.term else n.term)
      && (n'.role == Leader ==> n.role == Leader && r.term <= n.term)
      && (n'.role == Candidate ==> n.role == Candidate && r.term < n.term)
  {
  }

  /** A leader is sent nothing of its own term. */
  lemma NotToLeader(s: State, p: Id, r: AppendRequest)
    requires Inv(s) && p < |s.nodes| && CallOk(s, AppendCall(p, r))
    ensures !(s.nodes[p].role == Leader && s.nodes[p].term == r.term)
  {
    assert RoleOk(s, p);
    if s.nodes[p].role == Leader && s.nodes[p].term == r.term {
      SameWinner(s, r.term, p, r.leader);
    }
  }

  lemma ReplicationFits(n: Node, l: Id, p: Id)
    requires p < |n.peers|
    ensures Fits(n.log.entries, Replication(n, l, p))
  {
  }

  /** The call of a step is a piece of a book, whether its entries are dropped or not. */
  lemma DroppedFits(books: Books, call: Call, dropped: bool)
    requires CallFits(books, call)
    ensures CallFits(books, AsHandled(call, dropped))
  {
  }

  lemma DeliveredFits(s: State, e: Event)
    requires LogInv(s) && Enabled(s, e) && Delivered(s, e).Some?
    ensures CallFits(s.books, Delivered(s, e).value)
  {
    match e
    case Ask(_, _, _) =>
    case Replicate(l, p, dropped, _) =>
      assert NodeOk(s.books, s.nodes[l]);
      ReplicationFits(s.nodes[l], l, p);
      DroppedFits(s.books, AppendCall(p, Replication(s.nodes[l], l, p)), dropped);
    case Late(call, dropped) => DroppedFits(s.books, call, dropped);
  }

  lemma CallsFit(s: State, e: Event)
    requires LogInv(s) && Enabled(s, e) && IsCall(e)
    ensures forall call | call in Step(s, e).calls :: CallFits(s.books, call)
  {
    if e.Replicate? {
      assert NodeOk(s.books, s.nodes[e.l]);
      ReplicationFits(s.nodes[e.l], e.l, e.p);
    }
  }

  lemma PeerOk(s: State, call: Call)
    requires Inv(s) && LogInv(s) && Idle(s, call.to) && CallOk(s, call) && CallFits(s.books, call)
    ensures NodeOk(s.books, Handled(s, call).nodes[call.to])
  {
    assert NodeOk(s.books, s.nodes[call.to]);
    match call
    case VoteCall(p, r) => VoterOk(s.books, s.nodes[p], r);
    case AppendCall(p, r) =>
      NotToLeader(s, p, r);
      HandledOk(s.books, s.nodes[p], r);
  }

  lemma VoterOk(books: Books, n: Node, r: VoteRequest)
    requires NodeOk(books, n)
    ensures NodeOk(books, HandleVote(n, r).0)
  {
  }

  lemma AllButOne(books: Books, ns: seq<Node>, p: Id, n: Node, ns': seq<Node>)
    requires p < |ns| && ns' == ns[p := n] && NodeOk(books, n) && forall i: nat | i < |ns| :: NodeOk(books, ns[i])
    ensures forall i: nat | i < |ns'| :: NodeOk(books, ns'[i])
  {
  }

  /** The peer's side leaves the other nodes alone. */
  lemma PeerSideOk(s: State, e: Event)
    requires Inv(s) && LogInv(s) && Enabled(s, e) && IsCall(e)
    ensures Delivered(s, e).Some? ==> Delivered(s, e).value.to < |s.nodes|
    ensures var ns := PeerSide(s, e).nodes;
      |ns| == |s.nodes| && forall i: nat | i < |s.nodes| :: NodeOk(s.books, ns[i])
  {
    if Delivered(s, e).Some? {
      DeliveredOk(s, e);
      DeliveredFits(s, e);
      var call := Delivered(s, e).value;
      PeerOk(s, call);
      HandledNodes(s, call);
      AllButOne(s.books, s.nodes, call.to, Handled(s, call).nodes[call.to], Handled(s, call).nodes);
    }
  }

  lemma HandledNodes(s: State, call: Call)
    requires call.to < |s.nodes|
    ensures Handled(s, call).nodes == s.nodes[call.to := Handled(s, call).nodes[call.to]]
  {
  }

  lemma CallKeepsNodes(s: State, e: Event)
    requires Inv(s) && LogInv(s) && Enabled(s, e) && IsCall(e)
    ensures |Step(s, e).nodes| == |s.nodes| && forall i: nat | i < |s.nodes| :: NodeOk(s.books, Step(s, e).nodes[i])
  {
    TheRest(s, e);
    PeerSideOk(s, e);
    RestKeepsNodes(s, PeerSide(s, e), Step(s, e), e);
  }

  lemma RestKeepsNodes(s: State, s1: State, s': State, e: Event)
    requires RestOk(s, s1, s', e) && IsCall(e)
    requires forall i: nat | i < |s1.nodes| :: NodeOk(s.books, s1.nodes[i])
    ensures forall i: nat | i < |s'.nodes| :: NodeOk(s.books, s'.nodes[i])
  {
    forall i: nat | i < |s'.nodes| ensures NodeOk(s.books, s'.nodes[i]) {
      assert NodeOk(s.books, s1.nodes[i]);
      if Actor(e) == Some(i) {
        QuietOk(s.books, s1.nodes[i], s'.nodes[i]);
      }
    }
  }

  lemma CallKeepsLogs(s: State, e: Event)
    requires Inv(s) && LogInv(s) && Enabled(s, e) && IsCall(e)
    ensures LogInv(Step(s, e))
  {
    TheRest(s, e);
    CallsFit(s, e);
    CallKeepsNodes(s, e);
    NodesKeep(s, Step(s, e));
  }

  lemma QuietOk(books: Books, n: Node, n': Node)
    requires NodeOk(books, n) && Quiet(n, n')
    ensures NodeOk(books, n')
  {
  }

  /** The leader's log grows at its end, in a term that has no other book. */
  lemma WrittenKeepsLogs(s: State, s': State, l: Id, e: Entry)
    requires LogInv(s) && l < |s.nodes| == |s'.nodes| && 0 < e.term == s.nodes[l].term == s'.nodes[l].term
    requires s'.nodes == s.nodes[l := s'.nodes[l]] && s'.nodes[l].log.entries == s.nodes[l].log.entries + [e]
    requires e.term in s.books ==> s.books[e.term] == s.nodes[l].log.entries
    requires s'.books == s.books[e.term := s'.nodes[l].log.entries] && s'.calls == s.calls
    requires s.wins <= s'.wins && Led(s', e.term) && forall w | w in s'.wins :: w in s.wins || w.term == e.term
    requires forall j: nat | j < |s.nodes| && j != l && s.nodes[j].role == Leader :: s.nodes[j].term != e.term
    ensures LogInv(s')
  {
    var log, log' := s.nodes[l].log.entries, s'.nodes[l].log.entries;
    assert NodeOk(s.books, s.nodes[l]);
    GoodGrows(s.books, s'.books, log);
    EntryAdded(s'.books, log, e);
    forall t | t in s'.books ensures BookOk(s'.books, t) && Led(s', t) {
      if t != e.term {
        assert BookOk(s.books, t) && Led(s, t);
        GoodGrows(s.books, s'.books, s.books[t]);
      }
    }
    forall i: nat | i < |s'.nodes| ensures NodeOk(s'.books, s'.nodes[i]) {
      assert NodeOk(s.books, s.nodes[i]);
      GoodGrows(s.books, s'.books, s.nodes[i].log.entries);
    }
    forall call | call in s'.calls ensures CallFits(s'.books, call) {
      assert CallFits(s.books, call);
      if call.AppendCall? {
        FitsGrows(s.books[call.append.term], s'.books[call.append.term], call.append);
      }
    }
  }

  lemma EntryAdded(books: Books, log: seq<Entry>, e: Entry)
    requires Good(books, log) && e.term in books && books[e.term] == log + [e]
    ensures Good(books, log + [e])
  {
    forall i: nat | i < |log| + 1 ensures EntryOk(books, log + [e], i) {
      if i < |log| {
        assert EntryOk(books, log, i) && (log + [e])[..i + 1] == log[..i + 1];
      }
    }
  }

  lemma WinKeepsLogs(s: State, c: Id)
    requires Inv(s) && LogInv(s) && Polling(s, c) && s.nodes[c].poll.value.votes >= Quorum(s)
    ensures LogInv(OnCount(s, c))
  {
    var s', n := OnCount(s, c), s.nodes[c];
    WinnerIsFirst(s, c);
    assert RoleOk(s, c) && NodeOk(s.books, n);
    assert Win(n.term, c, Backers(s, c)) in s'.wins;
    assert n.term in s.books ==> Led(s, n.term);
    forall j: nat | j < |s.nodes| && j != c && s.nodes[j].role == Leader ensures s.nodes[j].term != n.term {
      assert RoleOk(s, j);
    }
    WrittenKeepsLogs(s, s', c, Noop(n.term));
  }

  lemma SubmitKeepsLogs(s: State, l: Id, command: string)
    requires Inv(s) && LogInv(s) && Leading(s, l)
    ensures LogInv(Written(s, l, Submitted(s.nodes[l], command)))
  {
    var n := s.nodes[l];
    assert RoleOk(s, l) && NodeOk(s.books, n);
    BookIsGood(s.books, n.term);
    forall j: nat | j < |s.nodes| && j != l && s.nodes[j].role == Leader ensures s.nodes[j].term != n.term {
      assert RoleOk(s, j);
      if s.nodes[j].term == n.term {
        SameWinner(s, n.term, l, j);
      }
    }
    WrittenKeepsLogs(s, Written(s, l, Submitted(n, command)), l, Command(n.term, command));
  }

  lemma LogInvStep(s: State, e: Event)
    requires Inv(s) && LogInv(s) && !LosesLog(s, e)
    ensures LogInv(Step(s, e))
  {
    if Enabled(s, e) {
      match e
      case Timeout(c) => OneKeepsLog(s, Step(s, e), c);
      case Count(c) =>
        if s.nodes[c].poll.value.votes >= Quorum(s) {
          WinKeepsLogs(s, c);
        } else {
          assert RoleOk(s, c) && NodeOk(s.books, s.nodes[c]);
          OneKeepsLog(s, Step(s, e), c);
        }
      case Submit(l, command) => SubmitKeepsLogs(s, l, command);
      case Commit(l) => OneKeepsLog(s, Step(s, e), l);
      case Restart(c, stopped) => OneKeepsLog(s, Step(s, e), c);
      case _ => CallKeepsLogs(s, e);
    }
  }

  lemma {:induction false} LogsThroughout(ss: seq<State>, es: seq<Event>, k: nat)
    requires Run(Step, ss, es) && Initial(ss[0]) && k <= |es| && !SomeStep(LosesLog, ss, es, k)
    ensures Inv(ss[k]) && LogInv(ss[k])
  {
    InvThroughout(ss, es, k);
    if k > 0 {
      LogsThroughout(ss, es, k - 1);
      var e := es[k - 1];
      assert !LosesLog(ss[k - 1], e);
      LogInvStep(ss[k - 1], e);
    }
  }

  /** Log matching: as long as no node starts again with another log than it had, an entry that two nodes have with
      one index and term is the same for both, and so is every entry before it. */
  lemma LogMatching(ss: seq<State>, es: seq<Event>, k: nat, i: Id, j: Id, x: nat)
    requires Run(Step, ss, es) && Initial(ss[0]) && k <= |es| && !SomeStep(LosesLog, ss, es, k)
    requires i < |ss[k].nodes| && j < |ss[k].nodes|
    requires var a, b := ss[k].nodes[i].log.entries, ss[k].nodes[j].log.entries;
      x < |a| && x < |b| && a[x].term == b[x].term
    ensures ss[k].nodes[i].log.entries[..x + 1] == ss[k].nodes[j].log.entries[..x + 1]
  {
    LogsThroughout(ss, es, k);
    assert NodeOk(ss[k].books, ss[k].nodes[i]) && NodeOk(ss[k].books, ss[k].nodes[j]);
    Matching2(ss[k].books, ss[k].nodes[i].log.entries, ss[k].nodes[j].log.entries, x);
  }
}
