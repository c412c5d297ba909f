/**
 The Raft implementation of `consensus/raft.c` and `raft_log.c`, as a step system over a cluster.

 A node is one process and its calls to peers are synchronous: while it polls its peers in an election it
 handles nothing else. A call may not reach the peer, may be answered, or may be handled with the answer lost;
 and a call once made may be handled again at any later time, by then unanswered.
 */
module RaftModel {
  import opened Options

  type Id = nat
  type Index = i: nat | 1 <= i witness 1

  const MAX_ENTRIES_PER_APPEND := 100

  datatype Role = Follower | Candidate | Leader

  datatype Entry = Noop(term: nat) | Command(term: nat, command: string)

  /** What recovery reads back from the write-ahead log. */
  datatype Disk = Disk(entries: seq<Entry>, commit: nat)

  /** `entries[i - 1]` is the entry at index i. */
  datatype Log = Log(entries: seq<Entry>, commit: nat, disk: Disk)

  /** What a leader keeps of a peer: `next_index` and `match_index`. */
  datatype Progress = Progress(next: Index, matched: nat)

  /** An election in progress: the peers asked so far, and `votes_received`. */
  datatype Poll = Poll(asked: set<Id>, votes: nat)

  /** Term and vote are on disk whenever a node answers. */
  datatype Node = Node(term: nat, votedFor: Option<Id>, role: Role, log: Log, peers: seq<Progress>, poll: Option<Poll>)

  datatype VoteRequest = VoteRequest(term: nat, candidate: Id, lastIndex: nat, lastTerm: nat)
  datatype VoteResponse = VoteResponse(term: nat, granted: bool)
  datatype AppendRequest =
    AppendRequest(term: nat, leader: Id, prevIndex: nat, prevTerm: nat, entries: seq<Entry>, leaderCommit: nat)
  datatype AppendResponse = AppendResponse(term: nat, success: bool, matchIndex: nat)

  // ---------------------------------------------------------------- the log

  function Min(a: nat, b: nat): nat { if a <= b then a else b }

  function TermAt(entries: seq<Entry>, index: nat): nat {
    if 1 <= index <= |entries| then entries[index - 1].term else 0
  }

  function LastTerm(entries: seq<Entry>): nat { TermAt(entries, |entries|) }

  /** A list with the first n entries of another one beyond its own last. */
  function Extended(a: seq<Entry>, b: seq<Entry>, n: nat): (c: seq<Entry>)
    requires n <= |b|
    ensures |c| == if n <= |a| then |a| else n
  {
    if n <= |a| then a else Extended(a, b, n - 1) + [b[n - 1]]
  }

  /** raft_log_persist adds a record of every entry and of the commit index to the file. Recovery takes the first
      record of each index, so that the file gives back a new entry only beyond its last index. */
  function Persisted(disk: Disk, entries: seq<Entry>, commit: nat): Disk {
    var all := Extended(disk.entries, entries, |entries|);
    Disk(all, if disk.commit < commit <= |all| then commit else disk.commit)
  }

  function Persist(log: Log): Log { log.(disk := Persisted(log.disk, log.entries, log.commit)) }

  function Append(log: Log, entry: Entry): Log { Persist(log.(entries := log.entries + [entry])) }

  /** raft_log_truncate: an index that is no longer there is no longer committed. */
  function Truncate(log: Log, after: nat): Log {
    if after >= |log.entries| then log
    else Persist(log.(entries := log.entries[..after], commit := Min(log.commit, after)))
  }

  /** The entries from index i to index j of a list, appended one by one. */
  function AppendAll(log: Log, entries: seq<Entry>, i: nat, j: nat): (log': Log)
    requires i <= j <= |entries|
    ensures log'.entries == log.entries + entries[i..j] && log'.commit == log.commit
    decreases j
  {
    assert i < j ==> entries[i..j] == entries[i..j - 1] + [entries[j - 1]];
    if i == j then log else Append(AppendAll(log, entries, i, j - 1), entries[j - 1])
  }

  /** How many of the entries, from the first on, the log has at the indices after `at` with the same term. */
  function Fit(log: seq<Entry>, at: nat, entries: seq<Entry>): (k: nat)
    requires at <= |log|
    ensures k <= |entries| && at + k <= |log|
    ensures forall j | at <= j < at + k :: log[j].term == entries[j - at].term
    ensures k < |entries| && at + k < |log| ==> log[at + k].term != entries[k].term
    decreases |entries|
  {
    if entries == [] || at == |log| || log[at].term != entries[0].term then 0 else Fit(log, at + 1, entries[1..]) + 1
  }

  /** The entries of a request written into a log after index `at`: what fits is skipped, and the first entry that
      does not cuts the log off. What the log has after entries that all fit stays. */
  function Merged(log: Log, at: nat, entries: seq<Entry>): Log
    requires at <= |log.entries|
  {
    var k := Fit(log.entries, at, entries);
    if k == |entries| then log else AppendAll(Truncate(log, at + k), entries, k, |entries|)
  }

  // ---------------------------------------------------------------- one node

  function BecomeFollower(n: Node, term: nat): Node {
    n.(term := term, votedFor := None, role := Follower, poll := None)
  }

  function BecomeCandidate(n: Node, id: Id): Node {
    n.(term := n.term + 1, votedFor := Some(id), role := Candidate, poll := Some(Poll({}, 1)))
  }

  /** Of every peer all entries are assumed held, and none is known to be. */
  function NoProgress(peers: nat, lastIndex: nat): seq<Progress> {
    seq(peers, i => Progress(lastIndex + 1, 0))
  }

  /** The no-op entry establishes leadership. */
  function BecomeLeader(n: Node): Node {
    n.(role := Leader, peers := NoProgress(|n.peers|, |n.log.entries|), log := Append(n.log, Noop(n.term)), poll := None)
  }

  predicate UpToDate(entries: seq<Entry>, lastIndex: nat, lastTerm: nat) {
    if lastTerm != LastTerm(entries) then lastTerm > LastTerm(entries) else lastIndex >= |entries|
  }

  /** raft_request_vote: the voter afterwards, and its answer. */
  function HandleVote(n: Node, r: VoteRequest): (Node, VoteResponse) {
    if r.term < n.term then (n, VoteResponse(n.term, false))
    else
      var n1 := if r.term > n.term then BecomeFollower(n, r.term) else n;
      if (n1.votedFor == None || n1.votedFor == Some(r.candidate)) && UpToDate(n1.log.entries, r.lastIndex, r.lastTerm)
      then (n1.(votedFor := Some(r.candidate)), VoteResponse(n1.term, true))
      else (n1, VoteResponse(n1.term, false))
  }

  predicate Consistent(entries: seq<Entry>, r: AppendRequest) {
    r.prevIndex == 0 || (r.prevIndex <= |entries| && TermAt(entries, r.prevIndex) == r.prevTerm)
  }

  /** The log after a request that is consistent with it. */
  function Followed(log: Log, r: AppendRequest): Log
    requires r.prevIndex <= |log.entries|
  {
    var log1 := Merged(log, r.prevIndex, r.entries);
    if r.leaderCommit > log1.commit then log1.(commit := Min(r.leaderCommit, |log1.entries|)) else log1
  }

  /** raft_append_entries: a candidate falls in line with a leader of its own term, too. */
  function HandleAppend(n: Node, r: AppendRequest): (Node, AppendResponse) {
    if r.term < n.term then (n, AppendResponse(n.term, false, 0))
    else
      var n1 := if r.term > n.term || n.role == Candidate then BecomeFollower(n, r.term) else n;
      if !Consistent(n1.log.entries, r)
      then (n1, AppendResponse(n1.term, false, Min(|n1.log.entries|, r.prevIndex - 1)))
      else
        var n2 := n1.(log := Followed(n1.log, r));
        (n2, AppendResponse(n2.term, true, |n2.log.entries|))
  }

  /** The candidate's side of a vote request, on the answer it gets or, without one, on a refusal with term 0. */
  function Polled(n: Node, p: Id, answer: VoteResponse): Node
    requires n.poll.Some?
  {
    if answer.term > n.term then BecomeFollower(n, answer.term)
    else n.(poll := Some(Poll(n.poll.value.asked + {p}, n.poll.value.votes + (if answer.granted then 1 else 0))))
  }

  /** What the leader l sends to its peer p. */
  function Replication(n: Node, l: Id, p: Id): AppendRequest
    requires p < |n.peers|
  {
    var next, last := n.peers[p].next, |n.log.entries|;
    AppendRequest(n.term, l, next - 1, TermAt(n.log.entries, next - 1),
                  if next <= last then n.log.entries[next - 1..Min(next + MAX_ENTRIES_PER_APPEND - 1, last)] else [],
                  n.log.commit)
  }

  /** The leader's side of AppendEntries, on the answer it gets or, without one, on a failure with term 0. */
  function Replicated(n: Node, p: Id, sent: AppendRequest, answer: AppendResponse): Node
    requires p < |n.peers|
  {
    if answer.term > n.term then BecomeFollower(n, answer.term)
    else if answer.success then
      if sent.entries != [] then n.(peers := n.peers[p := Progress(answer.matchIndex + 1, answer.matchIndex)]) else n
    else if n.peers[p].next > 1 then n.(peers := n.peers[p := n.peers[p].(next := n.peers[p].next - 1)])
    else n
  }

  /** The peers with a match index of at least i. */
  function Matching(n: Node, id: Id, i: nat): set<Id> {
    set p | 0 <= p < |n.peers| && p != id && n.peers[p].matched >= i
  }

  /** raft_update_commit_index, from index i down: the last entry of the leader's own term that a quorum matches. */
  function NewCommit(n: Node, id: Id, quorum: nat, i: nat): nat
    requires i <= |n.log.entries|
  {
    if i <= n.log.commit then n.log.commit
    else if n.log.entries[i - 1].term == n.term && 1 + |Matching(n, id, i)| >= quorum then i
    else NewCommit(n, id, quorum, i - 1)
  }

  function Submitted(n: Node, command: string): Node {
    n.(log := Append(n.log, Command(n.term, command)))
  }

  /** A node that starts again, after it was stopped or, if not `stopped`, after a crash: raft_stop writes
      the log once more. */
  function Restarted(n: Node, stopped: bool): Node {
    var disk := if stopped then Persist(n.log).disk else n.log.disk;
    n.(role := Follower, poll := None, log := Log(disk.entries, disk.commit, disk),
       peers := NoProgress(|n.peers|, |disk.entries|))
  }

  function NewNode(size: nat): Node { Node(0, None, Follower, Log([], 0, Disk([], 0)), NoProgress(size, 0), None) }

  // ---------------------------------------------------------------- the cluster

  /** What happened, which no node keeps: the votes granted, the elections won with the backers counted, the
      calls made, and the first entries of its leader's log that each node has acknowledged in a term. */
  datatype Ballot = Ballot(term: nat, voter: Id, candidate: Id)
  datatype Win = Win(term: nat, leader: Id, backers: set<Id>)
  datatype Call = VoteCall(to: Id, vote: VoteRequest) | AppendCall(to: Id, append: AppendRequest)
  datatype Ack = Ack(term: nat, node: Id, index: nat)

  /** `books[t]` is the log that the leader of term t had last. */
  datatype State = State(nodes: seq<Node>, ballots: set<Ballot>, wins: set<Win>, calls: set<Call>,
                         books: map<nat, seq<Entry>>, acks: set<Ack>)

  datatype Reach = Missed | Answered | AnswerLost

  /** `dropped`: the SQL wrapper passes AppendEntries on without the entries. */
  datatype Event =
    | Timeout(c: Id)
    | Ask(c: Id, p: Id, reach: Reach)
    | Count(c: Id)
    | Submit(l: Id, command: string)
    | Replicate(l: Id, p: Id, dropped: bool, reach: Reach)
    | Commit(l: Id)
    | Late(call: Call, dropped: bool)
    | Restart(c: Id, stopped: bool)

  /** A majority: half of the nodes, rounded down, plus one. */
  function Quorum(s: State): nat { |s.nodes| / 2 + 1 }

  predicate Idle(s: State, i: Id) { i < |s.nodes| && s.nodes[i].poll.None? }
  predicate Polling(s: State, i: Id) { i < |s.nodes| && s.nodes[i].poll.Some? }
  predicate Leading(s: State, i: Id) { Idle(s, i) && s.nodes[i].role == Leader }

  /** A count may come before all peers are asked, and a commit at any time, for inactive peers are skipped. */
  predicate Enabled(s: State, e: Event) {
    match e
    case Timeout(c) => Idle(s, c) && s.nodes[c].role != Leader
    case Ask(c, p, reach) =>
      && Polling(s, c) && p < |s.nodes| && p != c && p !in s.nodes[c].poll.value.asked
      && (reach.Missed? || Idle(s, p))
    case Count(c) => Polling(s, c)
    case Submit(l, _) => Leading(s, l)
    case Replicate(l, p, _, reach) =>
      && Leading(s, l) && p < |s.nodes| && p < |s.nodes[l].peers| && p != l
      && (reach.Missed? || Idle(s, p))
    case Commit(l) => Leading(s, l)
    case Late(call, _) => call in s.calls && Idle(s, call.to)
    case Restart(c, _) => c < |s.nodes|
  }

  function SetNode(s: State, i: Id, n: Node): State
    requires i < |s.nodes|
  {
    s.(nodes := s.nodes[i := n])
  }

  function Called(s: State, call: Call): State { s.(calls := s.calls + {call}) }

  function AsHandled(call: Call, dropped: bool): Call {
    if dropped && call.AppendCall? then call.(append := call.append.(entries := [])) else call
  }

  /** The peer's side of a call. */
  function Handled(s: State, call: Call): State
    requires call.to < |s.nodes|
  {
    match call
    case VoteCall(p, r) =>
      var (n, answer) := HandleVote(s.nodes[p], r);
      var s1 := SetNode(s, p, n);
      if answer.granted then s1.(ballots := s1.ballots + {Ballot(r.term, p, r.candidate)}) else s1
    case AppendCall(p, r) => SetNode(s, p, HandleAppend(s.nodes[p], r).0)
  }

  function RequestOf(s: State, c: Id): VoteRequest
    requires c < |s.nodes|
  {
    var n := s.nodes[c];
    VoteRequest(n.term, c, |n.log.entries|, LastTerm(n.log.entries))
  }

  function OnAsk(s: State, c: Id, p: Id, reach: Reach): State
    requires Enabled(s, Ask(c, p, reach))
  {
    var call := VoteCall(p, RequestOf(s, c));
    var s1 := Called(s, call);
    var s2 := if reach.Missed? then s1 else Handled(s1, call);
    var answer := if reach.Answered? then HandleVote(s.nodes[p], call.vote).1 else VoteResponse(0, false);
    SetNode(s2, c, Polled(s.nodes[c], p, answer))
  }

  /** The nodes that have voted for c in its term. */
  function Backers(s: State, c: Id): set<Id>
    requires c < |s.nodes|
  {
    set b | b in s.ballots && b.term == s.nodes[c].term && b.candidate == c :: b.voter
  }

  /** The node has the first `index` entries of the log of the term's leader. */
  function Acks(term: nat, node: Id, index: nat): set<Ack> {
    set i | 1 <= i <= index :: Ack(term, node, i)
  }

  /** A leader writes its log. */
  function Written(s: State, l: Id, n: Node): State
    requires l < |s.nodes|
  {
    SetNode(s, l, n).(books := s.books[n.term := n.log.entries], acks := s.acks + Acks(n.term, l, |n.log.entries|))
  }

  function OnCount(s: State, c: Id): State
    requires Polling(s, c)
  {
    var n := s.nodes[c];
    if n.poll.value.votes >= Quorum(s)
    then Written(s, c, BecomeLeader(n)).(wins := s.wins + {Win(n.term, c, Backers(s, c))})
    else SetNode(s, c, n.(poll := None))
  }

  /** The leader's side of AppendEntries. An answer to entries sent is an acknowledgement. */
  function Answer(s: State, l: Id, p: Id, sent: AppendRequest, answer: AppendResponse): State
    requires l < |s.nodes| && p < |s.nodes[l].peers|
  {
    var n := s.nodes[l];
    var s1 := SetNode(s, l, Replicated(n, p, sent, answer));
    if answer.term <= n.term && answer.success && sent.entries != []
    then s1.(acks := s1.acks + Acks(n.term, p, answer.matchIndex)) else s1
  }

  function OnReplicate(s: State, l: Id, p: Id, dropped: bool, reach: Reach): State
    requires Enabled(s, Replicate(l, p, dropped, reach))
  {
    var call := AppendCall(p, Replication(s.nodes[l], l, p));
    var handled := AsHandled(call, dropped);
    var s1 := Called(s, call);
    var s2 := if reach.Missed? then s1 else Handled(s1, handled);
    var answer := if reach.Answered? then HandleAppend(s.nodes[p], handled.append).1 else AppendResponse(0, false, 0);
    Answer(s2, l, p, call.append, answer)
  }

  function OnCommit(s: State, l: Id): State
    requires Leading(s, l)
  {
    var n := s.nodes[l];
    SetNode(s, l, n.(log := n.log.(commit := NewCommit(n, l, Quorum(s), |n.log.entries|))))
  }

  function Step(s: State, e: Event): State {
    if !Enabled(s, e) then s
    else match e
      case Timeout(c) =>
        var n := BecomeCandidate(s.nodes[c], c);
        SetNode(s, c, n).(ballots := s.ballots + {Ballot(n.term, c, c)})
      case Ask(c, p, reach) => OnAsk(s, c, p, reach)
      case Count(c) => OnCount(s, c)
      case Submit(l, command) => Written(s, l, Submitted(s.nodes[l], command))
      case Replicate(l, p, dropped, reach) => OnReplicate(s, l, p, dropped, reach)
      case Commit(l) => OnCommit(s, l)
      case Late(call, dropped) => Handled(s, AsHandled(call, dropped))
      case Restart(c, stopped) => SetNode(s, c, Restarted(s.nodes[c], stopped))
  }

  /** The call that an event has a peer handle, if any. */
  function Delivered(s: State, e: Event): Option<Call>
    requires Enabled(s, e)
  {
    match e
    case Ask(c, p, reach) => if reach.Missed? then None else Some(VoteCall(p, RequestOf(s, c)))
    case Replicate(l, p, dropped, reach) =>
      if reach.Missed? then None else Some(AsHandled(AppendCall(p, Replication(s.nodes[l], l, p)), dropped))
    case Late(call, dropped) => Some(AsHandled(call, dropped))
    case _ => None
  }

  /** A new cluster, as raft_init and raft_add_peer leave each node. */
  predicate Initial(s: State) {
    && s.ballots == {} && s.wins == {} && s.calls == {} && s.books == map[] && s.acks == {}
    && forall i | 0 <= i < |s.nodes| :: s.nodes[i] == NewNode(|s.nodes|)
  }

  function NewCluster(size: nat): (s: State)
    ensures Initial(s)
  {
    State(seq(size, i => NewNode(size)), {}, {}, {}, map[], {})
  }
}
