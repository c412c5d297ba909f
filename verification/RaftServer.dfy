/** The code of `consensus/raft.c` and `raft_log.c` that changes a node. */
module RaftServer {
  import opened Options
  import opened RaftModel
  import opened RaftWal

  /** What the code does in one turn of the loop over the entries, and in the first i turns. */
  function Turn(log: Log, at: nat, entry: Entry): Log {
    if at < |log.entries| && log.entries[at].term == entry.term then log else Append(Truncate(log, at), entry)
  }

  function Turns(log: Log, at: nat, sent: seq<Entry>, i: nat): Log
    requires i <= |sent|
  {
    if i == 0 then log else Turn(Turns(log, at, sent, i - 1), at + i - 1, sent[i - 1])
  }

  lemma NextTurn(log: Log, at: nat, sent: seq<Entry>, i: nat)
    requires i < |sent|
    ensures Turns(log, at, sent, i + 1) == Turn(Turns(log, at, sent, i), at + i, sent[i])
  {
  }

  /** While the entries fit the log stays as it is. */
  lemma {:induction false} TurnsThatFit(log: Log, at: nat, sent: seq<Entry>, i: nat)
    requires at <= |log.entries| && i <= Fit(log.entries, at, sent)
    ensures Turns(log, at, sent, i) == log
  {
    if i > 0 {
      TurnsThatFit(log, at, sent, i - 1);
      assert log.entries[at + i - 1].term == sent[at + i - 1 - at].term;
    }
  }

  lemma TurnCuts(log: Log, at: nat, entry: Entry)
    requires at <= |log.entries| && (at < |log.entries| ==> log.entries[at].term != entry.term)
    ensures Turn(log, at, entry) == Append(Truncate(log, at), entry) && |Truncate(log, at).entries| == at
  {
  }

  lemma TurnAtEnd(log: Log, entry: Entry, at: nat)
    requires at == |log.entries|
    ensures Turn(log, at, entry) == Append(log, entry)
  {
  }

  /** The first one that does not fit cuts it off, and the others follow. */
  lemma {:induction false} TurnsPastFit(log: Log, cut: Log, at: nat, sent: seq<Entry>, k: nat, i: nat)
    requires k < i <= |sent| && |cut.entries| == at + k
    requires Turns(log, at, sent, k + 1) == Append(cut, sent[k])
    ensures Turns(log, at, sent, i) == AppendAll(cut, sent, k, i)
  {
    if i == k + 1 {
      assert AppendAll(cut, sent, k, k) == cut;
    } else {
      TurnsPastFit(log, cut, at, sent, k, i - 1);
      TurnAtEnd(AppendAll(cut, sent, k, i - 1), sent[i - 1], at + i - 1);
    }
  }

  lemma FirstTurnPastFit(log: Log, at: nat, sent: seq<Entry>, k: nat)
    requires at <= |log.entries| && k == Fit(log.entries, at, sent) < |sent| && Turns(log, at, sent, k) == log
    ensures Turns(log, at, sent, k + 1) == Append(Truncate(log, at + k), sent[k]) && |Truncate(log, at + k).entries| == at + k
  {
    TurnCuts(log, at + k, sent[k]);
  }

  /** After all turns the log is the merged one. */
  lemma TurnsMerge(log: Log, at: nat, sent: seq<Entry>)
    requires at <= |log.entries|
    ensures Turns(log, at, sent, |sent|) == Merged(log, at, sent)
  {
    var k := Fit(log.entries, at, sent);
    TurnsThatFit(log, at, sent, k);
    if k < |sent| {
      FirstTurnPastFit(log, at, sent, k);
      TurnsPastFit(log, Truncate(log, at + k), at, sent, k, |sent|);
    }
  }

  /** An entry beyond the commit index, of the node's own term, that it counts on a quorum. */
  predicate Counts(n: Node, id: Id, quorum: nat, i: nat) {
    n.log.commit < i <= |n.log.entries| && n.log.entries[i - 1].term == n.term && 1 + |Matching(n, id, i)| >= quorum
  }

  class RaftNode {
    const id: Id
    var currentTerm: nat
    var votedFor: Option<Id>
    var state: Role
    var entries: seq<Entry>
    var commitIndex: nat
    /** The file that the log is written to. */
    var wal: seq<Record>
    var peers: seq<Progress>
    var poll: Option<Poll>

    function Contents(): Log
      reads this
    {
      Log(entries, commitIndex, Recovered(wal))
    }

    function View(): Node
      reads this
    {
      Node(currentTerm, votedFor, state, Contents(), peers, poll)
    }

    constructor (id: Id, size: nat)
      ensures this.id == id && View() == NewNode(size)
    {
      this.id, currentTerm, votedFor, state, poll := id, 0, None, Follower, None;
      entries, commitIndex, wal, peers := [], 0, [], NoProgress(size, 0);
    }

    // -------------------------------------------------------------- the log

    method PersistLog()
      modifies this`wal
      ensures Contents() == Persist(old(Contents()))
    {
      ghost var before := wal;
      for i := 0 to |entries|
        invariant entries == old(entries) && wal == before + EntryRecords(entries)[..i]
      {
        wal := wal + [EntryRecord(i + 1, entries[i])];
      }
      wal := wal + [CommitRecord(commitIndex)];
      assert EntryRecords(entries)[..|entries|] == EntryRecords(entries);
      assert wal == before + Records(entries, commitIndex);
      PersistedIs(before, entries, commitIndex);
    }

    method AppendEntry(entry: Entry)
      modifies this`entries, this`wal
      ensures Contents() == Append(old(Contents()), entry)
    {
      entries := entries + [entry];
      PersistLog();
    }

    method TruncateLog(after: nat)
      modifies this`entries, this`commitIndex, this`wal
      ensures Contents() == Truncate(old(Contents()), after)
    {
      if after >= |entries| {
        return;
      }
      entries := entries[..after];
      if commitIndex > after {
        commitIndex := after;
      }
      PersistLog();
    }

    method Recover()
      modifies this`entries, this`commitIndex
      ensures Contents() == Log(Recovered(wal).entries, Recovered(wal).commit, Recovered(wal))
    {
      entries, commitIndex := [], 0;
      for i := 0 to |wal|
        invariant wal == old(wal) && Disk(entries, commitIndex) == Recovered(wal[..i])
      {
        RecoveredNext(wal[..i], wal[i]);
        assert wal[..i] + [wal[i]] == wal[..i + 1];
        match wal[i]
        case EntryRecord(index, entry) =>
          if index > |entries| {
            entries := entries + seq(index - 1 - |entries|, i => Command(0, "")) + [entry];
          }
        case CommitRecord(commit) =>
          if commitIndex < commit <= |entries| {
            commitIndex := commit;
          }
      }
      assert wal[..|wal|] == wal;
    }

    // -------------------------------------------------------------- terms and elections

    method StepDown(term: nat)
      modifies this`state, this`currentTerm, this`votedFor, this`poll
      ensures View() == BecomeFollower(old(View()), term)
    {
      state := Follower;
      currentTerm := term;
      votedFor := None;
      poll := None;
    }

    /** The start of an election: a new term, and the node's own vote. */
    method StartElection()
      modifies this
      ensures View() == BecomeCandidate(old(View()), id)
    {
      state := Candidate;
      currentTerm := currentTerm + 1;
      votedFor := Some(id);
      poll := Some(Poll({}, 1));
    }

    /** One turn of the loop over the peers, once the peer's answer is there. */
    method TakeAnswer(peer: Id, answer: VoteResponse)
      requires poll.Some?
      modifies this
      ensures View() == Polled(old(View()), peer, answer)
    {
      if answer.term > currentTerm {
        StepDown(answer.term);
        return;
      }
      var votes := poll.value.votes;
      if answer.granted {
        votes := votes + 1;
      }
      poll := Some(Poll(poll.value.asked + {peer}, votes));
    }

    method CountVotes(quorum: nat)
      requires poll.Some?
      modifies this
      ensures View() == if old(poll).value.votes >= quorum then BecomeLeader(old(View())) else old(View()).(poll := None)
    {
      if poll.value.votes >= quorum {
        state := Leader;
        InitializeLeaderState();
        AppendEntry(Noop(currentTerm));
      }
      poll := None;
    }

    method InitializeLeaderState()
      modifies this`peers
      ensures peers == NoProgress(|old(peers)|, |entries|)
    {
      for i := 0 to |peers|
        invariant |peers| == |old(peers)| && forall j | 0 <= j < i :: peers[j] == Progress(|entries| + 1, 0)
      {
        peers := peers[i := Progress(|entries| + 1, 0)];
      }
    }

    method RequestVote(r: VoteRequest) returns (response: VoteResponse)
      modifies this
      ensures (View(), response) == HandleVote(old(View()), r)
    {
      if r.term < currentTerm {
        return VoteResponse(currentTerm, false);
      }
      if r.term > currentTerm {
        StepDown(r.term);
      }
      response := VoteResponse(currentTerm, false);
      if (votedFor == None || votedFor == Some(r.candidate)) && UpToDate(entries, r.lastIndex, r.lastTerm) {
        votedFor := Some(r.candidate);
        response := VoteResponse(currentTerm, true);
      }
    }

    // -------------------------------------------------------------- replication

    method SubmitCommand(command: string)
      modifies this
      ensures View() == Submitted(old(View()), command)
    {
      AppendEntry(Command(currentTerm, command));
    }

    /** One turn of the loop over the peers, up to the call. */
    method NextRequest(p: Id) returns (r: AppendRequest)
      requires p < |peers|
      ensures r == Replication(View(), id, p)
      ensures r.term == currentTerm && r.leader == id && r.prevIndex == peers[p].next - 1 && r.leaderCommit == commitIndex
      ensures r.prevTerm == if 1 <= r.prevIndex <= |entries| then entries[r.prevIndex - 1].term else 0
      ensures r.prevIndex >= |entries| ==> r.entries == []
      ensures r.prevIndex < |entries| ==>
                && r.entries <= entries[r.prevIndex..] && 0 < |r.entries| <= 100
                && (|r.entries| == 100 || r.prevIndex + |r.entries| == |entries|)
    {
      var next := peers[p].next;
      var toSend := [];
      if next <= |entries| {
        var end := Min(next + MAX_ENTRIES_PER_APPEND - 1, |entries|);
        toSend := entries[next - 1..end];
      }
      r := AppendRequest(currentTerm, id, next - 1, TermAt(entries, next - 1), toSend, commitIndex);
    }

    /** And from its answer on. */
    method TakeAppendAnswer(p: Id, sent: AppendRequest, answer: AppendResponse)
      requires p < |peers|
      modifies this
      ensures View() == Replicated(old(View()), p, sent, answer)
    {
      if answer.term > currentTerm {
        StepDown(answer.term);
        return;
      }
      if answer.success {
        if sent.entries != [] {
          peers := peers[p := Progress(answer.matchIndex + 1, answer.matchIndex)];
        }
      } else if peers[p].next > 1 {
        peers := peers[p := peers[p].(next := peers[p].next - 1)];
      }
    }

    method UpdateCommitIndex(quorum: nat)
      requires id < |peers|
      modifies this`commitIndex
      ensures View() == old(View()).(log := old(Contents()).(commit := NewCommit(old(View()), id, quorum, |entries|)))
      ensures commitIndex == old(commitIndex) || Counts(old(View()), id, quorum, commitIndex)
      ensures forall i: nat {:trigger Counts(old(View()), id, quorum, i)} |
                Counts(old(View()), id, quorum, i) :: i <= commitIndex
    {
      var newCommit: nat := |entries|;
      while newCommit > commitIndex
        invariant newCommit <= |entries| && commitIndex == old(commitIndex)
        invariant NewCommit(View(), id, quorum, |entries|) == NewCommit(View(), id, quorum, newCommit)
        invariant forall i: nat {:trigger Counts(View(), id, quorum, i)} | Counts(View(), id, quorum, i) :: i <= newCommit
      {
        if entries[newCommit - 1].term == currentTerm {
          var replicated := CountReplicated(newCommit);
          if replicated >= quorum {
            commitIndex := newCommit;
            return;
          }
        }
        newCommit := newCommit - 1;
      }
    }

    /** The node itself and its peers that match up to index i; the node is not among its own peers. */
    method CountReplicated(i: nat) returns (count: nat)
      ensures count == 1 + |Matching(View(), id, i)|
    {
      count := 1;
      ghost var counted: set<Id> := {};
      for p := 0 to |peers|
        invariant counted == set q: nat | q < p && q != id && peers[q].matched >= i
        invariant count == 1 + |counted|
      {
        if p != id && peers[p].matched >= i {
          count := count + 1;
          counted := counted + {p};
        }
      }
      assert counted == Matching(View(), id, i);
    }

    method AppendEntries(r: AppendRequest) returns (response: AppendResponse)
      modifies this
      ensures (View(), response) == HandleAppend(old(View()), r)
    {
      if r.term < currentTerm {
        return AppendResponse(currentTerm, false, 0);
      }
      if r.term > currentTerm || (r.term == currentTerm && state == Candidate) {
        StepDown(r.term);
      }
      if r.prevIndex > 0 {
        if r.prevIndex > |entries| || TermAt(entries, r.prevIndex) != r.prevTerm {
          return AppendResponse(currentTerm, false, Min(|entries|, r.prevIndex - 1));
        }
      }
      WriteEntries(r.prevIndex, r.entries);
      if r.leaderCommit > commitIndex {
        commitIndex := Min(r.leaderCommit, |entries|);
      }
      response := AppendResponse(currentTerm, true, |entries|);
    }

    /** The loop over the entries of a request. */
    method WriteEntries(at: nat, sent: seq<Entry>)
      requires at <= |entries|
      modifies this`entries, this`commitIndex, this`wal
      ensures Contents() == Merged(old(Contents()), at, sent)
    {
      ghost var before := Contents();
      for i := 0 to |sent|
        invariant Contents() == Turns(before, at, sent, i)
      {
        WriteEntry(at + i, sent[i]);
        NextTurn(before, at, sent, i);
      }
      TurnsMerge(before, at, sent);
    }

    /** The body of that loop. */
    method WriteEntry(at: nat, entry: Entry)
      modifies this`entries, this`commitIndex, this`wal
      ensures Contents() == Turn(old(Contents()), at, entry)
    {
      if at < |entries| {
        if entries[at].term == entry.term {
          return;
        }
        TruncateLog(at);
      }
      AppendEntry(entry);
    }

    method RestartNode(stopped: bool)
      modifies this
      ensures View() == Restarted(old(View()), stopped)
    {
      if stopped {
        PersistLog();
      }
      state := Follower;
      poll := None;
      Recover();
      InitializeLeaderState();
    }
  }
}
