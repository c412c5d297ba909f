/** When a node that starts again has the log it had. */
module RaftRecovery {
  import opened Options
  import opened Runs
  import opened RaftModel
  import opened RaftElections
  import opened RaftSteps
  import opened RaftLog
  import opened RaftMatching

  predicate OnDisk(log: Log) { log.disk.entries == log.entries }

  /** The file of every node gives back its log. */
  predicate Durable(s: State) { forall i: nat | i < |s.nodes| :: OnDisk(s.nodes[i].log) }

  /** A follower has an entry that conflicts with one it is passed, and cuts its log off there. */
  predicate CutsLog(s: State, e: Event) {
    Enabled(s, e) && match Delivered(s, e)
      case Some(AppendCall(p, r)) => p < |s.nodes| && Cuts(s.nodes[p], r)
      case _ => false
  }

  predicate Cuts(n: Node, r: AppendRequest) {
    n.term <= r.term && Consistent(n.log.entries, r) && Conflicts(n.log.entries, r.prevIndex, r.entries)
  }

  // ---------------------------------------------------------------- one log

  lemma AppendOnDisk(log: Log, entry: Entry)
    requires OnDisk(log)
    ensures OnDisk(Append(log, entry))
  {
    var a, b := log.entries, log.entries + [entry];
    assert Extended(a, b, |a|) == a;
    assert Extended(a, b, |a| + 1) == a + [entry];
  }

  lemma {:induction false} AllOnDisk(log: Log, entries: seq<Entry>, i: nat, j: nat)
    requires OnDisk(log) && i <= j <= |entries|
    ensures OnDisk(AppendAll(log, entries, i, j))
    decreases j
  {
    if i < j {
      AllOnDisk(log, entries, i, j - 1);
      AppendOnDisk(AppendAll(log, entries, i, j - 1), entries[j - 1]);
    }
  }

  lemma {:induction false} ExtendsIt(a: seq<Entry>, b: seq<Entry>, n: nat)
    requires n <= |b|
    ensures a <= Extended(a, b, n)
  {
    if n > |a| {
      ExtendsIt(a, b, n - 1);
    }
  }

  /** What is on disk stays there. */
  lemma {:induction false} DiskGrows(log: Log, entries: seq<Entry>, i: nat, j: nat)
    requires i <= j <= |entries|
    ensures log.disk.entries <= AppendAll(log, entries, i, j).disk.entries
    decreases j
  {
    if i < j {
      DiskGrows(log, entries, i, j - 1);
      var before, after := AppendAll(log, entries, i, j - 1), AppendAll(log, entries, i, j);
      ExtendsIt(before.disk.entries, after.entries, |after.entries|);
    }
  }

  lemma TruncateKeepsDisk(log: Log, at: nat)
    requires at < |log.entries| && OnDisk(log)
    ensures Truncate(log, at).entries == log.entries[..at] && Truncate(log, at).disk.entries == log.entries
  {
  }

  /** Where a log was cut off, recovery finds what was there before. */
  lemma CutIsLost(log: Log, at: nat, entries: seq<Entry>)
    requires at <= |log.entries| && OnDisk(log)
    requires var k := Fit(log.entries, at, entries); k < |entries| && at + k < |log.entries|
    ensures !OnDisk(Merged(log, at, entries))
  {
    var k := Fit(log.entries, at, entries);
    var cut := Truncate(log, at + k);
    TruncateKeepsDisk(log, at + k);
    DiskGrows(cut, entries, k, |entries|);
    var log' := AppendAll(cut, entries, k, |entries|);
    assert log'.entries[at + k] == entries[k] && log'.disk.entries[at + k] == log.entries[at + k];
  }

  lemma MergedOnDisk(log: Log, at: nat, entries: seq<Entry>)
    requires at <= |log.entries| && OnDisk(log)
    ensures OnDisk(Merged(log, at, entries)) <==> !Conflicts(log.entries, at, entries)
  {
    ConflictsIff(log.entries, at, entries);
    var k := Fit(log.entries, at, entries);
    if k < |entries| {
      if at + k < |log.entries| {
        CutIsLost(log, at, entries);
      } else {
        AllOnDisk(log, entries, k, |entries|);
      }
    }
  }

  lemma HandledOnDisk(n: Node, r: AppendRequest)
    requires OnDisk(n.log)
    ensures OnDisk(HandleAppend(n, r).0.log) <==> !Cuts(n, r)
  {
    AnswerIs(n, r);
    if n.term <= r.term && Consistent(n.log.entries, r) {
      MergedOnDisk(n.log, r.prevIndex, r.entries);
    }
  }

  // ---------------------------------------------------------------- runs

  lemma OwnOnDisk(s: State, e: Event)
    requires Durable(s) && Enabled(s, e) && !IsCall(e)
    ensures Durable(Step(s, e))
  {
    match e
    case Count(c) => AppendOnDisk(s.nodes[c].log, Noop(s.nodes[c].term));
    case Submit(l, command) => AppendOnDisk(s.nodes[l].log, Command(s.nodes[l].term, command));
    case _ =>
  }

  /** After a call it is up to the peer. */
  lemma RestOnDisk(s: State, s1: State, s': State, e: Event, p: Id, n: Node)
    requires Durable(s) && IsCall(e) && RestOk(s, s1, s', e)
    requires p < |s.nodes| && s1.nodes == s.nodes[p := n] && Actor(e) != Some(p)
    ensures Durable(s') <==> OnDisk(n.log)
  {
    assert s'.nodes[p] == n;
  }

  lemma CallOnDisk(s: State, e: Event)
    requires Inv(s) && Durable(s) && Enabled(s, e) && IsCall(e)
    ensures Durable(Step(s, e)) <==> !CutsLog(s, e)
  {
    TheRest(s, e);
    if Delivered(s, e).Some? {
      var call := Delivered(s, e).value;
      DeliveredOk(s, e);
      HandledNodes(s, call);
      PeerOnDisk(s, call);
      RestOnDisk(s, PeerSide(s, e), Step(s, e), e, call.to, Handled(s, call).nodes[call.to]);
    }
  }

  lemma DurableStep(s: State, e: Event)
    requires Inv(s) && Durable(s)
    ensures Durable(Step(s, e)) <==> !CutsLog(s, e)
  {
    if Enabled(s, e) {
      if IsCall(e) {
        CallOnDisk(s, e);
      } else {
        OwnOnDisk(s, e);
      }
    }
  }

  lemma PeerOnDisk(s: State, call: Call)
    requires Durable(s) && call.to < |s.nodes|
    ensures OnDisk(Handled(s, call).nodes[call.to].log) <==> !(call.AppendCall? && Cuts(s.nodes[call.to], call.append))
  {
    if call.AppendCall? {
      HandledOnDisk(s.nodes[call.to], call.append);
    }
  }

  /** In a run every node could start again with the log it has, throughout, exactly when no log is ever cut off. */
  lemma DurableThroughout(ss: seq<State>, es: seq<Event>)
    requires Run(Step, ss, es) && Initial(ss[0])
    ensures Always(Durable, ss) <==> !SomeStep(CutsLog, ss, es, |es|)
  {
    forall k | 0 <= k < |es| ensures KeepsUnlessBad(Step, Durable, CutsLog, ss[k], es[k]) {
      if Durable(ss[k]) {
        InvThroughout(ss, es, k);
        DurableStep(ss[k], es[k]);
      }
    }
    KeptIffNoBadStep(Step, Durable, CutsLog, ss, es);
  }

  /** And then no restart loses a log. */
  lemma WithoutCutsNothingIsLost(ss: seq<State>, es: seq<Event>)
    requires Run(Step, ss, es) && Initial(ss[0]) && !SomeStep(CutsLog, ss, es, |es|)
    ensures !SomeStep(LosesLog, ss, es, |es|)
  {
    DurableThroughout(ss, es);
    forall k | 0 <= k < |es| ensures !LosesLog(ss[k], es[k]) {
      assert Durable(ss[k]);
      DurableLosesNothing(ss[k], es[k]);
    }
  }

  lemma DurableLosesNothing(s: State, e: Event)
    requires Durable(s)
    ensures !LosesLog(s, e)
  {
  }

  /** The SQL wrapper drops the entries of every request. */
  predicate Dropped(e: Event) {
    match e
    case Replicate(_, _, dropped, _) => dropped
    case Late(_, dropped) => dropped
    case _ => true
  }

  /** Behind it no log is ever cut off, or lost. */
  lemma WrapperNeverCuts(ss: seq<State>, es: seq<Event>)
    requires Run(Step, ss, es) && Initial(ss[0]) && forall k | 0 <= k < |es| :: Dropped(es[k])
    ensures Always(Durable, ss) && !SomeStep(LosesLog, ss, es, |es|)
  {
    forall k | 0 <= k < |es| ensures !CutsLog(ss[k], es[k]) {
      assert Dropped(es[k]);
    }
    DurableThroughout(ss, es);
    WithoutCutsNothingIsLost(ss, es);
  }

  // ---------------------------------------------------------------- what a restart keeps

  /** A node that starts again follows in the term it was in, with the vote it gave. */
  lemma RestartFollows(s: State, c: Id, stopped: bool)
    requires c < |s.nodes|
    ensures var n, s' := s.nodes[c], Step(s, Restart(c, stopped));
      && |s'.nodes| == |s.nodes| && s' == s.(nodes := s.nodes[c := s'.nodes[c]])
      && s'.nodes[c].term == n.term && s'.nodes[c].votedFor == n.votedFor && s'.nodes[c].role == Follower
      && s'.nodes[c].poll.None?
      && s'.nodes[c].peers == seq(|n.peers|, i => Progress(|s'.nodes[c].log.entries| + 1, 0))
  {
  }

  lemma PersistedSame(d: Disk, log: seq<Entry>, commit: nat)
    requires d.entries == log && commit <= |log|
    ensures Persisted(d, log, commit) == Disk(log, if d.commit < commit then commit else d.commit)
  {
  }

  /** Stopped with a log that is on disk, it has its entries again and commits at least as far. */
  lemma StopKeeps(s: State, c: Id)
    requires c < |s.nodes| && OnDisk(s.nodes[c].log) && s.nodes[c].log.commit <= |s.nodes[c].log.entries|
    ensures var log, s' := s.nodes[c].log, Step(s, Restart(c, true));
      && |s'.nodes| == |s.nodes| && s'.nodes[c].log.entries == log.entries && s'.nodes[c].log.commit >= log.commit
      && (log.disk.commit <= log.commit ==> s'.nodes[c].log.commit == log.commit)
  {
    PersistedSame(s.nodes[c].log.disk, s.nodes[c].log.entries, s.nodes[c].log.commit);
  }

  /** What a leader takes survives a crash right after, and so does what it had committed. */
  lemma CrashKeepsSubmitted(s: State, l: Id, command: string)
    requires Leading(s, l) && OnDisk(s.nodes[l].log) && s.nodes[l].log.commit <= |s.nodes[l].log.entries|
    ensures var n, s' := s.nodes[l], Step(Step(s, Submit(l, command)), Restart(l, false));
      && |s'.nodes| == |s.nodes| && s'.nodes[l].log.entries == n.log.entries + [Command(n.term, command)]
      && s'.nodes[l].log.commit >= n.log.commit
  {
    AppendOnDisk(s.nodes[l].log, Command(s.nodes[l].term, command));
  }
}
