/** Availability: a node with an up-to-date log that reaches a majority wins its election and gets commands committed. */
module RaftAvailability {
  import opened Options
  import opened Runs
  import opened RaftModel
  import opened RaftMatching
  import opened RaftProgress
  import opened RaftExchanges

  // ---------------------------------------------------------------- one election

  /** A node that votes for c if c asks it in the next term. */
  predicate Backs(s: State, c: Id, q: Id) {
    && c < |s.nodes| && Idle(s, q) && q != c && s.nodes[q].term <= s.nodes[c].term
    && NotBehind(s.nodes[c].log.entries, s.nodes[q].log.entries)
  }

  function Asks(c: Id, qs: seq<Id>): seq<Event> {
    seq(|qs|, i requires 0 <= i < |qs| => Ask(c, qs[i], Answered))
  }

  function ElectionEvents(c: Id, qs: seq<Id>): seq<Event> { [Timeout(c)] + Asks(c, qs) + [Count(c)] }

  /** A node that has voted for c in the term. */
  predicate VotedFor(n: Node, n': Node, c: Id, term: nat) {
    n' == n.(term := term, votedFor := Some(c), role := Follower, poll := None)
  }

  /** The candidate c has the votes of the nodes asked, and nothing else has changed. */
  predicate Asked(s: State, c: Id, qs: seq<Id>, s': State)
    requires c < |s.nodes|
  {
    && |s'.nodes| == |s.nodes|
    && s'.nodes[c] == s.nodes[c].(term := s.nodes[c].term + 1, votedFor := Some(c), role := Candidate,
                                  poll := Some(Poll(Members(qs), 1 + |qs|)))
    && (forall q | q in qs && q < |s.nodes| :: VotedFor(s.nodes[q], s'.nodes[q], c, s.nodes[c].term + 1))
    && (forall j: nat | j < |s.nodes| && j != c && j !in qs :: s'.nodes[j] == s.nodes[j])
  }

  lemma StandsFirst(s: State, c: Id)
    requires Idle(s, c) && s.nodes[c].role != Leader
    ensures Asked(s, c, [], Step(s, Timeout(c)))
  {
  }

  /** One more vote. */
  lemma AskedNext(s: State, c: Id, qs: seq<Id>, q: Id, s1: State)
    requires c < |s.nodes| && Asked(s, c, qs, s1) && q !in qs && Backs(s, c, q) && c !in qs
    ensures Asked(s, c, qs + [q], Step(s1, Ask(c, q, Answered)))
  {
    AnsweredAsk(s1, c, q);
    assert (qs + [q])[..|qs|] == qs && (qs + [q])[|qs|] == q;
    assert Members(qs + [q]) == Members(qs) + {q};
  }

  lemma {:induction false} AllAsked(s: State, c: Id, qs: seq<Id>)
    requires Idle(s, c) && s.nodes[c].role != Leader && Distinct(qs) && forall q | q in qs :: Backs(s, c, q)
    ensures Asked(s, c, qs, After(Step, s, [Timeout(c)] + Asks(c, qs)))
  {
    if qs == [] {
      assert [Timeout(c)] + Asks(c, qs) == [Timeout(c)];
      AfterOne(Step, s, Timeout(c));
      StandsFirst(s, c);
    } else {
      var init, q := qs[..|qs| - 1], qs[|qs| - 1];
      LastOf(qs);
      AllAsked(s, c, init);
      assert qs == init + [q];
      var es, e := [Timeout(c)] + Asks(c, init), Ask(c, q, Answered);
      assert [Timeout(c)] + Asks(c, qs) == es + [e];
      AfterConcat(Step, s, es, [e]);
      AfterOne(Step, After(Step, s, es), e);
      AskedNext(s, c, init, q, After(Step, s, es));
    }
  }

  /** What the election of c changes. */
  predicate Elected(s: State, c: Id, qs: seq<Id>, s': State)
    requires c < |s.nodes|
  {
    var n, n', term := s.nodes[c], if c < |s'.nodes| then s'.nodes[c] else s.nodes[c], s.nodes[c].term + 1;
    && |s'.nodes| == |s.nodes|
    && n'.role == Leader && n'.term == term && n'.poll.None?
    && n'.log.entries == n.log.entries + [Noop(term)] && n'.log.commit == n.log.commit
    && n'.peers == seq(|n.peers|, i => Progress(|n.log.entries| + 1, 0))
    && (forall q | q in qs && q < |s.nodes| :: VotedFor(s.nodes[q], s'.nodes[q], c, term))
    && (forall j: nat | j < |s.nodes| && j != c && j !in qs :: s'.nodes[j] == s.nodes[j])
  }

  lemma CountWins(s: State, c: Id, qs: seq<Id>, s1: State)
    requires c < |s.nodes| && Asked(s, c, qs, s1) && c !in qs && 2 * (1 + |qs|) > |s.nodes|
    ensures Elected(s, c, qs, Step(s1, Count(c)))
  {
  }

  /** A candidate that is behind none of a majority, in log and term, and reaches it, leads. */
  lemma ElectionSucceeds(s: State, c: Id, qs: seq<Id>)
    requires Idle(s, c) && s.nodes[c].role != Leader && Distinct(qs) && 2 * (1 + |qs|) > |s.nodes|
    requires forall q | q in qs :: Backs(s, c, q)
    ensures Elected(s, c, qs, After(Step, s, ElectionEvents(c, qs)))
  {
    var es := [Timeout(c)] + Asks(c, qs);
    AllAsked(s, c, qs);
    AfterConcat(Step, s, es, [Count(c)]);
    AfterOne(Step, After(Step, s, es), Count(c));
    CountWins(s, c, qs, After(Step, s, es));
  }

  // ---------------------------------------------------------------- a command is committed

  lemma {:induction false} HealthyAfter(s: State, es: seq<Event>)
    requires Healthy(s) && forall e | e in es :: !e.Restart?
    ensures Healthy(After(Step, s, es))
  {
    if es != [] {
      HealthyAfter(s, es[..|es| - 1]);
      StepKeeps(After(Step, s, es[..|es| - 1]), es[|es| - 1]);
    }
  }

  lemma SubmitAdds(s: State, l: Id, command: string)
    requires Leading(s, l)
    ensures var s', n := Step(s, Submit(l, command)), s.nodes[l];
      && |s'.nodes| == |s.nodes| && s'.nodes == s.nodes[l := s'.nodes[l]] && Leading(s', l)
      && s'.nodes[l].term == n.term && s'.nodes[l].log.entries == n.log.entries + [Command(n.term, command)]
  {
  }

  /** The election of c, and then a command. */
  function Opening(c: Id, qs: seq<Id>, command: string): seq<Event> { ElectionEvents(c, qs) + [Submit(c, command)] }

  lemma OpeningRestartsNone(c: Id, qs: seq<Id>, command: string)
    ensures forall e | e in Opening(c, qs, command) :: !e.Restart?
  {
  }

  /** After it c leads, with a no-op and the command at the end of its log, and reaches whoever voted for it. */
  lemma AfterOpening(s: State, c: Id, qs: seq<Id>, command: string)
    requires Healthy(s) && Idle(s, c) && s.nodes[c].role != Leader && Distinct(qs) && 2 * (1 + |qs|) > |s.nodes|
    requires forall q | q in qs :: Backs(s, c, q)
    ensures var s', term := After(Step, s, Opening(c, qs, command)), s.nodes[c].term + 1;
      && |s'.nodes| == |s.nodes| && Healthy(s') && Leading(s', c) && s'.nodes[c].term == term
      && s'.nodes[c].log.entries == s.nodes[c].log.entries + [Noop(term), Command(term, command)]
      && forall q | q in qs :: Reaches(s', c, q)
  {
    var es := ElectionEvents(c, qs);
    ElectionSucceeds(s, c, qs);
    var s1 := After(Step, s, es);
    AfterConcat(Step, s, es, [Submit(c, command)]);
    AfterOne(Step, s1, Submit(c, command));
    SubmitAdds(s1, c, command);
    OpeningRestartsNone(c, qs, command);
    HealthyAfter(s, Opening(c, qs, command));
    forall q | q in qs ensures Reaches(After(Step, s, Opening(c, qs, command)), c, q) {
      assert Backs(s, c, q);
    }
  }

  /** Restarts none, and has every call answered. */
  predicate Quietly(es: seq<Event>) {
    forall e | e in es ::
      && !e.Restart? && !e.Late?
      && (e.Ask? ==> e.reach.Answered?) && (e.Replicate? ==> e.reach.Answered? && !e.dropped)
  }

  lemma OnlyIsQuiet(c: Id, qs: seq<Id>, command: string, es: seq<Event>)
    requires Only(es, c, qs)
    ensures Quietly(Opening(c, qs, command) + es)
  {
  }

  /** From any healthy state on: a node that is behind none of a majority, and reaches it, can be elected and have a
      command committed, by itself and by all of that majority. */
  lemma MajorityServes(s: State, c: Id, qs: seq<Id>, command: string) returns (es: seq<Event>)
    requires Healthy(s) && Idle(s, c) && s.nodes[c].role != Leader && Distinct(qs) && 2 * (1 + |qs|) > |s.nodes|
    requires forall q | q in qs :: Backs(s, c, q)
    ensures var s', term := After(Step, s, es), s.nodes[c].term + 1;
      && Quietly(es) && |s'.nodes| == |s.nodes| && AllCommitted(s', c, qs)
      && s'.nodes[c].log.entries == s.nodes[c].log.entries + [Noop(term), Command(term, command)]
  {
    var opening := Opening(c, qs, command);
    AfterOpening(s, c, qs, command);
    var s1 := After(Step, s, opening);
    assert c !in qs by { assert forall q | q in qs :: Backs(s, c, q); }
    es := LeaderCommits(s1, c, qs);
    OnlyIsQuiet(c, qs, command, es);
    AfterConcat(Step, s, opening, es);
    es := opening + es;
  }

  lemma {:induction false} HealthyThroughout(ss: seq<State>, es: seq<Event>, k: nat)
    requires Run(Step, ss, es) && Initial(ss[0]) && k <= |es| && !SomeStep(LosesLog, ss, es, k)
    ensures Healthy(ss[k])
  {
    if k > 0 {
      HealthyThroughout(ss, es, k - 1);
      assert !LosesLog(ss[k - 1], es[k - 1]);
      StepKeeps(ss[k - 1], es[k - 1]);
    }
  }

  /** In every run, as long as no restart has lost a log: however many calls were lost or late and whoever led, an idle
      node that is behind none of an idle majority can be elected and have a command committed by that majority. */
  lemma AlwaysAvailable(ss: seq<State>, es: seq<Event>, k: nat, c: Id, qs: seq<Id>, command: string)
    returns (es': seq<Event>)
    requires Run(Step, ss, es) && Initial(ss[0]) && k <= |es| && !SomeStep(LosesLog, ss, es, k)
    requires Idle(ss[k], c) && ss[k].nodes[c].role != Leader
    requires Distinct(qs) && 2 * (1 + |qs|) > |ss[k].nodes| && forall q | q in qs :: Backs(ss[k], c, q)
    ensures var s', term := After(Step, ss[k], es'), ss[k].nodes[c].term + 1;
      && Quietly(es') && |s'.nodes| == |ss[k].nodes| && AllCommitted(s', c, qs)
      && s'.nodes[c].log.entries == ss[k].nodes[c].log.entries + [Noop(term), Command(term, command)]
  {
    HealthyThroughout(ss, es, k);
    es' := MajorityServes(ss[k], c, qs, command);
  }

  /** And in every such run a leader brings every idle peer of no later term up to date, within the budget. */
  lemma PeersCatchUp(ss: seq<State>, es: seq<Event>, k: nat, l: Id, p: Id) returns (n: nat)
    requires Run(Step, ss, es) && Initial(ss[0]) && k <= |es| && !SomeStep(LosesLog, ss, es, k)
    requires Leading(ss[k], l) && Idle(ss[k], p) && p != l && ss[k].nodes[p].term <= ss[k].nodes[l].term
    ensures var s, s' := ss[k], After(Step, ss[k], Rounds(l, p, n));
      && |s'.nodes| == |s.nodes| == |s.nodes[l].peers| && s'.nodes[l].log == s.nodes[l].log && CaughtUp(s', l, p)
      && var c := Common(s.nodes[p].log.entries, s.nodes[l].log.entries);
         n <= Max(|s.nodes[p].log.entries|, s.nodes[l].peers[p].next) - c + (|s.nodes[l].log.entries| - c + 99) / 100 + 2
  {
    HealthyThroughout(ss, es, k);
    NodesAre(ss[k], l, p);
    n := CatchesUp(ss[k], l, p);
  }
}
