/** What AppendEntries makes of a log, what its acknowledgement is worth, and what a restart gives back. */
module RaftLog {
  import opened RaftModel

  // ---------------------------------------------------------------- one request

  /** An entry of the request conflicts with the one the log has at its index. */
  predicate Conflicts(log: seq<Entry>, at: nat, entries: seq<Entry>)
    requires at <= |log|
  {
    exists j :: at <= j < at + |entries| && j < |log| && log[j].term != entries[j - at].term
  }

  lemma ConflictsIff(log: seq<Entry>, at: nat, entries: seq<Entry>)
    requires at <= |log|
    ensures Conflicts(log, at, entries) <==> Fit(log, at, entries) < |entries| && at + Fit(log, at, entries) < |log|
  {
  }

  /** A log with the entries of a request after index `at`. */
  function Overlaid(log: seq<Entry>, at: nat, entries: seq<Entry>): seq<Entry>
    requires at <= |log|
  {
    var k := Fit(log, at, entries);
    if k == |entries| then log else log[..at + k] + entries[k..]
  }

  lemma FollowedEntries(log: Log, r: AppendRequest)
    requires r.prevIndex <= |log.entries|
    ensures Followed(log, r).entries == Overlaid(log.entries, r.prevIndex, r.entries)
  {
    MergedEntries(log, r.prevIndex, r.entries);
  }

  lemma MergedEntries(log: Log, at: nat, entries: seq<Entry>)
    requires at <= |log.entries|
    ensures Merged(log, at, entries).entries == Overlaid(log.entries, at, entries)
  {
    var k := Fit(log.entries, at, entries);
    assert Truncate(log, at + k).entries == log.entries[..at + k];
    assert entries[k..|entries|] == entries[k..];
  }

  /** The log after a request keeps what it had before its entries, and has terms as they have. It ends with them
      exactly if it was no longer, or was cut off at a conflict. */
  predicate HasEntries(log: seq<Entry>, r: AppendRequest, log': seq<Entry>)
    requires r.prevIndex <= |log|
  {
    var end := r.prevIndex + |r.entries|;
    && end <= |log'| && log'[..r.prevIndex] == log[..r.prevIndex]
    && (forall j | r.prevIndex <= j < end :: log'[j].term == r.entries[j - r.prevIndex].term)
    && (|log'| == end <==> |log| <= end || Conflicts(log, r.prevIndex, r.entries))
  }

  lemma OverlaidAt(log: seq<Entry>, at: nat, entries: seq<Entry>, j: nat)
    requires at <= |log| && at <= j < at + |entries|
    ensures at + |entries| <= |Overlaid(log, at, entries)|
    ensures Overlaid(log, at, entries)[j].term == entries[j - at].term
  {
    var k := Fit(log, at, entries);
    if at + k <= j {
      assert entries[k..][j - at - k] == entries[j - at];
    }
  }

  lemma OverlaidIs(log: seq<Entry>, r: AppendRequest)
    requires r.prevIndex <= |log|
    ensures HasEntries(log, r, Overlaid(log, r.prevIndex, r.entries))
  {
    var at, entries := r.prevIndex, r.entries;
    var log' := Overlaid(log, at, entries);
    ConflictsIff(log, at, entries);
    assert log'[..at] == log[..at];
    forall j | at <= j < at + |entries| ensures log'[j].term == entries[j - at].term {
      OverlaidAt(log, at, entries, j);
    }
  }

  lemma AnswerIs(n: Node, r: AppendRequest)
    ensures var (n', answer) := HandleAppend(n, r);
      if n.term <= r.term && Consistent(n.log.entries, r) then
        && r.prevIndex <= |n.log.entries| && n'.log == Followed(n.log, r)
        && n'.log.entries == Overlaid(n.log.entries, r.prevIndex, r.entries)
        && answer == AppendResponse(r.term, true, |n'.log.entries|) && n'.term == r.term
      else !answer.success && n'.log == n.log
  {
    if Consistent(n.log.entries, r) {
      FollowedEntries(n.log, r);
    }
  }

  /** A request is refused, and the log left alone, exactly if its term is older or its previous entry is missing.
      Otherwise the follower has its entries afterwards, as far as terms tell, and acknowledges its own last index. */
  lemma AcknowledgesWhatItWasSent(n: Node, r: AppendRequest)
    ensures var (n', answer) := HandleAppend(n, r);
      && (answer.success <==> n.term <= r.term && Consistent(n.log.entries, r))
      && (!answer.success ==> n'.log == n.log)
      && (answer.success ==> HasEntries(n.log.entries, r, n'.log.entries) && answer.matchIndex == |n'.log.entries|)
  {
    AnswerIs(n, r);
    if n.term <= r.term && Consistent(n.log.entries, r) {
      OverlaidIs(n.log.entries, r);
    }
  }
}
