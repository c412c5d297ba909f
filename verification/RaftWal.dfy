/** The write-ahead log of `consensus/raft_log.c`: records are only ever added, and recovery reads them all. */
module RaftWal {
  import opened RaftModel

  datatype Record = EntryRecord(index: Index, entry: Entry) | CommitRecord(commit: nat)

  /** An entry beyond the last index becomes the last, over zeroed ones if any are skipped; a record of an index that
      is there already is passed over. */
  function Read(d: Disk, record: Record): Disk {
    match record
    case EntryRecord(index, entry) =>
      if index > |d.entries|
      then d.(entries := d.entries + seq(index - 1 - |d.entries|, i => Command(0, "")) + [entry])
      else d
    case CommitRecord(commit) => if d.commit < commit <= |d.entries| then d.(commit := commit) else d
  }

  /** What one record adds, index by index: what is there stays, and indices skipped are zeroed. */
  lemma ReadIs(d: Disk, record: Record, i: nat)
    requires i < |Read(d, record).entries|
    ensures var d' := Read(d, record);
      match record
      case EntryRecord(index, entry) =>
        && d'.commit == d.commit && |d'.entries| == (if index > |d.entries| then index else |d.entries|)
        && d'.entries[i] == if i < |d.entries| then d.entries[i] else if i == index - 1 then entry else Command(0, "")
      case CommitRecord(commit) =>
        d'.entries == d.entries && d'.commit == if d.commit < commit && commit <= |d.entries| then commit else d.commit
  {
  }

  function Recovered(wal: seq<Record>): Disk {
    if wal == [] then Disk([], 0) else Read(Recovered(wal[..|wal| - 1]), wal[|wal| - 1])
  }

  lemma RecoveredNext(wal: seq<Record>, record: Record)
    ensures Recovered(wal + [record]) == Read(Recovered(wal), record)
  {
    assert (wal + [record])[..|wal|] == wal;
  }

  function EntryRecords(entries: seq<Entry>): seq<Record> {
    seq(|entries|, i requires 0 <= i < |entries| => EntryRecord(i + 1, entries[i]))
  }

  /** What a log writes each time: all its entries, and its commit index. */
  function Records(entries: seq<Entry>, commit: nat): seq<Record> {
    EntryRecords(entries) + [CommitRecord(commit)]
  }

  lemma ReadNext(d: Disk, entries: seq<Entry>, n: nat)
    requires 0 < n <= |entries|
    ensures Read(d.(entries := Extended(d.entries, entries, n - 1)), EntryRecord(n, entries[n - 1])) ==
            d.(entries := Extended(d.entries, entries, n))
  {
    var c := Extended(d.entries, entries, n - 1);
    assert n > |c| ==> c + seq(n - 1 - |c|, i => Command(0, "")) == c;
  }

  lemma {:induction false} ReadEntries(wal: seq<Record>, entries: seq<Entry>, n: nat)
    requires n <= |entries|
    ensures Recovered(wal + EntryRecords(entries)[..n]) ==
            Recovered(wal).(entries := Extended(Recovered(wal).entries, entries, n))
  {
    var records := EntryRecords(entries);
    if n == 0 {
      assert wal + records[..0] == wal;
    } else {
      ReadEntries(wal, entries, n - 1);
      assert wal + records[..n] == (wal + records[..n - 1]) + [EntryRecord(n, entries[n - 1])];
      RecoveredNext(wal + records[..n - 1], EntryRecord(n, entries[n - 1]));
      ReadNext(Recovered(wal), entries, n);
    }
  }

  /** Whatever the file held, after it is written once more recovery gives back this. */
  lemma PersistedIs(wal: seq<Record>, entries: seq<Entry>, commit: nat)
    ensures Recovered(wal + Records(entries, commit)) == Persisted(Recovered(wal), entries, commit)
  {
    ReadEntries(wal, entries, |entries|);
    assert EntryRecords(entries)[..|entries|] == EntryRecords(entries);
    RecoveredNext(wal + EntryRecords(entries), CommitRecord(commit));
    assert wal + Records(entries, commit) == (wal + EntryRecords(entries)) + [CommitRecord(commit)];
  }
}
