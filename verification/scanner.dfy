/** `get_stuck_locks_for_rule` and the per-file step it drives. The catalog
    client and the checksum tool are the `World`: what `list_replicas` answers
    for a data identifier, and what `gfal-sum` answers after a given copy. */
module Scanner {
  import opened Results
  import opened Seqs
  import opened Text
  import opened Catalog
  import opened LastReplica
  import opened Checksum

  /** The collaborators' answers during one run. */
  datatype World = World(
    listReplicas: Did -> seq<ReplicaRecord>,
    checksumTool: Probe -> ToolResult)

  /** A lock whose state is anything but "OK". */
  predicate IsStuck(lock: Lock)
  {
    lock.state != Healthy
  }

  /** Lines 21-25: the stuck locks of a rule, in the order listed. */
  function StuckLocks(locks: seq<Lock>): seq<Lock>
  {
    Filter(locks, IsStuck)
  }

  /** The stuck-lock list keeps every lock whose state is not "OK" exactly as
      many times as the rule lists it, and no other lock. */
  lemma StuckLocksExactly(locks: seq<Lock>, lock: Lock)
    ensures multiset(StuckLocks(locks))[lock] == if lock.state != Healthy then multiset(locks)[lock] else 0
  {
    FilterMultiplicity(locks, IsStuck, lock);
  }

  /** The stuck-lock list keeps the rule's order: the stuck locks of two
      consecutive stretches of the list are those of the first, then those of
      the second. */
  lemma StuckLocksInOrder(first: seq<Lock>, second: seq<Lock>)
    ensures StuckLocks(first + second) == StuckLocks(first) + StuckLocks(second)
  {
    FilterAppend(first, second, IsStuck);
  }

  /** Lines 30-85 for one stuck lock: look the file up in scope "cms", pick
      the last replica, verify it and decide. A declaration only ever names
      the file's unique AVAILABLE site, the file itself in scope "cms", and
      the run's reason. The IndexError of line 37 is raised exactly when the
      catalog lists no replica record for the file. */
  function ProcessStuckLock(lock: Lock, world: World, date: string): (r: Result<Action, Fault>)
    ensures (r.Failure? && r.error.NoReplicaRecord?) <==> world.listReplicas(FileDid(lock.name)) == []
    ensures r.Success? && r.value.DeclareBad? ==>
      var records := world.listReplicas(FileDid(lock.name));
      && records != []
      && |AvailableSites(records[0].states)| == 1
      && r.value == DeclareBad(AvailableSites(records[0].states)[0].rse, [FileDid(lock.name)], Reason(date))
  {
    var records := world.listReplicas(FileDid(lock.name));
    if records == [] then Failure(NoReplicaRecord(lock.name))
    else
      var record := records[0];
      match LastReplicaCandidate(record)
      case Failure(fault) => Failure(fault)
      case Success(None) => Success(NoAction)
      case Success(Some(candidate)) =>
        var result := world.checksumTool(ProbeFor(candidate.pfn, lock.name));
        CorruptionVerdict(result, record.adler32, lock.name, candidate.rse, date)
  }

  /** With zero or several AVAILABLE sites nothing is declared and the
      checksum tool is never consulted: any other tool gives the same result.
      Processing fails (the KeyError of line 49) exactly when one of the
      AVAILABLE sites is missing from "rses". */
  lemma NoVerificationUnlessLastReplica(lock: Lock, world: World, date: string, otherTool: Probe -> ToolResult)
    requires world.listReplicas(FileDid(lock.name)) != []
    requires |AvailableSites(world.listReplicas(FileDid(lock.name))[0].states)| != 1
    ensures ProcessStuckLock(lock, world, date) == ProcessStuckLock(lock, World(world.listReplicas, otherTool), date)
    ensures ProcessStuckLock(lock, world, date).Success? ==> ProcessStuckLock(lock, world, date) == Success(NoAction)
    ensures var record := world.listReplicas(FileDid(lock.name))[0];
      var av := AvailableSites(record.states);
      ProcessStuckLock(lock, world, date).Failure? <==> exists i :: 0 <= i < |av| && av[i].rse !in record.rses
  {
  }

  /** With exactly one AVAILABLE site listing a PFN, the checksum tool is
      asked about that site's first PFN, staged under the file's base name,
      and the verdict is declared against that site. */
  lemma LastReplicaIsVerified(lock: Lock, world: World, date: string)
    requires world.listReplicas(FileDid(lock.name)) != []
    requires var record := world.listReplicas(FileDid(lock.name))[0];
      var av := AvailableSites(record.states);
      |av| == 1 && av[0].rse in record.rses && record.rses[av[0].rse] != []
    ensures var record := world.listReplicas(FileDid(lock.name))[0];
      var site := AvailableSites(record.states)[0].rse;
      var probe := Probe(record.rses[site][0], ScratchDir + Basename(lock.name));
      ProcessStuckLock(lock, world, date)
        == CorruptionVerdict(world.checksumTool(probe), record.adler32, lock.name, site, date)
  {
    var record := world.listReplicas(FileDid(lock.name))[0];
    var site := AvailableSites(record.states)[0].rse;
    var candidate := LastReplicaCandidate(record);
    assert candidate == Success(Some(Candidate(site, record.rses[site][0])));
  }

  /** End to end for a last replica: when the checksum tool succeeds and
      its output reads as `digest` (`DigestOfToolOutput` says which outputs
      do), the lock's file is declared bad at its only AVAILABLE site if and
      only if the digest differs from the catalog's adler32; a matching
      digest leaves the catalog untouched. */
  lemma LastReplicaDeclaredIffCorrupted(lock: Lock, world: World, date: string, stdout: string, digest: string)
    requires world.listReplicas(FileDid(lock.name)) != []
    requires var record := world.listReplicas(FileDid(lock.name))[0];
      var av := AvailableSites(record.states);
      && |av| == 1 && av[0].rse in record.rses && record.rses[av[0].rse] != []
      && world.checksumTool(Probe(record.rses[av[0].rse][0], ScratchDir + Basename(lock.name)))
           == ToolResult(0, stdout)
    requires ChecksumDigest(stdout) == Success(digest)
    ensures var record := world.listReplicas(FileDid(lock.name))[0];
      var site := AvailableSites(record.states)[0].rse;
      && (record.adler32 == Some(digest) ==> ProcessStuckLock(lock, world, date) == Success(NoAction))
      && (record.adler32 != Some(digest) ==>
            ProcessStuckLock(lock, world, date) == Success(DeclareBad(site, [FileDid(lock.name)], Reason(date))))
  {
    LastReplicaIsVerified(lock, world, date);
  }

  /** What scanning one rule produced: the outcome of each stuck lock
      processed, in order, and the fault that aborted the scan, if any. */
  datatype ScanReport = ScanReport(outcomes: seq<Action>, failure: Option<Fault>)

  /** Lines 20-27: select the stuck locks, then process each one in order.
      Every stuck lock is processed exactly once and in the rule's order,
      until one raises: the scan then stops with that fault, keeping the
      outcomes (and so the declarations) of the locks before it. */
  method ScanRule(locks: seq<Lock>, world: World, date: string) returns (report: ScanReport)
    ensures var stuck := StuckLocks(locks);
      && |report.outcomes| <= |stuck|
      && (forall i :: 0 <= i < |report.outcomes| ==>
            ProcessStuckLock(stuck[i], world, date) == Success(report.outcomes[i]))
      && (report.failure.None? ==> |report.outcomes| == |stuck|)
      && (report.failure.Some? ==>
            && |report.outcomes| < |stuck|
            && ProcessStuckLock(stuck[|report.outcomes|], world, date) == Failure(report.failure.value))
  {
    var stuck: seq<Lock> := [];
    var i := 0;
    while i < |locks|
      invariant 0 <= i <= |locks|
      invariant stuck == StuckLocks(locks[..i])
    {
      StuckLocksInOrder(locks[..i], [locks[i]]);
      assert locks[..i + 1] == locks[..i] + [locks[i]];
      if locks[i].state != Healthy {
        stuck := stuck + [locks[i]];
      }
      i := i + 1;
    }
    assert locks[..i] == locks;

    var outcomes: seq<Action> := [];
    var j := 0;
    while j < |stuck|
      invariant 0 <= j <= |stuck|
      invariant |outcomes| == j
      invariant forall k :: 0 <= k < j ==> ProcessStuckLock(stuck[k], world, date) == Success(outcomes[k])
    {
      var r := ProcessStuckLock(stuck[j], world, date);
      if r.Failure? {
        return ScanReport(outcomes, Some(r.error));
      }
      outcomes := outcomes + [r.value];
      j := j + 1;
    }
    report := ScanReport(outcomes, None);
  }
}
