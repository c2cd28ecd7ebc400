/** The catalog's vocabulary as the script sees it: data identifiers, replica
    locks, per-site replica states, the record returned by `list_replicas`, the
    single mutation the script performs, and the faults that abort it. */
module Catalog {
  import opened Results

  /** `SCOPE`: every file the script handles lives in this scope. */
  const Scope: string := "cms"
  /** `OPERATOR`: the account named in every declaration reason. */
  const Operator: string := "fgomezco"
  /** The lock state of a healthy lock; every other state is stuck. */
  const Healthy: string := "OK"
  /** The only replica state that counts as a usable copy. */
  const Available: string := "AVAILABLE"

  /** The fixed text of `REASON` up to the operator name (the spelling
      "perfomed" is the script's). */
  const ReasonLead: string := "last replica corrupted operation perfomed by "
  /** The fixed text between the operator name and the date. */
  const ReasonOn: string := " on "

  /** A data identifier `{"scope": ..., "name": ...}`. */
  datatype Did = Did(scope: string, name: string)

  /** One entry of `list_replica_locks`: the file it tracks and its state. */
  datatype Lock = Lock(name: string, state: string)

  /** One entry of a replica record's `"states"` dictionary, in the
      dictionary's iteration order. */
  datatype SiteState = SiteState(rse: string, state: string)

  /** The first record of `list_replicas(..., all_states=True)`: the catalog's
      adler32 (absent when the catalog holds none), the per-site states, and
      the per-site PFN lists (the `"rses"` dictionary). */
  datatype ReplicaRecord = ReplicaRecord(
    adler32: Option<string>,
    states: seq<SiteState>,
    rses: map<string, seq<string>>)

  /** The catalog mutation a file's processing results in. */
  datatype Action =
    | NoAction
    | DeclareBad(rse: string, dids: seq<Did>, reason: string)

  /** The exceptions the script raises on malformed collaborator answers;
      nothing catches them, so each one ends the run. */
  datatype Fault =
    | NoReplicaRecord(name: string)        // `list_replicas` returned nothing
    | MissingPfns(rse: string)             // an AVAILABLE site absent from `"rses"`
    | NoPfn(rse: string)                   // the last replica's PFN list is empty
    | NoChecksumLine                       // the checksum tool printed nothing
    | NoChecksumField(line: string)        // its first line has fewer than two fields

  /** `file_did` (lines 33 and 66): the identifier of file `name` in the
      script's scope. */
  function FileDid(name: string): Did
  {
    Did(Scope, name)
  }

  /** `REASON` for a run on `date`: it names the operator and ends with the
      date, so a declaration can be attributed to who made it and when. */
  function Reason(date: string): (r: string)
    ensures |r| == |ReasonLead| + |Operator| + |ReasonOn| + |date|
    ensures r[|ReasonLead|..|ReasonLead| + |Operator|] == Operator
    ensures r[|r| - |date|..] == date
  {
    ReasonLead + Operator + ReasonOn + date
  }

  /** Distinct run dates give distinct reasons. */
  lemma ReasonInjective(d1: string, d2: string)
    requires Reason(d1) == Reason(d2)
    ensures d1 == d2
  {
  }
}
