# Last-replica corruption invalidator, modelled in Dafny

The script `rule_corrupted_last_replicas_invalidator.py` audits Rucio replication
rules for the CMS experiment. For one rule it lists the rule's replica locks,
keeps those whose state is not `OK` (the stuck locks), and for each stuck
lock's file looks at the per-site replica states. When exactly one site holds
the file in state `AVAILABLE`, that copy is the last replica: the script copies
it from its first PFN with `gfal-copy`, computes its adler32 with `gfal-sum`,
and, when the tool succeeds and its digest differs from the catalog's adler32,
declares the replica bad at that site, for the file in scope `cms`, with the
reason `last replica corrupted operation perfomed by fgomezco on <date>`.

The model is functional. The catalog client and the checksum tool become a
`World` value: a function from a data identifier to what `list_replicas`
returns, and a function from a `Probe` (the PFN copied and the local path
summed) to what `gfal-sum` returns. The one catalog mutation is returned as
an `Action` (`NoAction` or `DeclareBad(rse, dids, reason)`). The Python
exceptions the script can raise on malformed answers are `Fault` values.
Nothing in the script catches them, so an exception ends the whole run: the
rest of the rule is not scanned, and neither are the remaining rules of
`main`'s loop (lines 119-120). Declarations already made stay made, so a scan
reports the outcomes so far and the fault.

Files:
- `results.dfy` (`Results`): `Option` and `Result`.
- `seqs.dfy` (`Seqs`): order-preserving `Filter` and its lemmas.
- `text.dfy` (`Text`): Python's `str.isspace`, the first element of `str.splitlines`, `str.split()`
  and `split('/')[-1]`.
- `catalog.dfy` (`Catalog`): constants, data identifiers, locks, replica
  records, actions, faults and the declaration reason.
- `last_replica.dfy` (`LastReplica`): counting AVAILABLE sites and choosing
  the last replica.
- `checksum.dfy` (`Checksum`): reading the tool's answer and the declare-bad
  decision.
- `scanner.dfy` (`Scanner`): the stuck-lock filter, per-lock processing and
  the scan of one rule.

Observations on the code:
- The catalog's `adler32` is modelled as optional, because Rucio can return
  `None`. `None` never equals a string, so a successful tool run whose first
  output line has a second field then always leads to a declaration. Output
  with no line, or with fewer than two fields on its first line, still raises
  at line 76 or 77 and declares nothing.
- A non-zero `gfal-sum` return code ends the check of that file with no
  mutation. The code has no special case for any return code, including 2.
- The script creates no re-replication ("kick") rules. It does nothing
  special when every replica is UNAVAILABLE, gives return code 2 no special
  meaning, and does not use the rule's target expression: the lookup of the
  rule itself is commented out (line 19). The model does none of these
  either.
- Only the first element of `list_replicas` is read. Sites are visited in the
  iteration order of its `"states"` dictionary.

## Model

| member | source | states |
|---|---|---|
| Scanner.StuckLocksExactly | rule_corrupted_last_replicas_invalidator.py:21-25 | a lock is in the stuck list exactly as often as in the rule's list if its state is not "OK", and never otherwise |
| Scanner.StuckLocksInOrder | rule_corrupted_last_replicas_invalidator.py:22-25 | the stuck list keeps the rule's order: the stuck locks of a concatenation are those of each part, in turn |
| Scanner.ScanRule | rule_corrupted_last_replicas_invalidator.py:20-27 | every stuck lock is processed once, in order; a fault stops the scan at that lock, and the earlier outcomes are kept |
| Scanner.ProcessStuckLock | rule_corrupted_last_replicas_invalidator.py:30-55 | a declaration names only the file's unique AVAILABLE site, the file in scope "cms", and the run's reason; the missing-record fault (line 37) happens exactly when the catalog lists no record for the file |
| Scanner.NoVerificationUnlessLastReplica | rule_corrupted_last_replicas_invalidator.py:44-55 | with zero or several AVAILABLE sites nothing is declared and the result does not depend on the checksum tool; processing fails exactly when an AVAILABLE site is missing from "rses" (line 49) |
| Scanner.LastReplicaIsVerified | rule_corrupted_last_replicas_invalidator.py:47-54 | with one AVAILABLE site, the tool is asked about that site's first PFN, staged under the file's base name, and the verdict targets that site |
| Scanner.LastReplicaDeclaredIffCorrupted | rule_corrupted_last_replicas_invalidator.py:30-85 | for a last replica whose tool run succeeds with a readable digest, the file is declared bad at its site if and only if that digest differs from the catalog adler32 |
| LastReplica.CountAvailable | rule_corrupted_last_replicas_invalidator.py:40-49 | the count equals the number of sites in state exactly "AVAILABLE"; the PFN lists are theirs, in iteration order; the last site is the final AVAILABLE one; the first AVAILABLE site missing from "rses" is the fault |
| LastReplica.SummarisesSnoc | rule_corrupted_last_replicas_invalidator.py:45-49 | one loop step on an AVAILABLE site adds one to the count, appends its PFN list and makes it the last site |
| LastReplica.OnlyAvailableSitesCount | rule_corrupted_last_replicas_invalidator.py:44-46 | a site in any other state, UNAVAILABLE included, contributes nothing: removing it leaves the AVAILABLE sites unchanged |
| LastReplica.LastReplicaCandidate | rule_corrupted_last_replicas_invalidator.py:40-54 | verification is requested if and only if exactly one site is AVAILABLE, for that site and its first PFN; faults exactly when an AVAILABLE site is missing from "rses" (line 49), or when the only AVAILABLE site lists no PFN (line 52) |
| Checksum.ChecksumDigest | rule_corrupted_last_replicas_invalidator.py:76-77 | the digest is the second field of the first line; it fails exactly when the output is empty (missing-line fault) or its first line has fewer than two fields (missing-field fault) |
| Checksum.DigestOfToolOutput | rule_corrupted_last_replicas_invalidator.py:76-77 | a first line of optional whitespace, a field, whitespace, the digest and anything starting with whitespace, then a line break and more output or nothing, yields the digest |
| Checksum.CorruptionVerdict | rule_corrupted_last_replicas_invalidator.py:72-85 | a non-zero return code gives no mutation whatever the output; on success a declaration happens exactly when the digest differs from the catalog adler32, with rse, did and reason as the script sends them |
| Checksum.VerdictOnDigest | rule_corrupted_last_replicas_invalidator.py:76-85 | on a successful run whose first line carries the digest as its second field, a matching digest gives no mutation and a differing one gives exactly one declaration |
| Text.FirstLine | rule_corrupted_last_replicas_invalidator.py:76 | the first line exists exactly when the output is non-empty; it is a prefix with no line boundary that runs to a boundary or to the end |
| Text.FirstLineOf | rule_corrupted_last_replicas_invalidator.py:76 | a text free of line boundaries, followed by a boundary or by nothing, is the first line |
| Text.Tokens | rule_corrupted_last_replicas_invalidator.py:76 | the fields are non-empty and whitespace-free, and together spell the line without its whitespace |
| Text.TokensSkipSpace | rule_corrupted_last_replicas_invalidator.py:76 | a whitespace character in front of a string adds no field |
| Text.TokensSkipSpaces | rule_corrupted_last_replicas_invalidator.py:76 | a run of leading whitespace adds no field |
| Text.TokensAfterWord | rule_corrupted_last_replicas_invalidator.py:76 | a maximal run of non-whitespace at the front is the first field, whole; with the two lemmas above this fixes the fields of every string |
| Text.TokensOfJoin | rule_corrupted_last_replicas_invalidator.py:76 | splitting words joined by single spaces gives the words back |
| Text.Basename | rule_corrupted_last_replicas_invalidator.py:65 | the base name is the suffix after the last '/': it has no '/', and it is the whole name when the name has none |
| Text.BasenameOfPath | rule_corrupted_last_replicas_invalidator.py:65 | the base name of `dir/base` is `base` |
| Catalog.Reason | rule_corrupted_last_replicas_invalidator.py:8-11 | the reason names the operator and ends with the run date |
| Catalog.ReasonInjective | rule_corrupted_last_replicas_invalidator.py:9-11 | runs on different dates give different reasons |

## Left out

- The Rucio client and its calls (`list_replica_locks`, `list_replicas`, `declare_bad_did_replicas`) are network I/O. Their answers are inputs and the declaration is a returned `Action`. The value returned by `declare_bad_did_replicas` is printed but not used, so it is not modelled.
- The `gfal-copy` and `gfal-sum` subprocesses are external tools. Only the probe and the answer of `gfal-sum` are modelled. The return code of `gfal-copy` is ignored by the script (line 68).
- Decoding the tool's output as UTF-8 (line 76) is not modelled: the output is given as text, so a decoding error is not represented.
- `date.today()` (line 9) reads the clock, so the date is a parameter.
- `read_rules_from_file` and `main` are file I/O and command-line handling. Running `get_stuck_locks_for_rule` over several rules is not modelled. The `strip()` loop at lines 93-94 rebinds a loop variable only, so rule identifiers keep their line endings; this matters only there.
- Scanner.ScanRule: the collaborators' answers are one fixed `World` for the whole scan. The model does not represent three things. First, a declaration made earlier in the run is not visible to later `list_replicas` calls (line 35 after line 81). So two stuck locks of the same file, as a rule with two copies has, give two identical declarations, where the real catalog might answer differently the second time. Second, a `declare_bad_did_replicas` call that raises and ends the run. Third, a leftover `/tmp/<basename>` from an earlier file or run, which `gfal-sum` checksums when the ignored `gfal-copy` fails (line 68). The checksum answer is given per probe instead.
- Catalog.Reason: its contract fixes where the operator and the date appear, not the exact fixed words around them. The words are those of line 11, spelling "perfomed" included.
- Console output (lines 73 and 83) is not modelled.
- The return values of the Python functions (`None`, `0`) carry no information and are not modelled.
- Python's dictionaries are modelled as a sequence of states in iteration order plus a map. The model does not require distinct site names, because the code never relies on it.
