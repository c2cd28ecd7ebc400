/** `is_corrupted_replica`: stage the last replica locally, read the checksum
    tool's answer, and decide whether to declare the replica bad. The copy and
    checksum subprocesses themselves are outside the model: only the request
    made of them (`Probe`) and the checksum tool's answer (`ToolResult`) are. */
module Checksum {
  import opened Results
  import opened Text
  import opened Catalog

  /** The local directory the replica is copied into. */
  const ScratchDir: string := "/tmp/"

  /** The two commands run for one replica: `gfal-copy <pfn> /tmp/`, then
      `gfal-sum <localPath> adler32`. */
  datatype Probe = Probe(pfn: string, localPath: string)

  /** What `gfal-sum` reports: its return code and its decoded standard output. */
  datatype ToolResult = ToolResult(returncode: int, stdout: string)

  /** The probe for replica `pfn` of file `name`: the staged copy is named
      after the file's base name. */
  function ProbeFor(pfn: string, name: string): Probe
  {
    Probe(pfn, ScratchDir + Basename(name))
  }

  /** The digest printed by the checksum tool: the second whitespace-separated
      field of the first output line. Python raises IndexError when there is
      no line or no second field; those are the two faults. */
  function ChecksumDigest(stdout: string): (r: Result<string, Fault>)
    ensures r.Failure? <==> stdout == [] || |Tokens(FirstLine(stdout).value)| < 2
    ensures r.Failure? ==> (r.error == NoChecksumLine <==> stdout == [])
    ensures r.Success? ==> r.value == Tokens(FirstLine(stdout).value)[1]
    ensures r.Success? ==> r.value != [] && NoSpace(r.value)
  {
    match FirstLine(stdout)
    case None => Failure(NoChecksumLine)
    case Some(line) =>
      var fields := Tokens(line);
      if |fields| < 2 then Failure(NoChecksumField(line)) else Success(fields[1])
  }

  /** A first line made of optional whitespace, a field, whitespace, the
      digest, and then anything that starts with whitespace (more fields,
      trailing blanks), followed by a line break and more output or by
      nothing, yields the digest. */
  lemma DigestOfToolOutput(lead: string, field: string, sep: string, digest: string, tail: string, more: string)
    requires AllSpace(lead) && AllSpace(sep) && sep != []
    requires field != [] && NoSpace(field)
    requires digest != [] && NoSpace(digest)
    requires tail == [] || IsSpace(tail[0])
    requires NoLineBreak(lead + field + sep + digest + tail)
    requires more == [] || IsLineBreak(more[0])
    ensures ChecksumDigest(lead + field + sep + digest + tail + more) == Success(digest)
  {
    var line := lead + field + sep + digest + tail;
    FirstLineOf(line, more);
    assert line == lead + (field + (sep + (digest + tail)));
    TokensSkipSpaces(lead, field + (sep + (digest + tail)));
    TokensAfterWord(field, sep + (digest + tail));
    TokensSkipSpaces(sep, digest + tail);
    TokensAfterWord(digest, tail);
  }

  /** The decision of lines 72-85 on the checksum tool's answer: a non-zero
      return code ends the check with no mutation and without reading the
      output; otherwise the replica is declared bad at `rse`, for file `name`
      in scope "cms" and with the run's reason, exactly when the printed
      digest differs from the catalog's adler32 (compared as strings). */
  function CorruptionVerdict(result: ToolResult, adler32: Option<string>, name: string, rse: string, date: string)
    : (r: Result<Action, Fault>)
    ensures result.returncode != 0 ==> r == Success(NoAction)
    ensures r.Failure? <==> result.returncode == 0 && ChecksumDigest(result.stdout).Failure?
    ensures r.Failure? ==> r.error.NoChecksumLine? || r.error.NoChecksumField?
    ensures r.Success? && r.value.DeclareBad? <==>
              && result.returncode == 0
              && ChecksumDigest(result.stdout).Success?
              && Some(ChecksumDigest(result.stdout).value) != adler32
    ensures r.Success? && r.value.DeclareBad? ==> r.value == DeclareBad(rse, [FileDid(name)], Reason(date))
  {
    if result.returncode != 0 then Success(NoAction)
    else
      match ChecksumDigest(result.stdout)
      case Failure(fault) => Failure(fault)
      case Success(local) =>
        if Some(local) != adler32 then Success(DeclareBad(rse, [FileDid(name)], Reason(date)))
        else Success(NoAction)
  }

  /** On a successful run whose first line reads `<field> <digest> ...`,
      the replica is declared bad if and only if the digest differs from the
      catalog's adler32, and a match leaves the catalog untouched. */
  lemma VerdictOnDigest(lead: string, field: string, sep: string, digest: string, tail: string, more: string,
                        adler32: Option<string>, name: string, rse: string, date: string)
    requires AllSpace(lead) && AllSpace(sep) && sep != []
    requires field != [] && NoSpace(field)
    requires digest != [] && NoSpace(digest)
    requires tail == [] || IsSpace(tail[0])
    requires NoLineBreak(lead + field + sep + digest + tail)
    requires more == [] || IsLineBreak(more[0])
    ensures var stdout := lead + field + sep + digest + tail + more;
      var r := CorruptionVerdict(ToolResult(0, stdout), adler32, name, rse, date);
      && (adler32 == Some(digest) ==> r == Success(NoAction))
      && (adler32 != Some(digest) ==> r == Success(DeclareBad(rse, [FileDid(name)], Reason(date))))
  {
    DigestOfToolOutput(lead, field, sep, digest, tail, more);
  }
}
