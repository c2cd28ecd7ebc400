/** `test_if_it_is_last_file_replica`, lines 40-54: walk a file's per-site
    states, count the AVAILABLE sites, collect their PFN lists and remember
    the last one; a file whose only usable copy sits at one site is handed
    on for checksum verification at that site's first PFN. */
module LastReplica {
  import opened Results
  import opened Seqs
  import opened Catalog

  /** A site whose state is exactly "AVAILABLE"; UNAVAILABLE and every
      other state do not count. */
  predicate IsAvailable(site: SiteState)
  {
    site.state == Available
  }

  /** The AVAILABLE entries of a states dictionary, in iteration order. */
  function AvailableSites(states: seq<SiteState>): seq<SiteState>
  {
    Filter(states, IsAvailable)
  }

  /** The loop's three accumulators: `counter_availables`,
      `pfn_sources_to_test` and `last_replica_rse`. */
  datatype Tally = Tally(count: nat, pfnLists: seq<seq<string>>, last: Option<string>)

  /** `tally` is what the loop holds after visiting the AVAILABLE sites `av`:
      their number, their PFN lists in order, and the last of them. */
  predicate Summarises(tally: Tally, av: seq<SiteState>, rses: map<string, seq<string>>)
  {
    && tally.count == |av|
    && |tally.pfnLists| == |av|
    && (forall i :: 0 <= i < |av| ==> av[i].rse in rses && tally.pfnLists[i] == rses[av[i].rse])
    && tally.last == (if av == [] then None else Some(av[|av| - 1].rse))
  }

  /** Visiting one more AVAILABLE site extends the summary by that site. */
  lemma SummarisesSnoc(tally: Tally, av: seq<SiteState>, rses: map<string, seq<string>>, site: SiteState)
    requires Summarises(tally, av, rses)
    requires site.rse in rses
    ensures Summarises(Tally(tally.count + 1, tally.pfnLists + [rses[site.rse]], Some(site.rse)), av + [site], rses)
  {
  }

  /** `rse` is the first of the AVAILABLE sites `av` missing from `rses`:
      the one whose lookup raises KeyError. */
  predicate FirstUnlisted(av: seq<SiteState>, rses: map<string, seq<string>>, rse: string)
  {
    exists k :: 0 <= k < |av| && av[k].rse !in rses && av[k].rse == rse
                && forall j :: 0 <= j < k ==> av[j].rse in rses
  }

  /** Visiting more sites does not change which site raised first. */
  lemma FirstUnlistedExtends(av: seq<SiteState>, rses: map<string, seq<string>>, rse: string, more: seq<SiteState>)
    requires FirstUnlisted(av, rses, rse)
    ensures FirstUnlisted(av + more, rses, rse)
  {
    var k :| 0 <= k < |av| && av[k].rse !in rses && av[k].rse == rse
             && forall j :: 0 <= j < k ==> av[j].rse in rses;
    assert (av + more)[k] == av[k];
    assert forall j :: 0 <= j < k ==> (av + more)[j] == av[j];
  }

  /** When every earlier site is listed, an unlisted site raises first. */
  lemma FirstUnlistedAtEnd(tally: Tally, av: seq<SiteState>, rses: map<string, seq<string>>, site: SiteState)
    requires Summarises(tally, av, rses)
    requires site.rse !in rses
    ensures FirstUnlisted(av + [site], rses, site.rse)
  {
    assert (av + [site])[|av|] == site;
    assert forall j :: 0 <= j < |av| ==> (av + [site])[j] == av[j];
  }

  /** The loop of lines 44-49 run over `states` in order. It fails with the
      first AVAILABLE site missing from `rses` (Python's KeyError); otherwise
      the count is the number of AVAILABLE sites, the PFN lists are theirs in
      iteration order, and the last site is the final AVAILABLE one. */
  function CountAvailable(states: seq<SiteState>, rses: map<string, seq<string>>): (r: Result<Tally, Fault>)
    ensures r.Success? ==> Summarises(r.value, AvailableSites(states), rses)
    ensures r.Failure? ==> r.error.MissingPfns? && FirstUnlisted(AvailableSites(states), rses, r.error.rse)
    decreases |states|
  {
    if states == [] then Success(Tally(0, [], None))
    else
      var init := states[..|states| - 1];
      var site := states[|states| - 1];
      AvailableSnoc(init, site);
      assert states == init + [site];
      match CountAvailable(init, rses)
      case Failure(fault) =>
        FirstUnlistedExtends(AvailableSites(init), rses, fault.rse,
                             if IsAvailable(site) then [site] else []);
        Failure(fault)
      case Success(tally) =>
        if !IsAvailable(site) then Success(tally)
        else if site.rse !in rses then
          FirstUnlistedAtEnd(tally, AvailableSites(init), rses, site);
          Failure(MissingPfns(site.rse))
        else
          SummarisesSnoc(tally, AvailableSites(init), rses, site);
          Success(Tally(tally.count + 1, tally.pfnLists + [rses[site.rse]], Some(site.rse)))
  }

  /** Appending a site appends it to the available sites exactly when it is
      AVAILABLE. */
  lemma AvailableSnoc(init: seq<SiteState>, site: SiteState)
    ensures AvailableSites(init + [site])
         == AvailableSites(init) + (if IsAvailable(site) then [site] else [])
  {
    FilterAppend(init, [site], IsAvailable);
  }

  /** A site whose state is anything but "AVAILABLE" (UNAVAILABLE included)
      contributes nothing: dropping it leaves the available sites unchanged. */
  lemma OnlyAvailableSitesCount(states: seq<SiteState>, i: nat)
    requires i < |states| && !IsAvailable(states[i])
    ensures AvailableSites(states) == AvailableSites(states[..i] + states[i + 1..])
  {
    assert states == states[..i] + [states[i]] + states[i + 1..];
    FilterAppend(states[..i] + [states[i]], states[i + 1..], IsAvailable);
    FilterAppend(states[..i], [states[i]], IsAvailable);
    FilterAppend(states[..i], states[i + 1..], IsAvailable);
  }

  /** The replica to verify: its site and the PFN the copy is made from. */
  datatype Candidate = Candidate(rse: string, pfn: string)

  /** Lines 40-54 up to the call of `is_corrupted_replica`. Verification is
      requested exactly when one site is AVAILABLE, and then for that site
      and the first PFN listed for it; zero or several AVAILABLE sites
      request nothing. The faults are the KeyError of line 49 and the
      IndexError of line 52 (the only available site lists no PFN). */
  function LastReplicaCandidate(record: ReplicaRecord): (r: Result<Option<Candidate>, Fault>)
    ensures var av := AvailableSites(record.states);
      r.Failure? <==>
        || (exists i :: 0 <= i < |av| && av[i].rse !in record.rses)
        || (|av| == 1 && av[0].rse in record.rses && record.rses[av[0].rse] == [])
    ensures r.Failure? ==> r.error.MissingPfns? || r.error.NoPfn?
    ensures var av := AvailableSites(record.states);
      r.Success? ==> (r.value.Some? <==> |av| == 1)
    ensures var av := AvailableSites(record.states);
      r.Success? && r.value.Some? ==>
        r.value.value == Candidate(av[0].rse, record.rses[av[0].rse][0])
  {
    match CountAvailable(record.states, record.rses)
    case Failure(fault) => Failure(fault)
    case Success(tally) =>
      if tally.count != 1 then Success(None)
      else if tally.pfnLists[0] == [] then Failure(NoPfn(tally.last.value))
      else Success(Some(Candidate(tally.last.value, tally.pfnLists[0][0])))
  }
}
