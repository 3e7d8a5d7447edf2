/** The findings section of the run report: test/e2e/report/report.go. It applies the coherence rule
    of the catalogue a second time, in code of its own. */
module Report {
  import opened Outcome

  predicate TierExcuses(tier: Tier, reason: SkipReason) {
    match reason
    case Budget | Blocked | NeverRan => true
    case Unauthorized => tier == Authorized
    case Window | Shape => tier == Opportunistic
    case NotForceable => tier == Unforceable
    case _ => false
  }

  /** checkFindings reports something. */
  predicate HasFinding(entry: Check, rec: Record) {
    || (rec.state == NotReached && rec.reason == Unclassified)
    || (rec.state == NotReached && rec.reason == NeverRan)
    || (entry.tier == Unforceable && rec.state == Demonstrated)
    || (rec.state == NotReached && !TierExcuses(entry.tier, rec.reason))
  }

  ghost predicate Found(selected: seq<Check>, records: seq<Record>, id: CheckID) {
    exists k :: FoundAt(selected, records, k, id)
  }

  ghost predicate FoundAt(selected: seq<Check>, records: seq<Record>, k: int, id: CheckID) {
    && 0 <= k < |selected| && selected[k].id == id
    && id in LastByID(records) && HasFinding(selected[k], LastByID(records)[id])
  }

  /** coherenceFindings, as the identifiers of the checks it names. */
  method CoherenceFindings(selected: seq<Check>, records: seq<Record>) returns (findings: seq<CheckID>)
    ensures forall id :: id in findings <==> Found(selected, records, id)
  {
    var byID: map<CheckID, Record> := map[];
    for i := 0 to |records|
      invariant byID == LastByID(records[..i])
    {
      assert records[..i + 1][..i] == records[..i];
      byID := byID[records[i].id := records[i]];
    }
    assert records[..|records|] == records;
    findings := [];
    for k := 0 to |selected|
      invariant forall id :: id in findings <==> Found(selected[..k], records, id)
    {
      FoundStep(selected, records, k);
      var entry := selected[k];
      assert forall id :: FoundAt(selected, records, k, id) ==> id == entry.id;
      assert FoundAt(selected, records, k, entry.id) <==> entry.id in byID && HasFinding(entry, byID[entry.id]);
      if entry.id !in byID {
        continue;
      }
      if HasFinding(entry, byID[entry.id]) {
        findings := findings + [entry.id];
      }
    }
    assert selected[..|selected|] == selected;
  }

  lemma FoundStep(selected: seq<Check>, records: seq<Record>, k: nat)
    requires k < |selected|
    ensures forall id ::
              Found(selected[..k + 1], records, id)
              <==> Found(selected[..k], records, id) || FoundAt(selected, records, k, id)
  {
    var before, after := selected[..k], selected[..k + 1];
    assert forall i, id :: 0 <= i < k ==> FoundAt(after, records, i, id) == FoundAt(before, records, i, id);
    forall id ensures Found(after, records, id) <==> Found(before, records, id) || FoundAt(selected, records, k, id) {
      assert FoundAt(after, records, k, id) == FoundAt(selected, records, k, id);
      if Found(before, records, id) {
        var i :| FoundAt(before, records, i, id);
        assert FoundAt(after, records, i, id);
      }
    }
  }

  /** Report and verdict never disagree: a run fails exactly when a record failed or the report has a
      finding to name. */
  method ReportAgrees(selected: seq<Check>, records: seq<Record>, strict: bool)
    returns (findings: seq<CheckID>, summary: Summary)
    ensures summary.verdict == VerdictFailed <==> AnyFailed(records) || findings != []
    ensures forall id :: id in findings <==> Found(selected, records, id)
  {
    findings := CoherenceFindings(selected, records);
    summary := Summarize(selected, records, strict);
    if findings != [] {
      ghost var id := findings[0];
      assert id in findings;
      ghost var k :| FoundAt(selected, records, k, id);
      assert Incoherent(selected[k], LastByID(records)[selected[k].id]);
    }
    forall k | 0 <= k < |selected| && selected[k].id in LastByID(records)
      ensures findings == [] ==> !Incoherent(selected[k], LastByID(records)[selected[k].id])
    {
      assert Incoherent(selected[k], LastByID(records)[selected[k].id])
        ==> FoundAt(selected, records, k, selected[k].id);
      assert Found(selected, records, selected[k].id) ==> |findings| > 0;
    }
  }
}
