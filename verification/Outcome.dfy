/** Reconciling a run's records with its catalogue, and the verdict: test/e2e/catalogue/outcome.go. */
module Outcome {
  import opened Sequences

  type CheckID = string

  datatype State = Demonstrated | NotReached | Failed | OtherState(text: string)

  datatype SkipReason =
    | NoReason | Unauthorized | Window | Shape | NotForceable
    | Blocked | Budget | NeverRan | Unclassified | OtherReason(text: string)

  datatype Tier = Forceable | Authorized | Opportunistic | Unforceable | OtherTier(text: string)

  datatype Check = Check(id: CheckID, tier: Tier)

  datatype Record = Record(id: CheckID, state: State, reason: SkipReason, detail: string, elapsed: int)

  datatype Verdict = VerdictDemonstrated | VerdictFailed | VerdictIncomplete

  datatype Summary = Summary(
    verdict: Verdict, demonstrated: nat, notReached: nat, failed: nat, total: nat, strict: bool,
    unclassifiedSkips: nat, missingForceable: nat, records: seq<Record>)

  function StateSeverity(state: State): nat {
    match state
    case Failed => 3
    case NotReached => 2
    case Demonstrated => 1
    case OtherState(_) => 0
  }

  function Silent(id: CheckID): Record {
    Record(id, NotReached, NeverRan, "", 0)
  }

  // ---------------------------------------------------------------------------------------
  // Reconcile
  // ---------------------------------------------------------------------------------------

  /** The record kept for each identifier: a later one replaces it only when strictly worse. */
  function Kept(recorded: seq<Record>): (m: map<CheckID, Record>)
    ensures forall id :: id in m ==> m[id].id == id
  {
    if recorded == [] then map[]
    else
      var n := |recorded| - 1;
      var before, rec := Kept(recorded[..n]), recorded[n];
      if rec.id in before && StateSeverity(before[rec.id].state) >= StateSeverity(rec.state) then before
      else before[rec.id := rec]
  }

  ghost predicate Recorded(recorded: seq<Record>, id: CheckID) {
    exists i :: 0 <= i < |recorded| && recorded[i].id == id
  }

  /** Record `i` is the first one among the worst of its identifier. */
  ghost predicate FirstWorst(recorded: seq<Record>, i: int) {
    && 0 <= i < |recorded|
    && (forall j :: 0 <= j < |recorded| && recorded[j].id == recorded[i].id ==>
          StateSeverity(recorded[j].state) <= StateSeverity(recorded[i].state))
    && (forall j :: 0 <= j < i && recorded[j].id == recorded[i].id ==>
          StateSeverity(recorded[j].state) < StateSeverity(recorded[i].state))
  }

  lemma {:induction false} KeptIsFirstWorst(recorded: seq<Record>, id: CheckID)
    ensures id in Kept(recorded) <==> Recorded(recorded, id)
    ensures id in Kept(recorded) ==>
              exists i :: FirstWorst(recorded, i) && recorded[i].id == id && Kept(recorded)[id] == recorded[i]
    decreases |recorded|
  {
    if recorded != [] {
      var n := |recorded| - 1;
      KeptIsFirstWorst(recorded[..n], id);
      if id in Kept(recorded[..n]) {
        var i :| && FirstWorst(recorded[..n], i) && recorded[..n][i].id == id
                 && Kept(recorded[..n])[id] == recorded[..n][i];
        KeptStep(recorded, id, i);
      } else if recorded[n].id == id {
        FreshIsWorst(recorded, id);
      } else {
        StillAbsent(recorded, id);
      }
    }
  }

  lemma KeptStep(recorded: seq<Record>, id: CheckID, i: nat)
    requires recorded != [] && FirstWorst(recorded[..|recorded| - 1], i) && recorded[i].id == id
    requires var before := Kept(recorded[..|recorded| - 1]); id in before && before[id] == recorded[i]
    ensures id in Kept(recorded) && Recorded(recorded, id)
    ensures exists k :: FirstWorst(recorded, k) && recorded[k].id == id && Kept(recorded)[id] == recorded[k]
  {
    var n := |recorded| - 1;
    if recorded[n].id == id && StateSeverity(recorded[i].state) < StateSeverity(recorded[n].state) {
      WorstReplaced(recorded, i);
    } else {
      WorstStays(recorded, i);
    }
  }

  lemma WorstReplaced(recorded: seq<Record>, i: nat)
    requires recorded != [] && FirstWorst(recorded[..|recorded| - 1], i)
    requires var last := recorded[|recorded| - 1];
      last.id == recorded[i].id && StateSeverity(recorded[i].state) < StateSeverity(last.state)
    ensures FirstWorst(recorded, |recorded| - 1)
  {
    var init := recorded[..|recorded| - 1];
    assert forall j :: 0 <= j < |init| ==> recorded[j] == init[j];
  }

  lemma WorstStays(recorded: seq<Record>, i: nat)
    requires recorded != [] && FirstWorst(recorded[..|recorded| - 1], i)
    requires var last := recorded[|recorded| - 1];
      last.id != recorded[i].id || StateSeverity(last.state) <= StateSeverity(recorded[i].state)
    ensures FirstWorst(recorded, i)
  {
    var init := recorded[..|recorded| - 1];
    assert forall j :: 0 <= j < |init| ==> recorded[j] == init[j];
  }

  lemma FreshIsWorst(recorded: seq<Record>, id: CheckID)
    requires recorded != [] && recorded[|recorded| - 1].id == id && !Recorded(recorded[..|recorded| - 1], id)
    ensures FirstWorst(recorded, |recorded| - 1) && Recorded(recorded, id)
  {
    var init := recorded[..|recorded| - 1];
    assert forall j :: 0 <= j < |init| ==> recorded[j] == init[j];
  }

  lemma StillAbsent(recorded: seq<Record>, id: CheckID)
    requires recorded != [] && recorded[|recorded| - 1].id != id && !Recorded(recorded[..|recorded| - 1], id)
    ensures !Recorded(recorded, id)
  {
    var init := recorded[..|recorded| - 1];
    assert forall j :: 0 <= j < |init| ==> recorded[j] == init[j];
  }

  function IDs(records: seq<Record>): (ids: seq<CheckID>)
    ensures |ids| == |records| && forall i :: 0 <= i < |ids| ==> ids[i] == records[i].id
  {
    seq(|records|, i requires 0 <= i < |records| => records[i].id)
  }

  function CheckIDs(selected: seq<Check>): (ids: seq<CheckID>)
    ensures |ids| == |selected| && forall i :: 0 <= i < |ids| ==> ids[i] == selected[i].id
  {
    seq(|selected|, i requires 0 <= i < |selected| => selected[i].id)
  }

  /** What reconciliation records for one identifier. */
  function Completed(kept: map<CheckID, Record>, id: CheckID): (r: Record) {
    if id in kept then kept[id] else Silent(id)
  }

  function CompletedAll(kept: map<CheckID, Record>, ids: seq<CheckID>): (r: seq<Record>)
    ensures |r| == |ids| && forall i :: 0 <= i < |r| ==> r[i] == Completed(kept, ids[i])
  {
    seq(|ids|, i requires 0 <= i < |ids| => Completed(kept, ids[i]))
  }

  /** Recorded identifiers that were not selected, each once, in order of first appearance. */
  function Strays(selected: seq<CheckID>, recorded: seq<CheckID>): (ids: seq<CheckID>)
    ensures forall id :: id in ids <==> id in recorded && id !in selected
    ensures forall i, j :: 0 <= i < j < |ids| ==> ids[i] != ids[j]
  {
    if recorded == [] then []
    else
      var n := |recorded| - 1;
      var before := Strays(selected, recorded[..n]);
      assert recorded == recorded[..n] + [recorded[n]];
      if recorded[n] in selected || recorded[n] in before then before else before + [recorded[n]]
  }

  /** The specification of Reconcile. */
  function Reconciled(selected: seq<Check>, recorded: seq<Record>): (r: seq<Record>) {
    CompletedAll(Kept(recorded), CheckIDs(selected) + Strays(CheckIDs(selected), IDs(recorded)))
  }

  method Reconcile(selected: seq<Check>, recorded: seq<Record>) returns (complete: seq<Record>)
    ensures complete == Reconciled(selected, recorded)
  {
    var seen: map<CheckID, Record> := map[];
    for i := 0 to |recorded|
      invariant seen == Kept(recorded[..i])
    {
      var rec := recorded[i];
      assert recorded[..i + 1][..i] == recorded[..i];
      if rec.id in seen && StateSeverity(seen[rec.id].state) >= StateSeverity(rec.state) {
        continue;
      }
      seen := seen[rec.id := rec];
    }
    assert recorded[..|recorded|] == recorded;
    var selectedIDs;
    complete, selectedIDs := CompleteSelected(selected, seen);
    complete := AppendStrays(CheckIDs(selected), selectedIDs, recorded, seen, complete);
    CompletedConcat(seen, CheckIDs(selected), Strays(CheckIDs(selected), IDs(recorded)));
  }

  lemma CompletedConcat(kept: map<CheckID, Record>, a: seq<CheckID>, b: seq<CheckID>)
    ensures CompletedAll(kept, a + b) == CompletedAll(kept, a) + CompletedAll(kept, b)
  {
  }

  lemma CompletedMore(kept: map<CheckID, Record>, start: seq<Record>, ids: seq<CheckID>, id: CheckID)
    requires id in kept
    ensures start + CompletedAll(kept, ids + [id]) == start + CompletedAll(kept, ids) + [kept[id]]
  {
    CompletedConcat(kept, ids, [id]);
    assert CompletedAll(kept, [id]) == [kept[id]];
  }

  /** One entry per selected check, in catalogue order. */
  method CompleteSelected(selected: seq<Check>, seen: map<CheckID, Record>)
    returns (complete: seq<Record>, selectedIDs: set<CheckID>)
    ensures complete == CompletedAll(seen, CheckIDs(selected))
    ensures forall id :: id in selectedIDs <==> id in CheckIDs(selected)
  {
    selectedIDs := {};
    complete := [];
    for i := 0 to |selected|
      invariant |complete| == i
      invariant forall j :: 0 <= j < i ==> complete[j] == Completed(seen, selected[j].id)
      invariant forall id :: id in selectedIDs <==> id in CheckIDs(selected)[..i]
    {
      var entry := selected[i];
      assert CheckIDs(selected)[..i + 1] == CheckIDs(selected)[..i] + [entry.id];
      selectedIDs := selectedIDs + {entry.id};
      if entry.id in seen {
        complete := complete + [seen[entry.id]];
        continue;
      }
      complete := complete + [Record(entry.id, NotReached, NeverRan, "", 0)];
    }
    assert CheckIDs(selected)[..|selected|] == CheckIDs(selected);
  }

  /** The second loop: what was recorded about checks outside the selection follows, in order of appearance. */
  method AppendStrays(ghost ids: seq<CheckID>, selectedIDs: set<CheckID>, recorded: seq<Record>,
                      seen: map<CheckID, Record>, start: seq<Record>)
    returns (complete: seq<Record>)
    requires seen == Kept(recorded)
    requires forall id :: id in selectedIDs <==> id in ids
    ensures complete == start + CompletedAll(seen, Strays(ids, IDs(recorded)))
  {
    hide Strays, Kept;
    complete := start;
    var appended: set<CheckID> := {};
    StraysOfNone(ids);
    ghost var all := IDs(recorded);
    for i := 0 to |recorded|
      invariant complete == start + CompletedAll(seen, Strays(ids, all[..i]))
      invariant forall id :: id in appended <==> id in Strays(ids, all[..i])
    {
      var rec := recorded[i];
      StrayStep(ids, recorded, i);
      if rec.id in selectedIDs || rec.id in appended {
        continue;
      }
      appended := appended + {rec.id};
      CompletedMore(seen, start, Strays(ids, all[..i]), rec.id);
      complete := complete + [seen[rec.id]];
    }
    assert all[..|all|] == all;
  }

  lemma StraysOfNone(ids: seq<CheckID>)
    ensures Strays(ids, []) == []
  {
  }

  lemma StrayStep(ids: seq<CheckID>, recorded: seq<Record>, i: nat)
    requires i < |recorded|
    ensures recorded[i].id in Kept(recorded)
    ensures var before, id := Strays(ids, IDs(recorded)[..i]), recorded[i].id;
      Strays(ids, IDs(recorded)[..i + 1]) == if id in ids || id in before then before else before + [id]
  {
    assert IDs(recorded)[..i + 1][..i] == IDs(recorded)[..i];
    assert Recorded(recorded, recorded[i].id);
    KeptIsFirstWorst(recorded, recorded[i].id);
  }

  // ---------------------------------------------------------------------------------------
  // What reconciliation promises
  // ---------------------------------------------------------------------------------------

  /** Selected checks first, in their order, then strays in order of first appearance; no
      identifier is repeated unless the selection repeats it. */
  lemma ReconcileOrder(selected: seq<Check>, recorded: seq<Record>)
    ensures IDs(Reconciled(selected, recorded)) == CheckIDs(selected) + Strays(CheckIDs(selected), IDs(recorded))
    ensures Distinct(IDs(Reconciled(selected, recorded))) <==> Distinct(CheckIDs(selected))
  {
    var a, b := CheckIDs(selected), Strays(CheckIDs(selected), IDs(recorded));
    assert IDs(Reconciled(selected, recorded)) == a + b;
    if Distinct(a + b) {
      forall i, j | 0 <= i < j < |a| ensures a[i] != a[j] {
        assert (a + b)[i] == a[i] && (a + b)[j] == a[j];
      }
    }
    if Distinct(a) {
      forall i, j | 0 <= i < j < |a + b| ensures (a + b)[i] != (a + b)[j] {
        assert i < |a| ==> (a + b)[i] in a;
        assert |a| <= j ==> (a + b)[j] in b;
      }
    }
  }

  /** Each identifier carries the first of its worst records, or a "never executed" skip. */
  lemma ReconcileWorst(selected: seq<Check>, recorded: seq<Record>, k: nat)
    requires k < |Reconciled(selected, recorded)|
    ensures var r := Reconciled(selected, recorded)[k];
      if Recorded(recorded, r.id) then exists i :: FirstWorst(recorded, i) && recorded[i] == r else r == Silent(r.id)
  {
    var ids := CheckIDs(selected) + Strays(CheckIDs(selected), IDs(recorded));
    KeptIsFirstWorst(recorded, ids[k]);
  }

  /** The severity kept for an identifier does not depend on the order of the records, and for
      the three catalogued states neither does the state. */
  lemma KeptOrderFree(a: seq<Record>, b: seq<Record>, id: CheckID)
    requires multiset(a) == multiset(b)
    ensures id in Kept(a) <==> id in Kept(b)
    ensures id in Kept(a) ==> StateSeverity(Kept(a)[id].state) == StateSeverity(Kept(b)[id].state)
    ensures id in Kept(a) && StateSeverity(Kept(a)[id].state) > 0 ==> Kept(a)[id].state == Kept(b)[id].state
  {
    KeptIsFirstWorst(a, id);
    KeptIsFirstWorst(b, id);
    KeptBelow(a, b, id);
    KeptBelow(b, a, id);
  }

  lemma KeptBelow(a: seq<Record>, b: seq<Record>, id: CheckID)
    requires multiset(a) == multiset(b)
    ensures id in Kept(a) ==>
              id in Kept(b) && StateSeverity(Kept(a)[id].state) <= StateSeverity(Kept(b)[id].state)
  {
    KeptIsFirstWorst(a, id);
    KeptIsFirstWorst(b, id);
    if id in Kept(a) {
      var i :| FirstWorst(a, i) && a[i].id == id && Kept(a)[id] == a[i];
      assert a[i] in multiset(b);
      var j :| 0 <= j < |b| && b[j] == a[i];
    }
  }

  ghost predicate RecordedAs(recorded: seq<Record>, id: CheckID, state: State) {
    exists i :: 0 <= i < |recorded| && recorded[i].id == id && recorded[i].state == state
  }

  /** A failure outranks a skip, a skip outranks a demonstration, and each outranks an unknown state. */
  lemma WorstIsKept(recorded: seq<Record>, id: CheckID)
    ensures RecordedAs(recorded, id, Failed) ==> id in Kept(recorded) && Kept(recorded)[id].state == Failed
    ensures !RecordedAs(recorded, id, Failed) && RecordedAs(recorded, id, NotReached) ==>
              id in Kept(recorded) && Kept(recorded)[id].state == NotReached
    ensures !RecordedAs(recorded, id, Failed) && !RecordedAs(recorded, id, NotReached)
            && RecordedAs(recorded, id, Demonstrated) ==>
              id in Kept(recorded) && Kept(recorded)[id].state == Demonstrated
  {
    hide Kept;
    KeptIsFirstWorst(recorded, id);
    if id in Kept(recorded) {
      var i :| FirstWorst(recorded, i) && recorded[i].id == id && Kept(recorded)[id] == recorded[i];
      assert RecordedAs(recorded, id, recorded[i].state);
    }
  }

  /** Some record of the identifier is in a state the catalogue knows. */
  ghost predicate Catalogued(recorded: seq<Record>, id: CheckID) {
    exists i :: 0 <= i < |recorded| && recorded[i].id == id && StateSeverity(recorded[i].state) > 0
  }

  ghost predicate StatesAgree(recorded: seq<Record>, id: CheckID) {
    forall i, j :: 0 <= i < |recorded| && 0 <= j < |recorded| && recorded[i].id == id && recorded[j].id == id
      ==> recorded[i].state == recorded[j].state
  }

  /** No reordering of `a` keeps another state for the identifier. */
  ghost predicate OrderFree(a: seq<Record>, id: CheckID) {
    forall b: seq<Record> :: multiset(b) == multiset(a) && id in Kept(a) && id in Kept(b) ==>
      Kept(b)[id].state == Kept(a)[id].state
  }

  /** The state kept does not depend on the order of the records exactly when a catalogued state was
      recorded for the identifier, or all its unknown states agree. */
  lemma KeptOrderFreeIff(a: seq<Record>, id: CheckID)
    requires Recorded(a, id)
    ensures OrderFree(a, id) <==> Catalogued(a, id) || StatesAgree(a, id)
  {
    hide Kept, Catalogued, StatesAgree, OrderFree;
    KeptIsFirstWorst(a, id);
    if Catalogued(a, id) || StatesAgree(a, id) {
      SettledState(a, id);
    } else {
      UnsettledState(a, id);
    }
  }

  lemma SettledState(a: seq<Record>, id: CheckID)
    requires Recorded(a, id) && (Catalogued(a, id) || StatesAgree(a, id))
    ensures OrderFree(a, id)
  {
    hide Kept;
    KeptIsFirstWorst(a, id);
    forall b: seq<Record> | multiset(b) == multiset(a) && id in Kept(b)
      ensures Kept(b)[id].state == Kept(a)[id].state
    {
      if Catalogued(a, id) {
        KeptOrderFree(a, b, id);
      } else {
        AgreedState(a, b, id);
      }
    }
  }

  lemma UnsettledState(a: seq<Record>, id: CheckID)
    requires id in Kept(a) && !Catalogued(a, id) && !StatesAgree(a, id)
    ensures !OrderFree(a, id)
  {
    hide Kept;
    var i, j :| 0 <= i < |a| && 0 <= j < |a| && a[i].id == id && a[j].id == id && a[i].state != a[j].state;
    var k := if Kept(a)[id].state == a[i].state then j else i;
    MovedFirst(a, id, k);
  }

  lemma AgreedState(a: seq<Record>, b: seq<Record>, id: CheckID)
    requires multiset(a) == multiset(b) && StatesAgree(a, id) && id in Kept(a) && id in Kept(b)
    ensures Kept(b)[id].state == Kept(a)[id].state
  {
    hide Kept;
    KeptIsFirstWorst(a, id);
    KeptIsFirstWorst(b, id);
    var i :| FirstWorst(b, i) && b[i].id == id && Kept(b)[id] == b[i];
    assert b[i] in multiset(a);
    var j :| 0 <= j < |a| && a[j] == b[i];
  }

  /** Among records in unknown states only, the one moved to the front is the one kept. */
  lemma MovedFirst(a: seq<Record>, id: CheckID, k: nat)
    requires k < |a| && a[k].id == id && !Catalogued(a, id)
    ensures var b := [a[k]] + a[..k] + a[k + 1..];
      multiset(b) == multiset(a) && id in Kept(b) && Kept(b)[id] == a[k]
  {
    hide Kept;
    var b := [a[k]] + a[..k] + a[k + 1..];
    assert a == a[..k] + [a[k]] + a[k + 1..];
    forall x | 0 <= x < |b| && b[x].id == id ensures StateSeverity(b[x].state) == 0 {
      var y := if x == 0 then k else if x <= k then x - 1 else x;
      assert b[x] == a[y];
    }
    assert b[0].id == id;
    KeptIsFirstWorst(b, id);
    var i :| FirstWorst(b, i) && b[i].id == id && Kept(b)[id] == b[i];
    assert i == 0;
  }

  /** Two unknown states of one check: whichever was recorded first is kept. */
  lemma UnknownStatesDependOnOrder(id: CheckID)
    ensures var x, y := Record(id, OtherState("a"), NoReason, "", 0), Record(id, OtherState("b"), NoReason, "", 0);
      && multiset([x, y]) == multiset([y, x])
      && Kept([x, y])[id].state == OtherState("a") && Kept([y, x])[id].state == OtherState("b")
  {
    var x, y := Record(id, OtherState("a"), NoReason, "", 0), Record(id, OtherState("b"), NoReason, "", 0);
    assert [x] + [x, y][..0] + [x, y][1..] == [x, y];
    assert [y] + [x, y][..1] + [x, y][2..] == [y, x];
    MovedFirst([x, y], id, 0);
    MovedFirst([x, y], id, 1);
  }

  lemma {:induction false} StraysOfOwn(selected: seq<CheckID>, strays: seq<CheckID>)
    requires Distinct(strays) && forall id :: id in strays ==> id !in selected
    ensures Strays(selected, selected + strays) == strays
    decreases |strays|
  {
    if strays == [] {
      StraysOfSelected(selected, selected);
      assert selected + strays == selected;
    } else {
      var n := |strays| - 1;
      var init := strays[..n];
      StraysOfOwn(selected, init);
      assert selected + strays == (selected + init) + [strays[n]];
      assert strays == init + [strays[n]];
      StraysAppend(selected, selected + init, strays[n]);
    }
  }

  lemma StraysAppend(selected: seq<CheckID>, all: seq<CheckID>, id: CheckID)
    ensures var before := Strays(selected, all);
      Strays(selected, all + [id]) == if id in selected || id in before then before else before + [id]
  {
    assert (all + [id])[..|all|] == all;
  }

  lemma {:induction false} StraysOfSelected(selected: seq<CheckID>, ids: seq<CheckID>)
    requires forall id :: id in ids ==> id in selected
    ensures Strays(selected, ids) == []
    decreases |ids|
  {
    if ids != [] {
      StraysOfSelected(selected, ids[..|ids| - 1]);
    }
  }

  lemma KeptOfReconciled(selected: seq<Check>, recorded: seq<Record>, id: CheckID)
    requires id in CheckIDs(selected) + Strays(CheckIDs(selected), IDs(recorded))
    ensures Completed(Kept(Reconciled(selected, recorded)), id) == Completed(Kept(recorded), id)
  {
    var ids := CheckIDs(selected) + Strays(CheckIDs(selected), IDs(recorded));
    var r := Reconciled(selected, recorded);
    var k :| 0 <= k < |ids| && ids[k] == id;
    assert r[k].id == id;
    KeptIsFirstWorst(r, id);
    var i :| FirstWorst(r, i) && r[i].id == id && Kept(r)[id] == r[i];
    assert r[i] == Completed(Kept(recorded), ids[i]);
  }

  lemma ReconcileIdempotent(selected: seq<Check>, recorded: seq<Record>)
    ensures Reconciled(selected, Reconciled(selected, recorded)) == Reconciled(selected, recorded)
  {
    var chosen := CheckIDs(selected);
    var strays := Strays(chosen, IDs(recorded));
    var r := Reconciled(selected, recorded);
    ReconcileOrder(selected, recorded);
    StraysOfOwn(chosen, strays);
    forall i | 0 <= i < |r| ensures Completed(Kept(r), (chosen + strays)[i]) == r[i] {
      KeptOfReconciled(selected, recorded, (chosen + strays)[i]);
    }
  }

  // ---------------------------------------------------------------------------------------
  // Summarize
  // ---------------------------------------------------------------------------------------

  function ClassifiedReason(reason: SkipReason): SkipReason {
    if reason == NoReason then Unclassified else reason
  }

  predicate SkipExplainsTier(tier: Tier, reason: SkipReason) {
    match reason
    case Budget | Blocked | NeverRan => true
    case Unauthorized => tier == Authorized
    case Window | Shape => tier == Opportunistic
    case NotForceable => tier == Unforceable
    case _ => false
  }

  /** The state recorded is none the catalogue entry allows. */
  predicate Incoherent(entry: Check, rec: Record) {
    if rec.state == NotReached && rec.reason == Unclassified then true
    else if rec.state == NotReached && rec.reason == NeverRan then true
    else if entry.tier == Unforceable && rec.state == Demonstrated then true
    else rec.state == NotReached && !SkipExplainsTier(entry.tier, rec.reason)
  }

  /** What each tier can be recorded as: a check that can be forced is demonstrated or fails, or was kept from
      running; one that cannot is never demonstrated; the others may be skipped for their own reasons. */
  lemma CoherentExactly(entry: Check, rec: Record)
    ensures !Incoherent(entry, rec) <==>
              match rec.state
              case Demonstrated => entry.tier != Unforceable
              case NotReached =>
                || rec.reason in {Budget, Blocked}
                || (entry.tier == Authorized && rec.reason == Unauthorized)
                || (entry.tier == Opportunistic && rec.reason in {Window, Shape})
                || (entry.tier == Unforceable && rec.reason == NotForceable)
              case _ => true
  {
  }

  /** A strict verdict "demonstrated": no check failed, and each check of the selection was demonstrated, or
      waits on a window or shape that did not come, or cannot be forced. */
  lemma StrictRunMeans(selected: seq<Check>, records: seq<Record>, k: nat)
    requires k < |selected| && selected[k].id in LastByID(records)
    requires !AnyFailed(records) && AllSkipsExcused(records) && Coherent(selected, records)
    ensures var entry, rec := selected[k], LastByID(records)[selected[k].id];
      match rec.state
      case Demonstrated => entry.tier != Unforceable
      case NotReached =>
        || (entry.tier == Opportunistic && rec.reason in {Window, Shape})
        || (entry.tier == Unforceable && rec.reason == NotForceable)
      case Failed => false
      case OtherState(_) => true
  {
    LastByIDMember(records, selected[k].id);
    CoherentExactly(selected[k], LastByID(records)[selected[k].id]);
  }

  /** The last record of each identifier. */
  function LastByID(records: seq<Record>): (m: map<CheckID, Record>)
  {
    if records == [] then map[]
    else LastByID(records[..|records| - 1])[records[|records| - 1].id := records[|records| - 1]]
  }

  lemma {:induction false} LastByIDMember(records: seq<Record>, id: CheckID)
    ensures id in LastByID(records) <==> Recorded(records, id)
    ensures id in LastByID(records) ==>
              exists i :: 0 <= i < |records| && records[i].id == id && LastByID(records)[id] == records[i]
    decreases |records|
  {
    if records != [] {
      var n := |records| - 1;
      LastByIDMember(records[..n], id);
      if records[n].id != id && id in LastByID(records) {
        var i :| 0 <= i < n && records[..n][i].id == id && LastByID(records[..n])[id] == records[..n][i];
        assert records[i].id == id;
      } else if records[n].id != id {
        StillAbsent(records, id);
      }
    }
  }

  function InState(records: seq<Record>, state: State): nat {
    if records == [] then 0
    else InState(records[..|records| - 1], state) + (if records[|records| - 1].state == state then 1 else 0)
  }

  function Skips(records: seq<Record>, reason: SkipReason): nat {
    if records == [] then 0
    else
      var rec := records[|records| - 1];
      Skips(records[..|records| - 1], reason) + (if rec.state == NotReached && rec.reason == reason then 1 else 0)
  }

  predicate Excused(reason: SkipReason) {
    reason == NotForceable || reason == Window || reason == Shape
  }

  /** Checks that were not reached for a reason strict coverage does not excuse. */
  function Unexcused(records: seq<Record>): nat {
    if records == [] then 0
    else
      var rec := records[|records| - 1];
      Unexcused(records[..|records| - 1]) + (if rec.state == NotReached && !Excused(rec.reason) then 1 else 0)
  }

  function Tally(byReason: map<SkipReason, nat>, reason: SkipReason): nat {
    if reason in byReason then byReason[reason] else 0
  }

  function ShortCoverage(notReached: nat, byReason: map<SkipReason, nat>): nat {
    var short := notReached - Tally(byReason, NotForceable) - Tally(byReason, Window) - Tally(byReason, Shape);
    if short < 0 then 0 else short
  }

  function Decide(counted: Summary, byReason: map<SkipReason, nat>, incoherent: bool): Verdict {
    if counted.failed > 0 then VerdictFailed
    else if incoherent then VerdictFailed
    else if Tally(byReason, Budget) > 0 then VerdictIncomplete
    else if counted.strict && ShortCoverage(counted.notReached, byReason) > 0 then VerdictIncomplete
    else VerdictDemonstrated
  }

  /** The counts by reason never exceed the total, so the clamp in shortCoverage never acts. */
  lemma {:induction false} SkipsPartition(records: seq<Record>)
    ensures InState(records, NotReached)
         == Skips(records, NotForceable) + Skips(records, Window) + Skips(records, Shape) + Unexcused(records)
    decreases |records|
  {
    if records != [] {
      SkipsPartition(records[..|records| - 1]);
    }
  }

  ghost predicate AnyFailed(records: seq<Record>) {
    exists i :: 0 <= i < |records| && records[i].state == Failed
  }

  ghost predicate AllSkipsExcused(records: seq<Record>) {
    forall i :: 0 <= i < |records| && records[i].state == NotReached ==> Excused(records[i].reason)
  }

  ghost predicate AnyBudgetSkip(records: seq<Record>) {
    exists i :: 0 <= i < |records| && records[i].state == NotReached && records[i].reason == Budget
  }

  ghost predicate Coherent(selected: seq<Check>, records: seq<Record>) {
    forall k :: 0 <= k < |selected| && selected[k].id in LastByID(records) ==>
      !Incoherent(selected[k], LastByID(records)[selected[k].id])
  }

  lemma {:induction false} CountFailed(records: seq<Record>)
    ensures InState(records, Failed) > 0 <==> AnyFailed(records)
    decreases |records|
  {
    if records != [] {
      var n := |records| - 1;
      CountFailed(records[..n]);
      if AnyFailed(records) && records[n].state != Failed {
        var i :| 0 <= i < |records| && records[i].state == Failed;
        assert records[..n][i].state == Failed;
      }
      if AnyFailed(records[..n]) {
        var i :| 0 <= i < n && records[..n][i].state == Failed;
        assert records[i].state == Failed;
      }
    }
  }

  lemma {:induction false} CountUnexcused(records: seq<Record>)
    ensures Unexcused(records) == 0 <==> AllSkipsExcused(records)
    decreases |records|
  {
    if records != [] {
      var n := |records| - 1;
      CountUnexcused(records[..n]);
      assert forall i :: 0 <= i < n ==> records[..n][i] == records[i];
    }
  }

  lemma {:induction false} CountBudget(records: seq<Record>)
    ensures Skips(records, Budget) > 0 <==> AnyBudgetSkip(records)
    decreases |records|
  {
    if records != [] {
      var n := |records| - 1;
      CountBudget(records[..n]);
      assert forall i :: 0 <= i < n ==> records[..n][i] == records[i];
    }
  }

  ghost predicate Counted(result: Summary, byReason: map<SkipReason, nat>, records: seq<Record>) {
    && result.demonstrated == InState(records, Demonstrated)
    && result.failed == InState(records, Failed)
    && result.notReached == InState(records, NotReached)
    && result.unclassifiedSkips == Skips(records, NoReason) + Skips(records, Unclassified)
    && forall reason :: Tally(byReason, reason) == Skips(records, reason)
  }

  lemma NothingCounted()
    ensures LastByID([]) == map[] && (forall st :: InState([], st) == 0) && forall reason :: Skips([], reason) == 0
  {
  }

  lemma CountStep(records: seq<Record>, i: nat)
    requires i < |records|
    ensures var rec := records[i];
      && LastByID(records[..i + 1]) == LastByID(records[..i])[rec.id := rec]
      && (forall st :: InState(records[..i + 1], st) == InState(records[..i], st) + (if rec.state == st then 1 else 0))
      && (forall reason :: Skips(records[..i + 1], reason)
                        == Skips(records[..i], reason)
                           + (if rec.state == NotReached && rec.reason == reason then 1 else 0))
  {
    assert records[..i + 1][..i] == records[..i];
  }

  /** The tally after one more record, where the record is a skip and where it is none. */
  lemma TallyStep(records: seq<Record>, i: nat, byReason: map<SkipReason, nat>)
    requires i < |records| && forall reason :: Tally(byReason, reason) == Skips(records[..i], reason)
    ensures var rec := records[i];
      var more := byReason[rec.reason := Tally(byReason, rec.reason) + 1];
      var after := if rec.state == NotReached then more else byReason;
      forall reason :: Tally(after, reason) == Skips(records[..i + 1], reason)
  {
    assert records[..i + 1][..i] == records[..i];
    assert forall reason :: Tally(byReason, reason) == Skips(records[..i], reason);
    var rec := records[i];
    var more := byReason[rec.reason := Tally(byReason, rec.reason) + 1];
    var after := if rec.state == NotReached then more else byReason;
    forall reason ensures Tally(after, reason) == Skips(records[..i + 1], reason) {
      assert Tally(byReason, reason) == Skips(records[..i], reason);
    }
  }

  method CountRecords(records: seq<Record>, strict: bool)
    returns (result: Summary, byReason: map<SkipReason, nat>, byID: map<CheckID, Record>)
    ensures Counted(result, byReason, records) && byID == LastByID(records)
    ensures result.total == |records| && result.strict == strict && result.records == records
    ensures result.missingForceable == 0
  {
    hide InState, Skips, LastByID;
    NothingCounted();
    result := Summary(VerdictFailed, 0, 0, 0, |records|, strict, 0, 0, records);
    byReason, byID := map[], map[];
    for i := 0 to |records|
      invariant Counted(result, byReason, records[..i]) && byID == LastByID(records[..i])
      invariant result.total == |records| && result.strict == strict && result.records == records
      invariant result.missingForceable == 0
    {
      var rec := records[i];
      CountStep(records, i);
      TallyStep(records, i, byReason);
      byID := byID[rec.id := rec];
      match rec.state {
        case Demonstrated => result := result.(demonstrated := result.demonstrated + 1);
        case Failed => result := result.(failed := result.failed + 1);
        case NotReached =>
          result := result.(notReached := result.notReached + 1);
          byReason := byReason[rec.reason := Tally(byReason, rec.reason) + 1];
          if ClassifiedReason(rec.reason) == Unclassified {
            result := result.(unclassifiedSkips := result.unclassifiedSkips + 1);
          }
        case OtherState(_) =>
      }
    }
    assert records[..|records|] == records;
  }

  /** Forceable checks of the selection that the records say were not reached. */
  function MissingForceable(selected: seq<Check>, byID: map<CheckID, Record>): nat {
    if selected == [] then 0
    else
      var entry := selected[|selected| - 1];
      MissingForceable(selected[..|selected| - 1], byID)
      + (if entry.id in byID && entry.tier == Forceable && byID[entry.id].state == NotReached then 1 else 0)
  }

  /** The verdict fails exactly on a failed record or an incoherent check. A strict run is
      demonstrated exactly when, beyond that, every skip is excused; any other run when no skip
      ran out of budget. */
  method Summarize(selected: seq<Check>, records: seq<Record>, strict: bool) returns (result: Summary)
    ensures result.total == |records| && result.strict == strict && result.records == records
    ensures result.demonstrated == InState(records, Demonstrated)
    ensures result.failed == InState(records, Failed)
    ensures result.notReached == InState(records, NotReached)
    ensures result.unclassifiedSkips == Skips(records, NoReason) + Skips(records, Unclassified)
    ensures result.missingForceable == MissingForceable(selected, LastByID(records))
    ensures result.verdict == VerdictFailed <==> AnyFailed(records) || !Coherent(selected, records)
    ensures result.verdict == VerdictDemonstrated
       <==> && !AnyFailed(records) && Coherent(selected, records)
            && (if strict then AllSkipsExcused(records) else !AnyBudgetSkip(records))
  {
    hide InState, Skips, LastByID, Incoherent;
    var byReason, byID;
    result, byReason, byID := CountRecords(records, strict);
    var incoherent := false;
    for k := 0 to |selected|
      invariant result.missingForceable == MissingForceable(selected[..k], byID)
      invariant Counted(result, byReason, records)
      invariant result.total == |records| && result.strict == strict && result.records == records
      invariant incoherent <==>
                  exists j :: 0 <= j < k && selected[j].id in byID && Incoherent(selected[j], byID[selected[j].id])
    {
      var entry := selected[k];
      assert selected[..k + 1][..k] == selected[..k];
      if entry.id !in byID {
        continue;
      }
      var rec := byID[entry.id];
      if entry.tier == Forceable && rec.state == NotReached {
        result := result.(missingForceable := result.missingForceable + 1);
      }
      if Incoherent(entry, rec) {
        incoherent := true;
      }
    }
    assert selected[..|selected|] == selected;
    VerdictMeans(selected, records, result, byReason, incoherent);
    result := result.(verdict := Decide(result, byReason, incoherent));
  }

  lemma VerdictMeans(selected: seq<Check>, records: seq<Record>, result: Summary,
                     byReason: map<SkipReason, nat>, incoherent: bool)
    requires Counted(result, byReason, records) && (incoherent <==> !Coherent(selected, records))
    ensures var verdict := Decide(result, byReason, incoherent);
      && (verdict == VerdictFailed <==> AnyFailed(records) || !Coherent(selected, records))
      && (verdict == VerdictDemonstrated
          <==> && !AnyFailed(records) && Coherent(selected, records)
               && (if result.strict then AllSkipsExcused(records) else !AnyBudgetSkip(records)))
  {
    SkipsPartition(records);
    CountFailed(records);
    CountUnexcused(records);
    CountBudget(records);
    assert ShortCoverage(result.notReached, byReason) == Unexcused(records);
    if AnyBudgetSkip(records) {
      var i :| 0 <= i < |records| && records[i].state == NotReached && records[i].reason == Budget;
      assert !Excused(records[i].reason);
    }
  }

  // ---------------------------------------------------------------------------------------
  // Reconciled runs
  // ---------------------------------------------------------------------------------------

  lemma LastOfReconciled(selected: seq<Check>, recorded: seq<Record>, id: CheckID)
    requires id in CheckIDs(selected)
    ensures id in LastByID(Reconciled(selected, recorded))
    ensures LastByID(Reconciled(selected, recorded))[id] == Completed(Kept(recorded), id)
  {
    var r := Reconciled(selected, recorded);
    var ids := CheckIDs(selected) + Strays(CheckIDs(selected), IDs(recorded));
    var k :| 0 <= k < |selected| && CheckIDs(selected)[k] == id;
    assert r[k] == Completed(Kept(recorded), ids[k]);
    assert r[k].id == id;
    LastByIDMember(r, id);
    var i :| 0 <= i < |r| && r[i].id == id && LastByID(r)[id] == r[i];
    assert r[i] == Completed(Kept(recorded), ids[i]);
  }

  /** A selected check that no record mentions makes the reconciled run incoherent. */
  lemma SilenceIsIncoherent(selected: seq<Check>, recorded: seq<Record>, k: nat)
    requires k < |selected| && !Recorded(recorded, selected[k].id)
    ensures !Coherent(selected, Reconciled(selected, recorded))
  {
    assert CheckIDs(selected)[k] == selected[k].id;
    LastOfReconciled(selected, recorded, selected[k].id);
    KeptIsFirstWorst(recorded, selected[k].id);
  }

  /** Reconciliation hides no failure and invents none. */
  lemma FailureSurvives(selected: seq<Check>, recorded: seq<Record>)
    ensures AnyFailed(Reconciled(selected, recorded)) <==> AnyFailed(recorded)
  {
    var r := Reconciled(selected, recorded);
    var ids := CheckIDs(selected) + Strays(CheckIDs(selected), IDs(recorded));
    if AnyFailed(recorded) {
      var i :| 0 <= i < |recorded| && recorded[i].state == Failed;
      var id := recorded[i].id;
      assert IDs(recorded)[i] == id;
      KeptIsFirstWorst(recorded, id);
      assert id in ids;
      var k :| 0 <= k < |ids| && ids[k] == id;
      assert r[k] == Kept(recorded)[id];
    }
    if AnyFailed(r) {
      var k :| 0 <= k < |r| && r[k].state == Failed;
      ReconcileWorst(selected, recorded, k);
      var i :| FirstWorst(recorded, i) && recorded[i] == r[k];
    }
  }

  /** Reconcile, then summarize. Any recorded failure and any silent selected check fail the
      run; a strict run is demonstrated exactly when nothing failed, every reconciled skip is
      excused and every selected check is coherent. */
  method Judge(selected: seq<Check>, recorded: seq<Record>, strict: bool) returns (result: Summary)
    ensures result.records == Reconciled(selected, recorded)
    ensures AnyFailed(recorded) ==> result.verdict == VerdictFailed
    ensures (exists k :: 0 <= k < |selected| && !Recorded(recorded, selected[k].id)) ==> result.verdict == VerdictFailed
    ensures strict ==>
              (result.verdict == VerdictDemonstrated
               <==> && !AnyFailed(recorded)
                    && AllSkipsExcused(Reconciled(selected, recorded))
                    && forall k :: 0 <= k < |selected| ==>
                         !Incoherent(selected[k], Completed(Kept(recorded), selected[k].id)))
  {
    var complete := Reconcile(selected, recorded);
    result := Summarize(selected, complete, strict);
    FailureSurvives(selected, recorded);
    if k :| 0 <= k < |selected| && !Recorded(recorded, selected[k].id) {
      SilenceIsIncoherent(selected, recorded, k);
    }
    CoherentMeans(selected, recorded);
  }

  lemma CoherentMeans(selected: seq<Check>, recorded: seq<Record>)
    ensures Coherent(selected, Reconciled(selected, recorded))
       <==> forall k :: 0 <= k < |selected| ==> !Incoherent(selected[k], Completed(Kept(recorded), selected[k].id))
  {
    forall k | 0 <= k < |selected|
      ensures selected[k].id in LastByID(Reconciled(selected, recorded))
      ensures LastByID(Reconciled(selected, recorded))[selected[k].id] == Completed(Kept(recorded), selected[k].id)
    {
      assert CheckIDs(selected)[k] == selected[k].id;
      LastOfReconciled(selected, recorded, selected[k].id);
    }
  }
}
