/** Ledger reclamation: test/e2e/reclaim/reclaim.go and test/e2e/ledger_test.go. */
module Reclaim {
  import opened Sequences

  datatype ResourceKind = Volume | Attachment | OtherKind(text: string)

  /** One line of the ledger; an empty `volumeID` is a reservation by name. The time stamp plays
      no part and is left out. */
  datatype Entry = Entry(kind: ResourceKind, name: string, volumeID: string, serverID: string)

  predicate IsReservation(e: Entry) {
    e.kind == Volume && e.volumeID == ""
  }

  predicate IsObservation(e: Entry) {
    e.kind == Volume && e.volumeID != ""
  }

  // ---------------------------------------------------------------------------------------
  // ReclaimableEntries
  // ---------------------------------------------------------------------------------------

  function Reservations(entries: seq<Entry>, name: string): nat {
    if entries == [] then 0
    else
      var e := entries[|entries| - 1];
      Reservations(entries[..|entries| - 1], name) + (if IsReservation(e) && e.name == name then 1 else 0)
  }

  function Observations(entries: seq<Entry>, name: string): nat {
    if entries == [] then 0
    else
      var e := entries[|entries| - 1];
      Observations(entries[..|entries| - 1], name) + (if IsObservation(e) && e.name == name then 1 else 0)
  }

  /** The name was reserved more often than it was identified. */
  predicate Short(entries: seq<Entry>, name: string) {
    Reservations(entries, name) > Observations(entries, name)
  }

  /** Every observed identifier that was not there before the run, once. */
  function IDRows(entries: seq<Entry>, preexisting: set<string>): (rows: seq<Entry>)
    ensures forall e :: e in rows ==> IsObservation(e) && e in entries && e.volumeID !in preexisting
    ensures forall e :: e in entries && IsObservation(e) && e.volumeID !in preexisting ==> HasID(rows, e.volumeID)
    ensures forall i, j :: 0 <= i < j < |rows| ==> rows[i].volumeID != rows[j].volumeID
  {
    if entries == [] then []
    else
      var n := |entries| - 1;
      var before, e := IDRows(entries[..n], preexisting), entries[n];
      assert entries == entries[..n] + [e];
      if IsObservation(e) && e.volumeID !in preexisting && !HasID(before, e.volumeID) then
        var rows := before + [e];
        assert forall k :: 0 <= k < |before| ==> rows[k] == before[k];
        assert rows[|before|].volumeID == e.volumeID;
        rows
      else before
  }

  predicate HasID(rows: seq<Entry>, id: string) {
    exists k :: 0 <= k < |rows| && rows[k].volumeID == id
  }

  predicate HasName(rows: seq<Entry>, name: string) {
    exists k :: 0 <= k < |rows| && rows[k].name == name
  }

  /** One reservation row for every name that is short in the whole ledger `all`. */
  function NameRows(entries: seq<Entry>, all: seq<Entry>): (rows: seq<Entry>)
    ensures forall e :: e in rows ==> IsReservation(e) && Short(all, e.name)
    ensures forall e :: e in entries && IsReservation(e) && Short(all, e.name) ==> HasName(rows, e.name)
  {
    if entries == [] then []
    else
      var n := |entries| - 1;
      var before, e := NameRows(entries[..n], all), entries[n];
      assert entries == entries[..n] + [e];
      if IsReservation(e) && Short(all, e.name) && !HasName(before, e.name) then
        var rows := before + [e];
        assert forall k :: 0 <= k < |before| ==> rows[k] == before[k];
        assert rows[|before|].name == e.name;
        rows
      else before
  }

  /** The specification of ReclaimableEntries. */
  function Reclaimable(entries: seq<Entry>, preexisting: set<string>): seq<Entry> {
    IDRows(entries, preexisting) + NameRows(entries, entries)
  }

  function CountOf(counts: map<string, nat>, name: string): nat {
    if name in counts then counts[name] else 0
  }

  method ReclaimableEntries(entries: seq<Entry>, preexisting: set<string>) returns (out: seq<Entry>)
    ensures out == Reclaimable(entries, preexisting)
  {
    var reservations, observations;
    out, reservations, observations := CollectIDs(entries, preexisting);
    out := AppendNames(entries, reservations, observations, out);
  }

  method CollectIDs(entries: seq<Entry>, preexisting: set<string>)
    returns (out: seq<Entry>, reservations: map<string, nat>, observations: map<string, nat>)
    ensures out == IDRows(entries, preexisting)
    ensures forall name :: CountOf(reservations, name) == Reservations(entries, name)
    ensures forall name :: CountOf(observations, name) == Observations(entries, name)
  {
    out, reservations, observations := [], map[], map[];
    var seenID: set<string> := {};
    for i := 0 to |entries|
      invariant out == IDRows(entries[..i], preexisting)
      invariant forall id :: id in seenID <==> HasID(out, id)
      invariant forall name :: CountOf(reservations, name) == Reservations(entries[..i], name)
      invariant forall name :: CountOf(observations, name) == Observations(entries[..i], name)
    {
      var entry := entries[i];
      assert entries[..i + 1][..i] == entries[..i];
      if entry.kind != Volume {
        continue;
      }
      if entry.volumeID == "" {
        reservations := reservations[entry.name := CountOf(reservations, entry.name) + 1];
        continue;
      }
      observations := observations[entry.name := CountOf(observations, entry.name) + 1];
      if entry.volumeID in seenID || entry.volumeID in preexisting {
        continue;
      }
      seenID := seenID + {entry.volumeID};
      HasIDAppend(out, entry);
      out := out + [entry];
    }
    assert entries[..|entries|] == entries;
  }

  lemma HasIDAppend(rows: seq<Entry>, e: Entry)
    ensures forall id :: HasID(rows + [e], id) <==> HasID(rows, id) || id == e.volumeID
  {
    var more := rows + [e];
    forall id ensures HasID(more, id) <==> HasID(rows, id) || id == e.volumeID {
      if HasID(rows, id) {
        var k :| 0 <= k < |rows| && rows[k].volumeID == id;
        assert more[k].volumeID == id;
      }
      assert more[|rows|] == e;
    }
  }

  lemma HasNameAppend(rows: seq<Entry>, e: Entry)
    ensures forall name :: HasName(rows + [e], name) <==> HasName(rows, name) || name == e.name
  {
    var more := rows + [e];
    forall name ensures HasName(more, name) <==> HasName(rows, name) || name == e.name {
      if HasName(rows, name) {
        var k :| 0 <= k < |rows| && rows[k].name == name;
        assert more[k].name == name;
      }
      assert more[|rows|] == e;
    }
  }

  method AppendNames(entries: seq<Entry>, reservations: map<string, nat>, observations: map<string, nat>,
                     start: seq<Entry>) returns (out: seq<Entry>)
    requires forall name :: CountOf(reservations, name) == Reservations(entries, name)
    requires forall name :: CountOf(observations, name) == Observations(entries, name)
    ensures out == start + NameRows(entries, entries)
  {
    out := start;
    var seenName: set<string> := {};
    for i := 0 to |entries|
      invariant out == start + NameRows(entries[..i], entries)
      invariant forall name :: name in seenName <==> HasName(NameRows(entries[..i], entries), name)
    {
      var entry := entries[i];
      assert entries[..i + 1][..i] == entries[..i];
      if entry.kind != Volume || entry.volumeID != "" {
        continue;
      }
      if CountOf(reservations, entry.name) <= CountOf(observations, entry.name) || entry.name in seenName {
        continue;
      }
      seenName := seenName + {entry.name};
      HasNameAppend(NameRows(entries[..i], entries), entry);
      out := out + [entry];
    }
    assert entries[..|entries|] == entries;
  }

  // ---------------------------------------------------------------------------------------
  // MergeReclamationIDs
  // ---------------------------------------------------------------------------------------

  function Add(ids: seq<string>, id: string, preexisting: set<string>): (r: seq<string>)
    requires Distinct(ids)
    ensures Distinct(r)
    ensures forall x :: x in r <==> x in ids || (x == id && id !in preexisting)
  {
    if id in preexisting || id in ids then ids else ids + [id]
  }

  function AddAll(ids: seq<string>, more: seq<string>, preexisting: set<string>): (r: seq<string>)
    requires Distinct(ids)
    ensures Distinct(r)
    ensures forall x :: x in r <==> x in ids || (x in more && x !in preexisting)
  {
    if more == [] then ids
    else
      var n := |more| - 1;
      assert more == more[..n] + [more[n]];
      Add(AddAll(ids, more[..n], preexisting), more[n], preexisting)
  }

  function Matches(resolved: map<string, seq<string>>, name: string): seq<string> {
    if name in resolved then resolved[name] else []
  }

  /** The specification of MergeReclamationIDs. */
  function Merged(entries: seq<Entry>, resolved: map<string, seq<string>>, preexisting: set<string>): (ids: seq<string>)
    ensures Distinct(ids)
  {
    if entries == [] then []
    else
      var before, e := Merged(entries[..|entries| - 1], resolved, preexisting), entries[|entries| - 1];
      if e.volumeID != "" then Add(before, e.volumeID, preexisting)
      else AddAll(before, Matches(resolved, e.name), preexisting)
  }

  method MergeReclamationIDs(entries: seq<Entry>, resolved: map<string, seq<string>>, preexisting: set<string>)
    returns (ids: seq<string>)
    ensures ids == Merged(entries, resolved, preexisting)
  {
    ids := [];
    var seen: set<string> := {};
    for i := 0 to |entries|
      invariant ids == Merged(entries[..i], resolved, preexisting)
      invariant forall id :: id in seen <==> id in ids
    {
      var entry := entries[i];
      assert entries[..i + 1][..i] == entries[..i];
      if entry.volumeID != "" {
        if entry.volumeID in preexisting || entry.volumeID in seen {
          continue;
        }
        seen := seen + {entry.volumeID};
        ids := ids + [entry.volumeID];
        continue;
      }
      var matches := Matches(resolved, entry.name);
      ghost var before := ids;
      for j := 0 to |matches|
        invariant ids == AddAll(before, matches[..j], preexisting)
        invariant forall id :: id in seen <==> id in ids
      {
        assert matches[..j + 1][..j] == matches[..j];
        if matches[j] in preexisting || matches[j] in seen {
          continue;
        }
        seen := seen + {matches[j]};
        ids := ids + [matches[j]];
      }
      assert matches[..|matches|] == matches;
    }
    assert entries[..|entries|] == entries;
  }

  ghost predicate Contributes(e: Entry, resolved: map<string, seq<string>>, id: string) {
    if e.volumeID != "" then e.volumeID == id else id in Matches(resolved, e.name)
  }

  ghost predicate AnyContributes(entries: seq<Entry>, resolved: map<string, seq<string>>, id: string) {
    exists e :: e in entries && Contributes(e, resolved, id)
  }

  lemma AnyContributesStep(entries: seq<Entry>, resolved: map<string, seq<string>>, id: string)
    requires entries != []
    ensures AnyContributes(entries, resolved, id)
       <==> || AnyContributes(entries[..|entries| - 1], resolved, id)
            || Contributes(entries[|entries| - 1], resolved, id)
  {
    var n := |entries| - 1;
    assert entries == entries[..n] + [entries[n]];
    assert entries[n] in entries;
    assert forall e :: e in entries[..n] ==> e in entries;
  }

  lemma {:induction false} MergedMembers(entries: seq<Entry>, resolved: map<string, seq<string>>,
                                         preexisting: set<string>, id: string)
    ensures id in Merged(entries, resolved, preexisting)
       <==> id !in preexisting && AnyContributes(entries, resolved, id)
    decreases |entries|
  {
    if entries != [] {
      MergedMembers(entries[..|entries| - 1], resolved, preexisting, id);
      AnyContributesStep(entries, resolved, id);
    }
  }

  // ---------------------------------------------------------------------------------------
  // What gets scheduled
  // ---------------------------------------------------------------------------------------

  /** The identifiers teardown visits, for a whole ledger. */
  function Scheduled(entries: seq<Entry>, resolved: map<string, seq<string>>, preexisting: set<string>)
    : (ids: seq<string>)
    ensures Distinct(ids)
  {
    Merged(Reclaimable(entries, preexisting), resolved, preexisting)
  }

  ghost predicate Observed(entries: seq<Entry>, id: string) {
    exists e :: e in entries && IsObservation(e) && e.volumeID == id
  }

  ghost predicate ResolvedShort(entries: seq<Entry>, resolved: map<string, seq<string>>, id: string) {
    exists name :: Short(entries, name) && id in Matches(resolved, name)
  }

  lemma {:induction false} ReservedSomewhere(entries: seq<Entry>, name: string)
    requires Reservations(entries, name) > 0
    ensures exists e :: e in entries && IsReservation(e) && e.name == name
    decreases |entries|
  {
    var n := |entries| - 1;
    if IsReservation(entries[n]) && entries[n].name == name {
      assert entries[n] in entries;
    } else {
      ReservedSomewhere(entries[..n], name);
      var e :| e in entries[..n] && IsReservation(e) && e.name == name;
      assert e in entries;
    }
  }

  /** Teardown visits, each once, exactly the identifiers the ledger observed and those a name
      that was reserved more often than identified resolves to; nothing that was there before. */
  lemma ScheduledExactly(entries: seq<Entry>, resolved: map<string, seq<string>>, preexisting: set<string>, id: string)
    ensures id in Scheduled(entries, resolved, preexisting)
       <==> id !in preexisting && (Observed(entries, id) || ResolvedShort(entries, resolved, id))
    ensures Distinct(Scheduled(entries, resolved, preexisting))
  {
    var rows := Reclaimable(entries, preexisting);
    MergedMembers(rows, resolved, preexisting, id);
    if id !in preexisting && Observed(entries, id) {
      ObservedContributes(entries, resolved, preexisting, id);
    } else if id !in preexisting && ResolvedShort(entries, resolved, id) {
      ShortContributes(entries, resolved, preexisting, id);
    }
    if e :| e in rows && Contributes(e, resolved, id) {
      assert e in IDRows(entries, preexisting) || e in NameRows(entries, entries);
    }
  }

  lemma ObservedContributes(entries: seq<Entry>, resolved: map<string, seq<string>>, preexisting: set<string>,
                            id: string)
    requires id !in preexisting && Observed(entries, id)
    ensures AnyContributes(Reclaimable(entries, preexisting), resolved, id)
  {
    var rows := IDRows(entries, preexisting);
    var k :| 0 <= k < |rows| && rows[k].volumeID == id;
    assert rows[k] in rows;
    assert rows[k] in Reclaimable(entries, preexisting);
  }

  lemma ShortContributes(entries: seq<Entry>, resolved: map<string, seq<string>>, preexisting: set<string>, id: string)
    requires ResolvedShort(entries, resolved, id)
    ensures AnyContributes(Reclaimable(entries, preexisting), resolved, id)
  {
    var name :| Short(entries, name) && id in Matches(resolved, name);
    ReservedSomewhere(entries, name);
    var rows := NameRows(entries, entries);
    var k :| 0 <= k < |rows| && rows[k].name == name;
    assert rows[k] in rows;
    assert rows[k] in Reclaimable(entries, preexisting);
  }

  // ---------------------------------------------------------------------------------------
  // The write-ahead discipline
  // ---------------------------------------------------------------------------------------

  /** What happens during a run. A call reserves a name, may create one volume under it, and may
      record one identifier (the created volume's, or that of an earlier one it was handed). */
  datatype Event =
    | Reserve(call: nat, name: string)
    | Created(call: nat, name: string, id: string)
    | Identify(call: nat, name: string, id: string)
    | Other(entry: Entry)

  function ReservedCalls(run: seq<Event>, name: string): set<nat> {
    if run == [] then {}
    else
      var e := run[|run| - 1];
      ReservedCalls(run[..|run| - 1], name) + (if e.Reserve? && e.name == name then {e.call} else {})
  }

  function IdentifiedCalls(run: seq<Event>, name: string): set<nat> {
    if run == [] then {}
    else
      var e := run[|run| - 1];
      IdentifiedCalls(run[..|run| - 1], name) + (if e.Identify? && e.name == name then {e.call} else {})
  }

  /** The lines the run leaves in the ledger. */
  function LedgerOf(run: seq<Event>): seq<Entry> {
    if run == [] then []
    else LedgerOf(run[..|run| - 1]) + LinesOf(run[|run| - 1])
  }

  function LinesOf(e: Event): seq<Entry> {
    match e
    case Reserve(_, name) => [Entry(Volume, name, "", "")]
    case Created(_, _, _) => []
    case Identify(_, name, id) => [Entry(Volume, name, id, "")]
    case Other(entry) => [entry]
  }

  ghost predicate CallCreated(run: seq<Event>, call: nat) {
    exists i :: 0 <= i < |run| && run[i].Created? && run[i].call == call
  }

  ghost predicate CallIdentified(run: seq<Event>, call: nat) {
    exists i :: 0 <= i < |run| && run[i].Identify? && run[i].call == call
  }

  ghost predicate CallReserved(run: seq<Event>, call: nat) {
    exists i :: 0 <= i < |run| && run[i].Reserve? && run[i].call == call
  }

  /** The next event keeps the discipline: reserve first, at most one volume and at most one
      identifier line per call, and a call that created a volume identifies that one. */
  ghost predicate Allowed(run: seq<Event>, e: Event, preexisting: set<string>) {
    match e
    case Reserve(call, name) => !CallReserved(run, call)
    case Created(call, name, id) =>
      && call in ReservedCalls(run, name) && !CallCreated(run, call) && !CallIdentified(run, call)
      && id != "" && id !in preexisting
    case Identify(call, name, id) =>
      && call in ReservedCalls(run, name) && !CallIdentified(run, call) && id != ""
      && forall i :: 0 <= i < |run| && run[i].Created? && run[i].call == call ==> run[i].id == id
    case Other(entry) => entry.kind != Volume
  }

  ghost predicate Disciplined(run: seq<Event>, preexisting: set<string>) {
    forall k :: 0 <= k < |run| ==> Allowed(run[..k], run[k], preexisting)
  }

  /** Being cut off at any point leaves a disciplined run. */
  lemma DisciplinedPrefix(run: seq<Event>, k: nat, preexisting: set<string>)
    requires Disciplined(run, preexisting) && k <= |run|
    ensures Disciplined(run[..k], preexisting)
  {
    forall j | 0 <= j < k ensures Allowed(run[..k][..j], run[..k][j], preexisting) {
      assert run[..k][..j] == run[..j];
    }
  }

  lemma {:induction false} ReservedCallMember(run: seq<Event>, name: string, call: nat)
    ensures call in ReservedCalls(run, name)
       <==> exists i :: 0 <= i < |run| && run[i].Reserve? && run[i].name == name && run[i].call == call
    decreases |run|
  {
    if run != [] {
      var n := |run| - 1;
      ReservedCallMember(run[..n], name, call);
      assert forall i :: 0 <= i < n ==> run[..n][i] == run[i];
    }
  }

  lemma {:induction false} IdentifiedCallMember(run: seq<Event>, name: string, call: nat)
    ensures call in IdentifiedCalls(run, name)
       <==> exists i :: 0 <= i < |run| && run[i].Identify? && run[i].name == name && run[i].call == call
    decreases |run|
  {
    if run != [] {
      var n := |run| - 1;
      IdentifiedCallMember(run[..n], name, call);
      assert forall i :: 0 <= i < n ==> run[..n][i] == run[i];
    }
  }

  lemma CountsOfLine(entries: seq<Entry>, e: Entry, name: string)
    ensures Reservations(entries + [e], name)
         == Reservations(entries, name) + (if IsReservation(e) && e.name == name then 1 else 0)
    ensures Observations(entries + [e], name)
         == Observations(entries, name) + (if IsObservation(e) && e.name == name then 1 else 0)
  {
    assert (entries + [e])[..|entries|] == entries;
  }

  lemma NoCalls(name: string)
    ensures LedgerOf([]) == [] && ReservedCalls([], name) == {} && IdentifiedCalls([], name) == {}
  {
  }

  lemma CountsOfNothing(name: string)
    ensures Reservations([], name) == 0 && Observations([], name) == 0
  {
  }

  lemma LastAllowed(run: seq<Event>, preexisting: set<string>)
    requires Disciplined(run, preexisting) && run != []
    ensures Allowed(run[..|run| - 1], run[|run| - 1], preexisting)
  {
  }

  /** In a disciplined run the ledger counts calls: one reservation for every call that reserved
      the name, one observation for every call that identified under it. */
  lemma {:induction false} LedgerCountsCalls(run: seq<Event>, preexisting: set<string>, name: string)
    requires Disciplined(run, preexisting)
    ensures Reservations(LedgerOf(run), name) == |ReservedCalls(run, name)|
    ensures Observations(LedgerOf(run), name) == |IdentifiedCalls(run, name)|
    ensures IdentifiedCalls(run, name) <= ReservedCalls(run, name)
    decreases |run|
  {
    hide Disciplined, Reservations, Observations, LedgerOf, ReservedCalls, IdentifiedCalls;
    if run == [] {
      CountsOfNothing(name);
      NoCalls(name);
    } else {
      var n := |run| - 1;
      var init, e := run[..n], run[n];
      DisciplinedPrefix(run, n, preexisting);
      LedgerCountsCalls(init, preexisting, name);
      LastAllowed(run, preexisting);
      CallsStep(run, name);
      match e {
        case Reserve(call, m) =>
          CountsOfLine(LedgerOf(init), Entry(Volume, m, "", ""), name);
          ReservedCallMember(init, name, call);
        case Identify(call, m, id) =>
          CountsOfLine(LedgerOf(init), Entry(Volume, m, id, ""), name);
          IdentifiedCallMember(init, name, call);
        case Created(_, _, _) =>
          assert LedgerOf(init) + [] == LedgerOf(init);
        case Other(entry) =>
          CountsOfLine(LedgerOf(init), entry, name);
      }
    }
  }

  /** The ledger and the calls of a name after one more event. */
  lemma CallsStep(run: seq<Event>, name: string)
    requires run != []
    ensures var n := |run| - 1;
      && LedgerOf(run) == LedgerOf(run[..n]) + LinesOf(run[n])
      && ReservedCalls(run, name)
         == ReservedCalls(run[..n], name) + (if run[n].Reserve? && run[n].name == name then {run[n].call} else {})
      && IdentifiedCalls(run, name)
         == IdentifiedCalls(run[..n], name) + (if run[n].Identify? && run[n].name == name then {run[n].call} else {})
  {
  }

  lemma {:induction false} LedgerLine(run: seq<Event>, k: nat, line: Entry)
    requires k < |run| && LinesOf(run[k]) == [line]
    ensures line in LedgerOf(run)
    decreases |run|
  {
    if k < |run| - 1 {
      LedgerLine(run[..|run| - 1], k, line);
    }
  }

  /** Resolution by name finds every volume of the run under that name. */
  ghost predicate Complete(run: seq<Event>, resolved: map<string, seq<string>>) {
    forall k :: 0 <= k < |run| && run[k].Created? && Short(LedgerOf(run), run[k].name) ==>
      run[k].id in Matches(resolved, run[k].name)
  }

  /** A call that created a volume and has not identified it leaves its name short. */
  lemma UnidentifiedIsShort(run: seq<Event>, preexisting: set<string>, k: nat)
    requires Disciplined(run, preexisting) && k < |run| && run[k].Created?
    requires !CallIdentified(run, run[k].call)
    ensures Short(LedgerOf(run), run[k].name)
  {
    var call, name := run[k].call, run[k].name;
    assert Allowed(run[..k], run[k], preexisting);
    ReservedCallMember(run[..k], name, call);
    ReservedCallMember(run, name, call);
    assert call in ReservedCalls(run, name) by {
      var i :| 0 <= i < k && run[..k][i].Reserve? && run[..k][i].name == name && run[..k][i].call == call;
      assert run[i].Reserve? && run[i].name == name && run[i].call == call;
    }
    IdentifiedCallMember(run, name, call);
    LedgerCountsCalls(run, preexisting, name);
    ProperSubsetIsSmaller(IdentifiedCalls(run, name), ReservedCalls(run, name), call);
  }

  lemma ProperSubsetIsSmaller(a: set<nat>, b: set<nat>, x: nat)
    requires a <= b && x in b && x !in a
    ensures |a| < |b|
  {
    SubsetSize(a, b - {x});
  }

  lemma {:induction false} SubsetSize(a: set<nat>, b: set<nat>)
    requires a <= b
    ensures |a| <= |b|
  {
    if x :| x in a {
      SubsetSize(a - {x}, b - {x});
    }
  }

  /** A call that created a volume and recorded an identifier recorded that volume's. */
  lemma IdentifiedIsObserved(run: seq<Event>, preexisting: set<string>, k: nat)
    requires Disciplined(run, preexisting) && k < |run| && run[k].Created?
    requires CallIdentified(run, run[k].call)
    ensures Observed(LedgerOf(run), run[k].id)
  {
    var i :| 0 <= i < |run| && run[i].Identify? && run[i].call == run[k].call;
    IdentifiedAfter(run, preexisting, k, i);
    LedgerLine(run, i, Entry(Volume, run[i].name, run[i].id, ""));
  }

  lemma IdentifiedAfter(run: seq<Event>, preexisting: set<string>, k: nat, i: nat)
    requires Disciplined(run, preexisting) && k < |run| && i < |run|
    requires run[k].Created? && run[i].Identify? && run[i].call == run[k].call
    ensures k < i && run[i].id == run[k].id && run[i].id != ""
  {
    assert Allowed(run[..k], run[k], preexisting);
    assert forall j :: 0 <= j < k ==> run[..k][j] == run[j];
    assert k < i;
    assert Allowed(run[..i], run[i], preexisting);
    assert run[..i][k] == run[k];
  }

  /** Wherever a disciplined run is cut off, teardown visits every volume it created exactly once
      and no volume that was there before. */
  lemma EveryCreatedIsScheduled(run: seq<Event>, preexisting: set<string>, resolved: map<string, seq<string>>, k: nat)
    requires Disciplined(run, preexisting) && Complete(run, resolved)
    requires k < |run| && run[k].Created?
    ensures run[k].id in Scheduled(LedgerOf(run), resolved, preexisting)
    ensures Distinct(Scheduled(LedgerOf(run), resolved, preexisting))
  {
    ScheduledExactly(LedgerOf(run), resolved, preexisting, run[k].id);
    assert Allowed(run[..k], run[k], preexisting);
    if CallIdentified(run, run[k].call) {
      IdentifiedIsObserved(run, preexisting, k);
    } else {
      UnidentifiedIsShort(run, preexisting, k);
    }
  }

  /** Without the discipline: a volume no line identifies is scheduled, given complete resolution,
      exactly when its name is still short. */
  lemma UnobservedIffShort(entries: seq<Entry>, resolved: map<string, seq<string>>, preexisting: set<string>,
                           name: string, id: string)
    requires id !in preexisting && !Observed(entries, id)
    requires forall n :: id in Matches(resolved, n) <==> n == name
    ensures id in Scheduled(entries, resolved, preexisting) <==> Short(entries, name)
  {
    ScheduledExactly(entries, resolved, preexisting, id);
  }

  /** Two identifier lines for one call hide another call's volume: both calls reserved "n", the
      first recorded its volume twice, the second created "b" and was cut off. */
  lemma DoubleIdentificationLeaks(resolved: map<string, seq<string>>)
    requires forall n :: "b" in Matches(resolved, n) <==> n == "n"
    ensures var reserve, identify := Entry(Volume, "n", "", ""), Entry(Volume, "n", "a", "");
      "b" !in Scheduled([reserve] + [identify] + [identify] + [reserve], resolved, {})
  {
    var reserve, identify := Entry(Volume, "n", "", ""), Entry(Volume, "n", "a", "");
    var two, three := [reserve] + [identify], [reserve] + [identify] + [identify];
    CountsOfLine([], reserve, "n");
    assert [] + [reserve] == [reserve];
    CountsOfLine([reserve], identify, "n");
    CountsOfLine(two, identify, "n");
    CountsOfLine(three, reserve, "n");
    UnobservedIffShort(three + [reserve], resolved, {}, "n", "b");
  }

  // ---------------------------------------------------------------------------------------
  // The durable ledger
  // ---------------------------------------------------------------------------------------

  datatype Fault = NoFault | EncodeFails | WriteFails | SyncFails

  /** `durable` is the file, `entries` what teardown reads. */
  class Ledger {
    var durable: seq<Entry>
    var entries: seq<Entry>

    ghost predicate Valid() reads this {
      multiset(entries) <= multiset(durable)
    }

    constructor ()
      ensures Valid() && entries == [] && durable == []
    {
      durable, entries := [], [];
    }

    /** A line counts only once it has been written and flushed; a line that failed to flush may
        still have reached the file. */
    method Record(entry: Entry, fault: Fault) returns (ok: bool)
      requires Valid()
      modifies this
      ensures Valid()
      ensures ok <==> fault == NoFault
      ensures entries == if ok then old(entries) + [entry] else old(entries)
      ensures ok ==> durable == old(durable) + [entry]
      ensures durable == old(durable) || durable == old(durable) + [entry]
    {
      if fault == EncodeFails || fault == WriteFails {
        return false;
      }
      durable := durable + [entry];
      if fault == SyncFails {
        return false;
      }
      entries := entries + [entry];
      return true;
    }
  }

  /** One tracked creation: reserve, create, identify. `outcome` says whether the cloud made a new
      volume, handed out an earlier one or did neither, and whether its answer arrived; either
      ledger write may fail. The events it adds keep the discipline. */
  datatype CreateOutcome = CreateOutcome(made: bool, id: string, answered: bool)

  method CreateTracked(ledger: Ledger, ghost run: seq<Event>, call: nat, name: string,
                       outcome: CreateOutcome, reserveFault: Fault, identifyFault: Fault,
                       ghost preexisting: set<string>)
    requires ledger.Valid() && ledger.entries == LedgerOf(run) && Disciplined(run, preexisting)
    requires !CallReserved(run, call) && !CallCreated(run, call) && !CallIdentified(run, call)
    requires outcome.id != "" && (outcome.made ==> outcome.id !in preexisting)
    modifies ledger
    ensures var after := run + CallEvents(call, name, outcome, reserveFault, identifyFault);
      ledger.Valid() && ledger.entries == LedgerOf(after) && Disciplined(after, preexisting)
  {
    hide LedgerOf, Disciplined, CallReserved, CallCreated, CallIdentified;
    CallKeepsDiscipline(run, call, name, outcome, reserveFault, identifyFault, preexisting);
    var ok := ledger.Record(Entry(Volume, name, "", ""), reserveFault);
    if !ok || !outcome.answered {
      return;
    }
    ok := ledger.Record(Entry(Volume, name, outcome.id, ""), identifyFault);
  }

  function CallLines(name: string, outcome: CreateOutcome, reserveFault: Fault, identifyFault: Fault): seq<Entry> {
    if reserveFault != NoFault then []
    else if outcome.answered && identifyFault == NoFault
      then [Entry(Volume, name, "", "")] + [Entry(Volume, name, outcome.id, "")]
    else [Entry(Volume, name, "", "")]
  }

  lemma CallKeepsDiscipline(run: seq<Event>, call: nat, name: string, outcome: CreateOutcome,
                            reserveFault: Fault, identifyFault: Fault, preexisting: set<string>)
    requires Disciplined(run, preexisting)
    requires !CallReserved(run, call) && !CallCreated(run, call) && !CallIdentified(run, call)
    requires outcome.id != "" && (outcome.made ==> outcome.id !in preexisting)
    ensures var after := run + CallEvents(call, name, outcome, reserveFault, identifyFault);
      && Disciplined(after, preexisting)
      && LedgerOf(after) == LedgerOf(run) + CallLines(name, outcome, reserveFault, identifyFault)
  {
    if reserveFault != NoFault {
      assert run + [] == run;
    } else {
      MadeKeepsDiscipline(run, call, name, outcome, preexisting);
      if outcome.answered && identifyFault == NoFault {
        IdentifiedKeepsDiscipline(run, call, name, outcome, preexisting);
      }
    }
  }

  lemma IdentifiedKeepsDiscipline(run: seq<Event>, call: nat, name: string, outcome: CreateOutcome,
                                  preexisting: set<string>)
    requires outcome.id != ""
    requires var made := run + MadeEvents(call, name, outcome);
      && Disciplined(made, preexisting) && Pending(made, call, name, outcome.id)
      && LedgerOf(made) == LedgerOf(run) + [Entry(Volume, name, "", "")]
    ensures var after := run + (MadeEvents(call, name, outcome) + [Identify(call, name, outcome.id)]);
      && Disciplined(after, preexisting)
      && LedgerOf(after) == LedgerOf(run) + ([Entry(Volume, name, "", "")] + [Entry(Volume, name, outcome.id, "")])
  {
    IdentifyStep(run + MadeEvents(call, name, outcome), call, name, outcome.id, preexisting);
    Associates(run, MadeEvents(call, name, outcome), [Identify(call, name, outcome.id)]);
    Associates(LedgerOf(run), [Entry(Volume, name, "", "")], [Entry(Volume, name, outcome.id, "")]);
  }

  function MadeEvents(call: nat, name: string, outcome: CreateOutcome): seq<Event> {
    if outcome.made then [Reserve(call, name), Created(call, name, outcome.id)] else [Reserve(call, name)]
  }

  lemma MadeKeepsDiscipline(run: seq<Event>, call: nat, name: string, outcome: CreateOutcome, preexisting: set<string>)
    requires Disciplined(run, preexisting)
    requires !CallReserved(run, call) && !CallCreated(run, call) && !CallIdentified(run, call)
    requires outcome.id != "" && (outcome.made ==> outcome.id !in preexisting)
    ensures var made := run + MadeEvents(call, name, outcome);
      && Disciplined(made, preexisting) && Pending(made, call, name, outcome.id)
      && LedgerOf(made) == LedgerOf(run) + [Entry(Volume, name, "", "")]
  {
    ReserveStep(run, call, name, outcome.id, preexisting);
    if outcome.made {
      var reserved := run + [Reserve(call, name)];
      CreatedStep(reserved, call, name, outcome.id, preexisting);
      assert run + MadeEvents(call, name, outcome) == reserved + [Created(call, name, outcome.id)];
    }
  }

  /** What a tracked creation adds to the run. */
  function CallEvents(call: nat, name: string, outcome: CreateOutcome, reserveFault: Fault, identifyFault: Fault)
    : seq<Event>
  {
    if reserveFault != NoFault then []
    else if outcome.answered && identifyFault == NoFault
      then MadeEvents(call, name, outcome) + [Identify(call, name, outcome.id)]
    else MadeEvents(call, name, outcome)
  }

  /** The call has reserved `name`, identified nothing, and created at most volume `id`. */
  ghost predicate Pending(run: seq<Event>, call: nat, name: string, id: string) {
    && call in ReservedCalls(run, name) && !CallIdentified(run, call)
    && forall i :: 0 <= i < |run| && run[i].Created? && run[i].call == call ==> run[i].id == id
  }

  lemma ReserveStep(run: seq<Event>, call: nat, name: string, id: string, preexisting: set<string>)
    requires Disciplined(run, preexisting)
    requires !CallReserved(run, call) && !CallCreated(run, call) && !CallIdentified(run, call)
    ensures var after := run + [Reserve(call, name)];
      && Disciplined(after, preexisting) && Pending(after, call, name, id) && !CallCreated(after, call)
      && LedgerOf(after) == LedgerOf(run) + [Entry(Volume, name, "", "")]
  {
    var after := Extend(run, Reserve(call, name), preexisting);
    assert after[..|run|] == run;
    assert forall i :: 0 <= i < |run| ==> after[i] == run[i];
  }

  lemma CreatedStep(run: seq<Event>, call: nat, name: string, id: string, preexisting: set<string>)
    requires Disciplined(run, preexisting) && Pending(run, call, name, id) && !CallCreated(run, call)
    requires id != "" && id !in preexisting
    ensures var after := run + [Created(call, name, id)];
      Disciplined(after, preexisting) && Pending(after, call, name, id) && LedgerOf(after) == LedgerOf(run)
  {
    var after := Extend(run, Created(call, name, id), preexisting);
    assert after[..|run|] == run;
    assert forall i :: 0 <= i < |run| ==> after[i] == run[i];
  }

  lemma IdentifyStep(run: seq<Event>, call: nat, name: string, id: string, preexisting: set<string>)
    requires Disciplined(run, preexisting) && Pending(run, call, name, id) && id != ""
    ensures var after := run + [Identify(call, name, id)];
      && Disciplined(after, preexisting)
      && LedgerOf(after) == LedgerOf(run) + [Entry(Volume, name, id, "")]
  {
    var after := Extend(run, Identify(call, name, id), preexisting);
  }

  lemma Extend(run: seq<Event>, e: Event, preexisting: set<string>) returns (after: seq<Event>)
    requires Disciplined(run, preexisting) && Allowed(run, e, preexisting)
    ensures after == run + [e] && Disciplined(after, preexisting)
    ensures LedgerOf(after) == LedgerOf(run) + LinesOf(e)
  {
    after := run + [e];
    assert after[..|run|] == run;
    forall k | 0 <= k < |after| ensures Allowed(after[..k], after[k], preexisting) {
      if k < |run| {
        assert after[..k] == run[..k];
      }
    }
  }

  // ---------------------------------------------------------------------------------------
  // Teardown
  // ---------------------------------------------------------------------------------------

  datatype Failure = BudgetExpired | UnmountFailed | ResolveFailed(name: string) | DeleteFailed(id: string)

  /** Failures of the effects on `ids`, in order. */
  function EffectFailures(ids: seq<string>, failing: set<string>): seq<Failure> {
    if ids == [] then []
    else
      var n := |ids| - 1;
      EffectFailures(ids[..n], failing) + (if ids[n] in failing then [DeleteFailed(ids[n])] else [])
  }

  /** How many of `n` identifiers are still started when the budget ends at check `endsAt` and
      `checks` checks have been made. */
  function Started(n: nat, checks: nat, endsAt: nat): nat {
    if endsAt <= checks then 0 else if endsAt - checks < n then endsAt - checks else n
  }

  /** Applies the effect to each identifier in order, stops starting effects once the context is
      done, and collects every failure. */
  method RunCleanupEffects(ids: seq<string>, checks: nat, endsAt: nat, failing: set<string>)
    returns (failures: seq<Failure>, attempted: seq<string>)
    ensures attempted == ids[..Started(|ids|, checks, endsAt)]
    ensures |attempted| <= |ids| && (attempted != [] ==> checks + |attempted| <= endsAt)
    ensures |attempted| < |ids| ==> checks + |attempted| >= endsAt
    ensures BudgetExpired in failures <==> |attempted| < |ids|
    ensures failures == EffectFailures(attempted, failing) + (if attempted == ids then [] else [BudgetExpired])
  {
    failures, attempted := [], [];
    for i := 0 to |ids|
      invariant i <= Started(|ids|, checks, endsAt)
      invariant attempted == ids[..i]
      invariant failures == EffectFailures(attempted, failing)
      invariant BudgetExpired !in failures && (i > 0 ==> checks + i <= endsAt)
    {
      if checks + i >= endsAt {
        failures := failures + [BudgetExpired];
        return;
      }
      var id := ids[i];
      assert ids[..i + 1][..i] == ids[..i];
      attempted := attempted + [id];
      if id in failing {
        failures := failures + [DeleteFailed(id)];
      }
    }
    assert attempted == ids;
  }

  /** One failed effect hides no other: each is reported, and nothing else is. */
  lemma {:induction false} EffectFailuresAre(ids: seq<string>, failing: set<string>, f: Failure)
    ensures f in EffectFailures(ids, failing) <==> f.DeleteFailed? && f.id in ids && f.id in failing
    decreases |ids|
  {
    if ids != [] {
      var n := |ids| - 1;
      EffectFailuresAre(ids[..n], failing, f);
      assert ids == ids[..n] + [ids[n]];
    }
  }

  /** `resolved` holds answers only. */
  ghost predicate FromAnswers(resolved: map<string, seq<string>>, answers: map<string, seq<string>>) {
    forall name :: name in resolved ==> name in answers && resolved[name] == answers[name]
  }

  /** What became of a name-only row: resolved when its lookup succeeds, reported when it fails. */
  ghost predicate LookedUp(name: string, resolved: map<string, seq<string>>, answers: map<string, seq<string>>,
                           failures: seq<Failure>) {
    if name in answers then name in resolved else ResolveFailed(name) in failures
  }

  /** How often the budget is looked at while the rows are resolved. */
  function Lookups(rows: seq<Entry>): nat {
    if rows == [] then 0
    else Lookups(rows[..|rows| - 1]) + (if rows[|rows| - 1].volumeID == "" then 1 else 0)
  }

  lemma {:induction false} LookupsBefore(rows: seq<Entry>, i: nat)
    requires i < |rows| && rows[i].volumeID == ""
    ensures Lookups(rows[..i]) < Lookups(rows)
    decreases |rows|
  {
    var n := |rows| - 1;
    if i < n {
      LookupsBefore(rows[..n], i);
      assert rows[..n][..i] == rows[..i];
    }
  }

  ghost predicate ShortRow(rows: seq<Entry>, name: string) {
    exists i :: 0 <= i < |rows| && rows[i].volumeID == "" && rows[i].name == name
  }

  /** What the name-only rows resolve to when there is time for all of them. */
  ghost function AllAnswers(rows: seq<Entry>, answers: map<string, seq<string>>): map<string, seq<string>> {
    map name | name in answers && ShortRow(rows, name) :: answers[name]
  }

  /** Resolves every name-only row; `answers` holds the names whose lookup succeeds. One that fails
      is reported and the rest go on. */
  method ResolveNames(rows: seq<Entry>, answers: map<string, seq<string>>, start: nat, endsAt: nat)
    returns (resolved: map<string, seq<string>>, failures: seq<Failure>, checks: nat, expired: bool)
    ensures FromAnswers(resolved, answers)
    ensures expired <==> BudgetExpired in failures
    ensures forall f :: f in failures ==> f.ResolveFailed? || f == BudgetExpired
    ensures !expired ==> forall e :: e in rows && e.volumeID == "" ==> LookedUp(e.name, resolved, answers, failures)
    ensures start <= endsAt ==> (expired <==> start + Lookups(rows) > endsAt)
    ensures !expired ==> checks == start + Lookups(rows) && resolved == AllAnswers(rows, answers)
  {
    resolved, failures, checks, expired := map[], [], start, false;
    for i := 0 to |rows|
      invariant !expired && forall f :: f in failures ==> f.ResolveFailed?
      invariant FromAnswers(resolved, answers)
      invariant forall j :: 0 <= j < i && rows[j].volumeID == "" ==> LookedUp(rows[j].name, resolved, answers, failures)
      invariant checks == start + Lookups(rows[..i]) && (start <= endsAt ==> checks <= endsAt)
      invariant forall name :: name in resolved ==> ShortRow(rows, name)
    {
      assert rows[..i + 1][..i] == rows[..i];
      var entry := rows[i];
      if entry.volumeID != "" {
        continue;
      }
      if checks >= endsAt {
        LookupsBefore(rows, i);
        failures := failures + [BudgetExpired];
        expired := true;
        return;
      }
      checks := checks + 1;
      if entry.name !in resolved {
        if entry.name !in answers {
          failures := failures + [ResolveFailed(entry.name)];
          continue;
        }
        resolved := resolved[entry.name := answers[entry.name]];
      }
    }
    assert rows[..|rows|] == rows;
    forall name ensures name in resolved <==> name in AllAnswers(rows, answers) {
      if name in AllAnswers(rows, answers) {
        var i :| 0 <= i < |rows| && rows[i].volumeID == "" && rows[i].name == name;
        assert LookedUp(rows[i].name, resolved, answers, failures);
      }
    }
  }

  /** The end of a run, failed or not. Whatever fails, no identifier is visited twice and none that was
      there before, the visited ones come first in the schedule, and every failed deletion is reported.
      While the budget lasts, every short name is resolved or reported, and everything then scheduled is
      visited. */
  method Teardown(entries: seq<Entry>, preexisting: set<string>, answers: map<string, seq<string>>,
                  failing: set<string>, unmountFails: bool, endsAt: nat)
    returns (failures: seq<Failure>, attempted: seq<string>)
    ensures Distinct(attempted) && forall id :: id in attempted ==> id !in preexisting
    ensures forall id :: DeleteFailed(id) in failures <==> id in attempted && id in failing
    ensures UnmountFailed in failures <==> unmountFails && endsAt > 0
    ensures exists resolved :: VisitedFrom(entries, resolved, answers, preexisting, failures, attempted)
    ensures BudgetExpired in failures <==> endsAt < ChecksNeeded(entries, answers, preexisting)
  {
    hide Reclaimable, AllAnswers, Lookups, EffectFailures, Started, LookedUp, FromAnswers;
    failures, attempted := [], [];
    if endsAt == 0 {
      failures := [BudgetExpired];
      NothingVisited(entries, map[], answers, preexisting, failures);
      return;
    }
    if unmountFails {
      failures := [UnmountFailed];
    }
    var rows := ReclaimableEntries(entries, preexisting);
    var resolved, resolveFailures, checks, expired := ResolveNames(rows, answers, 1, endsAt);
    failures := failures + resolveFailures;
    if expired {
      NothingVisited(entries, resolved, answers, preexisting, failures);
      return;
    }
    var ids := MergeReclamationIDs(rows, resolved, preexisting);
    NothingPreexisting(entries, resolved, preexisting);
    var effectFailures;
    effectFailures, attempted := RunCleanupEffects(ids, checks, endsAt, failing);
    EffectsReported(attempted, failing);
    LookedUpInAll(entries, preexisting, resolved, answers, resolveFailures, failures + effectFailures);
    BudgetIff(entries, answers, preexisting, rows, ids, |attempted|, endsAt);
    failures := failures + effectFailures;
    assert VisitedFrom(entries, resolved, answers, preexisting, failures, attempted);
  }

  /** How often a teardown with time for everything looks at its budget: at the start, before each lookup,
      and before each volume. */
  ghost function ChecksNeeded(entries: seq<Entry>, answers: map<string, seq<string>>, preexisting: set<string>): nat {
    var rows := Reclaimable(entries, preexisting);
    1 + Lookups(rows) + |Scheduled(entries, AllAnswers(rows, answers), preexisting)|
  }

  /** The budget ends before the last of these checks. */
  lemma BudgetIff(entries: seq<Entry>, answers: map<string, seq<string>>, preexisting: set<string>,
                  rows: seq<Entry>, ids: seq<string>, visited: nat, endsAt: nat)
    requires rows == Reclaimable(entries, preexisting)
    requires ids == Scheduled(entries, AllAnswers(rows, answers), preexisting)
    requires visited <= |ids| && 1 + Lookups(rows) <= endsAt
    requires visited > 0 ==> 1 + Lookups(rows) + visited <= endsAt
    requires visited < |ids| ==> 1 + Lookups(rows) + visited >= endsAt
    ensures visited < |ids| <==> endsAt < ChecksNeeded(entries, answers, preexisting)
  {
  }

  /** What a teardown with these failures visited, given what the names resolved to. */
  ghost predicate VisitedFrom(entries: seq<Entry>, resolved: map<string, seq<string>>,
                              answers: map<string, seq<string>>, preexisting: set<string>,
                              failures: seq<Failure>, attempted: seq<string>) {
    && FromAnswers(resolved, answers)
    && attempted <= Scheduled(entries, resolved, preexisting)
    && (BudgetExpired !in failures ==>
          && attempted == Scheduled(entries, resolved, preexisting)
          && forall name :: Short(entries, name) ==> LookedUp(name, resolved, answers, failures))
  }

  lemma NothingVisited(entries: seq<Entry>, resolved: map<string, seq<string>>, answers: map<string, seq<string>>,
                       preexisting: set<string>, failures: seq<Failure>)
    requires FromAnswers(resolved, answers) && BudgetExpired in failures
    ensures VisitedFrom(entries, resolved, answers, preexisting, failures, [])
  {
  }

  lemma EffectsReported(ids: seq<string>, failing: set<string>)
    ensures forall f :: f in EffectFailures(ids, failing) <==> f.DeleteFailed? && f.id in ids && f.id in failing
  {
    forall f ensures f in EffectFailures(ids, failing) <==> f.DeleteFailed? && f.id in ids && f.id in failing {
      EffectFailuresAre(ids, failing, f);
    }
  }

  lemma NothingPreexisting(entries: seq<Entry>, resolved: map<string, seq<string>>, preexisting: set<string>)
    ensures forall id :: id in Scheduled(entries, resolved, preexisting) ==> id !in preexisting
  {
    forall id | id in Scheduled(entries, resolved, preexisting) ensures id !in preexisting {
      ScheduledExactly(entries, resolved, preexisting, id);
    }
  }

  /** Every short name has a row, so what holds of the rows holds of the short names. */
  lemma LookedUpInAll(entries: seq<Entry>, preexisting: set<string>, resolved: map<string, seq<string>>,
                      answers: map<string, seq<string>>, some: seq<Failure>, all: seq<Failure>)
    requires forall e :: e in Reclaimable(entries, preexisting) && e.volumeID == "" ==>
               LookedUp(e.name, resolved, answers, some)
    requires forall f :: f in some ==> f in all
    ensures forall name :: Short(entries, name) ==> LookedUp(name, resolved, answers, all)
  {
    forall name | Short(entries, name) ensures LookedUp(name, resolved, answers, all) {
      ReservedSomewhere(entries, name);
      var rows := NameRows(entries, entries);
      var k :| 0 <= k < |rows| && rows[k].name == name;
      assert rows[k] in rows;
      assert rows[k] in Reclaimable(entries, preexisting);
    }
  }

  /** End to end: when a name lookup that succeeds finds every volume of the run under that name,
      a teardown that reports no failure has deleted every volume a disciplined run created,
      wherever the run was cut off. */
  method TeardownRun(ghost run: seq<Event>, entries: seq<Entry>, preexisting: set<string>,
                     answers: map<string, seq<string>>, failing: set<string>, unmountFails: bool, endsAt: nat)
    returns (failures: seq<Failure>, attempted: seq<string>)
    requires Disciplined(run, preexisting) && entries == LedgerOf(run)
    requires forall k :: 0 <= k < |run| && run[k].Created? && run[k].name in answers ==>
               run[k].id in answers[run[k].name]
    ensures forall id :: id in attempted ==> id !in preexisting
    ensures failures == [] ==>
              forall k :: 0 <= k < |run| && run[k].Created? ==> run[k].id in attempted && run[k].id !in failing
  {
    failures, attempted := Teardown(entries, preexisting, answers, failing, unmountFails, endsAt);
    if failures == [] {
      ghost var resolved :| VisitedFrom(entries, resolved, answers, preexisting, failures, attempted);
      forall k | 0 <= k < |run| && run[k].Created? ensures run[k].id in attempted {
        EveryCreatedIsScheduled(run, preexisting, resolved, k);
      }
    }
  }
}
