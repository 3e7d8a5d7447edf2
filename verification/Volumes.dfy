/** Listing, adoption and guarded deletion of volumes: internal/evs/volume.go. */
module Volumes {
  import opened Errors
  import Ordering

  const OWNERSHIP_TAG_KEY: string := "managed-by"
  const OWNERSHIP_TAG_VALUE: string := "evs-csi-t-cloud-wilaris-dev"
  const DISCOVERY_PAGE_SIZE: nat := 100
  const VOLUME_LIST_MAX_PAGES: nat := 50
  const VOLUME_ABSENCE_MAX_ATTEMPTS: nat := 60

  datatype Volume = Volume(id: string, name: string, status: string, size: int, zone: string,
                           volumeType: string, tags: map<string, string>)

  // ---------------------------------------------------------------------------------------
  // Listing
  // ---------------------------------------------------------------------------------------

  /** How the server answers one page request: with at most `width` further volumes, or not. */
  datatype PageAnswer = Page(width: nat) | PageFails(error: Error)

  /** Length of the page served to request number `k` when `left` volumes remain. */
  function PageLength(script: seq<PageAnswer>, k: nat, left: nat): (w: nat)
    ensures w <= left && w <= DISCOVERY_PAGE_SIZE && (left > 0 ==> w > 0)
  {
    var asked := if k < |script| && script[k].Page? && 0 < script[k].width < DISCOVERY_PAGE_SIZE
                 then script[k].width else DISCOVERY_PAGE_SIZE;
    if asked < left then asked else left
  }

  /** listVolumePage: request number `k`, against an unchanging list. */
  function ListPage(list: seq<Volume>, script: seq<PageAnswer>, k: nat, offset: nat): (r: Result<seq<Volume>, Error>)
    requires offset <= |list|
  {
    if k < |script| && script[k].PageFails? then Err(script[k].error)
    else Ok(list[offset..offset + PageLength(script, k, |list| - offset)])
  }

  /** Non-empty pages the list spans from `offset` on. */
  function PagesFrom(list: seq<Volume>, script: seq<PageAnswer>, k: nat, offset: nat): (n: nat)
    requires offset <= |list|
    decreases |list| - offset
  {
    if offset == |list| then 0
    else 1 + PagesFrom(list, script, k + 1, offset + PageLength(script, k, |list| - offset))
  }

  predicate FitsListing(list: seq<Volume>, script: seq<PageAnswer>) {
    PagesFrom(list, script, 0, 0) <= VOLUME_LIST_MAX_PAGES
  }

  /** The walk reaches request number `k`, the first that fails. */
  ghost predicate FailsAt(list: seq<Volume>, script: seq<PageAnswer>, k: nat) {
    && k < |script| && script[k].PageFails? && (forall j :: 0 <= j < k ==> script[j].Page?)
    && k <= VOLUME_LIST_MAX_PAGES && k <= PagesFrom(list, script, 0, 0)
  }

  ghost predicate FailsWith(list: seq<Volume>, script: seq<PageAnswer>, e: Error) {
    exists k: nat :: FailsAt(list, script, k) && script[k].error == e
  }

  /** The walk meets no failure and comes to the end of the list. */
  ghost predicate Completes(list: seq<Volume>, script: seq<PageAnswer>) {
    FitsListing(list, script) && forall k: nat :: !FailsAt(list, script, k)
  }

  /** Walks the pages until the list ends. It returns exactly the list when no request it makes
      fails and the list spans at most 50 non-empty pages; one more fetch finds the end of a list
      that lands exactly on the bound. */
  method ListVolumes(list: seq<Volume>, script: seq<PageAnswer>) returns (r: Result<seq<Volume>, Error>)
    ensures match r
            case Ok(value) => value == list && Completes(list, script)
            case Err(e) =>
              || FailsWith(list, script, e)
              || (e == OperationFailed && !FitsListing(list, script) && forall k: nat :: !FailsAt(list, script, k))
  {
    var res: seq<Volume> := [];
    for pages := 0 to VOLUME_LIST_MAX_PAGES + 1
      invariant |res| <= |list| && res == list[..|res|]
      invariant pages + PagesFrom(list, script, pages, |res|) == PagesFrom(list, script, 0, 0)
      invariant pages <= PagesFrom(list, script, 0, 0)
      invariant forall k :: 0 <= k < pages && k < |script| ==> script[k].Page?
    {
      var page := ListPage(list, script, pages, |res|);
      if page.Err? {
        assert FailsAt(list, script, pages);
        return page;
      }
      if |page.value| == 0 {
        assert list[..|list|] == list;
        return Ok(res);
      }
      res := res + page.value;
    }
    return Err(OperationFailed);
  }

  /** Whatever the splitting, 50 volumes always fit and more than 5000 never do. */
  lemma {:induction false} PageBounds(list: seq<Volume>, script: seq<PageAnswer>, k: nat, offset: nat)
    requires offset <= |list|
    ensures var pages := PagesFrom(list, script, k, offset);
      pages <= |list| - offset <= DISCOVERY_PAGE_SIZE * pages
    decreases |list| - offset
  {
    if offset < |list| {
      PageBounds(list, script, k + 1, offset + PageLength(script, k, |list| - offset));
    }
  }

  /** A server that fills its pages lists up to 5000 volumes and fails beyond. */
  lemma {:induction false} FullPages(list: seq<Volume>, k: nat, offset: nat)
    requires offset <= |list|
    ensures PagesFrom(list, [], k, offset) == (|list| - offset + DISCOVERY_PAGE_SIZE - 1) / DISCOVERY_PAGE_SIZE
    decreases |list| - offset
  {
    if offset < |list| {
      FullPages(list, k + 1, offset + PageLength([], k, |list| - offset));
    }
  }

  /** So a listing of such a server completes exactly up to 5000 volumes, and of any server up to 50. */
  lemma ListingLimits(list: seq<Volume>, script: seq<PageAnswer>)
    ensures FitsListing(list, []) <==> |list| <= 5000
    ensures |list| <= 50 ==> FitsListing(list, script)
    ensures |list| > 5000 ==> !FitsListing(list, script)
  {
    FullPages(list, 0, 0);
    PageBounds(list, script, 0, 0);
  }

  // ---------------------------------------------------------------------------------------
  // Adoption
  // ---------------------------------------------------------------------------------------

  datatype DiscoverOpts = DiscoverOpts(name: string, zone: string, volumeType: string, minSizeGiB: int, maxSizeGiB: int)

  predicate Owned(vol: Volume) {
    OWNERSHIP_TAG_KEY in vol.tags && vol.tags[OWNERSHIP_TAG_KEY] == OWNERSHIP_TAG_VALUE
  }

  predicate IsAdoptable(vol: Volume, opts: DiscoverOpts) {
    && Owned(vol)
    && (vol.status == "available" || vol.status == "in-use")
    && vol.zone == opts.zone
    && vol.volumeType == opts.volumeType
    && vol.size >= opts.minSizeGiB
    && !(opts.maxSizeGiB > 0 && vol.size > opts.maxSizeGiB)
  }

  predicate ByID(a: Volume, b: Volume) {
    Ordering.StringLe(a.id, b.id)
  }

  lemma ByIDIsPreorder()
    ensures Ordering.TotalPreorder(ByID)
  {
    forall a, b ensures ByID(a, b) || ByID(b, a) {
      Ordering.StringTotal(a.id, b.id);
    }
    forall a, b, c | ByID(a, b) && ByID(b, c) ensures ByID(a, c) {
      Ordering.StringTransitive(a.id, b.id, c.id);
    }
  }

  ghost predicate Named(list: seq<Volume>, name: string) {
    exists v :: v in list && v.name == name
  }

  ghost predicate LeastAdoptable(list: seq<Volume>, opts: DiscoverOpts, vol: Volume) {
    && vol in list && vol.name == opts.name && IsAdoptable(vol, opts)
    && forall v :: v in list && v.name == opts.name && IsAdoptable(v, opts) ==> ByID(vol, v)
  }

  /** What a discovery over a complete listing answers. */
  ghost predicate Discovered(list: seq<Volume>, opts: DiscoverOpts, r: Result<Volume, Error>) {
    match r
    case Ok(vol) => LeastAdoptable(list, opts, vol)
    case Err(e) =>
      if Named(list, opts.name)
      then e == Conflict && forall v :: v in list && v.name == opts.name ==> !IsAdoptable(v, opts)
      else e == NotFound
  }

  method ExactlyNamed(candidates: seq<Volume>, name: string) returns (named: seq<Volume>)
    ensures forall v :: v in named <==> v in candidates && v.name == name
  {
    named := [];
    for i := 0 to |candidates|
      invariant forall v :: v in named <==> v in candidates[..i] && v.name == name
    {
      assert candidates[..i + 1] == candidates[..i] + [candidates[i]];
      if candidates[i].name == name {
        named := named + [candidates[i]];
      }
    }
    assert candidates[..|candidates|] == candidates;
  }

  method SortByID(volumes: seq<Volume>) returns (ordered: seq<Volume>)
    ensures Ordering.SortedBy(ByID, ordered) && |ordered| == |volumes|
    ensures forall v :: v in ordered <==> v in volumes
  {
    ByIDIsPreorder();
    Ordering.SortMembers(ByID, volumes);
    ordered := Ordering.Sort(ByID, volumes);
  }

  /** The first adoptable volume in identifier order, or a conflict. */
  method PickAdoptable(ghost list: seq<Volume>, opts: DiscoverOpts, named: seq<Volume>)
    returns (r: Result<Volume, Error>)
    requires |named| > 0 && forall v :: v in named <==> v in list && v.name == opts.name
    ensures Discovered(list, opts, r)
  {
    hide IsAdoptable, ByID, LeastAdoptable;
    var ordered := SortByID(named);
    assert ordered[0] in named;
    for i := 0 to |ordered|
      invariant forall j :: 0 <= j < i ==> !IsAdoptable(ordered[j], opts)
    {
      if IsAdoptable(ordered[i], opts) {
        LeastOfSorted(list, opts, ordered, i);
        return Ok(ordered[i]);
      }
    }
    return Err(Conflict);
  }

  /** DiscoverVolume: a listing that failed is passed on; otherwise the answer is the one
      `Discovered` describes. */
  method DiscoverVolume(opts: DiscoverOpts, list: seq<Volume>, script: seq<PageAnswer>)
    returns (r: Result<Volume, Error>, ghost listed: bool)
    ensures Blank(opts.name) ==> r == Err(InvalidArgument) && !listed
    ensures listed ==> Discovered(list, opts, r)
    ensures !Blank(opts.name) ==> (listed <==> Completes(list, script))
    ensures !listed && !Blank(opts.name) ==>
              r.Err? && (FailsWith(list, script, r.error) || (r.error == OperationFailed && !FitsListing(list, script)))
    ensures !Blank(opts.name) ==> forall e :: FailsWith(list, script, e) ==> r == Err(e)
  {
    hide IsAdoptable, ByID, LeastAdoptable;
    listed := false;
    if Blank(opts.name) {
      return Err(InvalidArgument), false;
    }
    var candidates := ListVolumes(list, script);
    if candidates.Err? {
      return Err(candidates.error), false;
    }
    listed := true;
    var named := ExactlyNamed(candidates.value, opts.name);
    if |named| == 0 {
      return Err(NotFound), true;
    }
    r := PickAdoptable(list, opts, named);
  }

  lemma LeastOfSorted(list: seq<Volume>, opts: DiscoverOpts, ordered: seq<Volume>, i: nat)
    requires i < |ordered| && Ordering.SortedBy(ByID, ordered)
    requires forall v :: v in ordered <==> v in list && v.name == opts.name
    requires IsAdoptable(ordered[i], opts) && forall j :: 0 <= j < i ==> !IsAdoptable(ordered[j], opts)
    ensures LeastAdoptable(list, opts, ordered[i])
  {
    assert ordered[i] in ordered;
    forall v | v in list && v.name == opts.name && IsAdoptable(v, opts) ensures ByID(ordered[i], v) {
      assert v in ordered;
      var j :| 0 <= j < |ordered| && ordered[j] == v;
      Ordering.StringTotal(v.id, v.id);
    }
  }

  ghost predicate UniqueIDs(list: seq<Volume>) {
    forall v, w :: v in list && w in list && v.id == w.id ==> v == w
  }

  /** With unique identifiers the answer depends neither on the listing order nor on the page
      boundaries. */
  lemma DiscoveryDetermined(a: seq<Volume>, b: seq<Volume>, opts: DiscoverOpts,
                            ra: Result<Volume, Error>, rb: Result<Volume, Error>)
    requires forall v :: v in a <==> v in b
    requires UniqueIDs(a) && Discovered(a, opts, ra) && Discovered(b, opts, rb)
    ensures ra == rb
  {
    if ra.Ok? && rb.Ok? {
      Ordering.StringAntisymmetric(ra.value.id, rb.value.id);
    }
  }

  // ---------------------------------------------------------------------------------------
  // Deletion
  // ---------------------------------------------------------------------------------------

  datatype GetAnswer = Found(volume: Volume) | GetFails(error: Error)

  /** What the cloud saw and answered. */
  datatype Event = Get(answer: GetAnswer) | Delete(failure: Option<Error>)

  datatype Outcome =
    | Gone
    | Failed(error: Error)
    | StillPresent          // an operation failure: some poll saw the volume
    | NeverSeen(last: Error) // no poll saw it; the last transient error is kept

  /** The cloud as seen by one deletion: answers to reads in order, the answer to a DELETE, and
      the step at which the caller's context ends. */
  class DeletionSession {
    const answers: seq<GetAnswer>
    const deleteFailure: Option<Error>
    const endsAt: nat
    const cause: Cause
    var clock: nat
    var cursor: nat
    var log: seq<Event>

    constructor (answers: seq<GetAnswer>, deleteFailure: Option<Error>, endsAt: nat, cause: Cause)
      ensures log == [] && clock == 0 && cursor == 0
      ensures this.answers == answers && this.deleteFailure == deleteFailure
      ensures this.endsAt == endsAt && this.cause == cause
    {
      this.answers, this.deleteFailure, this.endsAt, this.cause := answers, deleteFailure, endsAt, cause;
      log, clock, cursor := [], 0, 0;
    }

    predicate Ended() reads this {
      clock >= endsAt
    }

    function AnswerAt(k: nat): GetAnswer {
      if k < |answers| then answers[k] else GetFails(Unavailable)
    }

    ghost predicate Made(polls: seq<Event>, k: nat, t: nat) {
      forall i :: 0 <= i < |polls| ==> polls[i] == Get(AnswerAt(k + i)) && t + 2 * i < endsAt
    }

    lemma StopsGone(polls: seq<Event>, k: nat, t: nat)
      requires Made(polls, k, t) && |polls| <= VOLUME_ABSENCE_MAX_ATTEMPTS && EndsWith(polls, GetFails(NotFound))
      ensures Polled(polls, cause, Gone) && OnSchedule(polls, k, t, Gone)
    {
    }

    lemma StopsFailed(polls: seq<Event>, k: nat, t: nat, e: Error)
      requires Made(polls, k, t) && |polls| <= VOLUME_ABSENCE_MAX_ATTEMPTS && !Undecided(polls)
      requires EndsWith(polls, GetFails(e)) && e != NotFound && (IsContextError(e) || !IsTransient(e))
      ensures Polled(polls, cause, Failed(e)) && OnSchedule(polls, k, t, Failed(e))
    {
    }

    lemma StopsCut(polls: seq<Event>, k: nat, t: nat)
      requires Made(polls, k, t) && |polls| < VOLUME_ABSENCE_MAX_ATTEMPTS && Undecided(polls)
      requires t + 2 * |polls| >= endsAt
      ensures Polled(polls, cause, Failed(cause)) && OnSchedule(polls, k, t, Failed(cause))
    {
    }

    lemma StopsTired(polls: seq<Event>, k: nat, t: nat, r: Outcome)
      requires Made(polls, k, t) && |polls| == VOLUME_ABSENCE_MAX_ATTEMPTS && Undecided(polls)
      requires match r
               case StillPresent => Seen(polls)
               case NeverSeen(last) => !Seen(polls) && polls[|polls| - 1] == Get(GetFails(last))
               case _ => false
      ensures Polled(polls, cause, r) && OnSchedule(polls, k, t, r)
    {
    }

    lemma NothingMade(k: nat, t: nat)
      ensures Made([], k, t) && Undecided([]) && !Seen([])
    {
    }

    lemma MadeStep(before: seq<Event>, seen: seq<Event>, k: nat, t: nat)
      requires Made(before, k, t)
      requires seen == [] || (seen == [Get(AnswerAt(k + |before|))] && t + 2 * |before| < endsAt)
      ensures Made(before + seen, k, t)
    {
    }

    /** The reads of a wait that begins at time `t` with read number `k`: each made before the context ended,
        two ticks after the one before, and none left out unless something ended the wait. */
    ghost predicate OnSchedule(polls: seq<Event>, k: nat, t: nat, r: Outcome) {
      && Made(polls, k, t)
      && (r.Failed? && Undecided(polls) ==> t + 2 * |polls| >= endsAt)
    }

    /** GetVolume for a non-blank identifier; `seen` is what reached the cloud. */
    method GetVolume() returns (r: Result<Volume, Error>, ghost seen: seq<Event>)
      modifies this`log, this`clock, this`cursor
      ensures log == old(log) + seen
      ensures if old(Ended()) then seen == [] && r == Err(cause) && cursor == old(cursor) && clock == old(clock)
              else seen == [Get(AnswerAt(old(cursor)))] && Reads(seen[0], r)
                   && cursor == old(cursor) + 1 && clock == old(clock) + 1
    {
      seen := [];
      if Ended() {
        return Err(cause), [];
      }
      var a := AnswerAt(cursor);
      cursor := cursor + 1;
      clock := clock + 1;
      log := log + [Get(a)];
      seen := [Get(a)];
      match a {
        case Found(v) => r := Ok(v);
        case GetFails(e) => r := Err(e);
      }
    }

    /** waitForVolumeAbsence: at most 60 reads. */
    method WaitForVolumeAbsence() returns (r: Outcome, ghost polls: seq<Event>)
      modifies this`log, this`clock, this`cursor
      ensures log == old(log) + polls && Polled(polls, cause, r)
      ensures OnSchedule(polls, old(cursor), old(clock), r)
    {
      hide Undecided, Seen, EndsWith, IsTransient, DeletionSession.Made, Reads, Polled, DeletionSession.OnSchedule;
      var observedPresent := false;
      var lastTransient := Unavailable;
      polls := [];
      NothingMade(cursor, clock);
      for attempt := 0 to VOLUME_ABSENCE_MAX_ATTEMPTS
        invariant log == old(log) + polls && |polls| == attempt
        invariant cursor == old(cursor) + attempt
        invariant attempt < VOLUME_ABSENCE_MAX_ATTEMPTS ==> clock == old(clock) + 2 * attempt
        invariant Made(polls, old(cursor), old(clock))
        invariant Undecided(polls)
        invariant observedPresent <==> Seen(polls)
        invariant !observedPresent && polls != [] ==> polls[|polls| - 1] == Get(GetFails(lastTransient))
      {
        ghost var before := polls;
        ghost var seen;
        var vol;
        vol, seen := GetVolume();
        polls := polls + seen;
        LastPoll(before, seen, vol);
        MadeStep(before, seen, old(cursor), old(clock));
        if vol == Err(NotFound) {
          StopsGone(polls, old(cursor), old(clock));
          return Gone, polls;
        }
        if vol.Ok? {
          observedPresent := true;
        } else {
          if IsContextError(vol.error) {
            if seen == [] {
              StopsCut(polls, old(cursor), old(clock));
            } else {
              StopsFailed(polls, old(cursor), old(clock), vol.error);
            }
            return Failed(vol.error), polls;
          }
          if !IsTransient(vol.error) {
            StopsFailed(polls, old(cursor), old(clock), vol.error);
            return Failed(vol.error), polls;
          }
          lastTransient := vol.error;
        }
        SeenStep(before, polls);
        if attempt < VOLUME_ABSENCE_MAX_ATTEMPTS - 1 {
          clock := clock + 1;
          if Ended() {
            StopsCut(polls, old(cursor), old(clock));
            return Failed(cause), polls;
          }
        }
      }
      r := if observedPresent then StillPresent else NeverSeen(lastTransient);
      StopsTired(polls, old(cursor), old(clock), r);
    }

    /** DeleteVolume: reads once, refuses what it does not own, deletes at most once, and then
        only observes. */
    method DeleteVolume(id: string) returns (r: Outcome, ghost events: seq<Event>)
      modifies this`log, this`clock, this`cursor
      ensures log == old(log) + events
      ensures if old(Ended()) then events == [] && r == Failed(cause)
              else if Blank(id) then events == [] && r == Failed(InvalidArgument)
              else Deletion(events, cause, deleteFailure, r) && events != [] && events[0] == Get(AnswerAt(old(cursor)))
      ensures !old(Ended()) && !Blank(id) && Waits(events, deleteFailure) ==>
                var from := PollsFrom(events);
                OnSchedule(events[from..], old(cursor) + 1, old(clock) + from, r)
    {
      hide Polled, DeletionSession.OnSchedule, DeletionSession.Made, DeletionSession.AnswerAt, Reads;
      events := [];
      if Ended() {
        return Failed(cause), [];
      }
      if Blank(id) {
        return Failed(InvalidArgument), [];
      }
      var vol;
      vol, events := GetVolume();
      if vol.Err? {
        return Failed(vol.error), events;
      }
      if !Owned(vol.value) {
        return Failed(NotOwned), events;
      }
      if vol.value.status == "error_deleting" {
        return Failed(OperationFailed), events;
      }
      if vol.value.status != "deleting" {
        clock := clock + 1;
        log := log + [Delete(deleteFailure)];
        events := events + [Delete(deleteFailure)];
        if deleteFailure.Some? {
          return Failed(deleteFailure.value), events;
        }
      }
      ghost var polls;
      r, polls := WaitForVolumeAbsence();
      events := events + polls;
      assert events[(if vol.value.status == "deleting" then 1 else 2)..] == polls;
    }
  }

  ghost predicate Reads(e: Event, r: Result<Volume, Error>) {
    e == Get(match r case Ok(v) => Found(v) case Err(err) => GetFails(err))
  }

  /** A poll that does not end the wait. */
  ghost predicate Inconclusive(e: Event) {
    e.Get? && match e.answer
              case Found(_) => true
              case GetFails(err) => IsTransient(err) && !IsContextError(err)
  }

  ghost predicate Undecided(polls: seq<Event>) {
    forall i :: 0 <= i < |polls| ==> Inconclusive(polls[i])
  }

  ghost predicate Seen(polls: seq<Event>) {
    exists i :: 0 <= i < |polls| && polls[i].Get? && polls[i].answer.Found?
  }

  lemma LastPoll(before: seq<Event>, seen: seq<Event>, r: Result<Volume, Error>)
    requires Undecided(before)
    requires seen == [] || (|seen| == 1 && Reads(seen[0], r))
    ensures seen == [] ==> before + seen == before
    ensures seen != [] ==> (before + seen)[|before|] == seen[0]
    ensures seen != [] && r.Err? ==> EndsWith(before + seen, GetFails(r.error))
    ensures seen != [] ==>
              (Undecided(before + seen) <==> r.Ok? || (IsTransient(r.error) && !IsContextError(r.error)))
  {
    if seen != [] {
      assert (before + seen)[..|before|] == before;
    }
  }

  lemma SeenStep(before: seq<Event>, after: seq<Event>)
    requires |after| == |before| + 1 && before <= after
    ensures Seen(after) <==> Seen(before) || (after[|before|].Get? && after[|before|].answer.Found?)
  {
    assert forall i :: 0 <= i < |before| ==> after[i] == before[i];
  }

  /** `polls` is an inconclusive run that read `last` at its end. */
  ghost predicate EndsWith(polls: seq<Event>, last: GetAnswer) {
    polls != [] && polls[|polls| - 1] == Get(last) && Undecided(polls[..|polls| - 1])
  }

  /** Everything an absence wait can do. On exhaustion it says "still present" exactly when some
      poll saw the volume, and otherwise keeps the last transient error. */
  ghost predicate Polled(polls: seq<Event>, cause: Cause, r: Outcome) {
    && |polls| <= VOLUME_ABSENCE_MAX_ATTEMPTS
    && match r
       case Gone => EndsWith(polls, GetFails(NotFound))
       case Failed(e) =>
         || (Undecided(polls) && |polls| < VOLUME_ABSENCE_MAX_ATTEMPTS && e == cause)
         || (EndsWith(polls, GetFails(e)) && e != NotFound && (IsContextError(e) || !IsTransient(e)))
       case StillPresent => |polls| == VOLUME_ABSENCE_MAX_ATTEMPTS && Undecided(polls) && Seen(polls)
       case NeverSeen(last) =>
         && |polls| == VOLUME_ABSENCE_MAX_ATTEMPTS && Undecided(polls) && !Seen(polls)
         && polls[|polls| - 1] == Get(GetFails(last))
  }

  /** The only volume a DELETE is issued for. */
  predicate Deletable(vol: Volume) {
    Owned(vol) && vol.status != "deleting" && vol.status != "error_deleting"
  }

  /** Everything a deletion that reaches the cloud can do. */
  ghost predicate Deletion(events: seq<Event>, cause: Cause, deleteFailure: Option<Error>, r: Outcome) {
    events != [] && events[0].Get? &&
    match events[0].answer
    case GetFails(e) => events == [events[0]] && r == Failed(e)
    case Found(v) =>
      if !Owned(v) then events == [events[0]] && r == Failed(NotOwned)
      else if v.status == "error_deleting" then events == [events[0]] && r == Failed(OperationFailed)
      else if v.status == "deleting" then Polled(events[1..], cause, r)
      else && |events| > 1 && events[1] == Delete(deleteFailure)
           && if deleteFailure.Some? then |events| == 2 && r == Failed(deleteFailure.value)
              else Polled(events[2..], cause, r)
  }

  /** Where the reads of the wait begin. */
  ghost function PollsFrom(events: seq<Event>): (n: nat)
    requires events != [] && events[0].Get? && events[0].answer.Found?
  {
    if events[0].answer.volume.status == "deleting" then 1 else 2
  }

  /** The deletion came to its wait. */
  ghost predicate Waits(events: seq<Event>, deleteFailure: Option<Error>) {
    && events != [] && events[0].Get? && events[0].answer.Found?
    && Owned(events[0].answer.volume) && events[0].answer.volume.status != "error_deleting"
    && (events[0].answer.volume.status != "deleting" ==> deleteFailure.None?)
    && |events| >= PollsFrom(events)
  }

  /** An answer that tells nothing: the volume is there, or a failure that may pass. */
  predicate SaysNothing(a: GetAnswer) {
    a.Found? || a.error == Unavailable || a.error == OperationFailed
  }

  lemma SaysNothingIff(a: GetAnswer)
    ensures SaysNothing(a) <==> Inconclusive(Get(a))
  {
  }

  /** The `n` reads from number `k` on tell nothing. */
  ghost predicate Quiet(session: DeletionSession, k: nat, n: nat) {
    forall i :: k <= i < k + n ==> SaysNothing(session.AnswerAt(i))
  }

  /** A read that tells something ends the wait, when it is one of the 60 and made in time. */
  lemma Tells(session: DeletionSession, polls: seq<Event>, k: nat, t: nat, r: Outcome, n: nat)
    requires Polled(polls, session.cause, r) && session.OnSchedule(polls, k, t, r)
    requires n < VOLUME_ABSENCE_MAX_ATTEMPTS && Quiet(session, k, n) && t + 2 * n < session.endsAt
    requires !SaysNothing(session.AnswerAt(k + n))
    ensures |polls| == n + 1
    ensures r == if session.AnswerAt(k + n) == GetFails(NotFound) then Gone else Failed(session.AnswerAt(k + n).error)
  {
    PollsFollow(session, polls, k, t, r);
    if |polls| <= n {
      QuietUndecided(session, polls, k, t, r);
    } else {
      assert !Inconclusive(polls[n]) by {
        SaysNothingIff(session.AnswerAt(k + n));
      }
      if |polls| > n + 1 {
        GoesOn(polls, session.cause, r, n);
      }
    }
  }

  lemma GoesOn(polls: seq<Event>, cause: Cause, r: Outcome, i: nat)
    requires Polled(polls, cause, r) && i < |polls| - 1
    ensures Inconclusive(polls[i])
  {
    assert polls[..|polls| - 1][i] == polls[i];
  }

  lemma PollsFollow(session: DeletionSession, polls: seq<Event>, k: nat, t: nat, r: Outcome)
    requires session.OnSchedule(polls, k, t, r)
    ensures forall i :: 0 <= i < |polls| ==> (Inconclusive(polls[i]) <==> SaysNothing(session.AnswerAt(k + i)))
  {
    forall i | 0 <= i < |polls| ensures Inconclusive(polls[i]) <==> SaysNothing(session.AnswerAt(k + i)) {
      SaysNothingIff(session.AnswerAt(k + i));
    }
  }

  /** A wait all of whose reads told nothing ended with the context, or after 60 reads. */
  lemma QuietUndecided(session: DeletionSession, polls: seq<Event>, k: nat, t: nat, r: Outcome)
    requires Polled(polls, session.cause, r) && session.OnSchedule(polls, k, t, r)
    requires Quiet(session, k, |polls|)
    ensures Undecided(polls) && r != Gone
    ensures if |polls| < VOLUME_ABSENCE_MAX_ATTEMPTS
            then r == Failed(session.cause) && t + 2 * |polls| >= session.endsAt
            else r == if Seen(polls) then StillPresent else NeverSeen(polls[|polls| - 1].answer.error)
  {
    PollsFollow(session, polls, k, t, r);
    assert forall i :: 0 <= i < |polls| ==> Inconclusive(polls[i]);
    if polls != [] {
      assert Inconclusive(polls[|polls| - 1]);
    }
  }

  /** The wait gives up after 60 reads that told nothing. */
  lemma GivesUp(session: DeletionSession, polls: seq<Event>, k: nat, t: nat, r: Outcome)
    requires Polled(polls, session.cause, r) && session.OnSchedule(polls, k, t, r)
    requires Quiet(session, k, VOLUME_ABSENCE_MAX_ATTEMPTS)
    requires t + 2 * (VOLUME_ABSENCE_MAX_ATTEMPTS - 1) < session.endsAt
    ensures |polls| == VOLUME_ABSENCE_MAX_ATTEMPTS
    ensures if ShownAgain(session, k) then r == StillPresent
            else r == NeverSeen(session.AnswerAt(k + VOLUME_ABSENCE_MAX_ATTEMPTS - 1).error)
  {
    QuietUndecided(session, polls, k, t, r);
    if Seen(polls) {
      var i :| 0 <= i < |polls| && polls[i].Get? && polls[i].answer.Found?;
      assert session.AnswerAt(k + i).Found?;
    }
    if ShownAgain(session, k) {
      var j :| k <= j < k + VOLUME_ABSENCE_MAX_ATTEMPTS && session.AnswerAt(j).Found?;
      assert polls[j - k] == Get(session.AnswerAt(k + (j - k)));
    }
  }

  /** One of the 60 reads from number `k` on shows the volume. */
  ghost predicate ShownAgain(session: DeletionSession, k: nat) {
    exists j :: k <= j < k + VOLUME_ABSENCE_MAX_ATTEMPTS && session.AnswerAt(j).Found?
  }

  /** The context ends before read `n` can be made: the reads before it were, and told nothing. */
  lemma CutShort(session: DeletionSession, polls: seq<Event>, k: nat, t: nat, r: Outcome, n: nat)
    requires Polled(polls, session.cause, r) && session.OnSchedule(polls, k, t, r)
    requires n < VOLUME_ABSENCE_MAX_ATTEMPTS && Quiet(session, k, n)
    requires t + 2 * n >= session.endsAt && (n > 0 ==> t + 2 * (n - 1) < session.endsAt)
    ensures |polls| == n && r == Failed(session.cause)
  {
    MadeInTime(session, polls, k, t, r, n);
    QuietUndecided(session, polls, k, t, r);
  }

  lemma MadeInTime(session: DeletionSession, polls: seq<Event>, k: nat, t: nat, r: Outcome, n: nat)
    requires session.OnSchedule(polls, k, t, r)
    ensures n < |polls| ==> t + 2 * n < session.endsAt
  {
    if n < |polls| {
      assert polls[n] == Get(session.AnswerAt(k + n));
    }
  }

  /** At most one DELETE, and only right after a read that showed the ownership marker and a
      status other than deleting or error_deleting. */
  lemma DeletesOnce(events: seq<Event>, cause: Cause, deleteFailure: Option<Error>, r: Outcome, i: nat)
    requires Deletion(events, cause, deleteFailure, r)
    requires i < |events| && events[i].Delete?
    ensures i == 1 && events[0].Get? && events[0].answer.Found? && Deletable(events[0].answer.volume)
  {
    var v := events[0].answer.volume;
    var from := if v.status == "deleting" then 1 else 2;
    if i >= from {
      PollsOnlyRead(events[from..], cause, r, i - from);
    }
  }

  lemma FewRequests(events: seq<Event>, cause: Cause, deleteFailure: Option<Error>, r: Outcome)
    requires Deletion(events, cause, deleteFailure, r)
    ensures |events| <= VOLUME_ABSENCE_MAX_ATTEMPTS + 2
  {
  }

  lemma PollsOnlyRead(polls: seq<Event>, cause: Cause, r: Outcome, i: nat)
    requires Polled(polls, cause, r) && i < |polls|
    ensures polls[i].Get?
  {
    assert i < |polls| - 1 ==> polls[..|polls| - 1][i] == polls[i];
  }

  ghost predicate SaidNotFound(e: Event) {
    e == Get(GetFails(NotFound)) || e == Delete(Some(NotFound))
  }

  lemma PollsNotFound(polls: seq<Event>, cause: Cause, r: Outcome)
    requires Polled(polls, cause, r)
    ensures (exists i :: 0 <= i < |polls| && SaidNotFound(polls[i])) <==> r == Gone
    ensures r != Failed(NotFound)
  {
    if r == Gone {
      assert SaidNotFound(polls[|polls| - 1]);
    } else {
      forall i | 0 <= i < |polls| ensures !SaidNotFound(polls[i]) {
        assert i < |polls| - 1 ==> polls[..|polls| - 1][i] == polls[i];
      }
    }
  }

  /** A deletion ends "gone" or "not found" exactly when some answer of the cloud in this call was
      not-found. */
  lemma NotFoundMeansGone(events: seq<Event>, cause: Cause, deleteFailure: Option<Error>, r: Outcome)
    requires Deletion(events, cause, deleteFailure, r)
    ensures (r == Gone || r == Failed(NotFound)) <==> exists i :: 0 <= i < |events| && SaidNotFound(events[i])
  {
    if events[0].answer.Found? && |events| > 1 && Owned(events[0].answer.volume) {
      var from := if events[0].answer.volume.status == "deleting" then 1 else 2;
      var rest := events[from..];
      if Polled(rest, cause, r) {
        PollsNotFound(rest, cause, r);
        if r == Gone {
          var i :| 0 <= i < |rest| && SaidNotFound(rest[i]);
          assert SaidNotFound(events[i + from]);
        }
        forall i | 0 <= i < |events| && SaidNotFound(events[i]) && i >= from ensures r == Gone {
          assert SaidNotFound(rest[i - from]);
        }
      }
    } else {
      assert SaidNotFound(events[0]) <==> r == Failed(NotFound);
    }
  }
}
