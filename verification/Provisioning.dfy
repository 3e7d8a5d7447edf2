/** CreateVolume and DeleteVolume of the controller service: internal/driver/controller.go, over the
    client of internal/evs/volume.go. */
module Provisioning {
  import opened Errors
  import opened Volumes
  import Capacity

  datatype Code =
    | CodeNotFound | CodeInvalidArgument | CodeAlreadyExists | CodeFailedPrecondition | CodeOutOfRange
    | CodeUnauthenticated | CodePermissionDenied | CodeUnavailable | CodeCanceled | CodeDeadlineExceeded
    | CodeInternal

  /** toGRPCError with the conflict code of the operation. */
  function ToGRPC(conflict: Code, e: Error): Code {
    match e
    case NotFound => CodeNotFound
    case InvalidArgument => CodeInvalidArgument
    case Conflict => conflict
    case Unauthenticated => CodeUnauthenticated
    case PermissionDenied => CodePermissionDenied
    case Unavailable => CodeUnavailable
    case Canceled => CodeCanceled
    case DeadlineExceeded => CodeDeadlineExceeded
    case NotOwned => CodeInternal
    case OperationFailed => CodeInternal
  }

  /** Each error has its own code, but for the two that are internal. */
  lemma CodeTable(conflict: Code)
    ensures ToGRPC(conflict, NotFound) == CodeNotFound && ToGRPC(conflict, Conflict) == conflict
    ensures ToGRPC(conflict, InvalidArgument) == CodeInvalidArgument
    ensures ToGRPC(conflict, Unauthenticated) == CodeUnauthenticated
    ensures ToGRPC(conflict, PermissionDenied) == CodePermissionDenied
    ensures ToGRPC(conflict, Unavailable) == CodeUnavailable
    ensures ToGRPC(conflict, Canceled) == CodeCanceled && ToGRPC(conflict, DeadlineExceeded) == CodeDeadlineExceeded
    ensures ToGRPC(conflict, NotOwned) == ToGRPC(conflict, OperationFailed) == CodeInternal
  {
  }

  /** A request after its parameters have been trimmed and its zone picked; `valid` says that
      capabilities, content source and parameters pass validation. */
  datatype CreateRequest = CreateRequest(name: string, valid: bool, volumeType: string, zone: string,
                                         required: Capacity.Int64, limit: Capacity.Int64)

  datatype CreateResponse = CreateResponse(volumeID: string, capacityBytes: Capacity.Int64, zone: string)

  /** What becomes of a create call: not applied, applied but the answer was lost or failed on the
      way, or applied and answered. */
  datatype CreateOutcome = Refused(error: Error) | Lost(error: Error) | Made

  /** The cloud's side of one CreateVolume call. */
  datatype Script = Script(pages: seq<PageAnswer>, outcome: CreateOutcome, newID: string, newStatus: string)

  predicate FieldsValid(req: CreateRequest) {
    !Blank(req.name) && req.valid && !Blank(req.volumeType) && !Blank(req.zone)
  }

  predicate Admissible(req: CreateRequest) {
    && FieldsValid(req)
    && Capacity.ResolveSizeGiB(req.required, req.limit).Size?
  }

  function SizeOf(req: CreateRequest): int
    requires Admissible(req)
  {
    Capacity.ResolveSizeGiB(req.required, req.limit).gib
  }

  function OptsOf(req: CreateRequest): DiscoverOpts
    requires Admissible(req)
  {
    DiscoverOpts(req.name, req.zone, req.volumeType, SizeOf(req), Capacity.LimitSizeGiB(req.limit))
  }

  /** The volume the cloud makes for a request, carrying the driver's tag. */
  function Stamped(req: CreateRequest, id: string, status: string): Volume
    requires Admissible(req)
  {
    Volume(id, req.name, status, SizeOf(req), req.zone, req.volumeType, map[OWNERSHIP_TAG_KEY := OWNERSHIP_TAG_VALUE])
  }

  /** formatCreateVolumeResponse. A size outside int64 is not a Go value. */
  function Response(vol: Volume): CreateResponse {
    CreateResponse(vol.id, Capacity.Wrap(vol.size * Capacity.BYTES_IN_GIB), vol.zone)
  }

  /** A volume made for a request meets the adoption test of that request once it is usable. */
  lemma StampedIsAdoptable(req: CreateRequest, id: string, status: string)
    requires Admissible(req)
    ensures IsAdoptable(Stamped(req, id, status), OptsOf(req)) <==> status == "available" || status == "in-use"
  {
    if req.limit > 0 {
      Capacity.LimitIsExact(req.required, req.limit, SizeOf(req));
    }
  }

  /** What a request asks of an existing volume of its name: the driver's tag, a usable status, its zone and
      type, and a size in bytes that lies in the requested range and is at least the smallest size. */
  ghost predicate Suits(v: Volume, req: CreateRequest) {
    && "managed-by" in v.tags && v.tags["managed-by"] == "evs-csi-t-cloud-wilaris-dev"
    && v.status in {"available", "in-use"} && v.zone == req.zone && v.volumeType == req.volumeType
    && v.size >= 10 && req.required <= v.size * 0x4000_0000
    && (req.limit > 0 ==> v.size * 0x4000_0000 <= req.limit)
  }

  /** The adoption test, which compares sizes in GiB, asks exactly that. */
  lemma AdoptableIffSuits(v: Volume, req: CreateRequest)
    requires Admissible(req)
    ensures IsAdoptable(v, OptsOf(req)) <==> Suits(v, req)
  {
    Capacity.ResolveIsLeast(req.required, req.limit);
    var gib := SizeOf(req);
    if req.limit > 0 {
      Capacity.LimitIsExact(req.required, req.limit, v.size);
    }
    if v.size >= 10 && req.required <= v.size * 0x4000_0000 && (req.limit > 0 ==> v.size * 0x4000_0000 <= req.limit) {
      assert v.size * 0x4000_0000 < Capacity.TWO63 ==> Capacity.Meets(req.required, req.limit, v.size);
    }
  }

  /** The capacity, in bytes, lies in the range of the request. */
  ghost predicate InRange(bytes: int, req: CreateRequest) {
    req.required <= bytes && (req.limit > 0 ==> bytes <= req.limit)
  }

  /** What a response says of a volume: its identifier and zone, and, below 2^33 GiB or under a limit, its
      size in bytes, which lies in the requested range. */
  ghost predicate Reports(response: CreateResponse, v: Volume, req: CreateRequest) {
    && response.volumeID == v.id && response.zone == v.zone
    && (req.limit > 0 || v.size < 0x2_0000_0000 ==>
          response.capacityBytes == v.size * 0x4000_0000 && InRange(response.capacityBytes, req))
  }

  lemma ResponseReports(v: Volume, req: CreateRequest)
    requires v.size >= 10 && InRange(v.size * 0x4000_0000, req)
    ensures Reports(Response(v), v, req)
  {
    if req.limit > 0 || v.size < 0x2_0000_0000 {
      Capacity.WrapInRange(v.size * Capacity.BYTES_IN_GIB);
    }
  }

  lemma StampedInRange(req: CreateRequest, id: string, status: string)
    requires Admissible(req)
    ensures var v := Stamped(req, id, status); v.size >= 10 && InRange(v.size * 0x4000_0000, req)
  {
    Capacity.ResolveIsLeast(req.required, req.limit);
  }

  /** A volume of the request's name that suits it. */
  ghost predicate AnySuits(list: seq<Volume>, req: CreateRequest) {
    exists v :: v in list && v.name == req.name && Suits(v, req)
  }

  /** What a complete listing leads to: a volume that suits, when there is one, else a conflict when the name
      is taken. */
  lemma FindsWhatSuits(list: seq<Volume>, req: CreateRequest, pages: seq<PageAnswer>, found: Result<Volume, Error>)
    requires Admissible(req) && Finds(list, req, pages, found)
    ensures found.Ok? ==> found.value in list && found.value.name == req.name && Suits(found.value, req)
    ensures Completes(list, pages) ==>
              if AnySuits(list, req) then found.Ok?
              else found == Err(if Named(list, req.name) then Conflict else NotFound)
  {
    hide IsAdoptable, Suits, OptsOf, Completes;
    forall v ensures IsAdoptable(v, OptsOf(req)) <==> Suits(v, req) {
      AdoptableIffSuits(v, req);
    }
    NameOfOpts(req);
  }

  lemma NameOfOpts(req: CreateRequest)
    requires Admissible(req)
    ensures OptsOf(req).name == req.name
  {
  }

  ghost predicate AtMostOne(volumes: seq<Volume>, name: string) {
    forall i, j :: 0 <= i < j < |volumes| ==> volumes[i].name != name || volumes[j].name != name
  }

  class Cloud {
    var volumes: seq<Volume>
    var createCalls: nat

    constructor (volumes: seq<Volume>)
      ensures this.volumes == volumes && createCalls == 0
    {
      this.volumes, createCalls := volumes, 0;
    }

    /** The client's CreateVolume. */
    method Create(req: CreateRequest, script: Script) returns (r: Result<Volume, Error>)
      requires Admissible(req)
      modifies this
      ensures createCalls == old(createCalls) + 1
      ensures var made := Stamped(req, script.newID, script.newStatus);
        && volumes == (if script.outcome.Refused? then old(volumes) else old(volumes) + [made])
        && r == (match script.outcome case Refused(e) => Err(e) case Lost(e) => Err(e) case Made => Ok(made))
    {
      createCalls := createCalls + 1;
      var made := Stamped(req, script.newID, script.newStatus);
      match script.outcome {
        case Refused(e) => return Err(e);
        case Lost(e) =>
          volumes := volumes + [made];
          return Err(e);
        case Made =>
          volumes := volumes + [made];
          return Ok(made);
      }
    }

    /** Statuses change by themselves between calls. */
    method Drift(statuses: map<string, string>)
      modifies this`volumes
      ensures volumes == Drifted(old(volumes), statuses)
    {
      volumes := Drifted(volumes, statuses);
    }
  }

  function Drifted(volumes: seq<Volume>, statuses: map<string, string>): (r: seq<Volume>)
    ensures |r| == |volumes|
    ensures forall i :: 0 <= i < |r| ==> r[i] == volumes[i].(status := r[i].status)
  {
    seq(|volumes|, i requires 0 <= i < |volumes| =>
      if volumes[i].id in statuses then volumes[i].(status := statuses[volumes[i].id]) else volumes[i])
  }

  /** What a discovery against this list and these page answers finds. */
  ghost predicate Finds(list: seq<Volume>, req: CreateRequest, pages: seq<PageAnswer>, found: Result<Volume, Error>)
    requires Admissible(req)
  {
    if Completes(list, pages) then Discovered(list, OptsOf(req), found)
    else && found.Err?
         && (FailsWith(list, pages, found.error) || (found.error == OperationFailed && !FitsListing(list, pages)))
         && forall e :: FailsWith(list, pages, e) ==> found.error == e
  }

  /** What the create call does to the volumes. */
  function AfterCreate(volumes: seq<Volume>, req: CreateRequest, script: Script): seq<Volume>
    requires Admissible(req)
  {
    if script.outcome.Refused? then volumes else volumes + [Stamped(req, script.newID, script.newStatus)]
  }

  function CreateAnswer(req: CreateRequest, script: Script): Result<CreateResponse, Code>
    requires Admissible(req)
  {
    match script.outcome
    case Refused(e) => Err(ToGRPC(CodeAlreadyExists, e))
    case Lost(e) => Err(ToGRPC(CodeAlreadyExists, e))
    case Made => Ok(Response(Stamped(req, script.newID, script.newStatus)))
  }

  /** CreateVolume of the controller: it adopts what the discovery finds, and makes its one create
      call exactly when the discovery ended in not-found. */
  method CreateVolume(cloud: Cloud, req: CreateRequest, script: Script)
    returns (r: Result<CreateResponse, Code>, ghost found: Result<Volume, Error>)
    modifies cloud
    ensures !Admissible(req) ==> cloud.volumes == old(cloud.volumes) && cloud.createCalls == old(cloud.createCalls)
    ensures !Admissible(req) ==>
              r == Err(if FieldsValid(req) && !Capacity.Malformed(req.required, req.limit)
                       then CodeOutOfRange else CodeInvalidArgument)
    ensures Admissible(req) ==> Finds(old(cloud.volumes), req, script.pages, found)
    ensures Admissible(req) && found != Err(NotFound) ==>
              && cloud.volumes == old(cloud.volumes) && cloud.createCalls == old(cloud.createCalls)
              && r == (match found
                       case Ok(v) => Ok(Response(v))
                       case Err(e) => Err(ToGRPC(CodeAlreadyExists, e)))
    ensures Admissible(req) && found == Err(NotFound) ==>
              && cloud.volumes == AfterCreate(old(cloud.volumes), req, script)
              && cloud.createCalls == old(cloud.createCalls) + 1
              && r == CreateAnswer(req, script)
    ensures found.Ok? && Admissible(req) ==>
              && found.value in old(cloud.volumes) && found.value.name == req.name && Suits(found.value, req)
              && r.Ok? && Reports(r.value, found.value, req)
    ensures Admissible(req) && Completes(old(cloud.volumes), script.pages) && AnySuits(old(cloud.volumes), req) ==>
              r.Ok?
    ensures Admissible(req) && Completes(old(cloud.volumes), script.pages)
            && Named(old(cloud.volumes), req.name) && !AnySuits(old(cloud.volumes), req) ==>
              r == Err(CodeAlreadyExists)
    ensures Admissible(req) && found == Err(NotFound) && r.Ok? ==>
              Reports(r.value, Stamped(req, script.newID, script.newStatus), req)
    ensures Blank(req.name) || !req.valid || Blank(req.volumeType) || Blank(req.zone) ==> r == Err(CodeInvalidArgument)
  {
    if Blank(req.name) || !req.valid || Blank(req.volumeType) || Blank(req.zone) {
      return Err(CodeInvalidArgument), Err(NotFound);
    }
    Capacity.ResolveIsLeast(req.required, req.limit);
    match Capacity.ResolveSizeGiB(req.required, req.limit) {
      case InvalidArgument => return Err(CodeInvalidArgument), Err(NotFound);
      case OutOfRange => return Err(CodeOutOfRange), Err(NotFound);
      case Size(_) =>
    }
    ghost var listed;
    var existing;
    existing, listed := DiscoverVolume(OptsOf(req), cloud.volumes, script.pages);
    found := existing;
    FindsWhatSuits(cloud.volumes, req, script.pages, found);
    if existing.Ok? {
      ResponseReports(existing.value, req);
      return Ok(Response(existing.value)), found;
    }
    if existing.error != NotFound {
      return Err(ToGRPC(CodeAlreadyExists, existing.error)), found;
    }
    StampedInRange(req, script.newID, script.newStatus);
    ResponseReports(Stamped(req, script.newID, script.newStatus), req);
    var created := cloud.Create(req, script);
    if created.Err? {
      return Err(ToGRPC(CodeAlreadyExists, created.error)), found;
    }
    return Ok(Response(created.value)), found;
  }

  // ---------------------------------------------------------------------------------------
  // Runs of CreateVolume for one name
  // ---------------------------------------------------------------------------------------

  datatype Call = Call(drift: map<string, string>, req: CreateRequest, script: Script)

  /** Every volume of the name was made for one of the requests. */
  ghost predicate MadeFor(volumes: seq<Volume>, name: string, calls: seq<Call>) {
    forall v :: v in volumes && v.name == name ==> exists i :: 0 <= i < |calls| && MadeBy(v, calls[i].req)
  }

  ghost predicate MadeBy(v: Volume, req: CreateRequest) {
    Admissible(req) && v == Stamped(req, v.id, v.status)
  }

  lemma DriftKeeps(volumes: seq<Volume>, statuses: map<string, string>, name: string, calls: seq<Call>)
    requires AtMostOne(volumes, name) && MadeFor(volumes, name, calls)
    ensures AtMostOne(Drifted(volumes, statuses), name) && MadeFor(Drifted(volumes, statuses), name, calls)
  {
    var after := Drifted(volumes, statuses);
    forall i, j | 0 <= i < j < |after| ensures after[i].name != name || after[j].name != name {
      assert after[i].name == volumes[i].name && after[j].name == volumes[j].name;
    }
    forall v | v in after && v.name == name
      ensures exists c :: 0 <= c < |calls| && MadeBy(v, calls[c].req)
    {
      var i :| 0 <= i < |after| && after[i] == v;
      assert volumes[i] in volumes && volumes[i].name == name;
      var c :| 0 <= c < |calls| && MadeBy(volumes[i], calls[c].req);
      assert MadeBy(v, calls[c].req);
    }
  }

  lemma CreateKeeps(volumes: seq<Volume>, name: string, calls: seq<Call>, v: Volume)
    requires AtMostOne(volumes, name) && MadeFor(volumes, name, calls)
    requires !Named(volumes, name) && exists i :: 0 <= i < |calls| && MadeBy(v, calls[i].req)
    ensures AtMostOne(volumes + [v], name) && MadeFor(volumes + [v], name, calls)
  {
    assert forall i :: 0 <= i < |volumes| ==> volumes[i] in volumes;
  }

  /** Over any sequence of CreateVolume calls for one name, starting without a volume of that name,
      with create answers lost at will and statuses drifting in between, at most one volume of the
      name ever exists, provided the listing endpoint never answers not-found. */
  method ProvisionRun(cloud: Cloud, name: string, calls: seq<Call>)
    requires !Named(cloud.volumes, name)
    requires forall i :: 0 <= i < |calls| ==> calls[i].req.name == name && NeverNotFound(calls[i].script.pages)
    modifies cloud
    ensures AtMostOne(cloud.volumes, name) && MadeFor(cloud.volumes, name, calls)
  {
    NoneYet(cloud.volumes, name, calls);
    for i := 0 to |calls|
      invariant AtMostOne(cloud.volumes, name) && MadeFor(cloud.volumes, name, calls)
    {
      DriftKeeps(cloud.volumes, calls[i].drift, name, calls);
      cloud.Drift(calls[i].drift);
      ghost var before := cloud.volumes;
      var _, found := CreateVolume(cloud, calls[i].req, calls[i].script);
      CallKeeps(before, cloud.volumes, name, calls, i, found);
    }
  }

  ghost predicate NeverNotFound(pages: seq<PageAnswer>) {
    forall k :: 0 <= k < |pages| ==> pages[k] != PageFails(NotFound)
  }

  lemma NoneYet(volumes: seq<Volume>, name: string, calls: seq<Call>)
    requires !Named(volumes, name)
    ensures AtMostOne(volumes, name) && MadeFor(volumes, name, calls)
  {
    assert forall i :: 0 <= i < |volumes| ==> volumes[i] in volumes;
  }

  lemma CallKeeps(before: seq<Volume>, after: seq<Volume>, name: string, calls: seq<Call>, i: nat,
                  found: Result<Volume, Error>)
    requires AtMostOne(before, name) && MadeFor(before, name, calls)
    requires i < |calls| && calls[i].req.name == name && NeverNotFound(calls[i].script.pages)
    requires !Admissible(calls[i].req) ==> after == before
    requires Admissible(calls[i].req) ==>
               && Finds(before, calls[i].req, calls[i].script.pages, found)
               && after == if found == Err(NotFound) then AfterCreate(before, calls[i].req, calls[i].script) else before
    ensures AtMostOne(after, name) && MadeFor(after, name, calls)
  {
    var req, script := calls[i].req, calls[i].script;
    if after != before {
      assert !Named(before, name);
      assert MadeBy(Stamped(req, script.newID, script.newStatus), calls[i].req);
      CreateKeeps(before, name, calls, Stamped(req, script.newID, script.newStatus));
    }
  }

  /** Once the one volume of a name, made for this request, is usable, a repeated request returns
      it and makes no create call, whenever its listing completes. */
  method RepeatCreate(cloud: Cloud, req: CreateRequest, script: Script, ghost v: Volume)
    returns (r: Result<CreateResponse, Code>)
    requires AtMostOne(cloud.volumes, req.name) && v in cloud.volumes && v.name == req.name
    requires MadeBy(v, req) && (v.status == "available" || v.status == "in-use")
    requires Completes(cloud.volumes, script.pages)
    modifies cloud
    ensures r == Ok(Response(v)) && cloud.volumes == old(cloud.volumes) && cloud.createCalls == old(cloud.createCalls)
  {
    ghost var before := cloud.volumes;
    ghost var found;
    r, found := CreateVolume(cloud, req, script);
    OnlyChoice(before, req, v, found);
  }

  lemma OnlyChoice(list: seq<Volume>, req: CreateRequest, v: Volume, found: Result<Volume, Error>)
    requires AtMostOne(list, req.name) && v in list && v.name == req.name
    requires MadeBy(v, req) && (v.status == "available" || v.status == "in-use")
    requires Discovered(list, OptsOf(req), found)
    ensures found == Ok(v)
  {
    StampedIsAdoptable(req, v.id, v.status);
    if found.Ok? {
      var i :| 0 <= i < |list| && list[i] == v;
      var j :| 0 <= j < |list| && list[j] == found.value;
      assert i == j;
    }
  }

  /** A call makes a second volume of a name exactly when the cloud applies its create call and the
      listing endpoint had answered not-found. */
  lemma DuplicateIffNotFound(list: seq<Volume>, req: CreateRequest, script: Script, found: Result<Volume, Error>)
    requires Admissible(req) && Named(list, req.name) && Finds(list, req, script.pages, found)
    requires !script.outcome.Refused?
    ensures found == Err(NotFound) <==> FailsWith(list, script.pages, NotFound)
    ensures found == Err(NotFound) ==> !AtMostOne(AfterCreate(list, req, script), req.name)
  {
    var v :| v in list && v.name == req.name;
    var i :| 0 <= i < |list| && list[i] == v;
    var after := list + [Stamped(req, script.newID, script.newStatus)];
    assert after[i] == v && after[|list|].name == req.name;
    if FailsWith(list, script.pages, NotFound) {
      var k: nat :| FailsAt(list, script.pages, k) && script.pages[k].error == NotFound;
    }
  }

  /** and such an answer exists: the very first page request of any call. */
  lemma NotFoundListing(list: seq<Volume>)
    ensures FailsWith(list, [PageFails(NotFound)], NotFound)
  {
    assert FailsAt(list, [PageFails(NotFound)], 0);
  }

  // ---------------------------------------------------------------------------------------
  // DeleteVolume
  // ---------------------------------------------------------------------------------------

  /** How the controller answers for a read that ended the wait. */
  ghost function Answered(a: GetAnswer): Result<(), Code>
    requires a.GetFails?
  {
    if a.error == NotFound then Ok(())
    else if a.error == NotOwned then Err(CodeFailedPrecondition)
    else Err(ToGRPC(CodeFailedPrecondition, a.error))
  }

  /** Read `n` is one of the 60 and made in time, tells something, and none before it does. */
  ghost predicate TellsAt(session: DeletionSession, k: nat, t: nat, n: nat) {
    n < 60 && Quiet(session, k, n) && t + 2 * n < session.endsAt && !SaysNothing(session.AnswerAt(k + n))
  }

  /** The context ends before read `n`, one of the 60, can be made, and the reads before it tell nothing. */
  ghost predicate CutAt(session: DeletionSession, k: nat, t: nat, n: nat) {
    && n < 60 && Quiet(session, k, n) && t + 2 * n >= session.endsAt
    && (n > 0 ==> t + 2 * (n - 1) < session.endsAt)
  }

  /** What follows a DELETE, or a read that shows the volume on its way out: reads from number `k` on, the
      first at time `t`. The first of 60 that tells something decides, when it can be made in time; else the
      60 reads, or the end of the context, do. */
  ghost predicate WaitedOut(session: DeletionSession, k: nat, t: nat, count: nat, r: Result<(), Code>) {
    && (forall n: nat :: TellsAt(session, k, t, n) ==> count == n + 1 && r == Answered(session.AnswerAt(k + n)))
    && (Quiet(session, k, 60) && t + 2 * 59 < session.endsAt ==>
          && count == 60
          && r == Err(if ShownAgain(session, k) then CodeInternal
                      else ToGRPC(CodeFailedPrecondition, session.AnswerAt(k + 59).error)))
    && (forall n: nat :: CutAt(session, k, t, n) ==>
          count == n && r == Err(ToGRPC(CodeFailedPrecondition, session.cause)))
  }

  function CodeOf(outcome: Outcome): Result<(), Code> {
    match outcome
    case Gone => Ok(())
    case Failed(e) =>
      if e == NotFound then Ok(()) else if e == NotOwned then Err(CodeFailedPrecondition)
      else Err(ToGRPC(CodeFailedPrecondition, e))
    case StillPresent => Err(ToGRPC(CodeFailedPrecondition, OperationFailed))
    case NeverSeen(e) => Err(ToGRPC(CodeFailedPrecondition, e))
  }

  lemma WaitIsOut(session: DeletionSession, polls: seq<Event>, k: nat, t: nat, outcome: Outcome)
    requires Polled(polls, session.cause, outcome) && session.OnSchedule(polls, k, t, outcome)
    ensures WaitedOut(session, k, t, |polls|, CodeOf(outcome))
  {
    hide Polled, Quiet, DeletionSession.OnSchedule, ShownAgain;
    forall n: nat | TellsAt(session, k, t, n)
      ensures |polls| == n + 1 && session.AnswerAt(k + n).GetFails?
      ensures CodeOf(outcome) == Answered(session.AnswerAt(k + n))
    {
      Tells(session, polls, k, t, outcome, n);
    }
    if Quiet(session, k, 60) && t + 2 * 59 < session.endsAt {
      GivesUp(session, polls, k, t, outcome);
    }
    forall n: nat | CutAt(session, k, t, n)
      ensures |polls| == n && CodeOf(outcome) == Err(ToGRPC(CodeFailedPrecondition, session.cause))
    {
      CutShort(session, polls, k, t, outcome, n);
    }
  }

  /** Everything a deletion does whose context is live, from its first read, number `k`, at time `t`, on. */
  ghost predicate Deletes(session: DeletionSession, k: nat, t: nat, events: seq<Event>, r: Result<(), Code>) {
    events != [] && events[0] == Get(session.AnswerAt(k)) &&
    match session.AnswerAt(k)
    case GetFails(_) => |events| == 1 && r == Answered(session.AnswerAt(k))
    case Found(v) =>
      if "managed-by" !in v.tags || v.tags["managed-by"] != "evs-csi-t-cloud-wilaris-dev" then
        |events| == 1 && r == Err(CodeFailedPrecondition)
      else if v.status == "error_deleting" then |events| == 1 && r == Err(CodeInternal)
      else if v.status == "deleting" then WaitedOut(session, k + 1, t + 1, |events| - 1, r)
      else
        && |events| > 1 && events[1] == Delete(session.deleteFailure)
        && match session.deleteFailure
           case Some(e) => |events| == 2 && r == Answered(GetFails(e))
           case None => WaitedOut(session, k + 1, t + 2, |events| - 2, r)
  }

  lemma DeletionDeletes(session: DeletionSession, k: nat, t: nat, events: seq<Event>, outcome: Outcome)
    requires Deletion(events, session.cause, session.deleteFailure, outcome) && events[0] == Get(session.AnswerAt(k))
    requires Waits(events, session.deleteFailure) ==>
               session.OnSchedule(events[PollsFrom(events)..], k + 1, t + PollsFrom(events), outcome)
    ensures Deletes(session, k, t, events, CodeOf(outcome))
  {
    hide WaitedOut, Polled, DeletionSession.OnSchedule;
    CodeTable(CodeFailedPrecondition);
    if Waits(events, session.deleteFailure) {
      var from := PollsFrom(events);
      WaitIsOut(session, events[from..], k + 1, t + from, outcome);
    }
  }

  /** DeleteVolume of the controller: OK exactly when the cloud answered not-found at least once
      in this call. */
  method DeleteVolume(session: DeletionSession, id: string) returns (r: Result<(), Code>, ghost events: seq<Event>)
    modifies session
    ensures session.log == old(session.log) + events
    ensures Blank(id) ==> events == [] && r == Err(CodeInvalidArgument)
    ensures !Blank(id) && old(session.Ended()) ==>
              events == [] && r == Err(if session.cause == Canceled then CodeCanceled else CodeDeadlineExceeded)
    ensures !Blank(id) && !old(session.Ended()) ==>
              Deletes(session, old(session.cursor), old(session.clock), events, r)
    ensures r.Ok? <==> exists i :: 0 <= i < |events| && SaidNotFound(events[i])
    ensures forall i :: 0 <= i < |events| && events[i].Delete? ==>
              i == 1 && events[0].Get? && events[0].answer.Found? && Deletable(events[0].answer.volume)
    ensures |events| <= VOLUME_ABSENCE_MAX_ATTEMPTS + 2
  {
    hide Deletion, Deletes, Waits, Deletable, SaidNotFound, ToGRPC;
    events := [];
    if Blank(id) {
      return Err(CodeInvalidArgument), [];
    }
    CodeTable(CodeFailedPrecondition);
    ghost var k, t := session.cursor, session.clock;
    var outcome;
    outcome, events := session.DeleteVolume(id);
    if events != [] {
      NotFoundMeansGone(events, session.cause, session.deleteFailure, outcome);
      DeletionDeletes(session, k, t, events, outcome);
      FewRequests(events, session.cause, session.deleteFailure, outcome);
      forall i | 0 <= i < |events| && events[i].Delete?
        ensures i == 1 && events[0].Get? && events[0].answer.Found? && Deletable(events[0].answer.volume)
      {
        DeletesOnce(events, session.cause, session.deleteFailure, outcome, i);
      }
    }
    r := CodeOf(outcome);
  }
}
