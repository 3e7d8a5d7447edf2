/** Attaching and detaching volumes, reconciled against a cloud that may refuse, lose or delay
    answers: internal/evs/attachment.go. Time is counted in poll intervals. */
module Attachment {
  import opened Errors

  const MAX_OPERATION_TIMEOUT: nat := 600
  const REFUSED_RECONCILE_WINDOW: nat := 90

  // ---------------------------------------------------------------------------------------
  // The cloud
  // ---------------------------------------------------------------------------------------

  /** The true state of the volume. */
  datatype Volume =
    | Unattached
    | Attaching(server: string, device: string)
    | Attached(server: string, device: string)
    | Detaching(server: string, device: string)

  datatype Row = Row(volume: string, server: string, device: string)

  datatype Attachment = Attachment(volume: string, server: string, deviceName: string)

  /** The listing of one server: what the state implies, arbitrary rows, or an error. */
  datatype ListAnswer = HonestList | Rows(rows: seq<Row>) | ListFails(error: Error)

  /** The volume record: what the state implies (a volume in transit may or may not list its
      server), anything else, or an error. */
  datatype RecordAnswer =
    | HonestRecord(lists: bool) | Says(status: string, servers: seq<string>) | RecordFails(error: Error)

  datatype EffectAnswer = EffectJob(jobId: string) | EffectFails(error: Error)

  datatype JobAnswer = JobStatus(status: string) | JobFails(error: Error)

  /** What the world does with one request: how long it takes, what other actors and the cloud do to
      the volume meanwhile, whether an effect is accepted, and the answer to each kind of request. */
  datatype Step = Step(
    took: nat, others: Option<Volume>, accepts: bool, device: string,
    list: ListAnswer, record: RecordAnswer, effect: EffectAnswer, job: JobAnswer, coin: bool)

  const QUIET: Step := Step(0, None, false, "", HonestList, HonestRecord(true), EffectFails(InvalidArgument),
                            JobStatus("SUCCESS"), true)

  /** The listing shows settled attachments only. */
  function HonestRows(v: Volume, volumeID: string, serverID: string): seq<Row> {
    if v.Attached? && v.server == serverID then [Row(volumeID, serverID, v.device)] else []
  }

  function HonestStatus(v: Volume): string {
    match v
    case Unattached => "available"
    case Attaching(_, _) => "attaching"
    case Attached(_, _) => "in-use"
    case Detaching(_, _) => "detaching"
  }

  function HonestServers(v: Volume, lists: bool): seq<string> {
    match v
    case Unattached => []
    case Attaching(s, _) => if lists then [s] else []
    case Attached(s, _) => [s]
    case Detaching(s, _) => if lists then [s] else []
  }

  /** The first row of the pair, with its device name trimmed. */
  function FirstMatch(rows: seq<Row>, volumeID: string, serverID: string): (r: Option<Attachment>)
    ensures r.Some? ==> r.value.volume == volumeID && r.value.server == serverID
  {
    if rows == [] then None
    else if rows[0].volume == volumeID && rows[0].server == serverID then
      Some(Attachment(volumeID, serverID, Trim(rows[0].device)))
    else FirstMatch(rows[1..], volumeID, serverID)
  }

  datatype Reading = Denied | InFlight | AttachedElsewhere

  ghost predicate IsOf(row: Row, volumeID: string, serverID: string) {
    row.volume == volumeID && row.server == serverID
  }

  /** No row of the pair, or the first one's device. */
  lemma {:induction false} FirstMatchIs(rows: seq<Row>, volumeID: string, serverID: string)
    ensures match FirstMatch(rows, volumeID, serverID)
            case None => forall i :: 0 <= i < |rows| ==> !IsOf(rows[i], volumeID, serverID)
            case Some(a) => exists i :: 0 <= i < |rows| && IsOf(rows[i], volumeID, serverID)
                                        && (forall j :: 0 <= j < i ==> !IsOf(rows[j], volumeID, serverID))
                                        && a == Attachment(volumeID, serverID, Trim(rows[i].device))
  {
    if rows != [] && !IsOf(rows[0], volumeID, serverID) {
      FirstMatchIs(rows[1..], volumeID, serverID);
      if FirstMatch(rows[1..], volumeID, serverID).Some? {
        var i :| 0 <= i < |rows[1..]| && IsOf(rows[1..][i], volumeID, serverID)
                 && (forall j :: 0 <= j < i ==> !IsOf(rows[1..][j], volumeID, serverID))
                 && FirstMatch(rows[1..], volumeID, serverID)
                    == Some(Attachment(volumeID, serverID, Trim(rows[1..][i].device)));
        assert IsOf(rows[i + 1], volumeID, serverID);
        assert forall j :: 0 < j < i + 1 ==> !IsOf(rows[1..][j - 1], volumeID, serverID) && rows[1..][j - 1] == rows[j];
      } else {
        assert forall i :: 0 < i < |rows| ==> rows[i] == rows[1..][i - 1];
      }
    }
  }

  lemma NothingMatches(volumeID: string, serverID: string)
    ensures FirstMatch([], volumeID, serverID) == None
  {
  }

  function ReadAttach(status: string, servers: seq<string>, serverID: string): Reading {
    if serverID in servers then InFlight
    else if servers != [] then AttachedElsewhere
    else if status == "attaching" then InFlight
    else Denied
  }

  predicate ReadDetach(status: string, servers: seq<string>, serverID: string) {
    status == "attaching" || status == "detaching" || serverID in servers
  }

  function WithTimeout(ctx: Ctx, now: nat, d: nat): Ctx {
    if now + d < ctx.endsAt then Ctx(now + d, DeadlineExceeded) else ctx
  }

  /** A step of a cloud that answers truthfully within `limit` and that nobody else disturbs. */
  ghost predicate Truthful(s: Step, limit: nat) {
    && s.took <= limit && s.others.None? && s.list.HonestList? && s.record.HonestRecord?
    && (s.accepts ==> !Blank(s.device))
  }

  /** An effect sent in this step is turned down with an invalid-argument or a transient error. */
  ghost predicate Refuses(s: Step) {
    s.effect.EffectFails? && (IsTransient(s.effect.error) || s.effect.error == InvalidArgument)
  }

  /** An attach to the server was accepted, and perhaps settled. */
  ghost predicate InTransit(v: Volume, server: string, device: string) {
    (v == Attaching(server, device) || v == Attached(server, device)) && !Blank(device)
  }

  function DeviceOf(v: Volume): string {
    if v.Unattached? then "" else v.device
  }

  /** The volume is not on the server, nor on its way there. */
  ghost predicate Off(v: Volume, server: string) {
    v.Unattached? || v.Detaching? || v.server != server
  }

  /** Left alone, a volume stays as it is, or what was accepted settles. */
  ghost predicate AtRest(a: Volume, b: Volume) {
    b == a || (a.Attaching? && b == Attached(a.server, a.device)) || (a.Detaching? && b == Unattached)
  }

  lemma RestStaysOff(a: Volume, b: Volume, server: string)
    requires AtRest(a, b) && Off(a, server)
    ensures Off(b, server)
  {
  }

  lemma RestStays(v: Volume)
    ensures AtRest(v, v)
  {
  }

  lemma RestGoesOn(a: Volume, b: Volume, c: Volume)
    requires AtRest(a, b) && AtRest(b, c)
    ensures AtRest(a, c)
  {
  }

  /** What a wait is for. */
  datatype Goal = WithDevice | Absent

  predicate Settled(goal: Goal, a: Option<Attachment>) {
    match goal
    case WithDevice => a.Some? && a.value.deviceName != ""
    case Absent => a.None?
  }

  /** The last thing a client heard. */
  datatype Heard = Nothing | Listing(rows: seq<Row>) | Job(status: string) | Other

  class Cloud {
    const script: seq<Step>
    const settlesAt: nat
    var volume: Volume
    var now: nat
    var cursor: nat
    var tickAt: nat
    var heard: Heard
    var attachCalls: nat
    var detachCalls: nat
    var accepted: nat

    constructor (volume: Volume, script: seq<Step>, settlesAt: nat)
      ensures this.volume == volume && this.script == script && this.settlesAt == settlesAt
      ensures now == 0 && cursor == 0 && heard == Nothing
      ensures attachCalls == 0 && detachCalls == 0 && accepted == 0
    {
      this.volume, this.script, this.settlesAt := volume, script, settlesAt;
      now, cursor, tickAt, heard, attachCalls, detachCalls, accepted := 0, 0, 0, Nothing, 0, 0, 0;
    }

    function StepAt(k: nat): Step {
      if k < |script| then script[k] else QUIET
    }

    predicate Ended(ctx: Ctx)
      reads this`now
    {
      now >= ctx.endsAt
    }

    /** When the next request under `ctx` is over: answered, or cut when the context ends. */
    function Arrival(ctx: Ctx): nat
      reads this`now, this`cursor
    {
      if now + StepAt(cursor).took < ctx.endsAt then now + StepAt(cursor).took else ctx.endsAt
    }

    /** What the others, and an accepted attach or detach that settles, have made of the volume by `t`. */
    function VolumeAt(s: Step, t: nat): Volume
      reads this`volume
    {
      var v := if s.others.Some? then s.others.value else volume;
      if t < settlesAt then v
      else if v.Attaching? then Attached(v.server, v.device)
      else if v.Detaching? then Unattached
      else v
    }

    /** One request: not sent once the context has ended, cut when it ends on the way. */
    method Request(ctx: Ctx) returns (s: Step, sent: bool, answered: bool)
      modifies this`now, this`cursor, this`volume, this`heard
      ensures sent == !old(Ended(ctx)) && s == StepAt(old(cursor))
      ensures !sent ==> !answered && now == old(now) && cursor == old(cursor) && volume == old(volume)
      ensures sent ==> now == old(Arrival(ctx)) && cursor == old(cursor) + 1 && volume == old(VolumeAt(s, Arrival(ctx)))
      ensures sent ==> (answered <==> now < ctx.endsAt)
      ensures heard == if sent then Other else old(heard)
      ensures sent ==> now <= ctx.endsAt
      ensures answered ==> now == old(now) + s.took
    {
      s := StepAt(cursor);
      if Ended(ctx) {
        return s, false, false;
      }
      var arrival := Arrival(ctx);
      volume := VolumeAt(s, arrival);
      now := arrival;
      cursor := cursor + 1;
      heard := Other;
      return s, true, now < ctx.endsAt;
    }

    /** What a listing requested now under `ctx` would answer. */
    function Peek(ctx: Ctx, volumeID: string, serverID: string): Result<seq<Row>, Error>
      reads this`now, this`cursor, this`volume
    {
      if Ended(ctx) || Arrival(ctx) >= ctx.endsAt then Err(ctx.cause)
      else
        match StepAt(cursor).list
        case HonestList => Ok(HonestRows(VolumeAt(StepAt(cursor), Arrival(ctx)), volumeID, serverID))
        case Rows(rows) => Ok(rows)
        case ListFails(e) => Err(e)
    }

    /** What the volume record requested now under `ctx` would answer. */
    function PeekRecord(ctx: Ctx): Result<(string, seq<string>), Error>
      reads this`now, this`cursor, this`volume
    {
      if Ended(ctx) || Arrival(ctx) >= ctx.endsAt then Err(ctx.cause)
      else
        match StepAt(cursor).record
        case HonestRecord(lists) =>
          var v := VolumeAt(StepAt(cursor), Arrival(ctx));
          Ok((HonestStatus(v), HonestServers(v, lists)))
        case Says(status, servers) => Ok((status, servers))
        case RecordFails(e) => Err(e)
    }

    /** What a probe after a refused attach would make of it. */
    function PeekAttach(ctx: Ctx, serverID: string): Result<Reading, Error>
      reads this`now, this`cursor, this`volume
    {
      match PeekRecord(ctx)
      case Ok(detail) => Ok(ReadAttach(detail.0, detail.1, serverID))
      case Err(e) => Err(e)
    }

    function PeekDetach(ctx: Ctx, serverID: string): Result<bool, Error>
      reads this`now, this`cursor, this`volume
    {
      match PeekRecord(ctx)
      case Ok(detail) => Ok(ReadDetach(detail.0, detail.1, serverID))
      case Err(e) => Err(e)
    }

    /** The listing is never made up. */
    ghost predicate HonestListing() {
      forall k :: 0 <= k < |script| ==> !script[k].list.Rows?
    }

    /** What a listing just heard says, if it was honest, about the volume as it is. */
    ghost predicate ListingFits(volumeID: string, serverID: string)
      reads this`heard, this`volume
    {
      heard.Listing? && (HonestListing() ==> heard.rows == HonestRows(volume, volumeID, serverID))
    }

    /** The last thing heard is a listing from which `a` was read, and `a` is what was waited for. */
    ghost predicate Seen(volumeID: string, serverID: string, goal: Goal, a: Option<Attachment>)
      reads this`heard, this`volume
    {
      ListingFits(volumeID, serverID) && a == FirstMatch(heard.rows, volumeID, serverID) && Settled(goal, a)
    }

    method ObserveAttachment(ctx: Ctx, volumeID: string, serverID: string)
      returns (r: Result<Option<Attachment>, Error>)
      modifies this`now, this`cursor, this`volume, this`heard
      ensures r == match old(Peek(ctx, volumeID, serverID))
                   case Ok(rows) => Ok(FirstMatch(rows, volumeID, serverID))
                   case Err(e) => Err(e)
      ensures if old(Ended(ctx)) then now == old(now) && cursor == old(cursor) && volume == old(volume)
              else now == old(Arrival(ctx)) && cursor == old(cursor) + 1
                   && volume == old(VolumeAt(StepAt(cursor), Arrival(ctx)))
      ensures UndisturbedFrom(old(cursor)) ==> AtRest(old(volume), volume)
      ensures r.Ok? ==> ListingFits(volumeID, serverID) && r.value == FirstMatch(heard.rows, volumeID, serverID)
      ensures r.Ok? ==> !Ended(ctx)
      ensures r.Err? && Ended(ctx) ==> r == Err(ctx.cause)
      ensures old(now) <= now && now <= (if old(Ended(ctx)) then old(now) else ctx.endsAt)
    {
      var s, sent, answered := Request(ctx);
      if !answered {
        return Err(ctx.cause);
      }
      match s.list {
        case HonestList =>
          heard := Listing(HonestRows(volume, volumeID, serverID));
        case Rows(rows) =>
          heard := Listing(rows);
        case ListFails(e) =>
          return Err(e);
      }
      return Ok(FirstMatch(heard.rows, volumeID, serverID));
    }

    /** The select between the end of the context and the ticker; a coin decides when both are
        ready. */
    method Select(ctx: Ctx) returns (done: bool)
      modifies this`now, this`tickAt
      ensures done ==> Ended(ctx) && tickAt == old(tickAt) && (old(Ended(ctx)) || ctx.endsAt <= old(tickAt))
      ensures !done ==> now >= old(tickAt) && tickAt == now + 1
      ensures old(now) <= now && now <= (if old(Ended(ctx)) then old(now) else ctx.endsAt)
      ensures !done ==> now == old(now) || now == old(tickAt)
    {
      if now < tickAt {
        if now < ctx.endsAt {
          now := if tickAt < ctx.endsAt then tickAt else ctx.endsAt;
        }
      }
      if Ended(ctx) && (now < tickAt || StepAt(cursor).coin) {
        return true;
      }
      tickAt := now + 1;
      return false;
    }

    ghost predicate TruthfulFrom(k: nat, limit: nat) {
      forall j :: k <= j < |script| ==> Truthful(script[j], limit)
    }

    ghost predicate RefusesFrom(k: nat) {
      forall j :: k <= j < |script| ==> Refuses(script[j])
    }

    /** Nobody else touches the volume from step `k` on. */
    ghost predicate UndisturbedFrom(k: nat) {
      forall j :: k <= j < |script| ==> script[j].others.None?
    }

    /** The accepted attachment settles early enough to be seen before the context ends. */
    ghost predicate InTime(ctx: Ctx, server: string, device: string, limit: nat)
      reads this`volume, this`now, this`cursor
    {
      && TruthfulFrom(cursor, limit) && InTransit(volume, server, device)
      && now + limit < ctx.endsAt && settlesAt + limit < ctx.endsAt
    }

    /** A volume that is off the server can be seen to be so before the context ends. */
    ghost predicate OffInTime(ctx: Ctx, server: string, limit: nat)
      reads this`volume, this`now, this`cursor
    {
      TruthfulFrom(cursor, limit) && Off(volume, server) && now + limit < ctx.endsAt
    }

    /** One observation of a volume that is off the server. */
    lemma SeenOff(ctx: Ctx, volumeID: string, server: string, limit: nat)
      requires OffInTime(ctx, server, limit)
      ensures Arrival(ctx) <= now + limit && Peek(ctx, volumeID, server) == Ok([])
    {
      assert Truthful(StepAt(cursor), limit);
    }

    /** One observation of an accepted attachment: seen once it has settled. */
    lemma ObservedInTime(ctx: Ctx, volumeID: string, server: string, device: string, limit: nat)
      requires TruthfulFrom(cursor, limit) && InTransit(volume, server, device) && now + limit < ctx.endsAt
      ensures var arrival, after := Arrival(ctx), VolumeAt(StepAt(cursor), Arrival(ctx));
        && now <= arrival <= now + limit && InTransit(after, server, device)
        && (arrival >= settlesAt ==> after == Attached(server, device))
        && Peek(ctx, volumeID, server) == Ok(HonestRows(after, volumeID, server))
        && var seen := FirstMatch(HonestRows(after, volumeID, server), volumeID, server);
        if after.Attached? then seen == Some(Attachment(volumeID, server, Trim(device))) && Settled(WithDevice, seen)
        else seen == None
    {
      assert Truthful(StepAt(cursor), limit);
      TrimmedAway(device);
    }

    /** A listing answer that no poll outlives. */
    predicate Terminal(a: ListAnswer) {
      a.ListFails? && !IsTransient(a.error)
    }

    ghost predicate NoneTerminal(start: nat, end: int) {
      forall k :: start <= k < end ==> !Terminal(StepAt(k).list)
    }

    /** One poll: an accepted attachment not yet seen has not settled yet, and a volume that is off is
        seen to be. */
    method PollState(ctx: Ctx, volumeID: string, serverID: string, goal: Goal, ghost device: string, ghost limit: nat)
      returns (r: Result<Option<Attachment>, Error>)
      modifies this`now, this`cursor, this`volume, this`heard
      ensures cursor == old(cursor) + (if old(Ended(ctx)) then 0 else 1)
      ensures r.Ok? && Settled(goal, r.value) ==> Seen(volumeID, serverID, goal, r.value)
      ensures if Ended(ctx) then r == Err(ctx.cause)
              else r.Ok? || IsTransient(r.error) ==> !Terminal(StepAt(old(cursor)).list)
      ensures UndisturbedFrom(old(cursor)) ==> AtRest(old(volume), volume)
      ensures old(now) <= now && now <= (if old(Ended(ctx)) then old(now) else ctx.endsAt)
      ensures goal == WithDevice && old(InTime(ctx, serverID, device, limit)) ==>
                && r.Ok?
                && if Settled(goal, r.value) then r == Ok(Some(Attachment(volumeID, serverID, Trim(device))))
                   else now < settlesAt && TruthfulFrom(cursor, limit) && InTransit(volume, serverID, device)
      ensures goal == Absent && old(OffInTime(ctx, serverID, limit)) ==> r.Ok? && Settled(goal, r.value)
      ensures !old(Ended(ctx)) && StepAt(old(cursor)).list.ListFails?
              && old(now) + StepAt(old(cursor)).took < ctx.endsAt ==>
                r == Err(StepAt(old(cursor)).list.error) && now == old(now) + StepAt(old(cursor)).took
      ensures old(Peek(ctx, volumeID, serverID)).Ok? ==>
                r == Ok(FirstMatch(old(Peek(ctx, volumeID, serverID)).value, volumeID, serverID))
    {
      hide AtRest, FirstMatch, HonestRows, Off;
      NothingMatches(volumeID, serverID);
      if goal == WithDevice && InTime(ctx, serverID, device, limit) {
        ObservedInTime(ctx, volumeID, serverID, device, limit);
      }
      if OffInTime(ctx, serverID, limit) {
        SeenOff(ctx, volumeID, serverID, limit);
      }
      r := ObserveAttachment(ctx, volumeID, serverID);
    }

    /** Of the listings from step `start` on, `polls` fail transiently and the next one fails for good. */
    ghost predicate ListingFails(start: nat, polls: nat) {
      && (forall k :: start <= k < start + polls ==>
            StepAt(k).list.ListFails? && IsTransient(StepAt(k).list.error))
      && StepAt(start + polls).list.ListFails? && !IsTransient(StepAt(start + polls).list.error)
    }

    lemma ListingGoesOn(start: nat, polls: nat, limit: nat, k: nat, since: nat, t: nat)
      requires ListingFails(start, polls) && Brisk(start, polls + 1, limit) && InStep(start, polls, limit, since, k, t)
      ensures StepAt(k).took <= limit && k <= start + polls && StepAt(k).list.ListFails?
      ensures IsTransient(StepAt(k).list.error) <==> k < start + polls
    {
    }

    /** Poll after poll, a tick apart. `device`, `limit` and `polls` only serve to say when it must succeed
        and when it must fail at once. */
    method WaitForAttachmentState(ctx: Ctx, volumeID: string, serverID: string, goal: Goal,
                                  ghost device: string, ghost limit: nat, ghost polls: nat := 0)
      returns (r: Result<Option<Attachment>, Error>)
      modifies this`now, this`cursor, this`volume, this`heard, this`tickAt
      ensures cursor >= old(cursor) && NoneTerminal(old(cursor), cursor - 1)
      ensures r.Ok? ==> Seen(volumeID, serverID, goal, r.value)
      ensures UndisturbedFrom(old(cursor)) ==> AtRest(old(volume), volume)
      ensures r.Err? ==> if Ended(ctx) then r.error == ctx.cause else !IsTransient(r.error)
      ensures old(now) <= now && now <= (if old(Ended(ctx)) then old(now) else ctx.endsAt)
      ensures goal == WithDevice && old(InTime(ctx, serverID, device, limit)) ==>
                r == Ok(Some(Attachment(volumeID, serverID, Trim(device))))
      ensures goal == Absent && old(OffInTime(ctx, serverID, limit)) ==> r.Ok?
      ensures ListingFails(old(cursor), polls) && Brisk(old(cursor), polls + 1, limit)
              && old(now) + TimeOf(polls + 1, limit) < ctx.endsAt ==>
                r == Err(StepAt(old(cursor) + polls).list.error) && cursor == old(cursor) + polls + 1
      ensures old(Peek(ctx, volumeID, serverID)).Ok? ==>
                var seen := FirstMatch(old(Peek(ctx, volumeID, serverID)).value, volumeID, serverID);
                Settled(goal, seen) ==> r == Ok(seen) && cursor == old(cursor) + 1
    {
      hide AtRest, Trim, Seen, TruthfulFrom, InTransit, UndisturbedFrom, IsTransient, TimeOf, InStep, ListingFails;
      hide Peek, FirstMatch;
      tickAt := now + 1;
      RestStays(volume);
      ghost var start, since := cursor, now;
      ghost var hope := goal == WithDevice && InTime(ctx, serverID, device, limit);
      ghost var off := goal == Absent && OffInTime(ctx, serverID, limit);
      ghost var bound := if Ended(ctx) then now else ctx.endsAt;
      ghost var due := ListingFails(start, polls) && Brisk(start, polls + 1, limit)
                       && now + TimeOf(polls + 1, limit) < ctx.endsAt;
      FirstStep(start, polls, limit, since);
      ghost var first := Peek(ctx, volumeID, serverID);
      ghost var atOnce := first.Ok? && Settled(goal, FirstMatch(first.value, volumeID, serverID));
      while true
        invariant since <= now <= bound
        invariant atOnce ==> cursor == start && Peek(ctx, volumeID, serverID) == first
        invariant tickAt == now + 1 && cursor >= start
        invariant NoneTerminal(start, if Ended(ctx) then cursor - 1 else cursor)
        invariant UndisturbedFrom(start) ==> AtRest(old(volume), volume)
        invariant hope ==> InTime(ctx, serverID, device, limit)
        invariant off ==> OffInTime(ctx, serverID, limit)
        invariant due ==> InStep(start, polls, limit, since, cursor, now)
        decreases bound - now
      {
        ghost var before, next := volume, now + limit + 1;
        if due {
          StepOn(start, polls, limit, since, cursor, now);
          ListingGoesOn(start, polls, limit, cursor, since, now);
        }
        UndisturbedLater(start, cursor);
        var end := StateTurn(ctx, volumeID, serverID, goal, device, limit);
        if UndisturbedFrom(start) {
          RestGoesOn(old(volume), before, volume);
        }
        if end.Some? {
          return end.value;
        }
        if due {
          Sooner(start, polls, limit, since, cursor, next, now);
        }
      }
    }

    /** One turn of the wait: an observation, and unless that ends the wait, the tick after it. */
    method StateTurn(ctx: Ctx, volumeID: string, serverID: string, goal: Goal, ghost device: string, ghost limit: nat)
      returns (end: Option<Result<Option<Attachment>, Error>>)
      requires tickAt == now + 1
      modifies this`now, this`cursor, this`volume, this`heard, this`tickAt
      ensures cursor == old(cursor) + (if old(Ended(ctx)) then 0 else 1)
      ensures old(now) <= now && now <= (if old(Ended(ctx)) then old(now) else ctx.endsAt)
      ensures end.None? ==> tickAt == now + 1 && old(now) < now
      ensures end.None? && !Ended(ctx) ==> !Terminal(StepAt(old(cursor)).list)
      ensures UndisturbedFrom(old(cursor)) ==> AtRest(old(volume), volume)
      ensures match end
              case None => true
              case Some(Ok(a)) => Seen(volumeID, serverID, goal, a) && !Ended(ctx)
              case Some(Err(e)) => if Ended(ctx) then e == ctx.cause else !IsTransient(e)
      ensures goal == WithDevice && old(InTime(ctx, serverID, device, limit)) ==>
                if end.None? then InTime(ctx, serverID, device, limit)
                else end == Some(Ok(Some(Attachment(volumeID, serverID, Trim(device)))))
      ensures goal == Absent && old(OffInTime(ctx, serverID, limit)) ==> end.Some? && end.value.Ok?
      ensures StepAt(old(cursor)).took <= limit && old(now) + limit + 1 < ctx.endsAt
              && StepAt(old(cursor)).list.ListFails? ==>
                && now <= old(now) + limit + 1
                && end == if IsTransient(StepAt(old(cursor)).list.error) then None
                          else Some(Err(StepAt(old(cursor)).list.error))
      ensures old(Peek(ctx, volumeID, serverID)).Ok? ==>
                var seen := FirstMatch(old(Peek(ctx, volumeID, serverID)).value, volumeID, serverID);
                Settled(goal, seen) ==> end == Some(Ok(seen))
    {
      hide AtRest, Trim, Seen, TruthfulFrom, InTransit, UndisturbedFrom, IsTransient, Terminal;
      var r := PollState(ctx, volumeID, serverID, goal, device, limit);
      if r.Ok? && Settled(goal, r.value) {
        return Some(r);
      }
      if r.Err? && !IsTransient(r.error) {
        return Some(r);
      }
      var done := Select(ctx);
      return if done then Some(Err(ctx.cause)) else None;
    }

    /** An effect call. The cloud accepts an attach only for an unattached volume, whatever becomes of
        the answer. */
    method CallAttach(ctx: Ctx, serverID: string) returns (r: Result<string, Error>)
      modifies this`now, this`cursor, this`volume, this`heard, this`attachCalls, this`accepted
      ensures old(Ended(ctx)) ==> now == old(now) && cursor == old(cursor) && volume == old(volume)
      ensures !old(Ended(ctx)) ==> now == old(Arrival(ctx)) && cursor == old(cursor) + 1
      ensures attachCalls == old(attachCalls) + (if old(Ended(ctx)) then 0 else 1)
      ensures !old(Ended(ctx)) ==>
                var s, v := StepAt(old(cursor)), old(VolumeAt(StepAt(cursor), Arrival(ctx)));
                if s.accepts && v == Unattached
                then volume == Attaching(serverID, s.device) && accepted == old(accepted) + 1
                else volume == v && accepted == old(accepted)
      ensures old(Ended(ctx)) ==> accepted == old(accepted)
      ensures Ended(ctx) ==> r == Err(ctx.cause)
      ensures !Ended(ctx) ==>
                StepAt(old(cursor)).effect == (match r case Ok(id) => EffectJob(id) case Err(e) => EffectFails(e))
    {
      var s, sent, answered := Request(ctx);
      if sent {
        attachCalls := attachCalls + 1;
        if s.accepts && volume == Unattached {
          volume := Attaching(serverID, s.device);
          accepted := accepted + 1;
        }
      }
      if !answered {
        return Err(ctx.cause);
      }
      match s.effect {
        case EffectJob(id) => r := Ok(id);
        case EffectFails(e) => r := Err(e);
      }
    }

    /** The cloud detaches only what is attached to the server named. */
    method CallDetach(ctx: Ctx, serverID: string) returns (r: Result<string, Error>)
      modifies this`now, this`cursor, this`volume, this`heard, this`detachCalls
      ensures old(now) <= now && (old(Ended(ctx)) ==> now == old(now)) && (!old(Ended(ctx)) ==> now <= ctx.endsAt)
      ensures !old(Ended(ctx)) ==> now == old(Arrival(ctx)) && cursor == old(cursor) + 1
      ensures detachCalls == old(detachCalls) + (if old(Ended(ctx)) then 0 else 1)
      ensures !old(Ended(ctx)) ==>
                var s, v := StepAt(old(cursor)), old(VolumeAt(StepAt(cursor), Arrival(ctx)));
                volume == if s.accepts && v.Attached? && v.server == serverID then Detaching(v.server, v.device) else v
      ensures Ended(ctx) ==> r == Err(ctx.cause)
      ensures !Ended(ctx) ==>
                StepAt(old(cursor)).effect == (match r case Ok(id) => EffectJob(id) case Err(e) => EffectFails(e))
    {
      var s, sent, answered := Request(ctx);
      if sent {
        detachCalls := detachCalls + 1;
        if s.accepts && volume.Attached? && volume.server == serverID {
          volume := Detaching(volume.server, volume.device);
        }
      }
      if !answered {
        return Err(ctx.cause);
      }
      match s.effect {
        case EffectJob(id) => r := Ok(id);
        case EffectFails(e) => r := Err(e);
      }
    }

    /** The volume record: the second view of the cloud, which shows an attach before it settles. */
    method ReadRecord(ctx: Ctx) returns (r: Result<(string, seq<string>), Error>)
      modifies this`now, this`cursor, this`volume, this`heard
      ensures if old(Ended(ctx)) then now == old(now) && cursor == old(cursor) && volume == old(volume)
              else now == old(Arrival(ctx)) && cursor == old(cursor) + 1
                   && volume == old(VolumeAt(StepAt(cursor), Arrival(ctx)))
      ensures r == old(PeekRecord(ctx)) && (Ended(ctx) ==> r == Err(ctx.cause))
    {
      var s, sent, answered := Request(ctx);
      if !answered {
        return Err(ctx.cause);
      }
      match s.record {
        case HonestRecord(lists) => r := Ok((HonestStatus(volume), HonestServers(volume, lists)));
        case Says(status, servers) => r := Ok((status, servers));
        case RecordFails(e) => r := Err(e);
      }
    }

    /** A job answer that ends the polling. */
    predicate Decisive(a: JobAnswer) {
      match a
      case JobStatus(status) => status == "SUCCESS" || status == "FAIL"
      case JobFails(e) => IsContextError(e) || !IsTransient(e)
    }

    /** No poll from step `start` up to step `end` was decisive. */
    ghost predicate Undecided(start: nat, end: int) {
      forall k :: start <= k < end ==> !Decisive(StepAt(k).job)
    }

    predicate StopsWith(a: JobAnswer, e: Error) {
      (a == JobStatus("FAIL") && e == OperationFailed) || (a == JobFails(e) && Decisive(a))
    }

    /** Counted from step `k`, poll number `polls` is the first decisive one and says SUCCESS. */
    ghost predicate SucceedsAfter(k: nat, polls: nat) {
      StepAt(k + polls).job == JobStatus("SUCCESS") && Undecided(k, k + polls)
    }

    /** What `n` polls take at most. */
    function TimeOf(n: nat, limit: nat): nat {
      n * (limit + 1)
    }

    /** Of `polls + 1` polls begun at step `start` and time `since`, the one at step `k` begins at `t`. */
    ghost predicate InStep(start: nat, polls: nat, limit: nat, since: nat, k: nat, t: nat) {
      start <= k <= start + polls && t <= since + TimeOf(k - start, limit)
    }

    /** The poll at step `k` is over in time, and so is the tick after it. */
    lemma StepOn(start: nat, polls: nat, limit: nat, since: nat, k: nat, t: nat)
      requires InStep(start, polls, limit, since, k, t)
      ensures t + limit + 1 <= since + TimeOf(polls + 1, limit)
      ensures k < start + polls ==> InStep(start, polls, limit, since, k + 1, t + limit + 1)
    {
      NextPoll(k - start, polls, limit);
    }

    lemma Sooner(start: nat, polls: nat, limit: nat, since: nat, k: nat, t: nat, t': nat)
      requires InStep(start, polls, limit, since, k, t) && t' <= t
      ensures InStep(start, polls, limit, since, k, t')
    {
    }

    lemma FirstStep(start: nat, polls: nat, limit: nat, since: nat)
      ensures InStep(start, polls, limit, since, start, since)
    {
      ZeroPolls(limit);
    }

    lemma NextPoll(made: nat, polls: nat, limit: nat)
      requires made <= polls
      ensures TimeOf(made, limit) + limit + 1 == TimeOf(made + 1, limit) <= TimeOf(polls + 1, limit)
    {
    }

    /** The `n` polls from step `k` on say neither SUCCESS nor FAIL, or fail transiently. */
    ghost predicate StillRunning(k: nat, n: nat) {
      forall j :: k <= j < k + n ==>
        match StepAt(j).job
        case JobStatus(status) => status != "SUCCESS" && status != "FAIL"
        case JobFails(e) => IsTransient(e) && !IsContextError(e)
    }

    /** None of the `n` requests from step `k` on takes longer than `limit`. */
    ghost predicate Brisk(k: nat, n: nat, limit: nat) {
      forall j :: k <= j < k + n ==> StepAt(j).took <= limit
    }

    /** After `polls` polls that say nothing, the next one is answered before the context ends. */
    ghost predicate AnsweredInTime(ctx: Ctx, limit: nat, polls: nat)
      reads this`now, this`cursor
    {
      && StillRunning(cursor, polls) && Brisk(cursor, polls + 1, limit)
      && now + TimeOf(polls + 1, limit) < ctx.endsAt
    }

    /** A poll that says that the job failed, or fails itself for good. */
    predicate EndsBadly(a: JobAnswer) {
      a == JobStatus("FAIL") || (a.JobFails? && (IsContextError(a.error) || !IsTransient(a.error)))
    }

    /** What is then reported. */
    function BadEnd(a: JobAnswer): Error {
      match a
      case JobStatus(_) => OperationFailed
      case JobFails(e) => e
    }

    lemma SuccessIsAnswered(ctx: Ctx, limit: nat, polls: nat)
      ensures JobInTime(ctx, limit, polls) ==>
                AnsweredInTime(ctx, limit, polls) && StepAt(cursor + polls).job == JobStatus("SUCCESS")
    {
      if JobInTime(ctx, limit, polls) {
        forall j | cursor <= j < cursor + polls + 1 ensures StepAt(j).took <= limit {
          assert j < |script| ==> Truthful(script[j], limit);
        }
        forall j | cursor <= j < cursor + polls
          ensures match StepAt(j).job
                  case JobStatus(status) => status != "SUCCESS" && status != "FAIL"
                  case JobFails(e) => IsTransient(e) && !IsContextError(e)
        {
          assert !Decisive(StepAt(j).job);
        }
      }
    }

    /** The job succeeds, and all its polls fit in before the context ends. */
    ghost predicate JobInTime(ctx: Ctx, limit: nat, polls: nat)
      reads this`now, this`cursor
    {
      TruthfulFrom(cursor, limit) && SucceedsAfter(cursor, polls) && now + TimeOf(polls + 1, limit) < ctx.endsAt
    }

    /** One poll of the job; a request that was cut reports the cause. */
    method PollJob(ctx: Ctx, ghost limit: nat) returns (answer: JobAnswer)
      requires !Ended(ctx)
      modifies this`now, this`cursor, this`volume, this`heard
      ensures cursor == old(cursor) + 1 && old(now) <= now <= ctx.endsAt
      ensures StepAt(old(cursor)).took <= limit ==> now <= old(now) + limit
      ensures answer == if Ended(ctx) then JobFails(ctx.cause) else StepAt(old(cursor)).job
      ensures answer.JobStatus? ==> heard == Job(answer.status)
      ensures UndisturbedFrom(old(cursor)) ==> AtRest(old(volume), volume)
    {
      var s, sent, answered := Request(ctx);
      answer := if answered then s.job else JobFails(ctx.cause);
      if answer.JobStatus? {
        heard := Job(answer.status);
      }
    }

    /** waitForAttachmentJob: ends with the job, with an error polling cannot outlive, or with the
        context. */
    method WaitForAttachmentJob(ctx: Ctx, ghost limit: nat, ghost polls: nat) returns (r: Result<(), Error>)
      modifies this`now, this`cursor, this`volume, this`heard, this`tickAt
      ensures cursor >= old(cursor) && Undecided(old(cursor), cursor - 1)
      ensures r.Ok? ==>
                && heard == Job("SUCCESS") && !Ended(ctx)
                && cursor > old(cursor) && StepAt(cursor - 1).job == JobStatus("SUCCESS")
      ensures r.Err? ==>
                if Ended(ctx) then r.error == ctx.cause
                else cursor > old(cursor) && StopsWith(StepAt(cursor - 1).job, r.error)
      ensures old(JobInTime(ctx, limit, polls)) ==> r.Ok? && now <= old(now) + TimeOf(polls + 1, limit)
      ensures old(AnsweredInTime(ctx, limit, polls)) && EndsBadly(StepAt(old(cursor) + polls).job) ==>
                r == Err(BadEnd(StepAt(old(cursor) + polls).job)) && cursor == old(cursor) + polls + 1
      ensures UndisturbedFrom(old(cursor)) ==> AtRest(old(volume), volume)
      ensures old(now) <= now && now <= (if old(Ended(ctx)) then old(now) else ctx.endsAt)
    {
      hide TimeOf, AtRest, TruthfulFrom, UndisturbedFrom, JobInTime, StillRunning, Brisk, Undecided, InStep;
      hide IsTransient, IsContextError, StopsWith, Decisive;
      tickAt := now + 1;
      SuccessIsAnswered(ctx, limit, polls);
      ghost var start, since, last := cursor, now, StepAt(cursor + polls).job;
      EndsDecisively(last);
      ghost var hope := AnsweredInTime(ctx, limit, polls) && (last == JobStatus("SUCCESS") || EndsBadly(last));
      RestStays(volume);
      FirstStep(start, polls, limit, since);
      NoPollYet(start);
      while !Ended(ctx)
        invariant since <= now <= if old(Ended(ctx)) then since else ctx.endsAt
        invariant tickAt == now + 1 && cursor >= start
        invariant Undecided(start, if Ended(ctx) then cursor - 1 else cursor)
        invariant UndisturbedFrom(start) ==> AtRest(old(volume), volume)
        invariant hope ==> InStep(start, polls, limit, since, cursor, now) && !Ended(ctx)
        decreases ctx.endsAt - now
      {
        ghost var k, before, next := cursor, volume, now + limit + 1;
        if hope {
          StepOn(start, polls, limit, since, k, now);
          PollGoesOn(start, polls, limit, k, since, now);
        }
        UndisturbedLater(start, k);
        UndecidedStep(start, k);
        var end := PollTurn(ctx, limit);
        if UndisturbedFrom(start) {
          RestGoesOn(old(volume), before, volume);
        }
        if end.Some? {
          return end.value;
        }
        if hope {
          Sooner(start, polls, limit, since, cursor, next, now);
        }
      }
      return Err(ctx.cause);
    }

    /** One turn of the wait: a poll, and unless that ends the wait, the tick after it. */
    method PollTurn(ctx: Ctx, ghost limit: nat) returns (end: Option<Result<(), Error>>)
      requires !Ended(ctx) && tickAt == now + 1
      modifies this`now, this`cursor, this`volume, this`heard, this`tickAt
      ensures cursor == old(cursor) + 1 && old(now) <= now <= ctx.endsAt
      ensures end.None? ==> old(now) < now && tickAt == now + 1
      ensures UndisturbedFrom(old(cursor)) ==> AtRest(old(volume), volume)
      ensures var answer := StepAt(old(cursor)).job;
        match end
        case None => Ended(ctx) || !Decisive(answer)
        case Some(Ok(_)) => answer == JobStatus("SUCCESS") && heard == Job("SUCCESS") && !Ended(ctx)
        case Some(Err(e)) => if Ended(ctx) then e == ctx.cause else StopsWith(answer, e)
      ensures StepAt(old(cursor)).took <= limit && old(now) + limit + 1 < ctx.endsAt ==>
                var answer := StepAt(old(cursor)).job;
                && now <= old(now) + limit + 1
                && end == if !Decisive(answer) then None
                          else Some(if answer == JobStatus("SUCCESS") then Ok(()) else Err(BadEnd(answer)))
    {
      hide AtRest, UndisturbedFrom, IsTransient, IsContextError;
      var answer := PollJob(ctx, limit);
      match answer {
        case JobStatus(status) =>
          if status == "SUCCESS" {
            return Some(Ok(()));
          }
          if status == "FAIL" {
            return Some(Err(OperationFailed));
          }
        case JobFails(e) =>
          if IsContextError(e) || !IsTransient(e) {
            return Some(Err(e));
          }
      }
      var done := Select(ctx);
      return if done then Some(Err(ctx.cause)) else None;
    }

    lemma EndsDecisively(a: JobAnswer)
      ensures Decisive(a) <==> a == JobStatus("SUCCESS") || EndsBadly(a)
      ensures a == JobStatus("SUCCESS") ==> !EndsBadly(a)
    {
    }

    lemma TruthfulLater(k: nat, j: nat, limit: nat)
      requires TruthfulFrom(k, limit) && k <= j
      ensures TruthfulFrom(j, limit)
    {
    }

    lemma TruthfulOn(k: nat, limit: nat)
      ensures TruthfulFrom(k, limit) ==> TruthfulFrom(k + 1, limit)
    {
    }

    lemma UndisturbedLater(k: nat, j: nat)
      requires k <= j
      ensures UndisturbedFrom(k) ==> UndisturbedFrom(j)
    {
    }

    lemma NoPollYet(k: nat)
      ensures Undecided(k, k) && Undecided(k, k - 1)
    {
    }

    lemma UndecidedStep(k: nat, j: nat)
      requires Undecided(k, j) && k <= j
      ensures Decisive(StepAt(j).job) || Undecided(k, j + 1)
    {
    }

    lemma PollGoesOn(start: nat, polls: nat, limit: nat, k: nat, since: nat, t: nat)
      requires StillRunning(start, polls) && Brisk(start, polls + 1, limit) && InStep(start, polls, limit, since, k, t)
      ensures StepAt(k).took <= limit && k <= start + polls && (k < start + polls ==> !Decisive(StepAt(k).job))
    {
    }

    lemma ZeroPolls(limit: nat)
      ensures TimeOf(0, limit) == 0
    {
    }

    method AttachInFlight(ctx: Ctx, serverID: string) returns (r: Result<Reading, Error>)
      modifies this`now, this`cursor, this`volume, this`heard
      ensures if old(Ended(ctx)) then now == old(now) && cursor == old(cursor) && volume == old(volume)
              else now == old(Arrival(ctx)) && cursor == old(cursor) + 1
                   && volume == old(VolumeAt(StepAt(cursor), Arrival(ctx)))
      ensures r == old(PeekAttach(ctx, serverID))
    {
      var detail := ReadRecord(ctx);
      if detail.Err? {
        return Err(detail.error);
      }
      return Ok(ReadAttach(detail.value.0, detail.value.1, serverID));
    }

    method DetachInFlight(ctx: Ctx, serverID: string) returns (r: Result<bool, Error>)
      modifies this`now, this`cursor, this`volume, this`heard
      ensures if old(Ended(ctx)) then now == old(now) && cursor == old(cursor) && volume == old(volume)
              else now == old(Arrival(ctx)) && cursor == old(cursor) + 1
                   && volume == old(VolumeAt(StepAt(cursor), Arrival(ctx)))
      ensures r == old(PeekDetach(ctx, serverID))
    {
      var detail := ReadRecord(ctx);
      if detail.Err? {
        return Err(detail.error);
      }
      return Ok(ReadDetach(detail.value.0, detail.value.1, serverID));
    }

    /** The wait after a refusal, inside its own window. */
    method ReconcileRefused(ctx: Ctx, volumeID: string, serverID: string, goal: Goal,
                            ghost device: string, ghost limit: nat)
      returns (r: Result<Option<Attachment>, Error>)
      modifies this`now, this`cursor, this`volume, this`heard, this`tickAt
      ensures cursor >= old(cursor)
      ensures r.Ok? ==> Seen(volumeID, serverID, goal, r.value)
      ensures UndisturbedFrom(old(cursor)) ==> AtRest(old(volume), volume)
      ensures old(now) <= now <= old(now) + REFUSED_RECONCILE_WINDOW
      ensures now <= (if old(Ended(ctx)) then old(now) else ctx.endsAt)
      ensures goal == WithDevice
              && old(InTime(WithTimeout(ctx, now, REFUSED_RECONCILE_WINDOW), serverID, device, limit)) ==>
                r == Ok(Some(Attachment(volumeID, serverID, Trim(device))))
      ensures goal == Absent && limit < REFUSED_RECONCILE_WINDOW && old(OffInTime(ctx, serverID, limit)) ==> r.Ok?
    {
      var reconcileCtx := WithTimeout(ctx, now, REFUSED_RECONCILE_WINDOW);
      r := WaitForAttachmentState(reconcileCtx, volumeID, serverID, goal, device, limit);
    }

    /** Early enough to be reconciled even after a refusal and a probe. */
    ghost predicate InReach(ctx: Ctx, server: string, device: string, limit: nat, calls: nat)
      reads this`volume, this`now, this`cursor
    {
      && TruthfulFrom(cursor, limit) && RefusesFrom(cursor) && InTransit(volume, server, device)
      && now + calls * limit < ctx.endsAt && settlesAt + limit < ctx.endsAt
      && calls * limit < REFUSED_RECONCILE_WINDOW && settlesAt + limit < now + REFUSED_RECONCILE_WINDOW
    }

    /** Probe, and wait when the record shows the attach in flight. */
    method FinishRefusedAttach(ctx: Ctx, volumeID: string, serverID: string, attachErr: Error,
                               ghost device: string, ghost limit: nat)
      returns (r: Result<Attachment, Error>)
      modifies this`now, this`cursor, this`volume, this`heard, this`tickAt
      ensures cursor >= old(cursor)
      ensures r.Ok? ==> Seen(volumeID, serverID, WithDevice, Some(r.value))
      ensures UndisturbedFrom(old(cursor)) ==> AtRest(old(volume), volume)
      ensures r.Err? ==> if Ended(ctx) then r.error == ctx.cause else r.error in {attachErr, Conflict}
      ensures old(now) <= now && now <= (if old(Ended(ctx)) then old(now) else ctx.endsAt)
      ensures now <= old(now) + StepAt(old(cursor)).took + REFUSED_RECONCILE_WINDOW
      ensures old(PeekAttach(ctx, serverID)) != Ok(InFlight) ==> r.Err? && cursor <= old(cursor) + 1
      ensures old(PeekAttach(ctx, serverID)) == Ok(Denied) ==> r == Err(attachErr)
      ensures old(PeekAttach(ctx, serverID)) == Ok(AttachedElsewhere) ==> r == Err(Conflict)
      ensures old(InReach(ctx, serverID, device, limit, 2)) ==> r == Ok(Attachment(volumeID, serverID, Trim(device)))
      ensures match old(PeekRecord(ctx))
              case Ok(detail) =>
                && (serverID !in detail.1 && detail.1 != [] ==> r == Err(Conflict))
                && (detail.1 == [] && detail.0 != "attaching" ==> r == Err(attachErr))
              case Err(_) => r == Err(if Ended(ctx) then ctx.cause else attachErr)
    {
      ghost var reach := InReach(ctx, serverID, device, limit, 2);
      assert reach ==> Truthful(StepAt(cursor), limit);
      var reading := AttachInFlight(ctx, serverID);
      if Ended(ctx) {
        return Err(ctx.cause);
      }
      if reading.Err? {
        return Err(attachErr);
      }
      if reading.value == AttachedElsewhere {
        return Err(Conflict);
      }
      if reading.value != InFlight {
        return Err(attachErr);
      }
      assert reach ==> InTime(WithTimeout(ctx, now, REFUSED_RECONCILE_WINDOW), serverID, device, limit);
      var observed := ReconcileRefused(ctx, volumeID, serverID, WithDevice, device, limit);
      if observed.Ok? {
        return Ok(observed.value.value);
      }
      return Err(if Ended(ctx) then ctx.cause else attachErr);
    }

    /** finishAttachAfterEffectError: transient failures are waited out, an invalid-argument refusal is
        checked against the volume record, anything else stands. */
    method FinishAttachAfterEffectError(ctx: Ctx, volumeID: string, serverID: string, attachErr: Error,
                                        ghost device: string, ghost limit: nat)
      returns (r: Result<Attachment, Error>)
      modifies this`now, this`cursor, this`volume, this`heard, this`tickAt
      ensures cursor >= old(cursor)
      ensures r.Ok? ==> Seen(volumeID, serverID, WithDevice, Some(r.value))
      ensures UndisturbedFrom(old(cursor)) ==> AtRest(old(volume), volume)
      ensures r.Err? && (IsTransient(attachErr) || attachErr == InvalidArgument) ==>
                if Ended(ctx) then r.error == ctx.cause else r.error in {attachErr, Conflict}
      ensures r.Err? && !Ended(ctx) && r.error != attachErr ==> attachErr == InvalidArgument
      ensures !IsTransient(attachErr) && attachErr != InvalidArgument ==>
                r == Err(attachErr) && now == old(now) && cursor == old(cursor)
      ensures old(now) <= now && now <= (if old(Ended(ctx)) then old(now) else ctx.endsAt)
      ensures attachErr == InvalidArgument ==> now <= old(now) + StepAt(old(cursor)).took + REFUSED_RECONCILE_WINDOW
      ensures old(InReach(ctx, serverID, device, limit, 2))
              && (IsTransient(attachErr) || attachErr == InvalidArgument) ==>
                r == Ok(Attachment(volumeID, serverID, Trim(device)))
    {
      if IsTransient(attachErr) {
        var observed := WaitForAttachmentState(ctx, volumeID, serverID, WithDevice, device, limit);
        if observed.Ok? {
          return Ok(observed.value.value);
        }
        return Err(if Ended(ctx) then ctx.cause else attachErr);
      }
      if Kind(attachErr) != InvalidArgument {
        return Err(attachErr);
      }
      r := FinishRefusedAttach(ctx, volumeID, serverID, attachErr, device, limit);
    }

    /** A detach that was accepted can still be seen to be done after a probe. */
    ghost predicate DetachInReach(ctx: Ctx, server: string, limit: nat)
      reads this`volume, this`now, this`cursor
    {
      && TruthfulFrom(cursor, limit) && Off(volume, server)
      && now + 2 * limit < ctx.endsAt && limit < REFUSED_RECONCILE_WINDOW
    }

    /** A probe that arrives before a detach settles shows it under way. */
    lemma ProbedMoving(ctx: Ctx, server: string, limit: nat)
      requires TruthfulFrom(cursor, limit) && now + limit < ctx.endsAt
      requires volume.Detaching? && now + limit < settlesAt
      ensures PeekDetach(ctx, server) == Ok(true) && Arrival(ctx) <= now + limit
      ensures VolumeAt(StepAt(cursor), Arrival(ctx)) == volume
    {
      assert Truthful(StepAt(cursor), limit);
    }

    /** finishDetachAfterEffectError */
    method FinishDetachAfterEffectError(ctx: Ctx, volumeID: string, serverID: string, detachErr: Error,
                                        ghost limit: nat)
      returns (r: Result<(), Error>)
      modifies this`now, this`cursor, this`volume, this`heard, this`tickAt
      ensures r.Ok? ==> Seen(volumeID, serverID, Absent, None)
      ensures r.Err? && (IsTransient(detachErr) || detachErr == InvalidArgument) ==>
                r.error == if Ended(ctx) then ctx.cause else detachErr
      ensures !IsTransient(detachErr) && detachErr != InvalidArgument ==> r == Err(detachErr) && now == old(now)
      ensures old(now) <= now && now <= (if old(Ended(ctx)) then old(now) else ctx.endsAt)
      ensures detachErr == InvalidArgument ==> now <= old(now) + StepAt(old(cursor)).took + REFUSED_RECONCILE_WINDOW
      ensures detachErr == InvalidArgument && old(PeekDetach(ctx, serverID)) != Ok(true) ==>
                r.Err? && now <= old(now) + StepAt(old(cursor)).took
      ensures old(DetachInReach(ctx, serverID, limit)) && IsTransient(detachErr) ==> r.Ok?
      ensures detachErr == InvalidArgument
                && old(DetachInReach(ctx, serverID, limit) && volume.Detaching? && now + limit < settlesAt)
              ==> r.Ok?
      ensures detachErr == InvalidArgument && old(PeekRecord(ctx)).Ok? && !Ended(ctx) ==>
                var detail := old(PeekRecord(ctx)).value;
                serverID !in detail.1 && detail.0 != "attaching" && detail.0 != "detaching" ==> r == Err(detachErr)
    {
      if IsTransient(detachErr) {
        var observed := WaitForAttachmentState(ctx, volumeID, serverID, Absent, "", limit);
        if observed.Ok? {
          return Ok(());
        }
        return Err(if Ended(ctx) then ctx.cause else detachErr);
      }
      if Kind(detachErr) != InvalidArgument {
        return Err(detachErr);
      }
      ghost var moves := DetachInReach(ctx, serverID, limit) && volume.Detaching? && now + limit < settlesAt;
      if moves {
        ProbedMoving(ctx, serverID, limit);
      }
      var moving := DetachInFlight(ctx, serverID);
      if Ended(ctx) {
        return Err(ctx.cause);
      }
      if moving.Err? || !moving.value {
        return Err(detachErr);
      }
      assert moves ==> OffInTime(ctx, serverID, limit);
      var observed := ReconcileRefused(ctx, volumeID, serverID, Absent, "", limit);
      if observed.Ok? {
        return Ok(());
      }
      return Err(if Ended(ctx) then ctx.cause else detachErr);
    }

    /** The operation context of a call that starts now. */
    function OperationCtx(ctx: Ctx): Ctx
      reads this`now
    {
      WithTimeout(ctx, now, MAX_OPERATION_TIMEOUT)
    }

    /** A call starting now would see that the pair is not listed. */
    predicate NotListed(ctx: Ctx, volumeID: string, serverID: string)
      reads this`now, this`cursor, this`volume
    {
      var seen := Peek(ctx, volumeID, serverID);
      seen.Ok? && FirstMatch(seen.value, volumeID, serverID) == None
    }

    predicate IsListed(ctx: Ctx, volumeID: string, serverID: string)
      reads this`now, this`cursor, this`volume
    {
      var seen := Peek(ctx, volumeID, serverID);
      seen.Ok? && FirstMatch(seen.value, volumeID, serverID) != None
    }

    /** The polls from `start` on met no decisive answer before one that said SUCCESS. */
    ghost predicate JobSucceeded(start: nat)
      reads this`cursor
    {
      exists k :: start <= k < cursor && StepAt(k).job == JobStatus("SUCCESS") && Undecided(start, k)
    }

    /** The first decisive answer from `start` on said FAIL, or was the error `e`. */
    ghost predicate JobStopped(start: nat, e: Error)
      reads this`cursor
    {
      exists k :: start <= k < cursor && StopsWith(StepAt(k).job, e) && Undecided(start, k)
    }

    /** How an effect that was answered with a job fails while its context lives. */
    ghost predicate FollowUpFails(jobId: string, start: nat, e: Error)
      reads this`cursor
    {
      if Blank(jobId) then e == OperationFailed
      else JobStopped(start, e) || (JobSucceeded(start) && !IsTransient(e))
    }

    /** How an attach fails while its context lives: the first observation failed, a listed pair met an
        error no poll can outlive, the refused effect stands (or turned out a conflict), or what followed
        the job from step `start` on failed. */
    ghost predicate FailsAs(seen: Result<seq<Row>, Error>, effect: EffectAnswer, start: nat,
                            volumeID: string, serverID: string, e: Error)
      reads this`cursor
    {
      match seen
      case Err(first) => e == first
      case Ok(rows) =>
        if FirstMatch(rows, volumeID, serverID).Some? then !IsTransient(e)
        else EffectFailsAs(effect, start, e)
    }

    ghost predicate EffectFailsAs(effect: EffectAnswer, start: nat, e: Error)
      reads this`cursor
    {
      match effect
      case EffectFails(refusal) => e in {refusal, Conflict}
      case EffectJob(jobId) => FollowUpFails(jobId, start, e)
    }

    /** An attach just accepted settles in time, and so does its job. */
    ghost predicate FollowUpInTime(ctx: Ctx, server: string, device: string, jobId: string, limit: nat, polls: nat)
      reads this`volume, this`now, this`cursor
    {
      && TruthfulFrom(cursor, limit) && InTransit(volume, server, device)
      && (Blank(jobId) || SucceedsAfter(cursor, polls))
      && now + TimeOf(polls + 1, limit) + limit < ctx.endsAt && settlesAt + limit < ctx.endsAt
    }

    /** What follows an attach call that was answered with a job: a blank one is only waited out. */
    method FollowAttach(ctx: Ctx, volumeID: string, serverID: string, jobId: string,
                        ghost device: string, ghost limit: nat, ghost polls: nat)
      returns (r: Result<Attachment, Error>)
      modifies this`now, this`cursor, this`volume, this`heard, this`tickAt
      ensures cursor >= old(cursor)
      ensures r.Ok? ==> Seen(volumeID, serverID, WithDevice, Some(r.value))
      ensures r.Ok? && !Blank(jobId) ==> JobSucceeded(old(cursor))
      ensures r.Err? && Ended(ctx) ==> r == Err(ctx.cause)
      ensures r.Err? && !Ended(ctx) ==> FollowUpFails(jobId, old(cursor), r.error)
      ensures UndisturbedFrom(old(cursor)) ==> AtRest(old(volume), volume)
      ensures old(now) <= now && now <= (if old(Ended(ctx)) then old(now) else ctx.endsAt)
      ensures old(FollowUpInTime(ctx, serverID, device, jobId, limit, polls)) ==>
                r == Ok(Attachment(volumeID, serverID, Trim(device)))
      ensures !Blank(jobId) && old(AnsweredInTime(ctx, limit, polls)) && EndsBadly(StepAt(old(cursor) + polls).job) ==>
                r == Err(BadEnd(StepAt(old(cursor) + polls).job)) && cursor == old(cursor) + polls + 1
    {
      if Blank(jobId) {
        var observed := WaitForAttachmentState(ctx, volumeID, serverID, WithDevice, device, limit);
        if observed.Ok? {
          return Ok(observed.value.value);
        }
        return Err(if Ended(ctx) then ctx.cause else OperationFailed);
      }
      ghost var start := cursor;
      var done := WaitForAttachmentJob(ctx, limit, polls);
      if done.Err? {
        return Err(done.error);
      }
      ghost var polled := cursor;
      assert StepAt(polled - 1).job == JobStatus("SUCCESS") && Undecided(start, polled - 1);
      var observed := WaitForAttachmentState(ctx, volumeID, serverID, WithDevice, device, limit);
      return if observed.Ok? then Ok(observed.value.value) else Err(observed.error);
    }

    /** A detach just accepted can be seen to be done in time, and so can the success of its job. */
    ghost predicate DetachFollowUpInTime(ctx: Ctx, server: string, jobId: string, limit: nat, polls: nat)
      reads this`volume, this`now, this`cursor
    {
      && TruthfulFrom(cursor, limit) && Off(volume, server) && (Blank(jobId) || SucceedsAfter(cursor, polls))
      && now + TimeOf(polls + 1, limit) + limit < ctx.endsAt
    }

    /** The same for a detach. */
    method FollowDetach(ctx: Ctx, volumeID: string, serverID: string, jobId: string,
                        ghost limit: nat, ghost polls: nat)
      returns (r: Result<(), Error>)
      modifies this`now, this`cursor, this`volume, this`heard, this`tickAt
      ensures r.Ok? ==> Seen(volumeID, serverID, Absent, None)
      ensures r.Ok? && !Blank(jobId) ==> JobSucceeded(old(cursor))
      ensures r.Err? && Ended(ctx) ==> r == Err(ctx.cause)
      ensures r.Err? && !Ended(ctx) ==> FollowUpFails(jobId, old(cursor), r.error)
      ensures old(now) <= now && now <= (if old(Ended(ctx)) then old(now) else ctx.endsAt)
      ensures old(DetachFollowUpInTime(ctx, serverID, jobId, limit, polls)) ==> r.Ok?
      ensures !Blank(jobId) && old(AnsweredInTime(ctx, limit, polls)) && EndsBadly(StepAt(old(cursor) + polls).job) ==>
                r == Err(BadEnd(StepAt(old(cursor) + polls).job)) && cursor == old(cursor) + polls + 1
    {
      hide AtRest, Off, TimeOf;
      ghost var hope := DetachFollowUpInTime(ctx, serverID, jobId, limit, polls);
      if Blank(jobId) {
        var observed := WaitForAttachmentState(ctx, volumeID, serverID, Absent, "", limit);
        if observed.Ok? {
          return Ok(());
        }
        return Err(if Ended(ctx) then ctx.cause else OperationFailed);
      }
      ghost var start := cursor;
      var done := WaitForAttachmentJob(ctx, limit, polls);
      if done.Err? {
        return Err(done.error);
      }
      ghost var polled := cursor;
      assert StepAt(polled - 1).job == JobStatus("SUCCESS") && Undecided(start, polled - 1);
      if hope {
        RestStaysOff(old(volume), volume, serverID);
      }
      var observed := WaitForAttachmentState(ctx, volumeID, serverID, Absent, "", limit);
      return if observed.Ok? then Ok(()) else Err(observed.error);
    }

    /** A fresh attach: `lead` requests from now it is accepted and answered with a job that succeeds, and
        the attachment settles, all in time. */
    ghost predicate Fresh(ctx: Ctx, limit: nat, polls: nat, lead: nat)
      reads this`volume, this`now, this`cursor
    {
      && TruthfulFrom(cursor, limit) && volume == Unattached
      && StepAt(cursor + lead).accepts && StepAt(cursor + lead).effect.EffectJob?
      && (Blank(StepAt(cursor + lead).effect.jobId) || SucceedsAfter(cursor + lead + 1, polls))
      && now + (lead + 2) * limit + TimeOf(polls + 1, limit) < ctx.endsAt && settlesAt + limit < ctx.endsAt
    }

    /** The effect sent `lead` requests from now is answered with a job that ends badly after `polls` polls
        that said nothing, all in time. */
    ghost predicate EndsEarly(ctx: Ctx, limit: nat, polls: nat, lead: nat)
      reads this`now, this`cursor
    {
      var first := cursor + lead + 1;
      && StepAt(cursor + lead).effect.EffectJob? && !Blank(StepAt(cursor + lead).effect.jobId)
      && StillRunning(first, polls) && EndsBadly(StepAt(first + polls).job)
      && Brisk(cursor, lead + polls + 2, limit)
      && now + (lead + 1) * limit + TimeOf(polls + 1, limit) < ctx.endsAt
    }

    /** The attach call and what follows it, once the pair is known not to be listed. */
    method AttachUnlisted(ctx: Ctx, volumeID: string, serverID: string,
                          ghost device: string, ghost limit: nat, ghost polls: nat)
      returns (r: Result<Attachment, Error>)
      requires !Ended(ctx)
      modifies this`now, this`cursor, this`volume, this`heard, this`tickAt, this`attachCalls, this`accepted
      ensures cursor > old(cursor)
      ensures r.Ok? ==> Seen(volumeID, serverID, WithDevice, Some(r.value))
      ensures r.Err? && Ended(ctx) ==> r == Err(ctx.cause)
      ensures old(now) <= now <= ctx.endsAt && attachCalls == old(attachCalls) + 1
      ensures TruthfulFrom(old(cursor), limit) && accepted > old(accepted) ==> !Blank(DeviceOf(volume))
      ensures r.Err? && !Ended(ctx) ==> EffectFailsAs(StepAt(old(cursor)).effect, old(cursor) + 1, r.error)
      ensures AcceptedOnce(old(volume), volume, serverID, accepted - old(accepted), UndisturbedFrom(old(cursor)))
      ensures old(InReach(ctx, serverID, device, limit, 3)) ==>
                r == Ok(Attachment(volumeID, serverID, Trim(device)))
      ensures old(Fresh(ctx, limit, polls, 0)) ==>
                r == Ok(Attachment(volumeID, serverID, Trim(StepAt(old(cursor)).device)))
      ensures old(EndsEarly(ctx, limit, polls, 0)) ==>
                r == Err(BadEnd(StepAt(old(cursor) + 1 + polls).job)) && cursor == old(cursor) + polls + 2
    {
      hide TimeOf, StillRunning, EndsBadly, BadEnd, Undecided, IsTransient, Trim, Seen;
      ghost var first, given := Fresh(ctx, limit, polls, 0), StepAt(cursor).device;
      ghost var reach := InReach(ctx, serverID, device, limit, 3);
      assert reach ==> Truthful(StepAt(cursor), limit) && Refuses(StepAt(cursor));
      assert UndisturbedFrom(cursor) ==> StepAt(cursor).others.None?;
      assert TruthfulFrom(cursor, limit) ==> Truthful(StepAt(cursor), limit);
      var job := CallAttach(ctx, serverID);
      assert reach ==> InReach(ctx, serverID, device, limit, 2);
      if job.Err? {
        r := FinishAttachAfterEffectError(ctx, volumeID, serverID, job.error, device, limit);
        return;
      }
      assert first ==> FollowUpInTime(ctx, serverID, given, job.value, limit, polls);
      r := FollowAttach(ctx, volumeID, serverID, job.value, given, limit, polls);
    }

    /** The first observation of an attach, and what it leaves of an attachment in reach or a fresh attach. */
    method FirstLook(ctx: Ctx, volumeID: string, serverID: string,
                     ghost device: string, ghost limit: nat, ghost polls: nat)
      returns (r: Result<Option<Attachment>, Error>)
      modifies this`now, this`cursor, this`volume, this`heard
      ensures r == match old(Peek(ctx, volumeID, serverID))
                   case Ok(rows) => Ok(FirstMatch(rows, volumeID, serverID))
                   case Err(e) => Err(e)
      ensures UndisturbedFrom(old(cursor)) ==> AtRest(old(volume), volume)
      ensures r.Ok? && Settled(WithDevice, r.value) ==> Seen(volumeID, serverID, WithDevice, r.value)
      ensures r.Ok? ==> !Ended(ctx) && cursor == old(cursor) + 1
      ensures r.Err? && Ended(ctx) ==> r == Err(ctx.cause)
      ensures cursor >= old(cursor)
      ensures old(now) <= now && now <= (if old(Ended(ctx)) then old(now) else ctx.endsAt)
      ensures old(InReach(ctx, serverID, device, limit, 4)) ==>
                || (r == Ok(Some(Attachment(volumeID, serverID, Trim(device)))) && Settled(WithDevice, r.value))
                || (r == Ok(None) && InReach(ctx, serverID, device, limit, 3))
      ensures old(Fresh(ctx, limit, polls, 1)) ==> r == Ok(None) && Fresh(ctx, limit, polls, 0)
      ensures old(EndsEarly(ctx, limit, polls, 1)) && r.Ok? ==> EndsEarly(ctx, limit, polls, 0)
    {
      hide AtRest, TimeOf, Trim, IsTransient, Refuses, Undecided;
      assert Fresh(ctx, limit, polls, 1) ==> Truthful(StepAt(cursor), limit);
      if InReach(ctx, serverID, device, limit, 4) {
        ObservedInTime(ctx, volumeID, serverID, device, limit);
      }
      r := ObserveAttachment(ctx, volumeID, serverID);
    }

    /** AttachVolume under its operation context, for identifiers that are not blank. */
    method AttachPair(ctx: Ctx, volumeID: string, serverID: string,
                      ghost device: string, ghost limit: nat, ghost polls: nat)
      returns (r: Result<Attachment, Error>)
      modifies this`now, this`cursor, this`volume, this`heard, this`tickAt, this`attachCalls, this`accepted
      ensures r.Ok? ==> Seen(volumeID, serverID, WithDevice, Some(r.value))
      ensures r.Err? ==>
                if Ended(ctx) then r.error == ctx.cause
                else FailsAs(old(Peek(ctx, volumeID, serverID)), StepAt(old(cursor) + 1).effect,
                             old(cursor) + 2, volumeID, serverID, r.error)
      ensures old(now) <= now && now <= (if old(Ended(ctx)) then old(now) else ctx.endsAt)
      ensures attachCalls == old(attachCalls) + (if old(NotListed(ctx, volumeID, serverID)) then 1 else 0)
      ensures TruthfulFrom(old(cursor), limit) && accepted > old(accepted) ==> !Blank(DeviceOf(volume))
      ensures cursor >= old(cursor) + (if accepted > old(accepted) then 2 else 0)
      ensures accepted - old(accepted) <= attachCalls - old(attachCalls)
      ensures AcceptedOnce(old(volume), volume, serverID, accepted - old(accepted), UndisturbedFrom(old(cursor)))
      ensures old(InReach(ctx, serverID, device, limit, 4)) ==> r == Ok(Attachment(volumeID, serverID, Trim(device)))
      ensures old(Fresh(ctx, limit, polls, 1)) ==>
                r == Ok(Attachment(volumeID, serverID, Trim(StepAt(old(cursor) + 1).device)))
      ensures old(NotListed(ctx, volumeID, serverID) && EndsEarly(ctx, limit, polls, 1)) ==>
                r == Err(BadEnd(StepAt(old(cursor) + 2 + polls).job)) && cursor == old(cursor) + polls + 3
      ensures match old(Peek(ctx, volumeID, serverID))
              case Ok(rows) =>
                var seen := FirstMatch(rows, volumeID, serverID);
                seen.Some? && seen.value.deviceName != "" ==> r == Ok(seen.value) && cursor == old(cursor) + 1
              case Err(e) => r == Err(e)
    {
      hide AcceptedOnce, AtRest, TimeOf, Trim, IsTransient, FollowUpFails, InReach, Fresh, Peek, TruthfulFrom;
      ghost var start, alone := volume, UndisturbedFrom(cursor);
      UndisturbedLater(cursor, cursor + 1);
      TruthfulOn(cursor, limit);
      var existing := FirstLook(ctx, volumeID, serverID, device, limit, polls);
      ghost var seen := volume;
      NoneAccepted(start, seen, serverID, alone);
      if existing.Err? {
        return Err(existing.error);
      }
      if Settled(WithDevice, existing.value) {
        return Ok(existing.value.value);
      }
      if existing.value.Some? {
        var attached := WaitForAttachmentState(ctx, volumeID, serverID, WithDevice, device, limit);
        RestOnce(start, seen, volume, alone);
        NoneAccepted(start, volume, serverID, alone);
        return if attached.Ok? then Ok(attached.value.value) else Err(attached.error);
      }
      ghost var still := UndisturbedFrom(cursor);
      r := AttachUnlisted(ctx, volumeID, serverID, device, limit, polls);
      AcceptedLater(start, seen, volume, serverID, accepted - old(accepted), alone, still);
    }

    /** AttachVolume: a pair already listed with a device is returned, one listed without is waited
        for, and only a pair not listed is attached, once. `device`, `limit` and `polls` only serve to
        say when it must succeed. */
    method AttachVolume(caller: Ctx, volumeID: string, serverID: string,
                        ghost device: string, ghost limit: nat, ghost polls: nat)
      returns (r: Result<Attachment, Error>)
      modifies this`now, this`cursor, this`volume, this`heard, this`tickAt, this`attachCalls, this`accepted
      ensures r.Ok? ==> Seen(volumeID, serverID, WithDevice, Some(r.value))
      ensures Blank(volumeID) || Blank(serverID) ==> r == Err(InvalidArgument) && cursor == old(cursor)
      ensures r.Err? && !Blank(volumeID) && !Blank(serverID) ==>
                var ctx := old(OperationCtx(caller));
                if Ended(ctx) then r.error == ctx.cause
                else FailsAs(old(Peek(OperationCtx(caller), volumeID, serverID)), StepAt(old(cursor) + 1).effect,
                             old(cursor) + 2, volumeID, serverID, r.error)
      ensures old(now) <= now <= old(now) + MAX_OPERATION_TIMEOUT
      ensures now <= (if old(Ended(caller)) then old(now) else caller.endsAt)
      ensures attachCalls == old(attachCalls)
                + (if !Blank(volumeID) && !Blank(serverID) && old(NotListed(OperationCtx(caller), volumeID, serverID))
                   then 1 else 0)
      ensures TruthfulFrom(old(cursor), limit) && accepted > old(accepted) ==> !Blank(DeviceOf(volume))
      ensures cursor >= old(cursor) + (if accepted > old(accepted) then 2 else 0)
      ensures accepted - old(accepted) <= attachCalls - old(attachCalls)
      ensures AcceptedOnce(old(volume), volume, serverID, accepted - old(accepted), UndisturbedFrom(old(cursor)))
      ensures !Blank(volumeID) && !Blank(serverID) && old(InReach(caller, serverID, device, limit, 4)) ==>
                r == Ok(Attachment(volumeID, serverID, Trim(device)))
      ensures !Blank(volumeID) && !Blank(serverID) && old(Fresh(OperationCtx(caller), limit, polls, 1)) ==>
                r == Ok(Attachment(volumeID, serverID, Trim(StepAt(old(cursor) + 1).device)))
      ensures !Blank(volumeID) && !Blank(serverID)
              && old(NotListed(OperationCtx(caller), volumeID, serverID))
              && old(EndsEarly(OperationCtx(caller), limit, polls, 1)) ==>
                r == Err(BadEnd(StepAt(old(cursor) + 2 + polls).job)) && cursor == old(cursor) + polls + 3
      ensures !Blank(volumeID) && !Blank(serverID) ==>
                match old(Peek(OperationCtx(caller), volumeID, serverID))
                case Ok(rows) =>
                  var seen := FirstMatch(rows, volumeID, serverID);
                  seen.Some? && seen.value.deviceName != "" ==> r == Ok(seen.value) && cursor == old(cursor) + 1
                case Err(e) => r == Err(e)
    {
      hide AcceptedOnce, AtRest, TimeOf, FirstMatch, HonestRows, Fresh;
      RestStays(volume);
      NoneAccepted(volume, volume, serverID, UndisturbedFrom(cursor));
      if Blank(volumeID) || Blank(serverID) {
        return Err(InvalidArgument);
      }
      assert InReach(caller, serverID, device, limit, 4) ==> InReach(OperationCtx(caller), serverID, device, limit, 4);
      r := AttachPair(OperationCtx(caller), volumeID, serverID, device, limit, polls);
    }

    /** The volume is on the server, and the detach sent `lead` requests from now is accepted: its job
        succeeds, its answer is lost, or it is denied although the volume record shows it under way. */
    ghost predicate FreshDetach(ctx: Ctx, server: string, limit: nat, polls: nat, lead: nat)
      reads this`volume, this`now, this`cursor
    {
      && TruthfulFrom(cursor, limit) && volume.Attached? && volume.server == server
      && StepAt(cursor + lead).accepts
      && (match StepAt(cursor + lead).effect
          case EffectJob(jobId) => Blank(jobId) || SucceedsAfter(cursor + lead + 1, polls)
          case EffectFails(e) => IsTransient(e) || (e == InvalidArgument && now + (lead + 2) * limit < settlesAt))
      && now + (lead + 3) * limit + TimeOf(polls + 1, limit) < ctx.endsAt && limit < REFUSED_RECONCILE_WINDOW
    }

    /** DetachVolume: a pair not listed is done, a listed one is detached once. `limit` and `polls` only
        serve to say when it must succeed. */
    method DetachVolume(caller: Ctx, volumeID: string, serverID: string, ghost limit: nat, ghost polls: nat)
      returns (r: Result<(), Error>)
      modifies this`now, this`cursor, this`volume, this`heard, this`tickAt, this`detachCalls
      ensures r.Ok? ==> Seen(volumeID, serverID, Absent, None)
      ensures r.Err? && !Blank(volumeID) && !Blank(serverID) && Ended(old(OperationCtx(caller))) ==>
                r == Err(old(OperationCtx(caller)).cause)
      ensures r.Err? && !Blank(volumeID) && !Blank(serverID) && !Ended(old(OperationCtx(caller))) ==>
                match old(Peek(OperationCtx(caller), volumeID, serverID))
                case Err(e) => r.error == e
                case Ok(_) =>
                  match StepAt(old(cursor) + 1).effect
                  case EffectFails(e) => r.error == e
                  case EffectJob(jobId) => FollowUpFails(jobId, old(cursor) + 2, r.error)
      ensures Blank(volumeID) || Blank(serverID) ==> r == Err(InvalidArgument) && cursor == old(cursor)
      ensures old(now) <= now <= old(now) + MAX_OPERATION_TIMEOUT
      ensures now <= (if old(Ended(caller)) then old(now) else caller.endsAt)
      ensures detachCalls == old(detachCalls)
                + (if !Blank(volumeID) && !Blank(serverID) && old(IsListed(OperationCtx(caller), volumeID, serverID))
                   then 1 else 0)
      ensures !Blank(volumeID) && !Blank(serverID) && old(NotListed(OperationCtx(caller), volumeID, serverID)) ==> r.Ok?
      ensures !Blank(volumeID) && !Blank(serverID)
              && old(FreshDetach(OperationCtx(caller), serverID, limit, polls, 1)) ==>
                r.Ok?
      ensures !Blank(volumeID) && !Blank(serverID)
              && old(IsListed(OperationCtx(caller), volumeID, serverID))
              && old(EndsEarly(OperationCtx(caller), limit, polls, 1)) ==>
                r == Err(BadEnd(StepAt(old(cursor) + 2 + polls).job)) && cursor == old(cursor) + polls + 3
      ensures !Blank(volumeID) && !Blank(serverID) && old(Peek(OperationCtx(caller), volumeID, serverID)).Err? ==>
                r == Err(old(Peek(OperationCtx(caller), volumeID, serverID)).error)
    {
      if Blank(volumeID) || Blank(serverID) {
        return Err(InvalidArgument);
      }
      r := DetachPair(OperationCtx(caller), volumeID, serverID, limit, polls);
    }

    /** DetachVolume under its operation context, for identifiers that are not blank. */
    method DetachPair(ctx: Ctx, volumeID: string, serverID: string, ghost limit: nat, ghost polls: nat)
      returns (r: Result<(), Error>)
      modifies this`now, this`cursor, this`volume, this`heard, this`tickAt, this`detachCalls
      ensures r.Ok? ==> Seen(volumeID, serverID, Absent, None)
      ensures r.Err? && Ended(ctx) ==> r == Err(ctx.cause)
      ensures r.Err? && !Ended(ctx) ==>
                match old(Peek(ctx, volumeID, serverID))
                case Err(e) => r.error == e
                case Ok(_) =>
                  match StepAt(old(cursor) + 1).effect
                  case EffectFails(e) => r.error == e
                  case EffectJob(jobId) => FollowUpFails(jobId, old(cursor) + 2, r.error)
      ensures old(now) <= now && now <= (if old(Ended(ctx)) then old(now) else ctx.endsAt)
      ensures detachCalls == old(detachCalls) + (if old(IsListed(ctx, volumeID, serverID)) then 1 else 0)
      ensures old(NotListed(ctx, volumeID, serverID)) ==> r.Ok?
      ensures old(FreshDetach(ctx, serverID, limit, polls, 1)) ==> r.Ok?
      ensures old(IsListed(ctx, volumeID, serverID) && EndsEarly(ctx, limit, polls, 1)) ==>
                r == Err(BadEnd(StepAt(old(cursor) + 2 + polls).job)) && cursor == old(cursor) + polls + 3
      ensures old(Peek(ctx, volumeID, serverID)).Err? ==> r == Err(old(Peek(ctx, volumeID, serverID)).error)
    {
      hide TimeOf, StillRunning, EndsBadly, BadEnd, Undecided, FollowUpFails, Trim, IsTransient;
      assert FreshDetach(ctx, serverID, limit, polls, 1) ==> Truthful(StepAt(cursor), limit);
      var existing := ObserveAttachment(ctx, volumeID, serverID);
      if existing.Err? {
        return Err(existing.error);
      }
      if Settled(Absent, existing.value) {
        return Ok(());
      }
      r := DetachListed(ctx, volumeID, serverID, limit, polls);
    }

    /** The detach call and what follows it, once the pair is known to be listed. */
    method DetachListed(ctx: Ctx, volumeID: string, serverID: string, ghost limit: nat, ghost polls: nat)
      returns (r: Result<(), Error>)
      requires !Ended(ctx)
      modifies this`now, this`cursor, this`volume, this`heard, this`tickAt, this`detachCalls
      ensures r.Ok? ==> Seen(volumeID, serverID, Absent, None)
      ensures r.Err? && Ended(ctx) ==> r == Err(ctx.cause)
      ensures r.Err? && !Ended(ctx) ==>
                match StepAt(old(cursor)).effect
                case EffectFails(e) => r.error == e
                case EffectJob(jobId) => FollowUpFails(jobId, old(cursor) + 1, r.error)
      ensures old(now) <= now <= ctx.endsAt && detachCalls == old(detachCalls) + 1
      ensures old(FreshDetach(ctx, serverID, limit, polls, 0)) ==> r.Ok?
      ensures old(EndsEarly(ctx, limit, polls, 0)) ==>
                r == Err(BadEnd(StepAt(old(cursor) + 1 + polls).job)) && cursor == old(cursor) + polls + 2
    {
      hide TimeOf, StillRunning, EndsBadly, BadEnd, Undecided, FollowUpFails, Trim;
      ghost var hope := FreshDetach(ctx, serverID, limit, polls, 0);
      assert hope ==> Truthful(StepAt(cursor), limit);
      var job := CallDetach(ctx, serverID);
      if job.Err? {
        assert hope ==> DetachInReach(ctx, serverID, limit);
        r := FinishDetachAfterEffectError(ctx, volumeID, serverID, job.error, limit);
        return;
      }
      assert hope ==> DetachFollowUpInTime(ctx, serverID, job.value, limit, polls);
      r := FollowDetach(ctx, volumeID, serverID, job.value, limit, polls);
    }
  }

  /** The volume after a call with `n` of its attaches accepted: at most one, and when undisturbed
      only a volume that was unattached, or about to be, changed hands. */
  ghost predicate AcceptedOnce(a: Volume, b: Volume, serverID: string, n: int, undisturbed: bool) {
    && 0 <= n <= 1
    && (undisturbed && n == 0 ==> AtRest(a, b))
    && (undisturbed && n == 1 ==>
          && (a == Unattached || a.Detaching?)
          && (b.Attaching? || b.Attached?) && b.server == serverID)
  }

  lemma NoneAccepted(a: Volume, b: Volume, serverID: string, undisturbed: bool)
    requires undisturbed ==> AtRest(a, b)
    ensures AcceptedOnce(a, b, serverID, 0, undisturbed)
  {
  }

  lemma RestOnce(a: Volume, b: Volume, c: Volume, undisturbed: bool)
    requires undisturbed ==> AtRest(a, b) && AtRest(b, c)
    ensures undisturbed ==> AtRest(a, c)
  {
  }

  lemma AcceptedLater(a: Volume, b: Volume, c: Volume, serverID: string, n: int, undisturbed: bool, still: bool)
    requires (undisturbed ==> AtRest(a, b) && still) && AcceptedOnce(b, c, serverID, n, still)
    ensures AcceptedOnce(a, c, serverID, n, undisturbed)
  {
  }

  // ---------------------------------------------------------------------------------------
  // Runs
  // ---------------------------------------------------------------------------------------

  /** Success of an attach coincides with the volume being on exactly that server, with the device
      returned. */
  lemma SeenIsAttached(c: Cloud, volumeID: string, serverID: string, a: Attachment)
    requires c.HonestListing() && c.Seen(volumeID, serverID, WithDevice, Some(a))
    ensures c.volume.Attached? && c.volume.server == serverID && !Blank(c.volume.device)
    ensures a == Attachment(volumeID, serverID, Trim(c.volume.device))
  {
    TrimmedAway(DeviceOf(c.volume));
    assert c.heard.rows == HonestRows(c.volume, volumeID, serverID);
    if c.volume.Attached? && c.volume.server == serverID {
      assert c.heard.rows == [Row(volumeID, serverID, c.volume.device)];
    }
  }

  /** Success of a detach coincides with the volume not being on that server. */
  lemma SeenIsAbsent(c: Cloud, volumeID: string, serverID: string)
    requires c.HonestListing() && c.Seen(volumeID, serverID, Absent, None)
    ensures !(c.volume.Attached? && c.volume.server == serverID)
  {
    assert c.heard.rows == HonestRows(c.volume, volumeID, serverID);
    assert FirstMatch([Row(volumeID, serverID, DeviceOf(c.volume))], volumeID, serverID).Some?;
  }

  datatype Call = Attach(ctx: Ctx, volumeID: string, serverID: string)
                | Detach(ctx: Ctx, volumeID: string, serverID: string)

  /** What the state of the volume must be when a call returns with success. */
  ghost predicate Holds(call: Call, v: Volume) {
    match call
    case Attach(_, _, server) => v.Attached? && v.server == server && !Blank(v.device)
    case Detach(_, _, server) => !(v.Attached? && v.server == server)
  }

  /** Calls of one actor while every step may hand the volume to others: with honest listings every
      success is true at the moment it is returned, and no call sends its effect twice. */
  method Run(c: Cloud, calls: seq<Call>) returns (succeeded: seq<bool>, ghost states: seq<Volume>)
    requires c.HonestListing()
    modifies c
    ensures |succeeded| == |calls| && |states| == |calls|
    ensures forall i :: 0 <= i < |calls| && succeeded[i] ==> Holds(calls[i], states[i])
    ensures c.attachCalls + c.detachCalls <= old(c.attachCalls + c.detachCalls) + |calls|
    ensures c.accepted - old(c.accepted) <= c.attachCalls - old(c.attachCalls)
  {
    succeeded, states := [], [];
    for n := 0 to |calls|
      invariant |succeeded| == n && |states| == n
      invariant forall i :: 0 <= i < n && succeeded[i] ==> Holds(calls[i], states[i])
      invariant c.attachCalls + c.detachCalls <= old(c.attachCalls + c.detachCalls) + n
      invariant c.accepted - old(c.accepted) <= c.attachCalls - old(c.attachCalls)
    {
      var ok;
      match calls[n] {
        case Attach(ctx, volumeID, serverID) =>
          var attached := c.AttachVolume(ctx, volumeID, serverID, "", 0, 0);
          ok := attached.Ok?;
          if ok {
            SeenIsAttached(c, volumeID, serverID, attached.value);
          }
        case Detach(ctx, volumeID, serverID) =>
          var detached := c.DetachVolume(ctx, volumeID, serverID, 0, 0);
          ok := detached.Ok?;
          if ok {
            SeenIsAbsent(c, volumeID, serverID);
          }
      }
      succeeded, states := succeeded + [ok], states + [c.volume];
    }
  }

  /** An attach issued again, at time `reissued` and step `from`, after one that was accepted and then
      ended in whatever way at whatever point: cancelled during the job or the waits, or its answer
      lost. As long as nobody else touches the volume, the cloud accepts one attach in all. When from
      then on the cloud answers truthfully and turns the surplus attach down, the attachment settles
      within the window counted from the second call, and the deadline leaves room for its requests,
      the second call returns that attachment. */
  method AttachAgain(c: Cloud, first: Ctx, second: Ctx, volumeID: string, serverID: string, ghost limit: nat)
    returns (r1: Result<Attachment, Error>, r2: Result<Attachment, Error>,
             between: nat, held: Volume, reissued: nat, from: nat)
    requires !Blank(volumeID) && !Blank(serverID)
    requires c.volume == Unattached && c.UndisturbedFrom(c.cursor)
    modifies c
    ensures old(c.accepted) <= between <= c.accepted <= old(c.accepted) + 1
    ensures old(c.now) <= reissued <= c.now && old(c.cursor) <= from <= c.cursor
    ensures between > old(c.accepted) ==> (held.Attaching? || held.Attached?) && held.server == serverID
    ensures between > old(c.accepted) && !Blank(DeviceOf(held))
            && c.TruthfulFrom(from, limit) && c.RefusesFrom(from)
            && 4 * limit < REFUSED_RECONCILE_WINDOW && c.settlesAt + limit < reissued + REFUSED_RECONCILE_WINDOW
            && reissued + 4 * limit < second.endsAt && c.settlesAt + limit < second.endsAt ==>
              r2 == Ok(Attachment(volumeID, serverID, Trim(DeviceOf(held))))
  {
    r1 := c.AttachVolume(first, volumeID, serverID, "", limit, 0);
    between, held, reissued, from := c.accepted, c.volume, c.now, c.cursor;
    c.UndisturbedLater(old(c.cursor), from);
    r2 := c.AttachVolume(second, volumeID, serverID, DeviceOf(held), limit, 0);
  }
}
