/** The node service: internal/driver/node.go. */
module Node {
  import opened Errors
  import opened MountOptions
  import opened Host
  import opened HostState
  import opened Interleaving
  import opened ReadOnly

  datatype Code = BadRequest | Missing | FailedPrecondition | Interrupted(cause: Cause) | Internal

  datatype Mode = SingleWriter | SingleReader | OtherMode | NoMode

  datatype Access = Block | Filesystem(fsType: string, flags: Opts) | NoAccess

  datatype Capability = Capability(mode: Mode, access: Access)

  /** Why a device could not be verified. */
  datatype DiscoverError = Unusable | Unverified | Cut(cause: Cause) | NoDevice

  datatype Request = Request(
    volumeId: string, staging: string, target: string, capability: Option<Capability>, readonly: bool,
    devicePath: string, discovered: Result<string, DiscoverError>)

  /** validateVolumeCapability */
  predicate ValidCapability(c: Capability) {
    && (c.mode == SingleWriter || c.mode == SingleReader)
    && (c.access.Filesystem? ==> IsSupported(FsType(Trim(c.access.fsType))))
  }

  function HostCode(e: HostError): Code {
    match e
    case CtxEnded(cause) => Interrupted(cause)
    case _ => Internal
  }

  function DiscoverCode(e: DiscoverError): Code {
    match e
    case Unusable => BadRequest
    case Unverified => FailedPrecondition
    case Cut(cause) => Interrupted(cause)
    case NoDevice => Missing
  }

  /** What every call keeps: one mount per path, the types of formatted devices, everything outside
      its own path, and only safe commands started. */
  ghost predicate Lawful(a: State, b: State, before: seq<Event>, after: seq<Event>, path: string) {
    Single(b) && TypesKept(a, b) && OnlyAt(a, b, {path}) && SafeSince(before, after)
  }

  lemma LawfulPaths(a: State, b: State, before: seq<Event>, after: seq<Event>, path: string)
    requires Single(a) && b.mounts == a.mounts && b.content == a.content
    requires b.paths == a.paths || b.paths == a.paths + {path} || b.paths == a.paths - {path}
    requires SafeSince(before, after)
    ensures Lawful(a, b, before, after, path)
  {
    assert forall p :: Stack(b, p) == Stack(a, p);
  }

  lemma LawfulSelf(s: State, log: seq<Event>, path: string)
    requires Single(s)
    ensures Lawful(s, s, log, log, path)
  {
  }

  /** What a lawful call leaves alone. */
  lemma LawfulFrame(a: State, b: State, before: seq<Event>, after: seq<Event>, path: string)
    requires Lawful(a, b, before, after, path)
    ensures Single(b) && before <= after
  {
  }

  lemma LawfulMount(a: State, b: State, before: seq<Event>, after: seq<Event>, path: string)
    requires Single(a) && MountStep(a, b, path) && SafeSince(before, after)
    ensures Lawful(a, b, before, after, path)
  {
    assert forall p :: p != path ==> |Stack(a, p)| <= 1;
  }

  lemma LawfulThen(a: State, b: State, c: State, l0: seq<Event>, l1: seq<Event>, l2: seq<Event>, path: string)
    requires Lawful(a, b, l0, l1, path) && Lawful(b, c, l1, l2, path)
    ensures Lawful(a, c, l0, l2, path)
  {
    assert forall d :: Held(a, d) != "" ==> Held(b, d) == Held(a, d);
    assert forall p :: p != path ==> Stack(b, p) == Stack(a, p);
  }

  /** What a publication binds: the device for a block volume, the staging path otherwise. */
  function Source(req: Request): string {
    if !IsBlock(req) then req.staging
    else match req.discovered
         case Ok(device) => device
         case Err(_) => ""
  }

  /** The mount flags a publication carries. */
  function FlagsOfRequest(req: Request): Opts {
    if req.capability.Some? && req.capability.value.access.Filesystem?
    then req.capability.value.access.flags else []
  }

  /** The options a publication asks for. */
  function OptionsOfRequest(req: Request): Opts {
    PublishOptions(req.readonly, FlagsOfRequest(req))
  }

  /** What a read-only publication leaves at its target is read-only exactly when every rw among its
      mount flags is overruled; for flags without commas, when its source is read-only or no flag is rw. */
  lemma ReadOnlyPublication(h: Host, req: Request)
    requires req.readonly
    ensures var opts := h.Wanted(Source(req), "", OptionsOfRequest(req)).opts;
      var source := SourceOptions(h.FlagsOf(Source(req)));
      && (EffectivelyReadOnly(opts) <==> RwOverruled(ExtraFlags(FlagsOfRequest(req)), "ro" in source))
      && ((forall o :: o in FlagsOfRequest(req) ==> ',' !in o) ==>
            (EffectivelyReadOnly(opts) <==> "ro" in source || "rw" !in FlagsOfRequest(req)))
  {
    var flags := FlagsOfRequest(req);
    ReadOnlyPublish(h.FlagsOf(Source(req)), flags);
    if forall o :: o in flags ==> ',' !in o {
      PlainReadOnlyPublish(h.FlagsOf(Source(req)), flags);
    }
    assert "bind" in PublishOptions(true, flags);
  }

  lemma DefaultTwice(fsType: string)
    ensures FsType(if fsType == "" then DEFAULT_FILESYSTEM_TYPE else fsType) == FsType(fsType)
  {
    var d := DEFAULT_FILESYSTEM_TYPE;
    assert |d| == 4 && d[0] == 'e' && d[1] == 'x' && d[2] == 't' && d[3] == '4';
    assert FsType(d) == d;
  }

  /** What a staging may change. */
  ghost function StageConcern(req: Request): set<Subject> {
    {OfPath(req.staging)} + match req.discovered
                            case Ok(device) => {OfDevice(device)}
                            case Err(_) => {}
  }

  predicate IsBlock(req: Request) {
    req.capability.Some? && req.capability.value.access == Block
  }

  predicate ValidStage(req: Request) {
    && !Blank(req.volumeId) && !Blank(req.staging)
    && req.capability.Some? && ValidCapability(req.capability.value)
  }

  /** A read-only access mode needs a read-only publication. */
  predicate ValidPublish(req: Request) {
    && ValidStage(req) && !Blank(req.target) && !req.capability.value.access.NoAccess?
    && (req.capability.value.mode == SingleReader ==> req.readonly)
  }

  /** Exactly two host steps have been made. */
  ghost predicate TwoSteps(h: Host, k: nat, t: nat)
    reads h`cursor, h`clock
  {
    h.cursor == k + 2 && h.clock == t + h.OutcomeAt(k).took + h.OutcomeAt(k + 1).took
  }

  /** The device of a request was discovered. */
  predicate HasDevice(req: Request) {
    !Blank(req.devicePath) && req.discovered.Ok?
  }

  function NoDeviceCode(req: Request): Code {
    if Blank(req.devicePath) || req.discovered.Ok? then BadRequest else DiscoverCode(req.discovered.error)
  }

  /** A capability that no call accepts. */
  predicate BadCapability(c: Option<Capability>) {
    || c.None? || c.value.mode == OtherMode || c.value.mode == NoMode
    || (c.value.access.Filesystem? && FsType(Trim(c.value.access.fsType)) !in {"ext4", "xfs"})
  }

  class NodeService {
    const host: Host

    constructor (host: Host)
      ensures this.host == host
    {
      this.host := host;
    }

    method DiscoverDevice(req: Request) returns (r: Result<string, Code>)
      ensures r.Ok? ==> req.discovered == Ok(r.value)
      ensures r.Ok? <==> !Blank(req.devicePath) && req.discovered.Ok?
      ensures r.Err? ==> r == Err(NoDeviceCode(req))
    {
      if Blank(req.devicePath) {
        return Err(BadRequest);
      }
      match req.discovered {
        case Ok(device) => r := Ok(device);
        case Err(e) => r := Err(DiscoverCode(e));
      }
    }

    /** The request stages a filesystem of a supported type on a device that was discovered. */
    ghost predicate Stageable(req: Request) {
      && ValidStage(req) && HasDevice(req) && req.discovered.value != ""
      && req.capability.value.access.Filesystem? && IsSupported(FsType(req.capability.value.access.fsType))
    }

    /** Every host step that the staging needs goes well. */
    ghost predicate StagedSmoothly(ctx: Ctx, s: State, req: Request, k: nat, t: nat) {
      && Stageable(req)
      && var device, access := req.discovered.value, req.capability.value.access;
      host.StagesSmoothly(ctx, s, device, req.staging, FsType(access.fsType), access.flags, k, t)
    }

    /** How it is then answered: a staged volume is, and so is one whose device holds the requested type
        or may be formatted. */
    ghost predicate StageAnswer(s: State, req: Request, r: Result<(), Code>)
      requires Stageable(req)
    {
      var held, access := Held(s, req.discovered.value), req.capability.value.access;
      if Mounted(s, req.staging) then r.Ok?
      else if held != "" && held != FsType(access.fsType) then r == Err(Internal)
      else if held == "" && "ro" in access.flags then r == Err(Internal)
      else r.Ok? <==> Stackable(access.flags)
    }

    /** A read-write staging of a formatted device goes well until fsck finds errors it cannot correct. */
    ghost predicate StopsAtFsck(ctx: Ctx, s: State, req: Request, k: nat, t: nat) {
      && Stageable(req)
      && var device, access := req.discovered.value, req.capability.value.access;
      && "ro" !in access.flags && Held(s, device) == FsType(access.fsType)
      && host.FsckFails(ctx, s, device, req.staging, k, t)
    }

    /** The staging of a filesystem on a device that was discovered. */
    method StageFilesystem(ctx: Ctx, req: Request) returns (r: Result<(), Code>)
      requires host.Alone() ==> Single(host.state)
      requires host.Recorded() && host.concern == StageConcern(req)
      requires ValidStage(req) && HasDevice(req) && req.capability.value.access.Filesystem?
      modifies host
      ensures host.base == old(host.base) && host.Recorded() && host.concern == old(host.concern)
      ensures r != Err(BadRequest)
      ensures req.discovered.value != "" && old(host.Ended(ctx)) ==>
                r == Err(Interrupted(ctx.cause)) && host.state == old(host.state)
      ensures host.Alone() ==>
                && Lawful(old(host.state), host.state, old(host.log), host.log, req.staging)
                && (r.Ok? ==> req.staging in host.state.paths && Staged(old(host.state), host.state, req))
      ensures host.Alone() && StagedSmoothly(ctx, old(host.state), req, old(host.cursor), old(host.clock)) ==>
                StageAnswer(old(host.state), req, r)
      ensures host.Alone() && StopsAtFsck(ctx, old(host.state), req, old(host.cursor), old(host.clock)) ==>
                r == Err(if host.Ended(ctx) then Interrupted(ctx.cause) else Internal)
    {
      hide KnowsFree, KnowsType, Sincere, Concerned, Explains, Host.StagesSmoothly, Host.FsckFails;
      hide FsType, IsSupported, BindFlavor, Plan, RemountOptions, SourceOptions, ValidCapability;
      var device, access := req.discovered.value, req.capability.value.access;
      DefaultTwice(access.fsType);
      var requested := if access.fsType == "" then DEFAULT_FILESYSTEM_TYPE else access.fsType;
      var done := host.FormatAndMount(ctx, device, req.staging, requested, access.flags);
      if host.Alone() {
        PlanIsSafe(old(host.log), host.log, old(host.state), device, req.staging, FsType(access.fsType), access.flags);
        ContentStepKeepsTypes(old(host.state), host.state, device, FsType(access.fsType));
      }
      r := if done.Ok? then Ok(()) else Err(HostCode(done.error));
    }

    method NodeStageVolume(ctx: Ctx, req: Request) returns (r: Result<(), Code>)
      requires host.Alone() ==> Single(host.state)
      modifies host
      ensures !ValidStage(req) ==> r == Err(BadRequest) && host.state == old(host.state) && host.log == old(host.log)
      ensures ValidStage(req) && req.discovered.Ok? && req.discovered.value != "" && !Blank(req.devicePath)
              && req.capability.value.access.Filesystem? && old(host.Ended(ctx)) ==>
                r == Err(Interrupted(ctx.cause)) && host.state == old(host.state)
      ensures host.base == old(host.state) && host.Recorded() && host.concern == StageConcern(req)
      ensures IsBlock(req) || r == Err(BadRequest) ==> host.log == old(host.log)
      ensures host.Alone() ==>
                && Lawful(old(host.state), host.state, old(host.log), host.log, req.staging)
                && (IsBlock(req) || r == Err(BadRequest) ==>
                      && host.state.mounts == old(host.state).mounts
                      && host.state.content == old(host.state).content)
                && (r.Ok? ==>
                      && req.discovered.Ok? && req.capability.Some? && req.staging in host.state.paths
                      && (IsBlock(req) || Staged(old(host.state), host.state, req)))
      ensures ValidStage(req) && !HasDevice(req) ==> r == Err(NoDeviceCode(req))
      ensures ValidStage(req) && HasDevice(req) && IsBlock(req) ==>
                r == if host.OutcomeAt(old(host.cursor)).ok then Ok(()) else Err(Internal)
      ensures host.Alone() && StagedSmoothly(ctx, old(host.state), req, old(host.cursor), old(host.clock)) ==>
                StageAnswer(old(host.state), req, r)
      ensures host.Alone() && StopsAtFsck(ctx, old(host.state), req, old(host.cursor), old(host.clock)) ==>
                r == Err(if host.Ended(ctx) then Interrupted(ctx.cause) else Internal)
      ensures Blank(req.volumeId) || Blank(req.staging) || BadCapability(req.capability) ==>
                r == Err(BadRequest)
    {
      hide KnowsFree, KnowsType, Sincere, Concerned, Explains, FsType, Trim;
      host.Begin(StageConcern(req));
      if Blank(req.volumeId) || Blank(req.staging) || req.capability.None? {
        return Err(BadRequest);
      }
      if !ValidCapability(req.capability.value) {
        return Err(BadRequest);
      }
      var device := DiscoverDevice(req);
      if device.Err? {
        return Err(device.error);
      }
      match req.capability.value.access {
        case Block =>
          var made := host.MkdirAll(req.staging);
          if host.Alone() {
            LawfulPaths(old(host.state), host.state, old(host.log), host.log, req.staging);
          }
          return if made.Ok? then Ok(()) else Err(Internal);
        case Filesystem(_, _) =>
          r := StageFilesystem(ctx, req);
        case NoAccess =>
          return Err(BadRequest);
      }
    }

    /** createBlockTargetFile: the placeholder a raw device is bound onto. */
    method CreateBlockTargetFile(path: string) returns (r: Result<(), Code>)
      requires host.Recorded()
      requires OfPath(path) in host.concern
      modifies host`clock, host`cursor, host`state, host`met, host`account
      ensures host.Recorded() && host.cursor >= old(host.cursor) && host.clock >= old(host.clock)
      ensures r.Ok? ==> TwoSteps(host, old(host.cursor), old(host.clock))
      ensures host.Alone() ==>
                && (|| host.state == old(host.state)
                    || host.state == old(host.state).(paths := old(host.state).paths + {path}))
                && (r.Ok? ==> path in host.state.paths)
      ensures r.Err? ==> r == Err(Internal)
      ensures host.OutcomeAt(old(host.cursor)).ok && host.OutcomeAt(old(host.cursor) + 1).ok ==> r.Ok?
    {
      hide KnowsFree, KnowsType, Sincere, Concerned, Explains;
      var parent := host.Next();
      if !parent.ok {
        return Err(Internal);
      }
      var made := host.MkdirAll(path);
      return if made.Ok? then Ok(()) else Err(Internal);
    }

    /** The bind that both kinds of publication end with, once the target exists. */
    method BindTarget(ctx: Ctx, source: string, req: Request, options: Opts) returns (r: Result<(), Code>)
      requires (host.Alone() ==> Single(host.state)) && host.Recorded()
      requires OfPath(req.target) in host.concern
      modifies host
      ensures r != Err(FailedPrecondition)
      ensures host.base == old(host.base) && host.concern == old(host.concern) && host.Recorded()
      ensures host.Alone() ==>
                && Lawful(old(host.state), host.state, old(host.log), host.log, req.target)
                && host.state.content == old(host.state).content && host.state.paths == old(host.state).paths
                && (host.log == old(host.log) || host.log == old(host.log) + [Push(req.target, 0)])
                && Bound(old(host.state), host.state, source, req.target, options, r,
                         host.MountRollbackStart(ctx, old(host.cursor), old(host.clock)))
      ensures host.Alone() && source != "" && req.target != "" && Stackable(options)
              && host.Smooth(ctx, old(host.cursor), host.MountSteps(old(host.state), req.target, options),
                             old(host.clock)) ==>
                r.Ok?
    {
      hide KnowsFree, KnowsType, Sincere, Concerned, Explains;
      var done := host.Mount(ctx, source, req.target, "", options);
      if host.Alone() {
        LawfulMount(old(host.state), host.state, old(host.log), host.log, req.target);
      }
      r := if done.Ok? then Ok(()) else Err(HostCode(done.error));
    }

    /** The outcome of a bind: the full option set where the target was free or already bound from
        `source`; a failure leaves a free target free unless the rollback, which begins at step `at`, failed too. */
    ghost predicate Bound(a: State, b: State, source: string, target: string, options: Opts,
                          r: Result<(), Code>, at: nat)
      reads host`cursor
    {
      && (r.Ok? && BoundFrom(a, target, source, "") && BindFlavor(options) != ""
          ==> Stack(b, target) == [host.Wanted(source, "", options)])
      && (BoundFrom(a, target, source, "") ==> BoundFrom(b, target, source, ""))
      && (r.Ok? ==> Mounted(b, target))
      && (r.Err? && host.Clean() && !Mounted(a, target) && Mounted(b, target) ==> host.RollbackFailed(at))
    }

    /** A staged filesystem volume: mounted, with the requested type and options when this call did
        it. */
    ghost predicate Staged(a: State, b: State, req: Request)
      requires req.discovered.Ok? && req.capability.Some?
    {
      && req.capability.value.access.Filesystem?
      && Mounted(b, req.staging)
      && var device, access := req.discovered.value, req.capability.value.access;
      var fs, flags := FsType(access.fsType), access.flags;
      if Mounted(a, req.staging) then Stack(b, req.staging) == Stack(a, req.staging)
      else Held(b, device) == fs && Stack(b, req.staging) == [host.Wanted(device, fs, flags + ["defaults"])]
    }

    /** Where the rollback of a publication begins that itself begins at step `k` and time `t`. */
    function PublishRollbackStart(ctx: Ctx, k: nat, t: nat): nat {
      host.MountRollbackStart(ctx, k + 2, t + host.OutcomeAt(k).took + host.OutcomeAt(k + 1).took)
    }

    /** How many steps the mount of a publication takes when all goes well. */
    function PublishSteps(s: State, req: Request): nat {
      host.MountSteps(s, req.target, OptionsOfRequest(req))
    }

    /** A publication of something staged, whose every host step goes well. */
    ghost predicate Publishes(ctx: Ctx, s: State, req: Request, k: nat, t: nat) {
      && Source(req) != "" && (if IsBlock(req) then HasDevice(req) else Mounted(s, req.staging))
      && host.Smooth(ctx, k, 2 + PublishSteps(s, req), t)
    }

    /** NodePublishVolume: two host steps prepare the target, the mount is the third. */
    method NodePublishVolume(ctx: Ctx, req: Request) returns (r: Result<(), Code>)
      requires host.Alone() ==> Single(host.state)
      modifies host
      ensures !ValidPublish(req) ==> r == Err(BadRequest) && host.state == old(host.state) && host.log == old(host.log)
      ensures ValidPublish(req) && !IsBlock(req) && old(host.Ended(ctx)) ==>
                r == Err(Interrupted(ctx.cause)) && host.state == old(host.state)
      ensures host.Alone() && r == Err(FailedPrecondition) && !IsBlock(req) ==>
                !Mounted(old(host.state), req.staging) && host.state == old(host.state)
      ensures r.Ok? ==>
                && req.capability.Some? && (IsBlock(req) ==> req.discovered.Ok?)
                && (req.capability.value.mode == SingleReader ==> req.readonly)
      ensures host.base == old(host.state) && host.Recorded() && host.concern == {OfPath(req.target)}
      ensures host.Alone() ==>
                && Lawful(old(host.state), host.state, old(host.log), host.log, req.target)
                && host.state.content == old(host.state).content
                && (host.log == old(host.log) || host.log == old(host.log) + [Push(req.target, 0)])
                && (r.Ok? ==> req.target in host.state.paths)
                && (r.Ok? && !IsBlock(req) ==> Mounted(old(host.state), req.staging))
                && Bound(old(host.state), host.state, Source(req), req.target, OptionsOfRequest(req), r,
                         PublishRollbackStart(ctx, old(host.cursor), old(host.clock)))
      ensures host.Alone() && ValidPublish(req) && !IsBlock(req) && !old(host.Ended(ctx))
              && host.OutcomeAt(old(host.cursor)).ok && !Mounted(old(host.state), req.staging) ==>
                r == Err(FailedPrecondition)
      ensures ValidPublish(req) && IsBlock(req) && !HasDevice(req) ==> r == Err(NoDeviceCode(req))
      ensures host.Alone() && ValidPublish(req)
              && Publishes(ctx, old(host.state), req, old(host.cursor), old(host.clock)) ==>
                r.Ok?
      ensures Blank(req.volumeId) || Blank(req.staging) || Blank(req.target) || BadCapability(req.capability) ==>
                r == Err(BadRequest)
    {
      hide KnowsFree, KnowsType, Sincere, Concerned, Explains, ExtraFlags, FsType, Trim, BindFlavor, Lawful;
      hide Blank, RemountOptions, SourceOptions;
      host.Begin({OfPath(req.target)});
      if host.Alone() {
        LawfulSelf(host.state, host.log, req.target);
      }
      if Blank(req.volumeId) || Blank(req.staging) || Blank(req.target) || req.capability.None?
         || !ValidCapability(req.capability.value) {
        return Err(BadRequest);
      }
      if req.capability.value.mode == SingleReader && !req.readonly {
        return Err(BadRequest);
      }
      if req.capability.value.access.NoAccess? {
        return Err(BadRequest);
      }
      r := Publish(ctx, req);
    }

    lemma BindStacks(req: Request, a: State, b: State)
      ensures "bind" in OptionsOfRequest(req) && Stackable(OptionsOfRequest(req))
      ensures a.mounts == b.mounts ==> PublishSteps(a, req) == PublishSteps(b, req)
    {
    }

    /** A publication whose request is valid. */
    method Publish(ctx: Ctx, req: Request) returns (r: Result<(), Code>)
      requires host.Alone() ==> Single(host.state)
      requires host.Recorded() && host.concern == {OfPath(req.target)} && ValidPublish(req)
      modifies host
      ensures !IsBlock(req) && old(host.Ended(ctx)) ==>
                r == Err(Interrupted(ctx.cause)) && host.state == old(host.state)
      ensures host.Alone() && r == Err(FailedPrecondition) && !IsBlock(req) ==>
                !Mounted(old(host.state), req.staging) && host.state == old(host.state)
      ensures r.Ok? ==> IsBlock(req) ==> req.discovered.Ok?
      ensures host.base == old(host.base) && host.Recorded() && host.concern == old(host.concern)
      ensures host.Alone() ==>
                && Lawful(old(host.state), host.state, old(host.log), host.log, req.target)
                && host.state.content == old(host.state).content
                && (host.log == old(host.log) || host.log == old(host.log) + [Push(req.target, 0)])
                && (r.Ok? ==> req.target in host.state.paths)
                && (r.Ok? && !IsBlock(req) ==> Mounted(old(host.state), req.staging))
                && Bound(old(host.state), host.state, Source(req), req.target, OptionsOfRequest(req), r,
                         PublishRollbackStart(ctx, old(host.cursor), old(host.clock)))
      ensures host.Alone() && !IsBlock(req) && !old(host.Ended(ctx))
              && host.OutcomeAt(old(host.cursor)).ok && !Mounted(old(host.state), req.staging) ==>
                r == Err(FailedPrecondition)
      ensures IsBlock(req) && !HasDevice(req) ==> r == Err(NoDeviceCode(req))
      ensures host.Alone() && Publishes(ctx, old(host.state), req, old(host.cursor), old(host.clock)) ==> r.Ok?
    {
      hide KnowsFree, KnowsType, Sincere, Concerned, Explains, ExtraFlags, FsType, Trim, BindFlavor, Lawful;
      hide ValidCapability, RemountOptions, SourceOptions, Host.Smooth, Host.TimeOf, Host.MountSteps;
      hide Host.MountRollbackStart, Host.RollbackFailed, Host.Wanted, Host.Clean, NoDeviceCode, PublishOptions;
      host.SmoothSplit(ctx, host.cursor, 2, PublishSteps(host.state, req), host.clock);
      host.FewSteps(ctx, host.cursor, host.clock);
      r := PrepareTarget(ctx, req);
      if r.Err? {
        return;
      }
      if host.Alone() {
        LawfulFrame(old(host.state), host.state, old(host.log), host.log, req.target);
      }
      ghost var prepared := host.state;
      var source, flags := req.staging, [];
      if req.capability.value.access.Block? {
        source := req.discovered.value;
      } else {
        flags := req.capability.value.access.flags;
      }
      var mountOptions := BuildPublishOptions(req.readonly, flags);
      BindStacks(req, prepared, old(host.state));
      r := BindTarget(ctx, source, req, mountOptions);
      if host.Alone() {
        assert Stack(prepared, req.target) == Stack(old(host.state), req.target);
        LawfulThen(old(host.state), prepared, host.state, old(host.log), old(host.log), host.log, req.target);
      }
    }

    /** What a publication checks and creates before the bind. */
    method PrepareTarget(ctx: Ctx, req: Request) returns (r: Result<(), Code>)
      requires (host.Alone() ==> Single(host.state)) && host.Recorded() && req.capability.Some?
      requires OfPath(req.target) in host.concern
      modifies host
      ensures host.base == old(host.base) && host.concern == old(host.concern) && host.Recorded()
      ensures host.Alone() ==> host.log == old(host.log)
      ensures r.Ok? ==> TwoSteps(host, old(host.cursor), old(host.clock)) && (IsBlock(req) ==> req.discovered.Ok?)
      ensures !Blank(req.staging) && !IsBlock(req) && old(host.Ended(ctx)) ==>
                r == Err(Interrupted(ctx.cause)) && host.state == old(host.state)
      ensures host.Alone() ==>
                && (r == Err(FailedPrecondition) && !IsBlock(req) ==>
                      !Mounted(old(host.state), req.staging) && host.state == old(host.state))
                && Lawful(old(host.state), host.state, old(host.log), host.log, req.target)
                && host.state.content == old(host.state).content && host.state.mounts == old(host.state).mounts
                && (r.Ok? ==> req.target in host.state.paths)
                && (r.Ok? && !IsBlock(req) ==> Mounted(old(host.state), req.staging))
      ensures (if IsBlock(req) then HasDevice(req) else host.Alone() && Mounted(old(host.state), req.staging))
              && !Blank(req.staging) && host.Smooth(ctx, old(host.cursor), 2, old(host.clock)) ==>
                r.Ok?
      ensures host.Alone() && !Blank(req.staging) && !IsBlock(req) && !old(host.Ended(ctx))
              && host.OutcomeAt(old(host.cursor)).ok && !Mounted(old(host.state), req.staging) ==>
                r == Err(FailedPrecondition)
      ensures IsBlock(req) && !HasDevice(req) ==> r == Err(NoDeviceCode(req))
    {
      hide KnowsFree, KnowsType, Sincere, Concerned, Explains;
      if req.capability.value.access.Block? {
        var device := DiscoverDevice(req);
        if device.Err? {
          return Err(device.error);
        }
        r := CreateBlockTargetFile(req.target);
      } else {
        var staged := host.IsMountPoint(ctx, req.staging);
        if staged.Err? {
          return Err(HostCode(staged.error));
        }
        if !staged.value {
          return Err(FailedPrecondition);
        }
        var made := host.MkdirAll(req.target);
        r := if made.Ok? then Ok(()) else Err(Internal);
      }
      if host.Alone() {
        LawfulPaths(old(host.state), host.state, old(host.log), host.log, req.target);
      }
    }

    function TearDownSteps(s: State, path: string): nat {
      host.UnmountSteps(s, path) + 1
    }

    /** Unmount, then removal of the path: the body of both teardown calls. */
    method TearDown(ctx: Ctx, path: string) returns (r: Result<(), Code>)
      requires (host.Alone() ==> Single(host.state)) && host.Recorded()
      requires OfPath(path) in host.concern
      modifies host
      ensures !Blank(path) && old(host.Ended(ctx)) ==> r == Err(Interrupted(ctx.cause)) && host.state == old(host.state)
      ensures host.base == old(host.base) && host.concern == old(host.concern) && host.Recorded()
      ensures host.Alone() ==>
                && Lawful(old(host.state), host.state, old(host.log), host.log, path)
                && host.state.content == old(host.state).content
                && (host.log == old(host.log) || host.log == old(host.log) + [Remove(path, 0)])
                && (r.Ok? ==> !Mounted(host.state, path) && path !in host.state.paths)
      ensures host.Alone() && path != ""
              && host.Smooth(ctx, old(host.cursor), TearDownSteps(old(host.state), path), old(host.clock)) ==>
                r.Ok?
    {
      hide KnowsFree, KnowsType, Sincere, Concerned, Explains;
      host.SmoothSplit(ctx, host.cursor, host.UnmountSteps(host.state, path), 1, host.clock);
      var unmounted := host.Unmount(ctx, path);
      if host.Alone() {
        LawfulMount(old(host.state), host.state, old(host.log), host.log, path);
      }
      if unmounted.Err? {
        return Err(HostCode(unmounted.error));
      }
      ghost var free, quiet := host.state, host.log;
      var removed := host.RemovePath(path);
      if host.Alone() {
        LawfulPaths(free, host.state, quiet, host.log, path);
        LawfulThen(old(host.state), free, host.state, old(host.log), quiet, host.log, path);
      }
      r := if removed.Ok? then Ok(()) else Err(Internal);
    }

    method NodeUnpublishVolume(ctx: Ctx, req: Request) returns (r: Result<(), Code>)
      requires host.Alone() ==> Single(host.state)
      modifies host
      ensures !Blank(req.volumeId) && !Blank(req.target) && old(host.Ended(ctx)) ==>
                r == Err(Interrupted(ctx.cause)) && host.state == old(host.state)
      ensures host.base == old(host.state) && host.Recorded() && host.concern == {OfPath(req.target)}
      ensures host.Alone() ==>
                && Lawful(old(host.state), host.state, old(host.log), host.log, req.target)
                && host.state.content == old(host.state).content
                && (host.log == old(host.log) || host.log == old(host.log) + [Remove(req.target, 0)])
                && (r.Ok? ==> !Mounted(host.state, req.target) && req.target !in host.state.paths)
      ensures Blank(req.volumeId) || Blank(req.target) ==> r == Err(BadRequest)
      ensures host.Alone() && !Blank(req.volumeId) && !Blank(req.target)
              && host.Smooth(ctx, old(host.cursor), TearDownSteps(old(host.state), req.target), old(host.clock)) ==>
                r.Ok?
    {
      hide KnowsFree, KnowsType, Sincere, Concerned, Explains;
      host.Begin({OfPath(req.target)});
      if Blank(req.volumeId) || Blank(req.target) {
        return Err(BadRequest);
      }
      r := TearDown(ctx, req.target);
    }

    method NodeUnstageVolume(ctx: Ctx, req: Request) returns (r: Result<(), Code>)
      requires host.Alone() ==> Single(host.state)
      modifies host
      ensures !Blank(req.volumeId) && !Blank(req.staging) && old(host.Ended(ctx)) ==>
                r == Err(Interrupted(ctx.cause)) && host.state == old(host.state)
      ensures host.base == old(host.state) && host.Recorded() && host.concern == {OfPath(req.staging)}
      ensures host.Alone() ==>
                && Lawful(old(host.state), host.state, old(host.log), host.log, req.staging)
                && host.state.content == old(host.state).content
                && (host.log == old(host.log) || host.log == old(host.log) + [Remove(req.staging, 0)])
                && (r.Ok? ==> !Mounted(host.state, req.staging) && req.staging !in host.state.paths)
      ensures Blank(req.volumeId) || Blank(req.staging) ==> r == Err(BadRequest)
      ensures host.Alone() && !Blank(req.volumeId) && !Blank(req.staging)
              && host.Smooth(ctx, old(host.cursor), TearDownSteps(old(host.state), req.staging), old(host.clock)) ==>
                r.Ok?
    {
      hide KnowsFree, KnowsType, Sincere, Concerned, Explains;
      host.Begin({OfPath(req.staging)});
      if Blank(req.volumeId) || Blank(req.staging) {
        return Err(BadRequest);
      }
      r := TearDown(ctx, req.staging);
    }
  }

  // ---------------------------------------------------------------------------------------
  // Runs
  // ---------------------------------------------------------------------------------------

  datatype Call =
    | Stage(ctx: Ctx, req: Request)
    | Publish(ctx: Ctx, req: Request)
    | Unpublish(ctx: Ctx, req: Request)
    | Unstage(ctx: Ctx, req: Request)

  /** The path a call may change. */
  function PathOf(call: Call): string {
    if call.Stage? || call.Unstage? then call.req.staging else call.req.target
  }

  /** What a call may change. */
  ghost function ConcernOf(call: Call): set<Subject> {
    if call.Stage? then StageConcern(call.req) else {OfPath(PathOf(call))}
  }

  ghost predicate IsFormat(e: Event) {
    e.Mkfs?
  }

  /** No mkfs among the events beyond `before`. */
  ghost predicate NoFormatSince(before: seq<Event>, after: seq<Event>) {
    before <= after && forall i :: |before| <= i < |after| ==> !IsFormat(after[i])
  }

  /** Whatever other calls do between its steps, a call keeps the discipline and its account is true. Alone
      it is lawful, and the account explains the state. */
  method Serve(node: NodeService, call: Call) returns (r: Result<(), Code>)
    requires node.host.Alone() ==> Single(node.host.state)
    modifies node.host
    ensures Sincere(node.host.met, node.host.account) && Concerned(node.host.account, ConcernOf(call))
    ensures node.host.Alone() ==>
              && Explains(old(node.host.state), node.host.met, node.host.account, node.host.state)
              && Lawful(old(node.host.state), node.host.state, old(node.host.log), node.host.log, PathOf(call))
              && (IsBlock(call.req) || !call.Stage? ==>
                    && node.host.state.content == old(node.host.state).content
                    && NoFormatSince(old(node.host.log), node.host.log))
              && (r.Ok? && (call.Unpublish? || call.Unstage?) ==>
                    !Mounted(node.host.state, PathOf(call)) && PathOf(call) !in node.host.state.paths)
  {
    match call {
      case Stage(ctx, req) => r := node.NodeStageVolume(ctx, req);
      case Publish(ctx, req) => r := node.NodePublishVolume(ctx, req);
      case Unpublish(ctx, req) => r := node.NodeUnpublishVolume(ctx, req);
      case Unstage(ctx, req) => r := node.NodeUnstageVolume(ctx, req);
    }
  }

  ghost predicate Touches(calls: seq<Call>, path: string) {
    exists i :: 0 <= i < |calls| && PathOf(calls[i]) == path
  }

  ghost predicate LawfulRun(a: State, b: State, before: seq<Event>, after: seq<Event>, calls: seq<Call>) {
    && Single(b) && TypesKept(a, b) && SafeSince(before, after)
    && forall p :: !Touches(calls, p) ==> Stack(b, p) == Stack(a, p) && (p in b.paths <==> p in a.paths)
  }

  lemma RunStart(s: State, log: seq<Event>, calls: seq<Call>)
    requires Single(s)
    ensures LawfulRun(s, s, log, log, calls[..0])
  {
  }

  lemma LawfulRunStep(a: State, b: State, c: State, l0: seq<Event>, l1: seq<Event>, l2: seq<Event>,
                      calls: seq<Call>, n: nat)
    requires n < |calls|
    requires LawfulRun(a, b, l0, l1, calls[..n]) && Lawful(b, c, l1, l2, PathOf(calls[n]))
    ensures LawfulRun(a, c, l0, l2, calls[..n + 1])
  {
    assert forall d :: Held(a, d) != "" ==> Held(b, d) == Held(a, d);
    forall p | !Touches(calls[..n + 1], p)
      ensures Stack(c, p) == Stack(a, p) && (p in c.paths <==> p in a.paths)
    {
      assert PathOf(calls[..n + 1][n]) != p;
      assert forall i :: 0 <= i < n ==> PathOf(calls[..n + 1][i]) == PathOf(calls[..n][i]);
    }
  }

  /** Every run of calls, one after another, with any host step failing or killed: no path ever carries
      two mounts, no formatted device is formatted again, only unmounted paths are removed, and nothing
      but the paths of the calls changes. A run of block-mode calls formats nothing. The accounts of the
      calls, one after another, are an honest run to the final state. */
  method Run(node: NodeService, calls: seq<Call>) returns (results: seq<Result<(), Code>>, ghost run: seq<Item>)
    requires node.host.Alone() && Single(node.host.state)
    modifies node.host
    ensures |results| == |calls|
    ensures LawfulRun(old(node.host.state), node.host.state, old(node.host.log), node.host.log, calls)
    ensures (forall i :: 0 <= i < |calls| ==> IsBlock(calls[i].req)) ==>
              && node.host.state.content == old(node.host.state).content
              && NoFormatSince(old(node.host.log), node.host.log)
    ensures Honest(old(node.host.state), run) && After(old(node.host.state), run) == node.host.state
  {
    hide Lawful, LawfulRun, IsFormat, Honest, After, Sincere, Explains;
    results, run := [], [];
    RunStart(node.host.state, node.host.log, calls);
    NothingHonest(node.host.state);
    for n := 0 to |calls|
      invariant |results| == n
      invariant LawfulRun(old(node.host.state), node.host.state, old(node.host.log), node.host.log, calls[..n])
      invariant (forall i :: 0 <= i < n ==> IsBlock(calls[i].req)) ==>
                  && node.host.state.content == old(node.host.state).content
                  && NoFormatSince(old(node.host.log), node.host.log)
      invariant Single(node.host.state)
      invariant Honest(old(node.host.state), run) && After(old(node.host.state), run) == node.host.state
      invariant forall i :: 0 <= i < |run| ==> run[i].call < n
    {
      ghost var before, log := node.host.state, node.host.log;
      var r := Serve(node, calls[n]);
      results := results + [r];
      LawfulFrame(before, node.host.state, log, node.host.log, PathOf(calls[n]));
      LawfulRunStep(old(node.host.state), before, node.host.state, old(node.host.log), log, node.host.log, calls, n);
      HonestGrows(old(node.host.state), run, n, node.host.met, node.host.account, node.host.state);
      run := run + Tagged(n, node.host.account);
    }
    assert calls[..|calls|] == calls;
  }

  ghost predicate Gone(s: State, path: string) {
    !Mounted(s, path) && path !in s.paths
  }

  ghost predicate SameTable(a: State, b: State) {
    forall p :: Stack(b, p) == Stack(a, p) && (p in b.paths <==> p in a.paths)
  }

  /** Repeated calls about one path. When the last is a teardown that succeeds, the path is gone. */
  method Repeat(node: NodeService, calls: seq<Call>, path: string) returns (last: Result<(), Code>)
    requires node.host.Alone() && Single(node.host.state) && |calls| > 0
    requires forall i :: 0 <= i < |calls| ==> PathOf(calls[i]) == path
    modifies node.host
    ensures Lawful(old(node.host.state), node.host.state, old(node.host.log), node.host.log, path)
    ensures last.Ok? && (calls[|calls| - 1].Unpublish? || calls[|calls| - 1].Unstage?) ==> Gone(node.host.state, path)
  {
    last := Ok(());
    for n := 0 to |calls|
      invariant Lawful(old(node.host.state), node.host.state, old(node.host.log), node.host.log, path)
      invariant n > 0 && last.Ok? && (calls[n - 1].Unpublish? || calls[n - 1].Unstage?) ==> Gone(node.host.state, path)
    {
      ghost var before, log := node.host.state, node.host.log;
      last := Serve(node, calls[n]);
      LawfulThen(old(node.host.state), before, node.host.state, old(node.host.log), log, node.host.log, path);
    }
  }

  /** Repeated publications of one request to a free target: whatever failed in between, each that
      succeeds leaves the same single mount with the same options. */
  method PublishAll(node: NodeService, req: Request, ctxs: seq<Ctx>)
    returns (results: seq<Result<(), Code>>, ghost seen: seq<seq<Entry>>)
    requires node.host.Alone() && Single(node.host.state) && !Mounted(node.host.state, req.target)
    modifies node.host
    ensures Lawful(old(node.host.state), node.host.state, old(node.host.log), node.host.log, req.target)
    ensures |results| == |ctxs| && |seen| == |ctxs|
    ensures forall i :: 0 <= i < |ctxs| && results[i].Ok? ==>
              seen[i] == [node.host.Wanted(Source(req), "", OptionsOfRequest(req))]
    ensures |seen| > 0 ==> seen[|seen| - 1] == Stack(node.host.state, req.target)
  {
    results, seen := [], [];
    for n := 0 to |ctxs|
      invariant Lawful(old(node.host.state), node.host.state, old(node.host.log), node.host.log, req.target)
      invariant BoundFrom(node.host.state, req.target, Source(req), "")
      invariant |results| == n && |seen| == n
      invariant forall i :: 0 <= i < n && results[i].Ok? ==>
                  seen[i] == [node.host.Wanted(Source(req), "", OptionsOfRequest(req))]
      invariant n > 0 ==> seen[n - 1] == Stack(node.host.state, req.target)
    {
      ghost var before, log := node.host.state, node.host.log;
      var r := node.NodePublishVolume(ctxs[n], req);
      LawfulThen(old(node.host.state), before, node.host.state, old(node.host.log), log, node.host.log, req.target);
      results, seen := results + [r], seen + [Stack(node.host.state, req.target)];
    }
  }

  lemma Restored(a: State, b: State, c: State, d: State, e: State, staging: string, target: string)
    requires OnlyAt(a, b, {staging}) && OnlyAt(b, c, {target}) && OnlyAt(c, d, {target}) && OnlyAt(d, e, {staging})
    requires Gone(a, staging) && Gone(a, target) && Gone(d, target) && Gone(e, staging)
    ensures SameTable(a, e)
  {
    forall p ensures Stack(e, p) == Stack(a, p) && (p in e.paths <==> p in a.paths) {
      if p != staging && p != target {
        assert Stack(b, p) == Stack(a, p) && Stack(c, p) == Stack(b, p) && Stack(d, p) == Stack(c, p);
      }
    }
  }

  /** The life of a volume on a node: stagings, publications, unpublications, unstagings, each
      repeated at will and free to fail. Once an unpublication and then an unstaging end the run with
      success, mount table and paths are as they were. */
  method Lifecycle(node: NodeService, req: Request, stages: seq<Call>, publishes: seq<Ctx>,
                   unpublishes: seq<Call>, unstages: seq<Call>)
    returns (published: seq<Result<(), Code>>, unpublished: Result<(), Code>, unstaged: Result<(), Code>,
             ghost seen: seq<seq<Entry>>)
    requires node.host.Alone() && Single(node.host.state)
    requires Gone(node.host.state, req.staging) && Gone(node.host.state, req.target)
    requires req.staging != req.target
    requires |stages| > 0 && |unpublishes| > 0 && |unstages| > 0
    requires forall i :: 0 <= i < |stages| ==> stages[i].Stage? && stages[i].req == req
    requires forall i :: 0 <= i < |unpublishes| ==> unpublishes[i].Unpublish? && unpublishes[i].req == req
    requires forall i :: 0 <= i < |unstages| ==> unstages[i].Unstage? && unstages[i].req == req
    modifies node.host
    ensures unpublished.Ok? && unstaged.Ok? ==> SameTable(old(node.host.state), node.host.state)
    ensures |published| == |publishes| && |seen| == |publishes|
    ensures forall i :: 0 <= i < |publishes| && published[i].Ok? ==>
              seen[i] == [node.host.Wanted(Source(req), "", OptionsOfRequest(req))]
  {
    ghost var s0 := node.host.state;
    var staged := Repeat(node, stages, req.staging);
    ghost var s1 := node.host.state;
    published, seen := PublishAll(node, req, publishes);
    ghost var s2 := node.host.state;
    unpublished := Repeat(node, unpublishes, req.target);
    ghost var s3 := node.host.state;
    unstaged := Repeat(node, unstages, req.staging);
    if unpublished.Ok? && unstaged.Ok? {
      Restored(s0, s1, s2, s3, node.host.state, req.staging, req.target);
    }
  }
}
