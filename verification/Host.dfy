/** The mount engine over a host that may fail at any step: internal/mount/mount.go. */
module Host {
  import opened Errors
  import opened MountOptions
  import opened HostState

  const BLKID_NO_FILESYSTEM := 2
  const FSCK_ERRORS_UNCORRECTED := 4
  const BIND_ROLLBACK_TIMEOUT: nat := 30
  const DEFAULT_FILESYSTEM_TYPE: string := "ext4"

  /** One path's mounts change, to at most one; nothing else does. */
  ghost predicate MountStep(a: State, b: State, target: string) {
    && b.paths == a.paths && b.content == a.content && |Stack(b, target)| <= 1
    && forall p :: p != target ==> Stack(b, p) == Stack(a, p)
  }

  /** Every mount at `target` is one of `source`: none yet, or one that may be half done. */
  ghost predicate BoundFrom(s: State, target: string, source: string, fsType: string) {
    forall e :: e in Stack(s, target) ==> e.source == source && e.fsType == fsType
  }

  /** What a remount does to the stack at its target. */
  ghost predicate Remounted(before: seq<Entry>, options: Opts, after: seq<Entry>, ok: bool) {
    && (ok ==> |before| > 0)
    && ((after == before && !ok) || (|before| == 1 && after == [before[0].(opts := options)]))
  }

  lemma BindStep(s: State, source: string, target: string, fsType: string, options: Opts)
    requires !Mounted(s, target) && "remount" !in options
    ensures var t := AfterMount(s, source, target, fsType, options);
      MountStep(s, t, target) && Stack(t, target) == [Entry(source, fsType, options)]
  {
  }

  lemma RemountStep(s: State, source: string, target: string, fsType: string, options: Opts)
    requires |Stack(s, target)| <= 1 && "remount" in options
    ensures var t := AfterMount(s, source, target, fsType, options);
      && MountStep(s, t, target)
      && (Mounted(s, target) ==> Stack(t, target) == [Stack(s, target)[0].(opts := options)])
      && (!Mounted(s, target) ==> t == s)
  {
  }

  lemma UmountStep(s: State, target: string)
    requires |Stack(s, target)| <= 1
    ensures var t := AfterUmount(s, target); MountStep(s, t, target) && !Mounted(t, target)
  {
  }

  /** What one host step does: success, or a failure that may still have taken effect, with its exit
      status, whether the output says "not mounted", and the time it took. Before it, other calls may
      have left the host in any state. */
  datatype Outcome = Outcome(
    ok: bool, applied: bool, status: int, notMounted: bool, took: nat, others: Option<State>)

  datatype HostError =
    | InvalidInput | CtxEnded(cause: Cause) | UnsupportedFilesystem | MountFailed | UnmountFailed
    | FilesystemMismatch | FormatFailed | DetectionFailed | OSFailed

  /** Started commands that matter, with what they met: the type a device held, the depth of the
      mount stack at a path. */
  datatype Event =
    | Mkfs(device: string, held: string)
    | Fsck(device: string, held: string)
    | Push(path: string, depth: nat)
    | Remove(path: string, depth: nat)

  /** Never format a formatted device, never check a blank one, never stack a second mount, never
      remove a mounted path. */
  predicate Safe(e: Event) {
    match e
    case Mkfs(_, held) => held == ""
    case Fsck(_, held) => held != ""
    case Push(_, depth) => depth == 0
    case Remove(_, depth) => depth == 0
  }

  function BindFlavor(options: Opts): (r: string)
    ensures r == "" <==> "bind" !in options && "rbind" !in options
    ensures r != "" ==> r in options && (r == "bind" || r == "rbind")
  {
    if options == [] then ""
    else if options[0] == "bind" || options[0] == "rbind" then options[0]
    else
      assert options == [options[0]] + options[1..];
      BindFlavor(options[1..])
  }

  /** The options of a bind before its remount: the flavour, and _netdev, which only user space reads and
      the bind would lose. */
  function BindOptions(options: Opts): Opts {
    if "_netdev" in options then [BindFlavor(options)] + ["_netdev"] else [BindFlavor(options)]
  }

  predicate IsSupported(fsType: string) {
    fsType == "ext4" || fsType == "xfs"
  }

  function Lower(c: char): char {
    if 'A' <= c <= 'Z' then ((c as int) + 32) as char else c
  }

  /** The requested type, defaulted and lower-cased. */
  function FsType(fsType: string): string {
    if fsType == "" then DEFAULT_FILESYSTEM_TYPE else seq(|fsType|, i requires 0 <= i < |fsType| => Lower(fsType[i]))
  }

  /** A device that can be mounted as requested: right type, or blank and writable. */
  predicate Feasible(held: string, fsType: string, options: Opts) {
    held == fsType || (held == "" && "ro" !in options)
  }

  /** mkfs for a blank device and fsck for a formatted one, neither when mounting read-only. */
  function Preparation(held: string, source: string, fsType: string, options: Opts): seq<Event> {
    if "ro" in options then []
    else if held == "" then [Mkfs(source, held)]
    else if held == fsType then [Fsck(source, held)]
    else []
  }

  /** The commands a format-and-mount starts, in order, for a device and target in state `s`. */
  function Plan(s: State, source: string, target: string, fsType: string, options: Opts): seq<Event> {
    var held := Held(s, source);
    if Mounted(s, target) then []
    else
      Preparation(held, source, fsType, options)
      + (if Feasible(held, fsType, options) then [Push(target, 0)] else [])
  }

  /** How many commands prepare a device that can be mounted as requested. */
  function PreparationSteps(held: string, fsType: string, options: Opts): nat {
    if Feasible(held, fsType, options) && "ro" !in options then 1 else 0
  }

  /** How many host steps a mount on a free target takes when all goes well. */
  function PerformSteps(options: Opts): nat {
    if BindFlavor(options) != "" then 3 else 1
  }

  /** The options make a mount on a free target: a bind, or anything but a remount. */
  predicate Stackable(options: Opts) {
    BindFlavor(options) != "" || "remount" !in options
  }

  /** How a staging answers when every step it needs goes well. */
  ghost predicate StagingAnswer(mounted: bool, held: string, fsType: string, options: Opts, r: Result<(), HostError>) {
    if mounted then r.Ok?
    else if held != "" && held != fsType then r == Err(FilesystemMismatch)
    else if held == "" && "ro" in options then r == Err(MountFailed)
    else r.Ok? <==> Stackable(options)
  }

  /** A plan does not depend on what paths exist, and a mounted target needs none. */
  lemma PlanSame(a: State, b: State, source: string, target: string, fsType: string, options: Opts)
    requires b.mounts == a.mounts && b.content == a.content
    ensures Plan(b, source, target, fsType, options) == Plan(a, source, target, fsType, options)
    ensures Mounted(a, target) ==> Plan(a, source, target, fsType, options) == []
  {
  }

  lemma PlanWhenFeasible(s: State, source: string, target: string, fsType: string, options: Opts)
    requires Feasible(Held(s, source), fsType, options) && !Mounted(s, target)
    ensures Plan(s, source, target, fsType, options)
         == (if "ro" in options then [] else if Held(s, source) == "" then [Mkfs(source, "")]
             else [Fsck(source, fsType)])
          + [Push(target, 0)]
  {
  }

  class Host {
    const outcomes: seq<Outcome>
    const sourceFlags: map<string, int>
    var state: State
    var clock: nat
    var cursor: nat
    ghost var log: seq<Event>
    ghost var base: State
    ghost var met: seq<State>
    ghost var account: seq<Action>
    ghost var concern: set<Subject>

    constructor (state: State, outcomes: seq<Outcome>, sourceFlags: map<string, int>)
      ensures this.state == state && this.outcomes == outcomes && this.sourceFlags == sourceFlags
      ensures clock == 0 && cursor == 0 && log == []
    {
      this.state, this.outcomes, this.sourceFlags := state, outcomes, sourceFlags;
      clock, cursor, log := 0, 0, [];
      base, met, account, concern := state, [], [], {};
    }

    /** No other call changes the host in between. */
    ghost predicate Alone() {
      forall k :: 0 <= k < |outcomes| ==> outcomes[k].others.None?
    }

    /** The account of the call in progress is disciplined and true and changes only what the call is
        about, whatever other calls do in between, and when there are none it explains the state. */
    ghost predicate Recorded()
      reads this`base, this`met, this`account, this`state, this`concern
    {
      && Sincere(met, account) && Concerned(account, concern)
      && (Alone() ==> Explains(base, met, account, state))
    }

    /** A call begins its account and says what it is about. */
    ghost method Begin(concern: set<Subject>)
      modifies this`base, this`met, this`account, this`concern
      ensures base == state && account == [] && this.concern == concern && Recorded()
    {
      base, met, account, this.concern := state, [], [], concern;
    }

    /** What the call was told goes on record. */
    ghost method Note(a: Action)
      requires Recorded() && Permitted(account, a) && Fits(state, a) && !IsEffect(a)
      modifies this`met, this`account
      ensures account == old(account) + [a] && met == old(met) + [state] && Recorded()
      ensures forall p :: KnowsFree(account, p) == FreeAfter(old(KnowsFree(account, p)), a, p)
      ensures forall d :: KnowsType(account, d) == TypeAfter(old(KnowsType(account, d)), a, d)
    {
      RecordedStep(base, met, account, state, a);
      Learned(account, a);
      met, account := met + [state], account + [a];
    }

    /** An effect happens and goes on record. */
    method Do(a: Action)
      requires Recorded() && Permitted(account, a) && Fits(state, a) && SubjectOf(a) in concern
      modifies this`state, this`met, this`account
      ensures state == Apply(old(state), a) && account == old(account) + [a] && met == old(met) + [old(state)]
      ensures Recorded()
      ensures forall p :: KnowsFree(account, p) == FreeAfter(old(KnowsFree(account, p)), a, p)
      ensures forall d :: KnowsType(account, d) == TypeAfter(old(KnowsType(account, d)), a, d)
    {
      RecordedStep(base, met, account, state, a);
      Learned(account, a);
      met, account := met + [state], account + [a];
      state := Apply(state, a);
    }

    function OutcomeAt(k: nat): Outcome {
      if k < |outcomes| then outcomes[k] else Outcome(true, true, 0, false, 0, None)
    }

    function FlagsOf(source: string): int {
      if source in sourceFlags then sourceFlags[source] else 0
    }

    /** The option set a bind ends up with. */
    function FullOptions(source: string, options: Opts): Opts {
      RemountOptions(SourceOptions(FlagsOf(source)), options)
    }

    predicate Ended(ctx: Ctx)
      reads this`clock
    {
      clock >= ctx.endsAt
    }

    /** Some host step from `start` up to now failed. */
    ghost predicate AnyFailed(start: nat)
      reads this`cursor
    {
      exists k :: start <= k < cursor && !OutcomeAt(k).ok
    }

    /** Some host step from `start` up to now took `d` or longer. */
    ghost predicate AnySlow(start: nat, d: int)
      reads this`cursor
    {
      exists k :: start <= k < cursor && OutcomeAt(k).took >= d
    }

    /** What `n` steps from step `k` on take. */
    function TimeOf(k: nat, n: nat): nat
      decreases n
    {
      if n == 0 then 0 else OutcomeAt(k).took + TimeOf(k + 1, n - 1)
    }

    /** The `n` steps from step `k` on, begun at time `t`, all succeed, and the context outlives them. */
    ghost predicate Smooth(ctx: Ctx, k: nat, n: nat, t: nat)
      decreases n
    {
      t < ctx.endsAt && (n > 0 ==> OutcomeAt(k).ok && Smooth(ctx, k + 1, n - 1, t + OutcomeAt(k).took))
    }

    /** The call has made `n` steps since step `k` and time `t`. */
    ghost predicate Advanced(k: nat, n: nat, t: nat)
      reads this`cursor, this`clock
    {
      cursor == k + n && clock == t + TimeOf(k, n)
    }

    lemma {:induction false} SmoothSplit(ctx: Ctx, k: nat, a: nat, b: nat, t: nat)
      ensures Smooth(ctx, k, a + b, t) <==> Smooth(ctx, k, a, t) && Smooth(ctx, k + a, b, t + TimeOf(k, a))
      ensures TimeOf(k, a + b) == TimeOf(k, a) + TimeOf(k + a, b)
      decreases a
    {
      if a > 0 {
        SmoothSplit(ctx, k + 1, a - 1, b, t + OutcomeAt(k).took);
      }
    }

    lemma FewSteps(ctx: Ctx, k: nat, t: nat)
      ensures TimeOf(k, 1) == OutcomeAt(k).took && TimeOf(k, 2) == OutcomeAt(k).took + OutcomeAt(k + 1).took
      ensures Smooth(ctx, k, 1, t) <==> t < ctx.endsAt && OutcomeAt(k).ok && t + OutcomeAt(k).took < ctx.endsAt
      ensures Smooth(ctx, k, 2, t) <==>
                && t < ctx.endsAt && OutcomeAt(k).ok && t + OutcomeAt(k).took < ctx.endsAt
                && OutcomeAt(k + 1).ok && t + TimeOf(k, 2) < ctx.endsAt
    {
      assert Smooth(ctx, k + 1, 1, t + OutcomeAt(k).took) ==> Smooth(ctx, k + 2, 0, t + TimeOf(k, 2));
    }

    /** blkid at step `k` answers for a device that holds `held`; status 2 means a blank one. */
    predicate Detects(k: nat, held: string) {
      OutcomeAt(k).ok || (OutcomeAt(k).status == 2 && held == "")
    }

    /** Detection at step `k` answers, and the `n` steps after it go well. */
    ghost predicate DetectsThen(ctx: Ctx, k: nat, n: nat, t: nat, held: string) {
      t < ctx.endsAt && Detects(k, held) && Smooth(ctx, k + 1, n, t + OutcomeAt(k).took)
    }

    lemma DetectsSplit(ctx: Ctx, k: nat, a: nat, b: nat, t: nat, held: string)
      ensures DetectsThen(ctx, k, a + b, t, held) ==>
                DetectsThen(ctx, k, a, t, held) && Smooth(ctx, k + (1 + a), b, t + TimeOf(k, 1 + a))
    {
      SmoothSplit(ctx, k + 1, a, b, t + OutcomeAt(k).took);
    }

    /** How many steps look at a staging target, and make it when it is missing. */
    function LookSteps(s: State, target: string): nat {
      if target in s.paths then 2 else 3
    }

    /** Every step that a staging begun in state `s` needs goes well. */
    ghost predicate StagesSmoothly(ctx: Ctx, s: State, source: string, target: string, fsType: string,
                                   options: Opts, k: nat, t: nat) {
      var look, held := LookSteps(s, target), Held(s, source);
      && Smooth(ctx, k, look, t)
      && (!Mounted(s, target) ==>
            DetectsThen(ctx, k + look, PreparationSteps(held, fsType, options) + PerformSteps(options),
                        t + TimeOf(k, look), held))
    }

    predicate Uncorrected(k: nat) {
      !OutcomeAt(k).ok && OutcomeAt(k).status == 4
    }

    /** In a staging begun in state `s` all goes well until fsck finds errors that it cannot correct. */
    ghost predicate FsckFails(ctx: Ctx, s: State, source: string, target: string, k: nat, t: nat) {
      var look, held := LookSteps(s, target), Held(s, source);
      && !Mounted(s, target) && held != ""
      && Smooth(ctx, k, look, t) && DetectsThen(ctx, k + look, 0, t + TimeOf(k, look), held)
      && Uncorrected(k + look + 1)
    }

    /** How many steps a mount takes when all goes well. */
    function MountSteps(s: State, target: string, options: Opts): nat {
      1 + (if !Mounted(s, target) then PerformSteps(options) else if BindFlavor(options) != "" then 2 else 0)
    }

    function UnmountSteps(s: State, target: string): nat {
      if Mounted(s, target) then 2 else 1
    }

    /** Failed commands have no effect. */
    ghost predicate Clean() {
      forall k :: 0 <= k < |outcomes| && !outcomes[k].ok ==> !outcomes[k].applied
    }

    /** One step of the host, after whatever other calls did. */
    method Next() returns (o: Outcome)
      requires Recorded()
      modifies this`clock, this`cursor, this`state
      ensures Recorded()
      ensures state == if o.others.Some? then o.others.value else old(state)
      ensures Alone() ==> state == old(state)
      ensures o == OutcomeAt(old(cursor)) && cursor == old(cursor) + 1 && clock == old(clock) + o.took
      ensures !o.ok ==> AnyFailed(old(cursor))
      ensures Clean() && !o.ok ==> !o.applied
    {
      o := OutcomeAt(cursor);
      if o.others.Some? {
        state := o.others.value;
      }
      ghost var k := cursor;
      cursor := cursor + 1;
      clock := clock + o.took;
      assert !o.ok ==> !OutcomeAt(k).ok;
    }

    /** A host command under a context: one that has ended starts nothing. */
    method Command(ctx: Ctx) returns (o: Outcome)
      requires Recorded()
      modifies this`clock, this`cursor, this`state
      ensures Recorded()
      ensures Alone() || old(Ended(ctx)) ==> state == old(state)
      ensures cursor >= old(cursor) && clock >= old(clock)
      ensures old(Ended(ctx)) ==> cursor == old(cursor) && clock == old(clock)
      ensures !old(Ended(ctx)) ==>
                o == OutcomeAt(old(cursor)) && cursor == old(cursor) + 1 && clock == old(clock) + o.took
      ensures old(Ended(ctx)) ==> !o.ok && !o.applied
      ensures !o.ok ==> old(Ended(ctx)) || AnyFailed(old(cursor))
      ensures Clean() && !o.ok ==> !o.applied
    {
      if Ended(ctx) {
        return Outcome(false, false, -1, false, 0, None);
      }
      o := Next();
    }

    /** The mount table is read faithfully or not at all; a missing path is not mounted, a corrupted
        mount counts as mounted. */
    method IsMountPoint(ctx: Ctx, target: string) returns (r: Result<bool, HostError>)
      requires Recorded()
      modifies this`clock, this`cursor, this`state, this`met, this`account
      ensures Recorded() && (r.Ok? && !r.value ==> KnowsFree(account, target))
      ensures cursor >= old(cursor) && clock >= old(clock)
      ensures r.Ok? ==> cursor == old(cursor) + 1 && clock == old(clock) + OutcomeAt(old(cursor)).took
      ensures r.Ok? ==> r.value == Mounted(state, target)
      ensures Alone() || old(Ended(ctx)) ==> state == old(state)
      ensures target != "" && old(Ended(ctx)) ==> r == Err(CtxEnded(ctx.cause)) && cursor == old(cursor)
      ensures r.Err? ==>
                r.error == if target == "" then InvalidInput
                           else if old(Ended(ctx)) then CtxEnded(ctx.cause) else OSFailed
      ensures r.Err? ==> target == "" || old(Ended(ctx)) || AnyFailed(old(cursor))
      ensures r.Ok? <==> target != "" && !old(Ended(ctx)) && OutcomeAt(old(cursor)).ok
    {
      hide KnowsFree, KnowsType, Sincere, Concerned, Explains;
      if target == "" {
        return Err(InvalidInput);
      }
      if Ended(ctx) {
        return Err(CtxEnded(ctx.cause));
      }
      var o := Next();
      if !o.ok {
        return Err(OSFailed);
      }
      Note(SawMount(target, Mounted(state, target)));
      return Ok(Mounted(state, target));
    }

    /** Detection is faithful when it answers: blkid reports the type, or its "nothing found" status
        only for an unformatted device; lsblk is the fallback. */
    method GetFilesystemType(ctx: Ctx, source: string) returns (r: Result<string, HostError>)
      requires Recorded()
      modifies this`clock, this`cursor, this`state, this`met, this`account
      ensures Recorded() && FreeKept(old(account), account)
      ensures r.Ok? ==> KnowsType(account, source) == Some(r.value)
      ensures cursor >= old(cursor) && clock >= old(clock)
      ensures r == Err(DetectionFailed) ==> !OutcomeAt(old(cursor)).ok && !OutcomeAt(old(cursor) + 1).ok
      ensures r.Ok? ==> r.value == Held(state, source)
      ensures Alone() ==> state == old(state)
      ensures r.Err? ==>
                r.error == if source == "" then InvalidInput
                           else if Ended(ctx) then CtxEnded(ctx.cause) else DetectionFailed
      ensures Alone() && source != "" && !old(Ended(ctx)) && Detects(old(cursor), old(Held(state, source))) ==>
                r.Ok? && Advanced(old(cursor), 1, old(clock))
    {
      hide KnowsFree, KnowsType, Sincere, Concerned, Explains;
      if source == "" {
        return Err(InvalidInput);
      }
      var blkid := Command(ctx);
      var held := Held(state, source);
      if blkid.ok {
        Note(SawType(source, held));
        return Ok(held);
      }
      if blkid.status == BLKID_NO_FILESYSTEM && held == "" {
        Note(SawType(source, held));
        return Ok("");
      }
      if Ended(ctx) {
        return Err(CtxEnded(ctx.cause));
      }
      var lsblk := Command(ctx);
      held := Held(state, source);
      if lsblk.ok {
        Note(SawType(source, held));
        return Ok(held);
      }
      if Ended(ctx) {
        return Err(CtxEnded(ctx.cause));
      }
      return Err(DetectionFailed);
    }

    method Format(ctx: Ctx, source: string, fsType: string) returns (r: Result<(), HostError>)
      requires Recorded() && KnowsType(account, source) == Some("")
      requires OfDevice(source) in concern
      modifies this`clock, this`cursor, this`state, this`log, this`met, this`account
      ensures Recorded() && FreeKept(old(account), account)
      ensures cursor >= old(cursor) && clock >= old(clock)
      ensures !old(Ended(ctx)) ==> (r.Ok? <==> IsSupported(fsType) && OutcomeAt(old(cursor)).ok)
      ensures Alone() ==>
                && (log == old(log) || log == old(log) + [Mkfs(source, Held(old(state), source))])
                && (state == old(state) || (log != old(log) && state == AfterMkfs(old(state), source, fsType)))
                && (r.Ok? ==> log != old(log) && state == AfterMkfs(old(state), source, fsType) && IsSupported(fsType))
      ensures r.Err? && IsSupported(fsType) ==> r == Err(if Ended(ctx) then CtxEnded(ctx.cause) else FormatFailed)
      ensures IsSupported(fsType) && !old(Ended(ctx)) ==> Advanced(old(cursor), 1, old(clock))
    {
      hide KnowsFree, KnowsType, Sincere, Concerned, Explains;
      if fsType != "ext4" && fsType != "xfs" {
        return Err(UnsupportedFilesystem);
      }
      var started := !Ended(ctx);
      var o := Command(ctx);
      if started {
        log := log + [Mkfs(source, Held(state, source))];
        Do(DidMkfs(source, fsType, o.ok || o.applied));
      }
      if !o.ok {
        return Err(if Ended(ctx) then CtxEnded(ctx.cause) else FormatFailed);
      }
      return Ok(());
    }

    /** fsck may report whatever it likes short of errors it left uncorrected. */
    method CheckFilesystem(ctx: Ctx, source: string) returns (r: Result<(), HostError>)
      requires Recorded() && KnowsType(account, source).Some? && KnowsType(account, source) != Some("")
      modifies this`clock, this`cursor, this`state, this`log, this`met, this`account
      ensures Recorded() && FreeKept(old(account), account)
      ensures cursor >= old(cursor) && clock >= old(clock)
      ensures !old(Ended(ctx)) ==>
                var o := OutcomeAt(old(cursor));
                r.Ok? <==> o.ok || (!Ended(ctx) && o.status != FSCK_ERRORS_UNCORRECTED)
      ensures Alone() ==>
                && state == old(state)
                && (log == old(log) || log == old(log) + [Fsck(source, Held(state, source))])
                && (r.Ok? ==> log != old(log))
      ensures r.Err? ==> r == Err(if Ended(ctx) then CtxEnded(ctx.cause) else MountFailed)
      ensures !old(Ended(ctx)) ==> Advanced(old(cursor), 1, old(clock))
    {
      hide KnowsFree, KnowsType, Sincere, Concerned, Explains;
      var started := !Ended(ctx);
      var o := Command(ctx);
      if started {
        log := log + [Fsck(source, Held(state, source))];
        Note(DidFsck(source));
      }
      if !o.ok {
        if Ended(ctx) {
          return Err(CtxEnded(ctx.cause));
        }
        if o.status == FSCK_ERRORS_UNCORRECTED {
          return Err(MountFailed);
        }
      }
      return Ok(());
    }

    method RunMount(ctx: Ctx, source: string, target: string, fsType: string, options: Opts)
      returns (r: Result<(), HostError>)
      requires Recorded() && ("remount" in options || KnowsFree(account, target))
      requires OfPath(target) in concern
      modifies this`clock, this`cursor, this`state, this`log, this`met, this`account
      ensures Recorded()
      ensures if old(Ended(ctx)) then cursor == old(cursor) && clock == old(clock)
              else cursor == old(cursor) + 1 && clock == old(clock) + OutcomeAt(old(cursor)).took
      ensures "remount" in options ==> log == old(log)
      ensures Alone() ==>
                && (r.Ok? <==>
                      && !old(Ended(ctx)) && OutcomeAt(old(cursor)).ok
                      && ("remount" in options ==> Mounted(old(state), target)))
                && (var after := AfterMount(old(state), source, target, fsType, options);
                    && (state == old(state) || (state == after && (log != old(log) || "remount" in options)))
                    && (r.Ok? ==>
                          state == after && Mounted(state, target) && (log != old(log) || "remount" in options))
                    && (r.Err? && Clean() ==> state == old(state)))
                && (log == old(log)
                      || ("remount" !in options && log == old(log) + [Push(target, |Stack(old(state), target)|)]))
      ensures r.Err? ==> r == Err(if Ended(ctx) then CtxEnded(ctx.cause) else MountFailed)
    {
      hide KnowsFree, KnowsType, Sincere, Concerned, Explains;
      var started := !Ended(ctx);
      var o := Command(ctx);
      if started && "remount" !in options {
        log := log + [Push(target, |Stack(state, target)|)];
      }
      var nothingToRemount := "remount" in options && !Mounted(state, target);
      if started {
        Do(DidMount(source, target, fsType, options, o.ok || o.applied));
      }
      if !o.ok || nothingToRemount {
        return Err(if Ended(ctx) then CtxEnded(ctx.cause) else MountFailed);
      }
      return Ok(());
    }

    /** The options of the mount at `target` become the full set, or nothing changes. */
    method RemountBind(ctx: Ctx, source: string, target: string, fsType: string, options: Opts)
      returns (r: Result<(), HostError>)
      requires Recorded() && (Alone() ==> |Stack(state, target)| <= 1)
      requires OfPath(target) in concern
      modifies this`clock, this`cursor, this`state, this`log, this`met, this`account
      ensures Recorded() && log == old(log)
      ensures r.Err? ==> cursor == RemountEnd(ctx, old(cursor), old(clock))
      ensures cursor >= old(cursor) && clock >= old(clock)
      ensures Alone() ==>
                && MountStep(old(state), state, target)
                && Remounted(Stack(old(state), target), FullOptions(source, options), Stack(state, target), r.Ok?)
                && (r.Err? && Clean() ==> state == old(state))
      ensures r.Err? ==>
                r.error == if OutcomeAt(old(cursor)).ok && Ended(ctx) then CtxEnded(ctx.cause) else MountFailed
      ensures Alone() && old(Mounted(state, target)) && Smooth(ctx, old(cursor), 2, old(clock)) ==>
                r.Ok? && Advanced(old(cursor), 2, old(clock))
      ensures Alone() && old(Mounted(state, target)) && r == Err(MountFailed) ==>
                !OutcomeAt(old(cursor)).ok || !OutcomeAt(old(cursor) + 1).ok
    {
      hide KnowsFree, KnowsType, Sincere, Concerned, Explains;
      var o := Next();
      if !o.ok {
        return Err(MountFailed);
      }
      var sourceOptions := SourceMountOptions(FlagsOf(source));
      var remountOptions := BuildRemountOptions(sourceOptions, options);
      r := RunMount(ctx, source, target, fsType, remountOptions);
      if Alone() {
        RemountStep(old(state), source, target, fsType, remountOptions);
      }
    }

    method Unmount(ctx: Ctx, target: string) returns (r: Result<(), HostError>)
      requires Recorded()
      requires OfPath(target) in concern
      modifies this`clock, this`cursor, this`state, this`met, this`account
      ensures Recorded() && (r.Ok? ==> KnowsFree(account, target))
      ensures cursor >= old(cursor) && clock >= old(clock)
      ensures target != "" && old(Ended(ctx)) ==> r == Err(CtxEnded(ctx.cause)) && state == old(state)
      ensures Alone() ==>
                && (r == Err(UnmountFailed) ==>
                      cursor > 0 && (Mounted(state, target) || !OutcomeAt(cursor - 1).notMounted))
                && (|Stack(old(state), target)| <= 1 ==> MountStep(old(state), state, target))
                && (|Stack(old(state), target)| <= 1 ==> state == old(state) || !Mounted(state, target))
                && (|Stack(old(state), target)| <= 1 && r.Ok? ==> !Mounted(state, target))
      ensures r.Err? ==>
                || target == "" || old(Ended(ctx))
                || AnyFailed(old(cursor)) || AnySlow(old(cursor), ctx.endsAt - old(clock))
      ensures Alone() && target != "" && Smooth(ctx, old(cursor), UnmountSteps(old(state), target), old(clock)) ==>
                r.Ok? && Advanced(old(cursor), UnmountSteps(old(state), target), old(clock))
      ensures r.Err? ==> r.error in {InvalidInput, CtxEnded(ctx.cause), OSFailed, UnmountFailed}
      ensures r == Err(CtxEnded(ctx.cause)) ==> Ended(ctx)
    {
      hide KnowsFree, KnowsType, Sincere, Concerned, Explains;
      if target == "" {
        return Err(InvalidInput);
      }
      if Ended(ctx) {
        return Err(CtxEnded(ctx.cause));
      }
      FewSteps(ctx, cursor, clock);
      ghost var start := cursor;
      var mounted := IsMountPoint(ctx, target);
      if mounted.Err? {
        return Err(mounted.error);
      }
      if !mounted.value {
        return Ok(());
      }
      assert Ended(ctx) ==> OutcomeAt(start).took >= ctx.endsAt - old(clock);
      var started := !Ended(ctx);
      var o := Command(ctx);
      var applied := o.ok || o.applied;
      if |Stack(old(state), target)| <= 1 {
        UmountStep(old(state), target);
      }
      var after := if applied then AfterUmount(state, target) else state;
      var told := o.ok || (!Ended(ctx) && o.notMounted && !Mounted(after, target));
      if started {
        Do(DidUmount(target, told, applied));
      }
      if !o.ok {
        if Ended(ctx) {
          return Err(CtxEnded(ctx.cause));
        }
        if told {
          return Ok(());
        }
        return Err(UnmountFailed);
      }
      return Ok(());
    }

    /** rollBackBind: its context is detached from the caller's and has its own bound. */
    method RollBackBind(target: string) returns (r: Result<(), HostError>)
      requires Recorded()
      requires OfPath(target) in concern
      modifies this`clock, this`cursor, this`state, this`met, this`account
      ensures Recorded()
      ensures cursor >= old(cursor) && clock >= old(clock)
      ensures Alone() ==>
                && (|Stack(old(state), target)| <= 1 ==> MountStep(old(state), state, target))
                && (|Stack(old(state), target)| <= 1 ==> state == old(state) || !Mounted(state, target))
                && (|Stack(old(state), target)| <= 1 && r.Ok? ==> !Mounted(state, target))
      ensures r.Err? ==> target == "" || AnyFailed(old(cursor)) || AnySlow(old(cursor), BIND_ROLLBACK_TIMEOUT)
    {
      hide KnowsFree, KnowsType, Sincere, Concerned, Explains;
      r := Unmount(Ctx(clock + BIND_ROLLBACK_TIMEOUT, DeadlineExceeded), target);
    }

    /** What a successful mount leaves at an unmounted target. */
    function Wanted(source: string, fsType: string, options: Opts): Entry {
      Entry(source, fsType, if BindFlavor(options) != "" then FullOptions(source, options) else options)
    }

    /** Where a remount under `ctx` that begins at host step `k` and time `t` ends when it fails: after
        reading the source's flags, or after the command when it was started. */
    function RemountEnd(ctx: Ctx, k: nat, t: nat): nat {
      if OutcomeAt(k).ok && t + OutcomeAt(k).took < ctx.endsAt then k + 2 else k + 1
    }

    /** The step at which a bind that begins at step `k` and time `t` starts to roll back. */
    function RollbackStart(ctx: Ctx, k: nat, t: nat): nat {
      RemountEnd(ctx, k + 1, t + OutcomeAt(k).took)
    }

    /** The same for a mount, which looks at the target first. */
    function MountRollbackStart(ctx: Ctx, k: nat, t: nat): nat {
      RollbackStart(ctx, k + 1, t + OutcomeAt(k).took)
    }

    /** A rollback that began at step `at` failed: one of its own steps failed or outlasted its bound. */
    ghost predicate RollbackFailed(at: nat)
      reads this`cursor
    {
      AnyFailed(at) || AnySlow(at, BIND_ROLLBACK_TIMEOUT)
    }

    /** bindMount: a remount that fails is rolled back, whatever became of the context. */
    method BindMount(ctx: Ctx, source: string, target: string, fsType: string, options: Opts)
      returns (r: Result<(), HostError>)
      requires Recorded() && KnowsFree(account, target)
      requires OfPath(target) in concern
      requires BindFlavor(options) != "" && target != "" && (Alone() ==> !Mounted(state, target))
      modifies this`clock, this`cursor, this`state, this`log, this`met, this`account
      ensures Recorded()
      ensures cursor >= old(cursor) && clock >= old(clock)
      ensures Alone() ==>
                && MountStep(old(state), state, target)
                && (Mounted(state, target) ==>
                      || Stack(state, target) == [Wanted(source, fsType, options)]
                      || Stack(state, target) == [Entry(source, fsType, BindOptions(options))])
                && BoundFrom(state, target, source, fsType)
                && (r.Ok? ==> Stack(state, target) == [Wanted(source, fsType, options)])
                && (r.Err? && Clean() && Mounted(state, target) ==>
                      RollbackFailed(RollbackStart(ctx, old(cursor), old(clock))))
                && (log == old(log) || log == old(log) + [Push(target, 0)])
                && (r.Ok? ==> log == old(log) + [Push(target, 0)])
      ensures r.Err? ==> (r == Err(CtxEnded(ctx.cause)) && Ended(ctx)) || r == Err(MountFailed)
      ensures Alone() && r == Err(MountFailed) ==> exists k :: old(cursor) <= k < old(cursor) + 3 && !OutcomeAt(k).ok
      ensures Alone() && Smooth(ctx, old(cursor), 3, old(clock)) ==> r.Ok? && Advanced(old(cursor), 3, old(clock))
    {
      hide KnowsFree, KnowsType, Sincere, Concerned, Explains, AfterMount, RemountOptions, SourceOptions;
      var bindOptions := [BindFlavor(options)];
      if "_netdev" in options {
        bindOptions := bindOptions + ["_netdev"];
      }
      assert bindOptions == BindOptions(options);
      r := RunMount(ctx, source, target, fsType, bindOptions);
      if Alone() {
        BindStep(old(state), source, target, fsType, bindOptions);
      }
      if r.Err? {
        return;
      }
      r := RemountBind(ctx, source, target, fsType, options);
      if r.Err? {
        var rollback := RollBackBind(target);
      }
    }

    /** mount: two steps for a bind, a single command otherwise. */
    method Perform(ctx: Ctx, source: string, target: string, fsType: string, options: Opts)
      returns (r: Result<(), HostError>)
      requires Recorded() && KnowsFree(account, target)
      requires OfPath(target) in concern
      requires target != "" && (Alone() ==> !Mounted(state, target))
      modifies this`clock, this`cursor, this`state, this`log, this`met, this`account
      ensures Recorded()
      ensures cursor >= old(cursor) && clock >= old(clock)
      ensures Alone() ==>
                && MountStep(old(state), state, target)
                && BoundFrom(state, target, source, fsType)
                && (r.Ok? ==> Stack(state, target) == [Wanted(source, fsType, options)])
                && (r.Err? && Clean() && Mounted(state, target) ==>
                      BindFlavor(options) != "" && RollbackFailed(RollbackStart(ctx, old(cursor), old(clock))))
                && (log == old(log) || log == old(log) + [Push(target, 0)])
                && (r.Ok? ==> log == old(log) + [Push(target, 0)])
      ensures r.Err? ==> (r == Err(CtxEnded(ctx.cause)) && Ended(ctx)) || r == Err(MountFailed)
      ensures Alone() && Smooth(ctx, old(cursor), PerformSteps(options), old(clock)) ==>
                (r.Ok? <==> Stackable(options)) && Advanced(old(cursor), PerformSteps(options), old(clock))
    {
      hide KnowsFree, KnowsType, Sincere, Concerned, Explains;
      if BindFlavor(options) != "" {
        r := BindMount(ctx, source, target, fsType, options);
        return;
      }
      r := RunMount(ctx, source, target, fsType, options);
      if Alone() {
        if "remount" in options {
          RemountStep(old(state), source, target, fsType, options);
        } else {
          BindStep(old(state), source, target, fsType, options);
        }
      }
    }

    /** Mount: an already mounted target succeeds, and a bind restates its options, so that one left
        half done ends up like one that was never interrupted. */
    method Mount(ctx: Ctx, source: string, target: string, fsType: string, options: Opts)
      returns (r: Result<(), HostError>)
      requires Recorded() && (Alone() ==> |Stack(state, target)| <= 1)
      requires OfPath(target) in concern
      modifies this`clock, this`cursor, this`state, this`log, this`met, this`account
      ensures Recorded()
      ensures cursor >= old(cursor) && clock >= old(clock)
      ensures source != "" && target != "" && old(Ended(ctx)) ==>
                r == Err(CtxEnded(ctx.cause)) && state == old(state) && log == old(log)
      ensures r.Ok? ==> source != "" && target != "" && !old(Ended(ctx))
      ensures Alone() ==>
                && MountStep(old(state), state, target)
                && (BoundFrom(old(state), target, source, fsType) ==> BoundFrom(state, target, source, fsType))
                && (r.Ok? ==> Mounted(state, target))
                && (r.Ok? && BindFlavor(options) != "" && BoundFrom(old(state), target, source, fsType) ==>
                      Stack(state, target) == [Wanted(source, fsType, options)])
                && (r.Ok? && !Mounted(old(state), target) ==> Stack(state, target) == [Wanted(source, fsType, options)])
                && (Mounted(old(state), target) && BindFlavor(options) == "" ==> state == old(state))
                && (r.Err? && Clean() && !Mounted(old(state), target) && Mounted(state, target) ==>
                      BindFlavor(options) != "" && RollbackFailed(MountRollbackStart(ctx, old(cursor), old(clock))))
                && (log == old(log) || (!Mounted(old(state), target) && log == old(log) + [Push(target, 0)]))
      ensures Alone() && source != "" && target != ""
              && Smooth(ctx, old(cursor), MountSteps(old(state), target, options), old(clock)) ==>
                (r.Ok? <==> old(Mounted(state, target)) || Stackable(options))
      ensures source == "" || target == "" ==> r == Err(InvalidInput)
      ensures r == Err(CtxEnded(ctx.cause)) ==> Ended(ctx)
    {
      hide KnowsFree, KnowsType, Sincere, Concerned, Explains, BindFlavor, RemountOptions, SourceOptions;
      if source == "" || target == "" {
        return Err(InvalidInput);
      }
      if Ended(ctx) {
        return Err(CtxEnded(ctx.cause));
      }
      var mounted := IsMountPoint(ctx, target);
      if mounted.Err? {
        return Err(mounted.error);
      }
      if mounted.value {
        if BindFlavor(options) != "" {
          r := RemountBind(ctx, source, target, fsType, options);
          return;
        }
        return Ok(());
      }
      r := Perform(ctx, source, target, fsType, options);
    }

    /** The part of FormatAndMount between the mount check and the mount: detect, then format or
        check. */
    method Prepare(ctx: Ctx, source: string, fsType: string, options: Opts) returns (r: Result<(), HostError>)
      requires Recorded() && source != "" && IsSupported(fsType)
      requires OfDevice(source) in concern
      modifies this`clock, this`cursor, this`state, this`log, this`met, this`account
      ensures Recorded() && FreeKept(old(account), account)
      ensures cursor >= old(cursor) && clock >= old(clock)
      ensures Alone() ==>
                && old(log) <= log <= old(log) + Preparation(Held(old(state), source), source, fsType, options)
                && state.mounts == old(state).mounts && state.paths == old(state).paths
                && ContentStep(old(state), state, source, fsType)
                && (r.Ok? ==>
                      && Feasible(Held(old(state), source), fsType, options) && Held(state, source) == fsType
                      && log == old(log) + Preparation(Held(old(state), source), source, fsType, options))
                && (r == Err(FilesystemMismatch) ==> Held(old(state), source) !in {"", fsType})
                && (Held(old(state), source) !in {"", fsType} ==>
                      r == Err(FilesystemMismatch) || r == Err(CtxEnded(ctx.cause)) || r == Err(DetectionFailed))
      ensures Alone()
              && (var held := old(Held(state, source));
                  DetectsThen(ctx, old(cursor), PreparationSteps(held, fsType, options), old(clock), held)) ==>
                && (if Feasible(old(Held(state, source)), fsType, options) then r.Ok?
                    else r == Err(if old(Held(state, source)) == "" then MountFailed else FilesystemMismatch))
                && Advanced(old(cursor), 1 + PreparationSteps(old(Held(state, source)), fsType, options), old(clock))
      ensures Alone() && "ro" !in options && old(Held(state, source)) == fsType
                && DetectsThen(ctx, old(cursor), 0, old(clock), fsType) && Uncorrected(old(cursor) + 1)
              ==> r == Err(if Ended(ctx) then CtxEnded(ctx.cause) else MountFailed)
    {
      hide KnowsFree, KnowsType, Sincere, Concerned, Explains;
      var existing := GetFilesystemType(ctx, source);
      if existing.Err? {
        return Err(existing.error);
      }
      if existing.value != "" && existing.value != fsType {
        return Err(FilesystemMismatch);
      }
      var readOnly := "ro" in options;
      if existing.value == "" {
        if readOnly {
          return Err(MountFailed);
        }
        r := Format(ctx, source, fsType);
      } else if !readOnly {
        r := CheckFilesystem(ctx, source);
      } else {
        r := Ok(());
      }
    }

    /** os.Remove, a missing path being no error. */
    method RemovePath(path: string) returns (r: Result<(), HostError>)
      requires Recorded() && KnowsFree(account, path)
      requires OfPath(path) in concern
      modifies this`clock, this`cursor, this`state, this`log, this`met, this`account
      ensures Recorded()
      ensures cursor >= old(cursor) && clock >= old(clock)
      ensures Alone() ==>
                && log == old(log) + [Remove(path, |Stack(state, path)|)]
                && (state == old(state) || state == old(state).(paths := old(state).paths - {path}))
                && (r.Ok? ==> path !in state.paths)
      ensures r.Ok? <==> OutcomeAt(old(cursor)).ok
    {
      hide KnowsFree, KnowsType, Sincere, Concerned, Explains;
      var o := Next();
      log := log + [Remove(path, |Stack(state, path)|)];
      Do(DidRemove(path, o.ok || o.applied));
      return if o.ok then Ok(()) else Err(OSFailed);
    }

    /** The rest of FormatAndMount, once the target is known to be unmounted. */
    method PrepareAndMount(ctx: Ctx, source: string, target: string, fsType: string, options: Opts)
      returns (r: Result<(), HostError>)
      requires Recorded() && KnowsFree(account, target)
      requires OfPath(target) in concern && OfDevice(source) in concern
      requires source != "" && target != "" && IsSupported(fsType) && (Alone() ==> !Mounted(state, target))
      modifies this`clock, this`cursor, this`state, this`log, this`met, this`account
      ensures Recorded()
      ensures cursor >= old(cursor) && clock >= old(clock)
      ensures Alone() ==>
                && StageStep(old(state), state, source, target, fsType) && state.paths == old(state).paths
                && old(log) <= log <= old(log) + Plan(old(state), source, target, fsType, options)
                && (r.Ok? ==>
                      && log == old(log) + Plan(old(state), source, target, fsType, options)
                      && Feasible(Held(old(state), source), fsType, options) && Held(state, source) == fsType
                      && Stack(state, target) == [Wanted(source, fsType, options + ["defaults"])])
                && (r.Err? && Clean() && BindFlavor(options) == "" ==> !Mounted(state, target))
      ensures Alone()
              && (var held := old(Held(state, source));
                  DetectsThen(ctx, old(cursor), PreparationSteps(held, fsType, options) + PerformSteps(options),
                              old(clock), held)) ==>
                StagingAnswer(false, old(Held(state, source)), fsType, options, r)
      ensures Alone() && "ro" !in options && old(Held(state, source)) == fsType
                && DetectsThen(ctx, old(cursor), 0, old(clock), fsType) && Uncorrected(old(cursor) + 1)
              ==> r == Err(if Ended(ctx) then CtxEnded(ctx.cause) else MountFailed)
    {
      hide KnowsFree, KnowsType, Sincere, Concerned, Explains, Smooth, TimeOf, BindFlavor, DetectsThen;
      hide PerformSteps, PreparationSteps, Stackable, RemountOptions, SourceOptions;
      ghost var held := Held(state, source);
      DetectsSplit(ctx, cursor, PreparationSteps(held, fsType, options), PerformSteps(options), clock, held);
      r := Prepare(ctx, source, fsType, options);
      if r.Err? {
        return;
      }
      FlavorOfDefaults(options);
      r := Perform(ctx, source, target, fsType, options + ["defaults"]);
    }

    /** A missing directory is made. */
    method EnsureDirectory(ghost ctx: Ctx, path: string) returns (r: Result<(), HostError>)
      requires Recorded()
      requires OfPath(path) in concern
      modifies this`clock, this`cursor, this`state, this`met, this`account
      ensures Recorded()
      ensures cursor >= old(cursor) && clock >= old(clock)
      ensures Alone() ==>
                && (state == old(state) || state == old(state).(paths := old(state).paths + {path}))
                && (r.Ok? ==> path in state.paths)
      ensures r.Err? ==> r == Err(OSFailed)
      ensures Alone() && Smooth(ctx, old(cursor), LookSteps(old(state), path) - 1, old(clock)) ==>
                r.Ok? && Advanced(old(cursor), LookSteps(old(state), path) - 1, old(clock))
    {
      hide KnowsFree, KnowsType, Sincere, Concerned, Explains;
      FewSteps(ctx, cursor, clock);
      var o := Next();
      if !o.ok {
        return Err(OSFailed);
      }
      if path !in state.paths {
        r := MkdirAll(path);
        return;
      }
      return Ok(());
    }

    method MkdirAll(path: string) returns (r: Result<(), HostError>)
      requires Recorded()
      requires OfPath(path) in concern
      modifies this`clock, this`cursor, this`state, this`met, this`account
      ensures Recorded()
      ensures cursor == old(cursor) + 1 && clock == old(clock) + OutcomeAt(old(cursor)).took
      ensures Alone() ==>
                && (state == old(state) || state == old(state).(paths := old(state).paths + {path}))
                && (r.Ok? ==> path in state.paths)
      ensures r.Err? ==> r == Err(OSFailed)
      ensures r.Ok? <==> OutcomeAt(old(cursor)).ok
    {
      hide KnowsFree, KnowsType, Sincere, Concerned, Explains;
      var o := Next();
      Do(DidMkdir(path, o.ok || o.applied));
      return if o.ok then Ok(()) else Err(OSFailed);
    }

    /** The part of FormatAndMount that makes the target directory and looks whether it is mounted. */
    method Look(ctx: Ctx, target: string) returns (r: Result<bool, HostError>)
      requires Recorded()
      requires target != "" && OfPath(target) in concern
      modifies this`clock, this`cursor, this`state, this`met, this`account
      ensures Recorded() && (r.Ok? && !r.value ==> KnowsFree(account, target))
      ensures cursor >= old(cursor) && clock >= old(clock)
      ensures Alone() ==>
                && (state == old(state) || state == old(state).(paths := old(state).paths + {target}))
                && (r.Ok? ==> r.value == old(Mounted(state, target)) && target in state.paths)
      ensures Alone() && Smooth(ctx, old(cursor), LookSteps(old(state), target), old(clock)) ==>
                r.Ok? && Advanced(old(cursor), LookSteps(old(state), target), old(clock))
    {
      hide KnowsFree, KnowsType, Sincere, Concerned, Explains, Smooth, TimeOf;
      ghost var k, n, t := cursor, LookSteps(state, target) - 1, clock;
      SmoothSplit(ctx, k, n, 1, t);
      FewSteps(ctx, k + n, t + TimeOf(k, n));
      var made := EnsureDirectory(ctx, target);
      if made.Err? {
        return Err(made.error);
      }
      r := IsMountPoint(ctx, target);
    }

    /** FormatAndMount for a request that is valid, under a context that is live. */
    method StageDevice(ctx: Ctx, source: string, target: string, fsType: string, options: Opts)
      returns (r: Result<(), HostError>)
      requires Recorded() && (Alone() ==> |Stack(state, target)| <= 1)
      requires OfPath(target) in concern && OfDevice(source) in concern
      requires source != "" && target != "" && !Ended(ctx) && IsSupported(fsType)
      modifies this`clock, this`cursor, this`state, this`log, this`met, this`account
      ensures Recorded()
      ensures cursor >= old(cursor) && clock >= old(clock)
      ensures Alone() ==>
                && StageStep(old(state), state, source, target, fsType)
                && old(log) <= log <= old(log) + Plan(old(state), source, target, fsType, options)
                && (r.Ok? ==> log == old(log) + Plan(old(state), source, target, fsType, options))
                && (r.Ok? ==> target in state.paths && Mounted(state, target))
                && (r.Ok? && Mounted(old(state), target) ==> Stack(state, target) == Stack(old(state), target))
                && (r.Ok? && !Mounted(old(state), target) ==>
                      && Feasible(Held(old(state), source), fsType, options) && Held(state, source) == fsType
                      && Stack(state, target) == [Wanted(source, fsType, options + ["defaults"])])
                && (r.Err? && Clean() && BindFlavor(options) == "" && !Mounted(old(state), target) ==>
                      !Mounted(state, target))
      ensures Alone() && StagesSmoothly(ctx, old(state), source, target, fsType, options, old(cursor), old(clock)) ==>
                StagingAnswer(old(Mounted(state, target)), old(Held(state, source)), fsType, options, r)
      ensures Alone() && "ro" !in options && old(Held(state, source)) == fsType
                && FsckFails(ctx, old(state), source, target, old(cursor), old(clock))
              ==> r == Err(if Ended(ctx) then CtxEnded(ctx.cause) else MountFailed)
    {
      hide KnowsFree, KnowsType, Sincere, Concerned, Explains;
      hide Plan, IsSupported, BindFlavor, RemountOptions, SourceOptions, TimeOf, DetectsThen;
      hide Stackable, PerformSteps, PreparationSteps, Feasible;
      var mounted := Look(ctx, target);
      if mounted.Err? {
        return Err(mounted.error);
      }
      if Alone() {
        PlanSame(old(state), state, source, target, fsType, options);
      }
      if mounted.value {
        return Ok(());
      }
      r := PrepareAndMount(ctx, source, target, fsType, options);
    }

    method FormatAndMount(ctx: Ctx, source: string, target: string, fsType: string, options: Opts)
      returns (r: Result<(), HostError>)
      requires Recorded() && (Alone() ==> |Stack(state, target)| <= 1)
      requires OfPath(target) in concern && OfDevice(source) in concern
      modifies this`clock, this`cursor, this`state, this`log, this`met, this`account
      ensures Recorded()
      ensures cursor >= old(cursor) && clock >= old(clock)
      ensures source != "" && target != "" && old(Ended(ctx)) ==>
                r == Err(CtxEnded(ctx.cause)) && state == old(state) && log == old(log)
      ensures Alone() ==>
                && StageStep(old(state), state, source, target, FsType(fsType))
                && old(log) <= log <= old(log) + Plan(old(state), source, target, FsType(fsType), options)
                && (r.Ok? ==> log == old(log) + Plan(old(state), source, target, FsType(fsType), options))
      ensures r.Ok? ==> source != "" && target != "" && !old(Ended(ctx)) && IsSupported(FsType(fsType))
      ensures Alone() ==>
                && (r.Ok? ==> target in state.paths && Mounted(state, target))
                && (r.Ok? && Mounted(old(state), target) ==> Stack(state, target) == Stack(old(state), target))
                && (r.Ok? && !Mounted(old(state), target) ==>
                      && Feasible(Held(old(state), source), FsType(fsType), options)
                      && Held(state, source) == FsType(fsType)
                      && Stack(state, target) == [Wanted(source, FsType(fsType), options + ["defaults"])])
                && (r.Err? && Clean() && BindFlavor(options) == "" && !Mounted(old(state), target) ==>
                      !Mounted(state, target))
      ensures Alone() && r.Ok? && !old(Mounted(state, target)) ==>
                log == old(log)
                     + (if "ro" in options then [] else if old(Held(state, source)) == "" then [Mkfs(source, "")]
                        else [Fsck(source, FsType(fsType))])
                     + [Push(target, 0)]
      ensures source == "" || target == "" ==> r == Err(InvalidInput)
      ensures source != "" && target != "" && !old(Ended(ctx)) && !IsSupported(FsType(fsType)) ==>
                r == Err(UnsupportedFilesystem) && state == old(state) && cursor == old(cursor)
      ensures Alone() && source != "" && target != "" && IsSupported(FsType(fsType))
              && StagesSmoothly(ctx, old(state), source, target, FsType(fsType), options, old(cursor), old(clock)) ==>
                StagingAnswer(old(Mounted(state, target)), old(Held(state, source)), FsType(fsType), options, r)
      ensures Alone() && "ro" !in options && old(Held(state, source)) == FsType(fsType)
                && source != "" && target != "" && IsSupported(FsType(fsType))
                && FsckFails(ctx, old(state), source, target, old(cursor), old(clock))
              ==> r == Err(if Ended(ctx) then CtxEnded(ctx.cause) else MountFailed)
    {
      hide KnowsFree, KnowsType, Sincere, Concerned, Explains;
      hide Plan, FsType, IsSupported, BindFlavor, RemountOptions, SourceOptions, TimeOf, DetectsThen;
      hide Stackable, PerformSteps, PreparationSteps, StagingAnswer, FsckFails;
      if source == "" || target == "" {
        return Err(InvalidInput);
      }
      if Ended(ctx) {
        return Err(CtxEnded(ctx.cause));
      }
      var fs := FsType(fsType);
      if !IsSupported(fs) {
        return Err(UnsupportedFilesystem);
      }
      r := StageDevice(ctx, source, target, fs, options);
      if Alone() && r.Ok? && !old(Mounted(state, target)) {
        PlanWhenFeasible(old(state), source, target, fs, options);
      }
    }
  }

  /** A staging: the target's mounts change, to at most one, the target may appear, and a blank
      source may take the requested type. */
  ghost predicate StageStep(a: State, b: State, source: string, target: string, fsType: string) {
    && |Stack(b, target)| <= 1
    && (forall p :: p != target ==> Stack(b, p) == Stack(a, p))
    && (b.paths == a.paths || b.paths == a.paths + {target})
    && ContentStep(a, b, source, fsType)
  }

  /** Contents stay, except that a blank source may be formatted. */
  ghost predicate ContentStep(a: State, b: State, source: string, fsType: string) {
    b.content == a.content || (Held(a, source) == "" && b.content == a.content[source := fsType])
  }

  /** Every event of `after` beyond `before` is a safe one. */
  ghost predicate SafeSince(before: seq<Event>, after: seq<Event>) {
    before <= after && forall i :: |before| <= i < |after| ==> Safe(after[i])
  }

  /** A planned format-and-mount never formats a formatted device, whatever part of it is run. */
  lemma PlanIsSafe(before: seq<Event>, after: seq<Event>, s: State, source: string, target: string,
                   fsType: string, options: Opts)
    requires before <= after <= before + Plan(s, source, target, fsType, options)
    ensures SafeSince(before, after)
  {
    var plan := Plan(s, source, target, fsType, options);
    forall i | |before| <= i < |after| ensures Safe(after[i]) {
      assert after[i] == plan[i - |before|];
    }
  }

  lemma ContentStepKeepsTypes(a: State, b: State, source: string, fsType: string)
    requires ContentStep(a, b, source, fsType)
    ensures TypesKept(a, b)
  {
  }

  lemma {:induction false} FlavorOfDefaults(options: Opts)
    ensures BindFlavor(options + ["defaults"]) == BindFlavor(options)
    ensures PerformSteps(options + ["defaults"]) == PerformSteps(options)
    ensures Stackable(options + ["defaults"]) == Stackable(options)
  {
    if options != [] {
      assert (options + ["defaults"])[1..] == options[1..] + ["defaults"];
      if options[0] != "bind" && options[0] != "rbind" {
        FlavorOfDefaults(options[1..]);
      }
    }
  }
}
