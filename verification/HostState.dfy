/** What a host holds, what a call can learn of it and do to it: the mount table semantics of
    internal/mount/mounttest/mounttest.go, and the account a call leaves behind. */
module HostState {
  import opened Errors
  import opened MountOptions

  datatype Entry = Entry(source: string, fsType: string, opts: Opts)

  /** The mount table holds a stack per path, the last mount on top; `content` holds the type of each
      formatted device. */
  datatype State = State(mounts: map<string, seq<Entry>>, paths: set<string>, content: map<string, string>)

  function Stack(s: State, path: string): seq<Entry> {
    if path in s.mounts then s.mounts[path] else []
  }

  /** The filesystem type a device holds, "" when unformatted. */
  function Held(s: State, device: string): string {
    if device in s.content then s.content[device] else ""
  }

  predicate Mounted(s: State, path: string) {
    Stack(s, path) != []
  }

  /** No path carries two mounts. */
  ghost predicate Single(s: State) {
    forall p :: |Stack(s, p)| <= 1
  }

  /** Mount stacks and path existence agree outside `touched`. */
  ghost predicate OnlyAt(a: State, b: State, touched: set<string>) {
    forall p :: p !in touched ==> Stack(b, p) == Stack(a, p) && (p in b.paths <==> p in a.paths)
  }

  /** A device that holds a filesystem keeps its type. */
  ghost predicate TypesKept(a: State, b: State) {
    forall d :: Held(a, d) != "" ==> Held(b, d) == Held(a, d)
  }

  /** The reference semantics of the mount command: a remount changes the options in place and needs
      a mount to change, anything else stacks. */
  function AfterMount(s: State, source: string, target: string, fsType: string, options: Opts): State {
    var stack := Stack(s, target);
    if "remount" !in options then
      s.(mounts := s.mounts[target := stack + [Entry(source, fsType, options)]])
    else if stack == [] then s
    else
      var top := stack[|stack| - 1];
      s.(mounts := s.mounts[target := stack[|stack| - 1 := top.(opts := options)]])
  }

  function AfterUmount(s: State, target: string): State {
    var stack := Stack(s, target);
    if stack == [] then s else s.(mounts := s.mounts[target := stack[..|stack| - 1]])
  }

  function AfterMkfs(s: State, device: string, fsType: string): State {
    s.(content := s.content[device := fsType])
  }

  // ---------------------------------------------------------------------------------------
  // Accounts
  // ---------------------------------------------------------------------------------------

  /** What a call is told and does, one host step at a time. An effect says whether it was applied;
      an unmount also says whether the call was told that the path is unmounted now. */
  datatype Action =
    | SawMount(path: string, mounted: bool)
    | SawType(device: string, held: string)
    | DidMkfs(device: string, fsType: string, applied: bool)
    | DidFsck(device: string)
    | DidMount(source: string, path: string, fsType: string, options: Opts, applied: bool)
    | DidUmount(path: string, gone: bool, applied: bool)
    | DidMkdir(path: string, applied: bool)
    | DidRemove(path: string, applied: bool)

  /** What a step looks at or changes. */
  datatype Subject = OfPath(path: string) | OfDevice(device: string)

  function SubjectOf(a: Action): Subject {
    match a
    case SawType(device, _) => OfDevice(device)
    case DidMkfs(device, _, _) => OfDevice(device)
    case DidFsck(device) => OfDevice(device)
    case SawMount(path, _) => OfPath(path)
    case DidMount(_, path, _, _, _) => OfPath(path)
    case DidUmount(path, _, _) => OfPath(path)
    case DidMkdir(path, _) => OfPath(path)
    case DidRemove(path, _) => OfPath(path)
  }

  predicate IsEffect(a: Action) {
    !a.SawMount? && !a.SawType? && !a.DidFsck?
  }

  /** All effects of the account are on these. */
  ghost predicate Concerned(account: seq<Action>, concern: set<Subject>) {
    forall a :: a in account && IsEffect(a) ==> SubjectOf(a) in concern
  }

  /** The effect of an action. */
  function Apply(s: State, a: Action): State {
    match a
    case DidMkfs(device, fsType, true) => AfterMkfs(s, device, fsType)
    case DidMount(source, path, fsType, options, true) => AfterMount(s, source, path, fsType, options)
    case DidUmount(path, _, true) => AfterUmount(s, path)
    case DidMkdir(path, true) => s.(paths := s.paths + {path})
    case DidRemove(path, true) => s.(paths := s.paths - {path})
    case _ => s
  }

  /** What the call was told is true. */
  predicate Fits(s: State, a: Action) {
    match a
    case SawMount(path, mounted) => mounted == Mounted(s, path)
    case SawType(device, held) => held == Held(s, device)
    case DidUmount(path, gone, _) => gone && |Stack(s, path)| <= 1 ==> !Mounted(Apply(s, a), path)
    case _ => true
  }

  /** From its own account alone the call knows that the path is unmounted. */
  predicate KnowsFree(account: seq<Action>, path: string) {
    if account == [] then false
    else FreeAfter(KnowsFree(account[..|account| - 1], path), account[|account| - 1], path)
  }

  predicate FreeAfter(free: bool, a: Action, path: string) {
    match a
    case SawMount(p, mounted) => if p == path then !mounted else free
    case DidMount(_, p, _, _, _) => if p == path then false else free
    case DidUmount(p, gone, _) => if p == path then gone else free
    case _ => free
  }

  /** The type the call knows a device to hold. */
  function KnowsType(account: seq<Action>, device: string): Option<string> {
    if account == [] then None
    else TypeAfter(KnowsType(account[..|account| - 1], device), account[|account| - 1], device)
  }

  function TypeAfter(known: Option<string>, a: Action, device: string): Option<string> {
    match a
    case SawType(d, held) => if d == device then Some(held) else known
    case DidMkfs(d, _, _) => if d == device then None else known
    case _ => known
  }

  /** A call formats only what it knows to be blank, and as something, checks only what it knows to be
      formatted, and mounts on or removes only a path it knows to be unmounted. */
  predicate Permitted(account: seq<Action>, a: Action) {
    match a
    case DidMkfs(device, fsType, _) => KnowsType(account, device) == Some("") && fsType != ""
    case DidFsck(device) => KnowsType(account, device).Some? && KnowsType(account, device) != Some("")
    case DidMount(_, path, _, options, _) => "remount" in options || KnowsFree(account, path)
    case DidRemove(path, _) => KnowsFree(account, path)
    case _ => true
  }

  predicate Disciplined(account: seq<Action>) {
    account != [] ==>
      && Disciplined(account[..|account| - 1])
      && Permitted(account[..|account| - 1], account[|account| - 1])
  }

  /** The state that the effects of an account lead to. */
  function Replay(base: State, account: seq<Action>): State {
    if account == [] then base
    else Apply(Replay(base, account[..|account| - 1]), account[|account| - 1])
  }

  /** A disciplined account, and what the call was told was true in the states it met. */
  ghost predicate Sincere(met: seq<State>, account: seq<Action>) {
    && |met| == |account| && Disciplined(account)
    && forall i :: 0 <= i < |account| ==> Fits(met[i], account[i])
  }

  /** The account explains the state: from `base` on, nothing but its effects led to the states met and
      then to `s`. */
  ghost predicate Explains(base: State, met: seq<State>, account: seq<Action>, s: State) {
    && |met| == |account| && s == Replay(base, account)
    && forall i :: 0 <= i < |account| ==> met[i] == Replay(base, account[..i])
  }

  lemma SincereStep(met: seq<State>, account: seq<Action>, s: State, a: Action)
    requires |met| == |account|
    ensures Sincere(met + [s], account + [a]) <==> Sincere(met, account) && Permitted(account, a) && Fits(s, a)
  {
    Learned(account, a);
    assert forall i :: 0 <= i < |account| ==> (met + [s])[i] == met[i] && (account + [a])[i] == account[i];
    assert (met + [s])[|account|] == s && (account + [a])[|account|] == a;
  }

  lemma ExplainsStep(base: State, met: seq<State>, account: seq<Action>, s: State, a: Action)
    requires Explains(base, met, account, s)
    ensures Explains(base, met + [s], account + [a], Apply(s, a))
  {
    var more := account + [a];
    assert more[..|account|] == account;
    assert forall i :: 0 <= i < |account| ==> more[..i] == account[..i];
  }

  lemma RecordedStep(base: State, met: seq<State>, account: seq<Action>, s: State, a: Action)
    requires Sincere(met, account) && Permitted(account, a) && Fits(s, a)
    ensures Sincere(met + [s], account + [a])
    ensures Explains(base, met, account, s) ==> Explains(base, met + [s], account + [a], Apply(s, a))
  {
    SincereStep(met, account, s, a);
    if Explains(base, met, account, s) {
      ExplainsStep(base, met, account, s, a);
    }
  }

  lemma Learned(account: seq<Action>, a: Action)
    ensures forall p :: KnowsFree(account + [a], p) == FreeAfter(KnowsFree(account, p), a, p)
    ensures forall d :: KnowsType(account + [a], d) == TypeAfter(KnowsType(account, d), a, d)
    ensures Disciplined(account + [a]) <==> Disciplined(account) && Permitted(account, a)
  {
    assert (account + [a])[..|account|] == account;
  }

  /** What was known to be free still is. */
  ghost predicate FreeKept(before: seq<Action>, after: seq<Action>) {
    forall p :: KnowsFree(before, p) ==> KnowsFree(after, p)
  }
}
