/** Calls of the node service whose host steps interleave: internal/driver/node.go over
    internal/mount/mount.go. Every call, whatever others do in between, leaves a disciplined account of
    what it was told and did. */
module Interleaving {
  import opened Errors
  import opened HostState

  /** One host step of one of the calls. */
  datatype Item = Item(call: nat, action: Action)

  /** The state after a run. */
  function After(start: State, run: seq<Item>): State {
    if run == [] then start
    else Apply(After(start, run[..|run| - 1]), run[|run| - 1].action)
  }

  /** The steps of one call, in order. */
  function AccountOf(run: seq<Item>, call: nat): seq<Action> {
    if run == [] then []
    else
      var item := run[|run| - 1];
      AccountOf(run[..|run| - 1], call) + (if item.call == call then [item.action] else [])
  }

  /** Step `z` of another call changes what step `x` of a call was about before its step `y`. */
  predicate Interferes(run: seq<Item>, x: int, z: int, y: int) {
    && 0 <= x < z < y < |run|
    && run[x].call == run[y].call && run[z].call != run[x].call
    && IsEffect(run[z].action) && SubjectOf(run[z].action) == SubjectOf(run[x].action)
  }

  /** Calls about one path are serialized. */
  ghost predicate PathsSerialized(run: seq<Item>) {
    forall x, z, y :: Interferes(run, x, z, y) ==> !SubjectOf(run[x].action).OfPath?
  }

  /** Calls about one device are serialized. */
  ghost predicate DevicesSerialized(run: seq<Item>) {
    forall x, z, y :: Interferes(run, x, z, y) ==> !SubjectOf(run[x].action).OfDevice?
  }

  /** Every call keeps the discipline, and was told the truth whenever it was told something. */
  ghost predicate Honest(start: State, run: seq<Item>) {
    && (forall call :: Disciplined(AccountOf(run, call)))
    && (forall k :: 0 <= k < |run| ==> Fits(After(start, run[..k]), run[k].action))
  }

  /** Never format a formatted device, check a blank one, stack a second mount or remove a mounted
      path. */
  predicate SafeIn(s: State, a: Action) {
    match a
    case DidMkfs(device, _, _) => Held(s, device) == ""
    case DidFsck(device) => Held(s, device) != ""
    case DidMount(_, path, _, options, _) => "remount" in options || !Mounted(s, path)
    case DidRemove(path, _) => !Mounted(s, path)
    case _ => true
  }

  lemma Elsewhere(s: State, a: Action, path: string, device: string)
    ensures !IsEffect(a) || SubjectOf(a) != OfPath(path) ==> Stack(Apply(s, a), path) == Stack(s, path)
    ensures !IsEffect(a) || SubjectOf(a) != OfDevice(device) ==> Held(Apply(s, a), device) == Held(s, device)
    ensures a.DidMkdir? || a.DidRemove? ==> Stack(Apply(s, a), path) == Stack(s, path)
  {
  }

  lemma SafeStep(s: State, a: Action)
    requires Single(s) && SafeIn(s, a)
    ensures Single(Apply(s, a)) && TypesKept(s, Apply(s, a))
  {
    forall p ensures |Stack(Apply(s, a), p)| <= 1 {
      assert |Stack(s, p)| <= 1;
    }
  }

  /** The accounts of a part of the run. */
  lemma AccountStep(run: seq<Item>, j: nat, call: nat)
    requires 0 < j <= |run|
    ensures AccountOf(run[..j], call)
         == AccountOf(run[..j - 1], call) + (if run[j - 1].call == call then [run[j - 1].action] else [])
  {
    assert run[..j][..j - 1] == run[..j - 1];
  }

  lemma NoAccount(run: seq<Item>, call: nat)
    ensures AccountOf(run[..0], call) == []
  {
  }

  lemma StateStep(start: State, run: seq<Item>, j: nat)
    requires 0 < j <= |run|
    ensures After(start, run[..j]) == Apply(After(start, run[..j - 1]), run[j - 1].action)
  {
    assert run[..j][..j - 1] == run[..j - 1];
  }

  lemma {:induction false} DisciplinedPart(account: seq<Action>, more: seq<Action>)
    requires Disciplined(account + more)
    ensures Disciplined(account)
    decreases |more|
  {
    if more == [] {
      assert account + more == account;
    } else {
      var n := |more| - 1;
      assert (account + more)[..|account + more| - 1] == account + more[..n];
      DisciplinedPart(account, more[..n]);
    }
  }

  lemma {:induction false} AccountGrows(run: seq<Item>, j: nat, call: nat) returns (more: seq<Action>)
    requires j <= |run|
    ensures AccountOf(run, call) == AccountOf(run[..j], call) + more
    decreases |run|
  {
    if j == |run| {
      assert run[..j] == run;
      more := [];
    } else {
      var n := |run| - 1;
      var rest := AccountGrows(run[..n], j, call);
      assert run[..n][..j] == run[..j];
      more := rest + (if run[n].call == call then [run[n].action] else []);
    }
  }

  /** What a call does at step `k` was permitted by its account so far. */
  lemma PermittedAt(start: State, run: seq<Item>, k: nat)
    requires Honest(start, run) && k < |run|
    ensures Permitted(AccountOf(run[..k], run[k].call), run[k].action)
  {
    var call := run[k].call;
    var more := AccountGrows(run, k + 1, call);
    DisciplinedPart(AccountOf(run[..k + 1], call), more);
    AccountStep(run, k + 1, call);
    Learned(AccountOf(run[..k], call), run[k].action);
  }

  /** A call that knows something about a path or a device has a step about it. */
  lemma {:induction false} KnownFromStep(run: seq<Item>, j: nat, call: nat, u: Subject) returns (x: nat)
    requires j <= |run|
    requires match u
             case OfPath(p) => KnowsFree(AccountOf(run[..j], call), p)
             case OfDevice(d) => KnowsType(AccountOf(run[..j], call), d).Some?
    ensures x < j && run[x].call == call && SubjectOf(run[x].action) == u
    decreases j
  {
    AccountStep(run, j, call);
    if run[j - 1].call == call && SubjectOf(run[j - 1].action) == u {
      x := j - 1;
    } else {
      if run[j - 1].call == call {
        Learned(AccountOf(run[..j - 1], call), run[j - 1].action);
      }
      assert AccountOf(run[..j - 1], call) + [] == AccountOf(run[..j - 1], call);
      x := KnownFromStep(run, j - 1, call, u);
    }
  }

  ghost predicate SingleUpTo(start: State, run: seq<Item>, k: nat)
    requires k <= |run|
  {
    forall i :: 0 <= i <= k ==> Single(After(start, run[..i]))
  }

  /** A path the call of step `k` knows to be unmounted is. */
  lemma {:induction false} FreeIsTrue(start: State, run: seq<Item>, j: nat, k: nat, path: string)
    requires Honest(start, run) && PathsSerialized(run) && j <= k < |run| && SingleUpTo(start, run, k)
    requires KnowsFree(AccountOf(run[..j], run[k].call), path)
    ensures !Mounted(After(start, run[..j]), path)
    decreases j
  {
    var call := run[k].call;
    AccountStep(run, j, call);
    StateStep(start, run, j);
    var i, a := j - 1, run[j - 1].action;
    var s := After(start, run[..i]);
    assert Fits(s, a) && Single(s);
    assert |Stack(s, path)| <= 1;
    Elsewhere(s, a, path, "");
    if run[i].call == call {
      Learned(AccountOf(run[..i], call), a);
      if KnowsFree(AccountOf(run[..i], call), path) {
        FreeIsTrue(start, run, i, k, path);
      }
    } else {
      assert AccountOf(run[..i], call) + [] == AccountOf(run[..i], call);
      FreeIsTrue(start, run, i, k, path);
      var x := KnownFromStep(run, i, call, OfPath(path));
      assert !Interferes(run, x, i, k);
    }
  }

  /** A device the call of step `k` knows to hold a type holds it. */
  lemma {:induction false} TypeIsTrue(start: State, run: seq<Item>, j: nat, k: nat, device: string)
    requires Honest(start, run) && DevicesSerialized(run) && j <= k < |run|
    requires KnowsType(AccountOf(run[..j], run[k].call), device).Some?
    ensures KnowsType(AccountOf(run[..j], run[k].call), device) == Some(Held(After(start, run[..j]), device))
    decreases j
  {
    var call := run[k].call;
    AccountStep(run, j, call);
    StateStep(start, run, j);
    var i, a := j - 1, run[j - 1].action;
    var s := After(start, run[..i]);
    assert Fits(s, a);
    Elsewhere(s, a, "", device);
    if run[i].call == call {
      Learned(AccountOf(run[..i], call), a);
      if KnowsType(AccountOf(run[..i], call), device).Some? {
        TypeIsTrue(start, run, i, k, device);
      }
    } else {
      assert AccountOf(run[..i], call) + [] == AccountOf(run[..i], call);
      TypeIsTrue(start, run, i, k, device);
      var x := KnownFromStep(run, i, call, OfDevice(device));
      assert !Interferes(run, x, i, k);
    }
  }

  lemma StepIsSafe(start: State, run: seq<Item>, k: nat)
    requires Honest(start, run) && PathsSerialized(run) && DevicesSerialized(run)
    requires k < |run| && SingleUpTo(start, run, k)
    ensures SafeIn(After(start, run[..k]), run[k].action)
  {
    PermittedAt(start, run, k);
    match run[k].action
    case DidMkfs(device, _, _) => TypeIsTrue(start, run, k, k, device);
    case DidFsck(device) => TypeIsTrue(start, run, k, k, device);
    case DidMount(_, path, _, options, _) =>
      if "remount" !in options {
        FreeIsTrue(start, run, k, k, path);
      }
    case DidRemove(path, _) => FreeIsTrue(start, run, k, k, path);
    case _ =>
  }

  /** Any interleaving of calls in which calls about one path are serialized, and calls about one
      device are: no step is unsafe, no path ever carries two mounts, no formatted device changes its
      type. */
  lemma {:induction false} InterleavedCallsAreSafe(start: State, run: seq<Item>, k: nat)
    requires Single(start) && Honest(start, run) && PathsSerialized(run) && DevicesSerialized(run)
    requires k <= |run|
    ensures SingleUpTo(start, run, k) && TypesKept(start, After(start, run[..k]))
    ensures forall i :: 0 <= i < k ==> SafeIn(After(start, run[..i]), run[i].action)
    decreases k
  {
    hide After, Apply, SafeIn, TypesKept, Single, Honest, PathsSerialized, DevicesSerialized;
    if k == 0 {
      NothingRun(start, run);
    } else {
      InterleavedCallsAreSafe(start, run, k - 1);
      StepIsSafe(start, run, k - 1);
      StateStep(start, run, k);
      SafeStep(After(start, run[..k - 1]), run[k - 1].action);
      TypesKeptOn(start, After(start, run[..k - 1]), After(start, run[..k]));
    }
  }

  lemma NothingRun(start: State, run: seq<Item>)
    ensures After(start, run[..0]) == start && TypesKept(start, start)
  {
  }

  lemma TypesKeptOn(a: State, b: State, c: State)
    requires TypesKept(a, b) && TypesKept(b, c)
    ensures TypesKept(a, c)
  {
    assert forall d :: Held(a, d) != "" ==> Held(b, d) == Held(a, d);
  }

  // ---------------------------------------------------------------------------------------
  // Honest runs are those the calls leave
  // ---------------------------------------------------------------------------------------

  /** The states that the steps of one call met, in order. */
  function MetOf(start: State, run: seq<Item>, call: nat): seq<State> {
    if run == [] then []
    else
      var n := |run| - 1;
      MetOf(start, run[..n], call) + (if run[n].call == call then [After(start, run[..n])] else [])
  }

  lemma {:induction false} MetStep(start: State, run: seq<Item>, j: nat, call: nat)
    requires j <= |run|
    ensures |MetOf(start, run[..j], call)| == |AccountOf(run[..j], call)|
    ensures j > 0 ==>
              MetOf(start, run[..j], call) == MetOf(start, run[..j - 1], call)
                + (if run[j - 1].call == call then [After(start, run[..j - 1])] else [])
    decreases j
  {
    if j > 0 {
      assert run[..j][..j - 1] == run[..j - 1];
      MetStep(start, run, j - 1, call);
    }
  }

  /** A part of a call's account is sincere when the part before it is and the last step was permitted
      and told the truth. */
  lemma SincereTo(start: State, run: seq<Item>, j: nat, call: nat)
    requires 0 < j <= |run|
    ensures Sincere(MetOf(start, run[..j], call), AccountOf(run[..j], call))
       <==> && Sincere(MetOf(start, run[..j - 1], call), AccountOf(run[..j - 1], call))
            && (run[j - 1].call == call ==>
                  && Permitted(AccountOf(run[..j - 1], call), run[j - 1].action)
                  && Fits(After(start, run[..j - 1]), run[j - 1].action))
  {
    hide AccountOf, MetOf, After, Sincere, Permitted, Fits;
    MetStep(start, run, j, call);
    MetStep(start, run, j - 1, call);
    AccountStep(run, j, call);
    var met, account := MetOf(start, run[..j - 1], call), AccountOf(run[..j - 1], call);
    if run[j - 1].call == call {
      SincereStep(met, account, After(start, run[..j - 1]), run[j - 1].action);
    } else {
      assert met + [] == met && account + [] == account;
    }
  }

  lemma {:induction false} HonestToSincere(start: State, run: seq<Item>, j: nat, call: nat)
    requires Honest(start, run) && j <= |run|
    ensures Sincere(MetOf(start, run[..j], call), AccountOf(run[..j], call))
    decreases j
  {
    if j > 0 {
      HonestToSincere(start, run, j - 1, call);
      SincereTo(start, run, j, call);
      PermittedAt(start, run, j - 1);
    }
  }

  lemma {:induction false} SincereToFits(start: State, run: seq<Item>, j: nat, k: nat)
    requires k < j <= |run|
    requires Sincere(MetOf(start, run[..j], run[k].call), AccountOf(run[..j], run[k].call))
    ensures Fits(After(start, run[..k]), run[k].action)
    decreases j
  {
    hide AccountOf, MetOf, After, Sincere, Permitted, Fits;
    SincereTo(start, run, j, run[k].call);
    if k < j - 1 {
      SincereToFits(start, run, j - 1, k);
    }
  }

  /** Each call's part of the run is one that a call leaves: disciplined, and true in the states it met. */
  ghost predicate EachSincere(start: State, run: seq<Item>) {
    forall call :: Sincere(MetOf(start, run, call), AccountOf(run, call))
  }

  lemma HonestIffSincere(start: State, run: seq<Item>)
    ensures Honest(start, run) <==> EachSincere(start, run)
  {
    hide AccountOf, MetOf, After, Honest, Sincere;
    if Honest(start, run) {
      forall call ensures Sincere(MetOf(start, run, call), AccountOf(run, call)) {
        assert run[..|run|] == run;
        HonestToSincere(start, run, |run|, call);
      }
    }
    if EachSincere(start, run) {
      SincereToHonest(start, run);
    }
  }

  lemma SincereToHonest(start: State, run: seq<Item>)
    requires EachSincere(start, run)
    ensures Honest(start, run)
  {
    hide AccountOf, MetOf, After, Permitted, Fits;
    assert run[..|run|] == run;
    forall call ensures Disciplined(AccountOf(run, call)) {
      assert Sincere(MetOf(start, run, call), AccountOf(run, call));
    }
    forall k | 0 <= k < |run| ensures Fits(After(start, run[..k]), run[k].action) {
      SincereToFits(start, run, |run|, k);
    }
  }

  /** An account as steps of a call. */
  function Tagged(call: nat, account: seq<Action>): (r: seq<Item>)
    ensures |r| == |account| && forall i :: 0 <= i < |r| ==> r[i] == Item(call, account[i])
  {
    if account == [] then []
    else Tagged(call, account[..|account| - 1]) + [Item(call, account[|account| - 1])]
  }

  lemma NothingHonest(start: State)
    ensures Honest(start, []) && After(start, []) == start
  {
  }

  lemma TaggedStep(run: seq<Item>, call: nat, account: seq<Action>, a: Action)
    ensures run + Tagged(call, account + [a]) == run + Tagged(call, account) + [Item(call, a)]
  {
  }

  lemma AfterOne(start: State, run: seq<Item>, item: Item, c: nat)
    ensures After(start, run + [item]) == Apply(After(start, run), item.action)
    ensures AccountOf(run + [item], c) == AccountOf(run, c) + (if item.call == c then [item.action] else [])
  {
    assert (run + [item])[..|run|] == run;
  }

  lemma ReplayOne(base: State, account: seq<Action>, a: Action)
    ensures Replay(base, account + [a]) == Apply(Replay(base, account), a)
  {
    assert (account + [a])[..|account|] == account;
  }

  /** A run that a call follows with nobody in between. */
  lemma {:induction false} Follows(start: State, run: seq<Item>, call: nat, account: seq<Action>, c: nat)
    requires forall i :: 0 <= i < |run| ==> run[i].call != call
    ensures After(start, run + Tagged(call, account)) == Replay(After(start, run), account)
    ensures AccountOf(run + Tagged(call, account), c) == if c == call then account else AccountOf(run, c)
    decreases |account|
  {
    hide After, AccountOf, Apply, Tagged;
    if account == [] {
      assert run + Tagged(call, account) == run;
      NoSteps(run, call);
    } else {
      var front, a := account[..|account| - 1], account[|account| - 1];
      assert front + [a] == account;
      Follows(start, run, call, front, c);
      TaggedStep(run, call, front, a);
      AfterOne(start, run + Tagged(call, front), Item(call, a), c);
      ReplayOne(After(start, run), front, a);
    }
  }

  lemma {:induction false} NoSteps(run: seq<Item>, call: nat)
    requires forall i :: 0 <= i < |run| ==> run[i].call != call
    ensures AccountOf(run, call) == []
  {
    if run != [] {
      NoSteps(run[..|run| - 1], call);
    }
  }

  /** An honest run stays one when another call runs on its own, and leads where the call's account does. */
  lemma HonestGrows(start: State, run: seq<Item>, call: nat, met: seq<State>, account: seq<Action>, s: State)
    requires Honest(start, run) && forall i :: 0 <= i < |run| ==> run[i].call != call
    requires Sincere(met, account) && Explains(After(start, run), met, account, s)
    ensures Honest(start, run + Tagged(call, account)) && After(start, run + Tagged(call, account)) == s
  {
    hide AccountOf, After, Fits, Replay;
    var longer := run + Tagged(call, account);
    forall c ensures Disciplined(AccountOf(longer, c)) {
      Follows(start, run, call, account, c);
    }
    forall k | 0 <= k < |longer| ensures Fits(After(start, longer[..k]), longer[k].action) {
      if k < |run| {
        assert longer[..k] == run[..k];
      } else {
        Follows(start, run, call, account[..k - |run|], call);
        assert longer[..k] == run + Tagged(call, account[..k - |run|]);
      }
    }
    Follows(start, run, call, account, call);
  }

  // ---------------------------------------------------------------------------------------
  // Exactly when a step is unsafe
  // ---------------------------------------------------------------------------------------

  /** Another call formatted the device of step `k` after the call of step `k` saw it blank. */
  predicate FormattedBetween(run: seq<Item>, x: int, z: int, k: int) {
    && Interferes(run, x, z, k) && run[z].action.DidMkfs? && run[z].action.applied
    && run[k].action.DidMkfs? && run[x].action == SawType(run[k].action.device, "")
  }

  /** The step mounts something new on the path. */
  predicate MountsOn(a: Action, path: string) {
    a.DidMount? && a.path == path && a.applied && "remount" !in a.options
  }

  predicate Unmounts(a: Action, path: string) {
    a.DidUmount? && a.path == path && a.applied
  }

  /** The step relies on its path being unmounted. */
  predicate NeedsFree(a: Action) {
    a.DidRemove? || (a.DidMount? && "remount" !in a.options)
  }

  /** The step tells its call that the path is unmounted. */
  predicate ToldFree(a: Action, path: string) {
    a == SawMount(path, false) || (a.DidUmount? && a.path == path && a.gone)
  }

  /** Another call mounted on the path of step `k` after the call of step `k` was told that it is
      unmounted, and nobody unmounted it since. */
  ghost predicate MountedBetween(run: seq<Item>, x: int, z: int, k: int) {
    && Interferes(run, x, z, k) && NeedsFree(run[k].action)
    && ToldFree(run[x].action, run[k].action.path) && MountsOn(run[z].action, run[k].action.path)
    && forall y :: z < y < k ==> !Unmounts(run[y].action, run[k].action.path)
  }

  /** In any honest run, serialized or not, an mkfs meets a formatted device exactly when another call
      formatted it after this call saw it blank. */
  lemma UnsafeFormatIff(start: State, run: seq<Item>, k: nat)
    requires Honest(start, run) && k < |run| && run[k].action.DidMkfs?
    ensures !SafeIn(After(start, run[..k]), run[k].action) <==> exists x, z :: FormattedBetween(run, x, z, k)
  {
    var device := run[k].action.device;
    PermittedAt(start, run, k);
    if Held(After(start, run[..k]), device) != "" {
      var x, z := FormatterBetween(start, run, k, k, device);
      assert FormattedBetween(run, x, z, k);
    }
    if x, z :| FormattedBetween(run, x, z, k) {
      StaysFormatted(start, run, z, k);
    }
  }

  /** A call that knows a device to be blank saw it so. */
  lemma {:induction false} SawBlank(run: seq<Item>, j: nat, call: nat, device: string) returns (x: nat)
    requires j <= |run| && KnowsType(AccountOf(run[..j], call), device) == Some("")
    ensures x < j && run[x].call == call && run[x].action == SawType(device, "")
    decreases j
  {
    AccountStep(run, j, call);
    if run[j - 1].call == call {
      Learned(AccountOf(run[..j - 1], call), run[j - 1].action);
      if run[j - 1].action == SawType(device, "") {
        x := j - 1;
      } else {
        x := SawBlank(run, j - 1, call, device);
      }
    } else {
      assert AccountOf(run[..j - 1], call) + [] == AccountOf(run[..j - 1], call);
      x := SawBlank(run, j - 1, call, device);
    }
  }

  /** A device known to be blank and found formatted was formatted in between, by another call. */
  lemma {:induction false} FormatterBetween(start: State, run: seq<Item>, j: nat, k: nat, device: string)
    returns (x: nat, z: nat)
    requires Honest(start, run) && j <= k < |run|
    requires KnowsType(AccountOf(run[..j], run[k].call), device) == Some("")
    requires Held(After(start, run[..j]), device) != ""
    ensures x < z < j && run[x].call == run[k].call && run[z].call != run[k].call
    ensures run[x].action == SawType(device, "")
    ensures run[z].action.DidMkfs? && run[z].action.device == device && run[z].action.applied
    decreases j
  {
    hide After, AccountOf;
    var call := run[k].call;
    NoAccount(run, call);
    AccountStep(run, j, call);
    StateStep(start, run, j);
    var i, a := j - 1, run[j - 1].action;
    assert Fits(After(start, run[..i]), a);
    Elsewhere(After(start, run[..i]), a, "", device);
    if run[i].call == call {
      Learned(AccountOf(run[..i], call), a);
      x, z := FormatterBetween(start, run, i, k, device);
    } else {
      assert AccountOf(run[..i], call) + [] == AccountOf(run[..i], call);
      if a.DidMkfs? && a.device == device && a.applied {
        x := SawBlank(run, i, call, device);
        z := i;
      } else {
        x, z := FormatterBetween(start, run, i, k, device);
      }
    }
  }

  /** A formatted device stays so when every mkfs makes something, and is formatted by an mkfs. */
  lemma FormattedStep(s: State, a: Action, device: string)
    requires a.DidMkfs? ==> a.fsType != ""
    ensures Held(s, device) != "" ==> Held(Apply(s, a), device) != ""
    ensures a.DidMkfs? && a.applied && a.device == device ==> Held(Apply(s, a), device) != ""
  {
    Elsewhere(s, a, "", device);
  }

  lemma {:induction false} StaysFormatted(start: State, run: seq<Item>, z: nat, j: nat)
    requires Honest(start, run) && z < j <= |run| && run[z].action.DidMkfs? && run[z].action.applied
    ensures Held(After(start, run[..j]), run[z].action.device) != ""
    decreases j
  {
    hide After, AccountOf, KnowsType, KnowsFree, Apply, Honest, Held;
    PermittedAt(start, run, j - 1);
    StateStep(start, run, j);
    FormattedStep(After(start, run[..j - 1]), run[j - 1].action, run[z].action.device);
    if z < j - 1 {
      StaysFormatted(start, run, z, j - 1);
    }
  }

  /** In any honest run, serialized or not, no fsck meets a blank device. */
  lemma ChecksAreSafe(start: State, run: seq<Item>, k: nat)
    requires Honest(start, run) && k < |run| && run[k].action.DidFsck?
    ensures SafeIn(After(start, run[..k]), run[k].action)
  {
    PermittedAt(start, run, k);
    FormattedIsTrue(start, run, k, run[k].call, run[k].action.device);
  }

  /** A device a call knows to be formatted is. */
  lemma {:induction false} FormattedIsTrue(start: State, run: seq<Item>, j: nat, call: nat, device: string)
    requires Honest(start, run) && j <= |run|
    requires KnowsType(AccountOf(run[..j], call), device).Some?
    requires KnowsType(AccountOf(run[..j], call), device) != Some("")
    ensures Held(After(start, run[..j]), device) != ""
    decreases j
  {
    AccountStep(run, j, call);
    StateStep(start, run, j);
    var i, a := j - 1, run[j - 1].action;
    PermittedAt(start, run, i);
    assert Fits(After(start, run[..i]), a);
    Elsewhere(After(start, run[..i]), a, "", device);
    if run[i].call == call {
      Learned(AccountOf(run[..i], call), a);
      if !a.SawType? || a.device != device {
        FormattedIsTrue(start, run, i, call, device);
      }
    } else {
      assert AccountOf(run[..i], call) + [] == AccountOf(run[..i], call);
      FormattedIsTrue(start, run, i, call, device);
    }
  }

  /** While no path carries two mounts, a mount or a removal meets a mounted path exactly when another
      call mounted on it after this call was told that it is unmounted, and nobody unmounted it since. */
  lemma UnsafePathIff(start: State, run: seq<Item>, k: nat)
    requires Honest(start, run) && k < |run| && SingleUpTo(start, run, k) && NeedsFree(run[k].action)
    ensures !SafeIn(After(start, run[..k]), run[k].action) <==> exists x, z :: MountedBetween(run, x, z, k)
  {
    var path := run[k].action.path;
    PermittedAt(start, run, k);
    if Mounted(After(start, run[..k]), path) {
      var x, z := MounterBetween(start, run, k, k, path);
      assert MountedBetween(run, x, z, k);
    }
    if x, z :| MountedBetween(run, x, z, k) {
      StaysMounted(start, run, z, k, path);
    }
  }

  /** A call that knows a path to be unmounted was told so. */
  lemma {:induction false} WasToldFree(run: seq<Item>, j: nat, call: nat, path: string) returns (x: nat)
    requires j <= |run| && KnowsFree(AccountOf(run[..j], call), path)
    ensures x < j && run[x].call == call && ToldFree(run[x].action, path)
    decreases j
  {
    AccountStep(run, j, call);
    if run[j - 1].call == call {
      Learned(AccountOf(run[..j - 1], call), run[j - 1].action);
      if ToldFree(run[j - 1].action, path) {
        x := j - 1;
      } else {
        x := WasToldFree(run, j - 1, call, path);
      }
    } else {
      assert AccountOf(run[..j - 1], call) + [] == AccountOf(run[..j - 1], call);
      x := WasToldFree(run, j - 1, call, path);
    }
  }

  /** After a step that leaves a path mounted: who mounted it, and what its call knows. */
  lemma MountedAfter(s: State, a: Action, path: string, free: bool)
    requires Fits(s, a) && |Stack(s, path)| <= 1 && Mounted(Apply(s, a), path)
    ensures !Unmounts(a, path) && (MountsOn(a, path) || Mounted(s, path))
    ensures FreeAfter(free, a, path) ==> free && Mounted(s, path)
  {
    Elsewhere(s, a, path, "");
  }

  /** A path known to be unmounted and found mounted was mounted on in between, by another call. */
  lemma {:induction false} MounterBetween(start: State, run: seq<Item>, j: nat, k: nat, path: string)
    returns (x: nat, z: nat)
    requires Honest(start, run) && j <= k < |run| && SingleUpTo(start, run, k)
    requires KnowsFree(AccountOf(run[..j], run[k].call), path) && Mounted(After(start, run[..j]), path)
    ensures x < z < j && run[x].call == run[k].call && run[z].call != run[k].call
    ensures ToldFree(run[x].action, path) && MountsOn(run[z].action, path)
    ensures forall y :: z < y < j ==> !Unmounts(run[y].action, path)
    decreases j
  {
    hide After, AccountOf, FreeAfter, Apply, Fits, Mounted, ToldFree, MountsOn, Unmounts, Stack;
    var call := run[k].call;
    NoAccount(run, call);
    AccountStep(run, j, call);
    StateStep(start, run, j);
    var i, a := j - 1, run[j - 1].action;
    var s, known := After(start, run[..i]), AccountOf(run[..i], call);
    assert Fits(s, a) && Single(s);
    MountedAfter(s, a, path, KnowsFree(known, path));
    if run[i].call == call {
      Learned(known, a);
      x, z := MounterBetween(start, run, i, k, path);
    } else {
      assert known + [] == known;
      if MountsOn(a, path) {
        x := WasToldFree(run, i, call, path);
        z := i;
      } else {
        x, z := MounterBetween(start, run, i, k, path);
      }
    }
  }

  lemma {:induction false} StaysMounted(start: State, run: seq<Item>, z: nat, j: nat, path: string)
    requires z < j <= |run| && MountsOn(run[z].action, path)
    requires forall y :: z < y < j ==> !Unmounts(run[y].action, path)
    ensures Mounted(After(start, run[..j]), path)
    decreases j
  {
    StateStep(start, run, j);
    Elsewhere(After(start, run[..j - 1]), run[j - 1].action, path, "");
    if z < j - 1 {
      StaysMounted(start, run, z, j - 1, path);
    }
  }

  /** Step `k` acts on what its call learned at step `x` although another call's step `z` changed it. */
  ghost predicate Overtaken(run: seq<Item>, x: int, z: int, k: int) {
    FormattedBetween(run, x, z, k) || MountedBetween(run, x, z, k)
  }

  lemma UnsafeIff(start: State, run: seq<Item>, k: nat)
    requires Honest(start, run) && k < |run| && SingleUpTo(start, run, k)
    ensures !SafeIn(After(start, run[..k]), run[k].action) <==> exists x, z :: Overtaken(run, x, z, k)
  {
    hide After, Apply, Interferes, Honest, SingleUpTo;
    var a := run[k].action;
    if a.DidMkfs? {
      UnsafeFormatIff(start, run, k);
      assert forall x, z :: Overtaken(run, x, z, k) <==> FormattedBetween(run, x, z, k);
    } else if NeedsFree(a) {
      UnsafePathIff(start, run, k);
      assert forall x, z :: Overtaken(run, x, z, k) <==> MountedBetween(run, x, z, k);
    } else if a.DidFsck? {
      ChecksAreSafe(start, run, k);
    }
  }

  lemma {:induction false} SingleWhileSafe(start: State, run: seq<Item>, k: nat)
    requires Single(start) && k <= |run|
    requires forall i :: 0 <= i < k ==> SafeIn(After(start, run[..i]), run[i].action)
    ensures SingleUpTo(start, run, k) && TypesKept(start, After(start, run[..k]))
    decreases k
  {
    hide After, Apply, SafeIn, Single, TypesKept;
    if k == 0 {
      NothingRun(start, run);
    } else {
      SingleWhileSafe(start, run, k - 1);
      StateStep(start, run, k);
      SafeStep(After(start, run[..k - 1]), run[k - 1].action);
      TypesKeptOn(start, After(start, run[..k - 1]), After(start, run[..k]));
    }
  }

  /** An interleaving of calls is safe throughout exactly when no step in it is overtaken. */
  lemma SafeRunIff(start: State, run: seq<Item>)
    requires Single(start) && Honest(start, run)
    ensures (forall k :: 0 <= k < |run| ==> SafeIn(After(start, run[..k]), run[k].action))
       <==> !exists x, z, k :: Overtaken(run, x, z, k)
  {
    hide After, SafeIn, Single, Honest, SingleUpTo;
    if forall k :: 0 <= k < |run| ==> SafeIn(After(start, run[..k]), run[k].action) {
      forall x, z, k ensures !Overtaken(run, x, z, k) {
        if Overtaken(run, x, z, k) {
          SingleWhileSafe(start, run, k);
          UnsafeIff(start, run, k);
        }
      }
    }
    if !exists x, z, k :: Overtaken(run, x, z, k) {
      NeverOvertaken(start, run, |run|);
    }
  }

  lemma {:induction false} NeverOvertaken(start: State, run: seq<Item>, k: nat)
    requires Single(start) && Honest(start, run) && k <= |run|
    requires !exists x, z, k :: Overtaken(run, x, z, k)
    ensures forall i :: 0 <= i < k ==> SafeIn(After(start, run[..i]), run[i].action)
    decreases k
  {
    hide After, SafeIn, Single, Honest, SingleUpTo, Overtaken;
    if k > 0 {
      NeverOvertaken(start, run, k - 1);
      SingleWhileSafe(start, run, k - 1);
      UnsafeIff(start, run, k - 1);
    }
  }

  /** Another call makes a step while a call is in progress. */
  predicate Overlaps(run: seq<Item>, x: int, z: int, y: int) {
    0 <= x < z < y < |run| && run[x].call == run[y].call && run[z].call != run[x].call
  }

  /** Calls that overlap are about different paths and devices: what a lock on each path and device of a
      call, held while it is in progress, brings about. */
  ghost predicate Apart(run: seq<Item>, concern: nat -> set<Subject>) {
    forall x, z, y :: Overlaps(run, x, z, y) ==> concern(run[x].call) !! concern(run[z].call)
  }

  lemma EffectConcerns(run: seq<Item>, k: nat, concern: nat -> set<Subject>)
    requires k < |run| && Concerned(AccountOf(run, run[k].call), concern(run[k].call))
    ensures IsEffect(run[k].action) ==> SubjectOf(run[k].action) in concern(run[k].call)
  {
    var more := AccountGrows(run, k + 1, run[k].call);
    AccountStep(run, k + 1, run[k].call);
  }

  /** The calls of two steps are about something in common. */
  ghost predicate Shared(run: seq<Item>, x: int, z: int, concern: nat -> set<Subject>) {
    0 <= x < |run| && 0 <= z < |run| && !(concern(run[x].call) !! concern(run[z].call))
  }

  lemma OvertakenShare(run: seq<Item>, x: int, z: int, k: int, concern: nat -> set<Subject>)
    requires Overtaken(run, x, z, k)
    requires forall call :: Concerned(AccountOf(run, call), concern(call))
    ensures Overlaps(run, x, z, k) && Shared(run, x, z, concern)
  {
    EffectConcerns(run, k, concern);
    EffectConcerns(run, z, concern);
    assert SubjectOf(run[z].action) in concern(run[x].call) * concern(run[z].call);
  }

  /** Calls that change only what they are about, and are about different things when they overlap, are
      safe however their steps interleave: no step is unsafe, no path ever carries two mounts, no
      formatted device changes its type. */
  lemma ApartCallsAreSafe(start: State, run: seq<Item>, concern: nat -> set<Subject>)
    requires Single(start) && Honest(start, run) && Apart(run, concern)
    requires forall call :: Concerned(AccountOf(run, call), concern(call))
    ensures forall k :: 0 <= k < |run| ==> SafeIn(After(start, run[..k]), run[k].action)
    ensures SingleUpTo(start, run, |run|) && TypesKept(start, After(start, run))
  {
    hide After, SafeIn, Single, Honest, SingleUpTo, AccountOf, Concerned, TypesKept;
    assert run[..|run|] == run;
    forall x, z, k ensures Overtaken(run, x, z, k) ==> Overlaps(run, x, z, k) && Shared(run, x, z, concern) {
      if Overtaken(run, x, z, k) {
        OvertakenShare(run, x, z, k, concern);
      }
    }
    NeverOvertaken(start, run, |run|);
    SingleWhileSafe(start, run, |run|);
  }

  /** Serialized paths are not enough: two stagings of one blank device at different paths both find it
      blank, and the second mkfs meets a formatted device. */
  lemma OneDeviceTwoPaths()
    ensures var run := TwoStagings();
      && Honest(State(map[], {}, map[]), run) && PathsSerialized(run)
      && !SafeIn(After(State(map[], {}, map[]), run[..5]), run[5].action)
  {
    hide After, AccountOf, Disciplined;
    var s0 := State(map[], {}, map[]);
    var run := TwoStagings();
    forall k | 0 <= k < |run| ensures Fits(After(s0, run[..k]), run[k].action) {
      StatesOfTwo(k);
    }
    forall call ensures Disciplined(AccountOf(run, call)) {
      AccountsOfTwo(call);
    }
    StatesOfTwo(5);
  }

  function TwoStagings(): seq<Item> {
    [Item(0, SawMount("/a", false)), Item(1, SawMount("/b", false)),
     Item(0, SawType("d", "")), Item(1, SawType("d", "")),
     Item(0, DidMkfs("d", "ext4", true)), Item(1, DidMkfs("d", "ext4", true))]
  }

  lemma StatesOfTwo(k: nat)
    requires k <= 5
    ensures var s0 := State(map[], {}, map[]);
      After(s0, TwoStagings()[..k]) == if k == 5 then AfterMkfs(s0, "d", "ext4") else s0
  {
    var s0, run := State(map[], {}, map[]), TwoStagings();
    if k > 0 {
      StatesOfTwo(k - 1);
      StateStep(s0, run, k);
    } else {
      assert run[..0] == [];
    }
  }

  lemma AccountsOfTwo(call: nat)
    ensures Disciplined(AccountOf(TwoStagings(), call))
  {
    var run := TwoStagings();
    var path := if call == 0 then "/a" else "/b";
    var known: seq<Action> := [SawMount(path, false)] + [SawType("d", "")];
    FirstAccounts(call);
    if call <= 1 {
      var saw: seq<Action> := [SawMount(path, false)];
      Learned([], SawMount(path, false));
      assert [] + saw == saw;
      Learned(saw, SawType("d", ""));
      Learned(known, DidMkfs("d", "ext4", true));
    }
  }

  /** What one of the two has been told. */
  function ToldTwo(call: nat): seq<Action> {
    if call > 1 then []
    else [SawMount(if call == 0 then "/a" else "/b", false)] + [SawType("d", "")]
  }

  lemma ToldAccounts(call: nat)
    ensures AccountOf(TwoStagings()[..4], call) == ToldTwo(call)
  {
    hide AccountOf;
    var run := TwoStagings();
    NoAccount(run, call);
    AccountStep(run, 1, call);
    AccountStep(run, 2, call);
    AccountStep(run, 3, call);
    AccountStep(run, 4, call);
  }

  lemma FirstAccounts(call: nat)
    ensures AccountOf(TwoStagings(), call)
         == if call > 1 then [] else ToldTwo(call) + [DidMkfs("d", "ext4", true)]
  {
    hide AccountOf;
    var run := TwoStagings();
    assert run[..6] == run;
    ToldAccounts(call);
    AccountStep(run, 5, call);
    AccountStep(run, 6, call);
  }
}
