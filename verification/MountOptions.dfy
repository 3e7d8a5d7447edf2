/** Option lists and argument vectors of mount commands: internal/mount/mount.go,
    internal/mount/mounttest/mounttest.go and the option building of internal/driver/node.go. */
module MountOptions {
  import opened Sequences

  type Opts = seq<string>

  // ---------------------------------------------------------------------------------------
  // Source flags
  // ---------------------------------------------------------------------------------------

  /** A mount flag as statfs reports it, and the option that restates it. */
  datatype Mapping = Mapping(flag: Flag, option: string)

  type Flag = x: int | x > 0 witness 1

  const BIND_REMOUNT_OPTIONS: seq<Mapping> := [
    Mapping(0x0001, "ro"), Mapping(0x0002, "nosuid"), Mapping(0x0004, "nodev"), Mapping(0x0008, "noexec"),
    Mapping(0x0400, "noatime"), Mapping(0x0800, "nodiratime"), Mapping(0x1000, "relatime"),
    Mapping(0x2000, "nosymfollow")]

  /** flags & flag == flag, for a flag of a single bit. */
  predicate HasFlag(flags: int, flag: Flag) {
    flags / flag % 2 == 1
  }

  /** The options whose flag is set, in table order. */
  function OptionsOf(flags: int, table: seq<Mapping>): Opts {
    if table == [] then []
    else
      var n := |table| - 1;
      OptionsOf(flags, table[..n]) + (if HasFlag(flags, table[n].flag) then [table[n].option] else [])
  }

  function SourceOptions(flags: int): Opts {
    OptionsOf(flags, BIND_REMOUNT_OPTIONS)
  }

  method SourceMountOptions(flags: int) returns (options: Opts)
    ensures options == SourceOptions(flags)
  {
    var table := BIND_REMOUNT_OPTIONS;
    options := [];
    for i := 0 to |table|
      invariant options == OptionsOf(flags, table[..i])
    {
      assert table[..i + 1][..i] == table[..i];
      if HasFlag(flags, table[i].flag) {
        options := options + [table[i].option];
      }
    }
    assert table[..|table|] == table;
  }

  ghost predicate Listed(flags: int, table: seq<Mapping>, option: string) {
    exists i :: 0 <= i < |table| && table[i].option == option && HasFlag(flags, table[i].flag)
  }

  lemma {:induction false} OptionMember(flags: int, table: seq<Mapping>, option: string)
    ensures option in OptionsOf(flags, table) <==> Listed(flags, table, option)
    decreases |table|
  {
    if table != [] {
      var n := |table| - 1;
      OptionMember(flags, table[..n], option);
      ListedStep(flags, table, option);
    }
  }

  lemma ListedStep(flags: int, table: seq<Mapping>, option: string)
    requires |table| > 0
    ensures var n := |table| - 1;
      Listed(flags, table, option)
      <==> Listed(flags, table[..n], option) || (table[n].option == option && HasFlag(flags, table[n].flag))
  {
    var n := |table| - 1;
    assert forall i :: 0 <= i < n ==> table[..n][i] == table[i];
  }

  /** A source is restated as read-only exactly when its read-only flag is set, and never as
      writable. */
  lemma SourceReadOnly(flags: int)
    ensures "ro" in SourceOptions(flags) <==> HasFlag(flags, 1)
    ensures "rw" !in SourceOptions(flags)
  {
    var table := BIND_REMOUNT_OPTIONS;
    OptionMember(flags, table, "ro");
    OptionMember(flags, table, "rw");
    assert table[0] == Mapping(1, "ro");
    assert forall i :: 0 < i < |table| ==> table[i].option != "ro";
    assert forall i :: 0 <= i < |table| ==> table[i].option != "rw";
  }

  /** Which bit of the flags brings which option back. */
  lemma SourceFlags(flags: int)
    ensures "nosuid" in SourceOptions(flags) <==> flags / 2 % 2 == 1
    ensures "nodev" in SourceOptions(flags) <==> flags / 4 % 2 == 1
    ensures "noexec" in SourceOptions(flags) <==> flags / 8 % 2 == 1
    ensures "noatime" in SourceOptions(flags) <==> flags / 0x400 % 2 == 1
    ensures "nodiratime" in SourceOptions(flags) <==> flags / 0x800 % 2 == 1
    ensures "relatime" in SourceOptions(flags) <==> flags / 0x1000 % 2 == 1
    ensures "nosymfollow" in SourceOptions(flags) <==> flags / 0x2000 % 2 == 1
  {
    SourceFlag(flags, 1, "nosuid");
    SourceFlag(flags, 2, "nodev");
    SourceFlag(flags, 3, "noexec");
    SourceFlag(flags, 4, "noatime");
    SourceFlag(flags, 5, "nodiratime");
    SourceFlag(flags, 6, "relatime");
    SourceFlag(flags, 7, "nosymfollow");
  }

  lemma SourceFlag(flags: int, k: nat, option: string)
    requires k < |BIND_REMOUNT_OPTIONS| && BIND_REMOUNT_OPTIONS[k].option == option
    requires forall i :: 0 <= i < |BIND_REMOUNT_OPTIONS| && BIND_REMOUNT_OPTIONS[i].option == option ==> i == k
    ensures option in SourceOptions(flags) <==> HasFlag(flags, BIND_REMOUNT_OPTIONS[k].flag)
  {
    OptionMember(flags, BIND_REMOUNT_OPTIONS, option);
  }

  // ---------------------------------------------------------------------------------------
  // The remount list
  // ---------------------------------------------------------------------------------------

  predicate Dropped(option: string, sourceReadOnly: bool) {
    option == "bind" || option == "rbind" || option == "remount" || (option == "rw" && sourceReadOnly)
  }

  /** The list after the options have been looked at, in order. */
  function Collected(start: Opts, options: Opts, sourceReadOnly: bool): (r: Opts)
    ensures start <= r
    ensures forall o :: o in r <==> o in start || (o in options && !Dropped(o, sourceReadOnly))
  {
    if options == [] then start
    else
      var n := |options| - 1;
      var before := Collected(start, options[..n], sourceReadOnly);
      assert options == options[..n] + [options[n]];
      if Dropped(options[n], sourceReadOnly) || options[n] in before then before else before + [options[n]]
  }

  /** The specification of the option loop of remountBind. */
  function RemountOptions(source: Opts, request: Opts): (r: Opts) {
    Collected(["bind", "remount"], source + request, "ro" in source)
  }

  lemma CollectedNothing(start: Opts, ro: bool)
    ensures Collected(start, [], ro) == start
  {
  }

  lemma CollectedStep(start: Opts, options: Opts, i: nat, ro: bool)
    requires i < |options|
    ensures var before, option := Collected(start, options[..i], ro), options[i];
      Collected(start, options[..i + 1], ro)
      == if Dropped(option, ro) || option in before then before else before + [option]
  {
    assert options[..i + 1][..i] == options[..i];
  }

  method BuildRemountOptions(source: Opts, request: Opts) returns (remountOptions: Opts)
    ensures remountOptions == RemountOptions(source, request)
  {
    hide Collected;
    var sourceReadOnly := "ro" in source;
    remountOptions := ["bind", "remount"];
    CollectedNothing(remountOptions, sourceReadOnly);
    var all := source + request;
    for i := 0 to |all|
      invariant remountOptions == Collected(["bind", "remount"], all[..i], sourceReadOnly)
    {
      var option := all[i];
      CollectedStep(["bind", "remount"], all, i, sourceReadOnly);
      if option == "bind" || option == "rbind" || option == "remount" {
        continue;
      }
      if option == "rw" && sourceReadOnly {
        continue;
      }
      if option !in remountOptions {
        remountOptions := remountOptions + [option];
      }
    }
    assert all[..|all|] == all;
  }

  /** Where `option` occurs first. */
  function Position(options: Opts, option: string): (k: nat)
    requires option in options
    ensures k < |options| && options[k] == option
    ensures forall j :: 0 <= j < k ==> options[j] != option
  {
    var n := |options| - 1;
    assert options == options[..n] + [options[n]];
    if option in options[..n] then Position(options[..n], option) else n
  }

  /** Beyond the two fixed options, `r` lists options of `all` by their first occurrence. */
  ghost predicate InOrder(all: Opts, r: Opts) {
    forall i, j :: 2 <= i < j < |r| && r[i] in all && r[j] in all ==> Position(all, r[i]) < Position(all, r[j])
  }

  lemma {:induction false} CollectedDistinct(start: Opts, options: Opts, ro: bool)
    requires Distinct(start)
    ensures Distinct(Collected(start, options, ro))
    decreases |options|
  {
    if options != [] {
      CollectedDistinct(start, options[..|options| - 1], ro);
    }
  }

  lemma {:induction false} CollectedInOrder(options: Opts, ro: bool)
    ensures InOrder(options, Collected(["bind", "remount"], options, ro))
    decreases |options|
  {
    if options != [] {
      var n := |options| - 1;
      assert options == options[..n] + [options[n]];
      CollectedInOrder(options[..n], ro);
      CollectedDistinct(["bind", "remount"], options, ro);
      var r := Collected(["bind", "remount"], options, ro);
      forall i, j | 2 <= i < j < |r| ensures Position(options, r[i]) < Position(options, r[j]) {
        Kept(["bind", "remount"], options, ro, i);
        Kept(["bind", "remount"], options, ro, j);
        OrderStep(options[..n], options[n], Collected(["bind", "remount"], options[..n], ro), r, i, j);
      }
    }
  }

  /** Order survives one more option: what is already listed was met before it. */
  lemma OrderStep(init: Opts, last: string, before: Opts, r: Opts, i: int, j: int)
    requires InOrder(init, before) && Distinct(r)
    requires r == before || r == before + [last]
    requires 2 <= i < j < |r| && r[i] in init + [last] && r[j] in init + [last]
    requires r[i] in before ==> r[i] in init
    requires r[j] in init ==> r[j] in before
    ensures Position(init + [last], r[i]) < Position(init + [last], r[j])
  {
    assert (init + [last])[..|init|] == init;
    assert before[i] == r[i];
    if r[j] in init {
      var m :| 0 <= m < |before| && before[m] == r[j];
      assert r[m] == r[j];
    }
  }

  /** A collected option beyond the start comes from the options and is not a dropped one. */
  lemma Kept(start: Opts, options: Opts, ro: bool, i: int)
    requires var r := Collected(start, options, ro);
      Distinct(r) && |start| <= i < |r|
    ensures var o := Collected(start, options, ro)[i];
      o in options && !Dropped(o, ro) && o !in start
  {
    var r := Collected(start, options, ro);
    assert r[i] in r;
    assert forall j :: 0 <= j < |start| ==> r[j] == start[j];
  }

  /** `bind,remount`, then the first occurrences of source flags and request in order: no option
      twice, none of bind, rbind, remount beyond the first two, no rw over a read-only source. */
  lemma RemountShape(source: Opts, request: Opts)
    ensures var r, all := RemountOptions(source, request), source + request;
      && ["bind", "remount"] <= r && Distinct(r) && InOrder(all, r)
      && (forall k :: 2 <= k < |r| ==> r[k] in all && !Dropped(r[k], "ro" in source))
      && (forall o :: o in all && !Dropped(o, "ro" in source) ==> o in r)
  {
    var r, all := RemountOptions(source, request), source + request;
    CollectedDistinct(["bind", "remount"], all, "ro" in source);
    CollectedInOrder(all, "ro" in source);
    forall k | 2 <= k < |r| ensures r[k] in all && !Dropped(r[k], "ro" in source) {
      assert r[k] in r;
      assert r[0] == "bind" && r[1] == "remount";
    }
  }

  /** Options already listed change nothing. */
  lemma {:induction false} CollectedAgain(start: Opts, options: Opts, ro: bool)
    requires forall o :: o in options && !Dropped(o, ro) ==> o in start
    ensures Collected(start, options, ro) == start
    decreases |options|
  {
    if options != [] {
      var n := |options| - 1;
      assert options == options[..n] + [options[n]];
      CollectedAgain(start, options[..n], ro);
    }
  }

  lemma {:induction false} CollectedConcat(start: Opts, a: Opts, b: Opts, ro: bool)
    ensures Collected(start, a + b, ro) == Collected(Collected(start, a, ro), b, ro)
    decreases |b|
  {
    if b == [] {
      assert a + b == a;
    } else {
      var n := |b| - 1;
      CollectedConcat(start, a, b[..n], ro);
      assert (a + b)[..|a + b| - 1] == a + b[..n];
    }
  }

  /** Distinct new options are appended as they are. */
  lemma {:induction false} CollectedFresh(start: Opts, more: Opts, ro: bool)
    requires Distinct(start + more) && forall o :: o in more ==> !Dropped(o, ro)
    ensures Collected(start, more, ro) == start + more
    decreases |more|
  {
    if more != [] {
      var n := |more| - 1;
      assert more == more[..n] + [more[n]];
      var all := start + more;
      assert all == start + more[..n] + [more[n]];
      assert forall i :: 0 <= i < |all| - 1 ==> (start + more[..n])[i] == all[i];
      CollectedFresh(start, more[..n], ro);
      assert more[n] == all[|all| - 1];
      assert more[n] !in start + more[..n];
    } else {
      assert start + more == start;
    }
  }

  /** Collecting again what was collected after `first` appends it unchanged. */
  lemma CollectedTwice(base: Opts, first: Opts, request: Opts, ro: bool)
    requires base <= first && Distinct(first)
    requires forall o :: o in first ==> o in base || !Dropped(o, ro)
    ensures Collected(first, Collected(first, request, ro), ro) == Collected(first, request, ro)
  {
    hide Collected, Dropped;
    var r := Collected(first, request, ro);
    var more := r[|first|..];
    assert r == first + more;
    CollectedDistinct(first, request, ro);
    CollectedConcat(first, first, more, ro);
    CollectedAgain(first, first, ro);
    forall o | o in more ensures !Dropped(o, ro) {
      var k :| 0 <= k < |more| && more[k] == o;
      assert r[|first| + k] == o;
      Kept(first, request, ro, |first| + k);
    }
    CollectedFresh(first, more, ro);
  }

  /** Feeding the list back as the request reproduces it: repeating a publish changes nothing. */
  lemma RemountFixedPoint(source: Opts, request: Opts)
    ensures RemountOptions(source, RemountOptions(source, request)) == RemountOptions(source, request)
  {
    var base: Opts := ["bind", "remount"];
    var ro := "ro" in source;
    var first := Collected(base, source, ro);
    CollectedConcat(base, source, request, ro);
    CollectedConcat(base, source, RemountOptions(source, request), ro);
    CollectedDistinct(base, source, ro);
    CollectedTwice(base, first, request, ro);
  }

  // ---------------------------------------------------------------------------------------
  // Publication
  // ---------------------------------------------------------------------------------------

  /** The mount flags NodePublishVolume adds. */
  function ExtraFlags(flags: Opts): (r: Opts)
    ensures forall o :: o in r <==> o in flags && o != "bind" && o != "ro"
  {
    if flags == [] then []
    else
      var n := |flags| - 1;
      assert flags == flags[..n] + [flags[n]];
      ExtraFlags(flags[..n]) + (if flags[n] != "bind" && flags[n] != "ro" then [flags[n]] else [])
  }

  /** What becomes of one flag. */
  function ExtraFlag(o: string): (r: Opts)
    ensures r == [] || r == [o]
  {
    if o != "bind" && o != "ro" then [o] else []
  }

  lemma ExtraFlagsStep(flags: Opts, o: string)
    ensures ExtraFlags(flags + [o]) == ExtraFlags(flags) + ExtraFlag(o)
  {
    assert (flags + [o])[..|flags|] == flags;
  }

  /** Flags are looked at one by one: each other than bind and ro stays, in place. */
  lemma {:induction false} ExtraFlagsInOrder(a: Opts, b: Opts)
    ensures ExtraFlags(a + b) == ExtraFlags(a) + ExtraFlags(b)
    decreases |b|
  {
    hide ExtraFlag, ExtraFlags;
    if b == [] {
      assert a + b == a;
      NoFlags("");
      assert ExtraFlags(a) + [] == ExtraFlags(a);
    } else {
      var front, o := b[..|b| - 1], b[|b| - 1];
      ExtraFlagsInOrder(a, front);
      assert front + [o] == b;
      Associates(a, front, [o]);
      ExtraFlagsStep(front, o);
      ExtraFlagsStep(a + front, o);
      Associates(ExtraFlags(a), ExtraFlags(front), ExtraFlag(o));
    }
  }

  lemma NoFlags(o: string)
    ensures Times([], o) == 0 && ExtraFlags([]) == []
  {
  }

  /** How often an option is listed. */
  function Times(options: Opts, o: string): nat {
    if options == [] then 0
    else Times(options[..|options| - 1], o) + (if options[|options| - 1] == o then 1 else 0)
  }

  /** Every mount flag that stays is handed on as often as it was given. */
  lemma {:induction false} ExtraFlagsCounted(flags: Opts, o: string)
    ensures Times(ExtraFlags(flags), o) == if ExtraFlag(o) == [] then 0 else Times(flags, o)
    decreases |flags|
  {
    hide ExtraFlag, ExtraFlags, Times;
    if flags == [] {
      NoFlags(o);
    } else {
      var front, last := flags[..|flags| - 1], flags[|flags| - 1];
      assert front + [last] == flags;
      ExtraFlagsCounted(front, o);
      ExtraFlagsStep(front, last);
      TimesStep(front, last, o);
      if ExtraFlag(last) == [] {
        assert ExtraFlags(front) + [] == ExtraFlags(front);
      } else {
        TimesStep(ExtraFlags(front), last, o);
      }
    }
  }

  lemma TimesStep(options: Opts, last: string, o: string)
    ensures Times(options + [last], o) == Times(options, o) + (if last == o then 1 else 0)
  {
    assert (options + [last])[..|options|] == options;
  }

  function PublishOptions(readonly: bool, flags: Opts): Opts {
    ["bind"] + (if readonly then ["ro"] else []) + ExtraFlags(flags)
  }

  method BuildPublishOptions(readonly: bool, flags: Opts) returns (mountOptions: Opts)
    ensures mountOptions == PublishOptions(readonly, flags)
  {
    mountOptions := ["bind"];
    if readonly {
      mountOptions := mountOptions + ["ro"];
    }
    ghost var start := mountOptions;
    for i := 0 to |flags|
      invariant mountOptions == start + ExtraFlags(flags[..i])
    {
      assert flags[..i + 1][..i] == flags[..i];
      if flags[i] != "bind" && flags[i] != "ro" {
        mountOptions := mountOptions + [flags[i]];
      }
    }
    assert flags[..|flags|] == flags;
  }
}
