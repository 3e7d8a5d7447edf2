/** The argument vector of a mount command and its parser: the printer in internal/mount/mount.go
    and its inverse in internal/mount/mounttest/mounttest.go. */
module MountArgs {

  /** strings.Join(parts, ",") */
  function Join(parts: seq<string>): string {
    if parts == [] then ""
    else if |parts| == 1 then parts[0]
    else parts[0] + "," + Join(parts[1..])
  }

  /** strings.Split(s, ","): one part more than there are commas. */
  function Split(s: string): (parts: seq<string>)
    ensures |parts| > 0
    ensures forall i :: 0 <= i < |parts| ==> ',' !in parts[i]
  {
    if s == "" then [""]
    else
      var rest := Split(s[1..]);
      if s[0] == ',' then [""] + rest else [[s[0]] + rest[0]] + rest[1..]
  }

  lemma {:induction false} SplitPart(part: string)
    requires ',' !in part
    ensures Split(part) == [part]
  {
    if part != "" {
      assert part[0] in part;
      SplitPart(part[1..]);
      assert [part[0]] + part[1..] == part;
    }
  }

  /** Splitting at one comma splits both sides. */
  lemma {:induction false} SplitComma(a: string, b: string)
    ensures Split(a + "," + b) == Split(a) + Split(b)
  {
    var all := a + "," + b;
    if a == "" {
      assert all[0] == ',';
      assert all[1..] == b;
    } else {
      assert all[1..] == a[1..] + "," + b;
      SplitComma(a[1..], b);
    }
  }

  lemma {:induction false} SplitJoin(parts: seq<string>)
    requires |parts| > 0 && forall i :: 0 <= i < |parts| ==> ',' !in parts[i]
    ensures Split(Join(parts)) == parts
  {
    SplitPart(parts[0]);
    if |parts| > 1 {
      SplitComma(parts[0], Join(parts[1..]));
      SplitJoin(parts[1..]);
    }
  }

  function TypeArgs(fsType: string): seq<string> {
    if fsType == "" then [] else ["-t", fsType]
  }

  function OptionArgs(options: seq<string>): seq<string> {
    if options == [] then [] else ["-o", Join(options)]
  }

  method BuildMountArgs(source: string, target: string, fsType: string, options: seq<string>)
    returns (args: seq<string>)
    ensures args == TypeArgs(fsType) + OptionArgs(options) + [source, target]
  {
    args := [];
    if fsType != "" {
      args := args + ["-t", fsType];
    }
    if |options| > 0 {
      args := args + ["-o", Join(options)];
    }
    args := args + [source, target];
  }

  /** What the scan leaves behind from position `i` on: an option name takes the next argument as its
      value, anything else is passed over. */
  function Scan(args: seq<string>, i: nat, fsType: string, options: seq<string>): (string, seq<string>)
    decreases |args| - i
  {
    if i + 2 >= |args| then (fsType, options)
    else if args[i] == "-t" then Scan(args, i + 2, args[i + 1], options)
    else if args[i] == "-o" then Scan(args, i + 2, fsType, Split(args[i + 1]))
    else Scan(args, i + 1, fsType, options)
  }

  method ParseMountArgs(args: seq<string>)
    returns (source: string, target: string, fsType: string, options: seq<string>)
    ensures |args| < 2 ==> source == "" && target == "" && fsType == "" && options == []
    ensures |args| >= 2 ==> [source, target] == args[|args| - 2..] && (fsType, options) == Scan(args, 0, "", [])
  {
    source, target, fsType, options := "", "", "", [];
    if |args| < 2 {
      return;
    }
    source, target := args[|args| - 2], args[|args| - 1];
    var i := 0;
    while i < |args| - 2
      invariant 0 <= i
      invariant Scan(args, i, fsType, options) == Scan(args, 0, "", [])
    {
      if args[i] == "-t" {
        fsType := args[i + 1];
        i := i + 1;
      } else if args[i] == "-o" {
        options := Split(args[i + 1]);
        i := i + 1;
      }
      i := i + 1;
    }
  }

  /** The parser inverts the printer, whatever source, target, type and comma-free options are:
      empty lists, an empty type, and values that look like option names included. */
  lemma ScanInverts(source: string, target: string, fsType: string, options: seq<string>)
    requires forall i :: 0 <= i < |options| ==> ',' !in options[i]
    ensures Scan(TypeArgs(fsType) + OptionArgs(options) + [source, target], 0, "", []) == (fsType, options)
  {
    var args := TypeArgs(fsType) + OptionArgs(options) + [source, target];
    var i := |TypeArgs(fsType)|;
    assert Scan(args, 0, "", []) == Scan(args, i, fsType, []);
    if options != [] {
      SplitJoin(options);
      assert args[i] == "-o" && args[i + 1] == Join(options);
      assert Scan(args, i, fsType, []) == Scan(args, i + 2, fsType, options);
    }
  }

  method RoundTrip(source: string, target: string, fsType: string, options: seq<string>)
    returns (s: string, t: string, f: string, o: seq<string>)
    requires forall i :: 0 <= i < |options| ==> ',' !in options[i]
    ensures s == source && t == target && f == fsType && o == options
  {
    var args := BuildMountArgs(source, target, fsType, options);
    s, t, f, o := ParseMountArgs(args);
    ScanInverts(source, target, fsType, options);
    assert args[|args| - 2..] == [source, target];
  }
}
