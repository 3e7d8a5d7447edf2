/** Which option lists mount takes as read-only: the remount list of internal/mount/mount.go for the
    publications of internal/driver/node.go, as the mount command reads it. */
module ReadOnly {
  import opened Sequences
  import opened MountArgs
  import opened MountOptions

  datatype Word = NoWord | SaysRo | SaysRw

  /** Of the tokens that say ro or rw, the last one counts. */
  function LastWord(tokens: seq<string>): Word {
    if tokens == [] then NoWord
    else
      var last := tokens[|tokens| - 1];
      if last == "ro" then SaysRo
      else if last == "rw" then SaysRw
      else LastWord(tokens[..|tokens| - 1])
  }

  /** The list is joined by commas on its way to mount, which takes it apart again: an option that
      holds a comma arrives as several. */
  predicate EffectivelyReadOnly(options: Opts) {
    LastWord(Split(Join(options))) == SaysRo
  }

  /** What one option says, all its tokens considered. */
  function OptionWord(option: string): Word {
    LastWord(Split(option))
  }

  function ListWord(options: Opts): Word {
    if options == [] then NoWord
    else if ListWord(options[1..]) == NoWord then OptionWord(options[0])
    else ListWord(options[1..])
  }

  lemma {:induction false} LastWordConcat(a: seq<string>, b: seq<string>)
    ensures LastWord(a + b) == if LastWord(b) == NoWord then LastWord(a) else LastWord(b)
    decreases |b|
  {
    if b == [] {
      assert a + b == a;
    } else {
      var n := |b| - 1;
      LastWordConcat(a, b[..n]);
      assert (a + b)[..|a + b| - 1] == a + b[..n];
    }
  }

  /** mount reads the joined list option by option. */
  lemma {:induction false} JoinedWord(options: Opts)
    requires |options| > 0
    ensures LastWord(Split(Join(options))) == ListWord(options)
    decreases |options|
  {
    if |options| > 1 {
      JoinedWord(options[1..]);
      SplitComma(options[0], Join(options[1..]));
      LastWordConcat(Split(options[0]), Split(Join(options[1..])));
    } else {
      assert options[1..] == [];
    }
  }

  lemma PlainWord(option: string)
    requires ',' !in option
    ensures OptionWord(option) == if option == "ro" then SaysRo else if option == "rw" then SaysRw else NoWord
  {
    SplitPart(option);
    assert [option][..0] == [];
  }

  ghost predicate SaysAt(options: Opts, i: int, w: Word) {
    0 <= i < |options| && OptionWord(options[i]) == w
  }

  /** Behind every option that says rw there is one that says ro. */
  ghost predicate Answered(options: Opts) {
    forall i :: SaysAt(options, i, SaysRw) ==> exists j :: i < j && SaysAt(options, j, SaysRo)
  }

  ghost predicate AnySays(options: Opts, w: Word) {
    exists i :: SaysAt(options, i, w)
  }

  lemma {:induction false} ListWordIs(options: Opts)
    ensures ListWord(options) == SaysRw <==> !Answered(options)
    ensures ListWord(options) == NoWord <==> !AnySays(options, SaysRo) && !AnySays(options, SaysRw)
    decreases |options|
  {
    if options != [] {
      ListWordIs(options[1..]);
      AnswerStep(options);
      SayStep(options, SaysRo);
      SayStep(options, SaysRw);
    }
  }

  lemma SayStep(options: Opts, w: Word)
    requires options != []
    ensures AnySays(options, w) <==> AnySays(options[1..], w) || OptionWord(options[0]) == w
  {
    var rest := options[1..];
    if AnySays(rest, w) {
      var i :| SaysAt(rest, i, w);
      assert SaysAt(options, i + 1, w);
    }
    if AnySays(options, w) {
      var i :| SaysAt(options, i, w);
      assert i > 0 ==> SaysAt(rest, i - 1, w);
    }
    assert OptionWord(options[0]) == w ==> SaysAt(options, 0, w);
  }

  lemma AnswerStep(options: Opts)
    requires options != []
    ensures Answered(options) <==>
              Answered(options[1..]) && (OptionWord(options[0]) == SaysRw ==> AnySays(options[1..], SaysRo))
  {
    var rest := options[1..];
    assert forall i, w :: i > 0 && SaysAt(options, i, w) ==> SaysAt(rest, i - 1, w);
    assert forall i, w :: SaysAt(rest, i, w) ==> SaysAt(options, i + 1, w);
    if Answered(rest) && (OptionWord(options[0]) == SaysRw ==> AnySays(rest, SaysRo)) {
      forall i | SaysAt(options, i, SaysRw) ensures exists j :: i < j && SaysAt(options, j, SaysRo) {
        var j :| i - 1 < j && SaysAt(rest, j, SaysRo);
        assert SaysAt(options, j + 1, SaysRo);
      }
    }
    if Answered(options) {
      forall i | SaysAt(rest, i, SaysRw) ensures exists j :: i < j && SaysAt(rest, j, SaysRo) {
        var j :| i + 1 < j && SaysAt(options, j, SaysRo);
        assert SaysAt(rest, j - 1, SaysRo);
      }
      if OptionWord(options[0]) == SaysRw {
        assert SaysAt(options, 0, SaysRw);
        var j :| 0 < j && SaysAt(options, j, SaysRo);
        assert SaysAt(rest, j - 1, SaysRo);
      }
    }
  }

  /** `g` is listed later than `f`, is not dropped from a remount, and says ro. */
  ghost predicate Overrules(options: Opts, sourceReadOnly: bool, g: string, f: string)
    requires f in options
  {
    && g in options && !Dropped(g, sourceReadOnly) && OptionWord(g) == SaysRo
    && Position(options, f) < Position(options, g)
  }

  /** Every option that says rw and is not dropped is followed by one that says ro, first occurrences
      counted. */
  ghost predicate RwOverruled(options: Opts, sourceReadOnly: bool) {
    forall f :: f in options && !Dropped(f, sourceReadOnly) && OptionWord(f) == SaysRw ==>
      exists g :: Overrules(options, sourceReadOnly, g, f)
  }

  /** For any options, commas or not: a remount list that says ro at all is read-only exactly when
      every rw of source and request is overruled. */
  lemma RemountReadOnly(source: Opts, request: Opts)
    requires AnySays(RemountOptions(source, request), SaysRo)
    ensures EffectivelyReadOnly(RemountOptions(source, request)) <==> RwOverruled(source + request, "ro" in source)
  {
    hide RemountOptions;
    var r, all := RemountOptions(source, request), source + request;
    RemountShape(source, request);
    JoinedWord(r);
    ListWordIs(r);
    PlainWord("bind");
    PlainWord("remount");
    if RwOverruled(all, "ro" in source) {
      OverruledAnswered(r, all, "ro" in source);
    }
    if Answered(r) {
      AnsweredOverruled(r, all, "ro" in source);
    }
  }

  /** What RemountShape says of a list. */
  ghost predicate Shaped(r: Opts, all: Opts, ro: bool) {
    && |r| >= 2 && OptionWord(r[0]) == NoWord && OptionWord(r[1]) == NoWord && Distinct(r) && InOrder(all, r)
    && (forall k :: 2 <= k < |r| ==> r[k] in all && !Dropped(r[k], ro))
    && (forall o :: o in all && !Dropped(o, ro) ==> o in r)
  }

  lemma OverruledAnswered(r: Opts, all: Opts, ro: bool)
    requires Shaped(r, all, ro) && RwOverruled(all, ro)
    ensures Answered(r)
  {
    forall i | SaysAt(r, i, SaysRw) ensures exists j :: i < j && SaysAt(r, j, SaysRo) {
      assert i >= 2;
      var g :| Overrules(all, ro, g, r[i]);
      var j :| 0 <= j < |r| && r[j] == g;
      assert j >= 2;
      assert SaysAt(r, j, SaysRo);
      assert i < j;
    }
  }

  lemma AnsweredOverruled(r: Opts, all: Opts, ro: bool)
    requires Shaped(r, all, ro) && Answered(r)
    ensures RwOverruled(all, ro)
  {
    forall f | f in all && !Dropped(f, ro) && OptionWord(f) == SaysRw ensures exists g :: Overrules(all, ro, g, f) {
      var i :| 0 <= i < |r| && r[i] == f;
      assert SaysAt(r, i, SaysRw);
      var j :| i < j && SaysAt(r, j, SaysRo);
      assert i >= 2;
      assert Overrules(all, ro, r[j], f);
    }
  }

  /** A list without commas holds an overruled rw only if it holds ro. */
  lemma PlainOverruled(options: Opts, ro: bool)
    requires forall o :: o in options ==> ',' !in o && o != "ro"
    ensures RwOverruled(options, ro) <==> ro || "rw" !in options
  {
    forall o | o in options ensures OptionWord(o) == if o == "rw" then SaysRw else NoWord {
      PlainWord(o);
    }
  }

  // ---------------------------------------------------------------------------------------
  // Publications
  // ---------------------------------------------------------------------------------------

  lemma SourceWords(flags: int)
    ensures forall o :: o in SourceOptions(flags) ==>
              ',' !in o && o != "bind" && OptionWord(o) == if o == "ro" then SaysRo else NoWord
  {
    forall o | o in SourceOptions(flags)
      ensures ',' !in o && o != "bind" && OptionWord(o) == if o == "ro" then SaysRo else NoWord
    {
      OptionMember(flags, BIND_REMOUNT_OPTIONS, o);
      TableWords();
      PlainWord(o);
    }
  }

  lemma TableWords()
    ensures forall i :: 0 <= i < |BIND_REMOUNT_OPTIONS| ==>
              var o := BIND_REMOUNT_OPTIONS[i].option; ',' !in o && o != "rw" && o != "bind"
  {
  }

  lemma PositionConcat(a: Opts, b: Opts, o: string)
    requires o in a + b
    ensures Position(a + b, o) == if o in a then Position(a, o) else |a| + Position(b, o)
  {
    var k := Position(a + b, o);
    if o in a {
      assert (a + b)[Position(a, o)] == o;
    } else {
      assert (a + b)[|a| + Position(b, o)] == o;
    }
  }

  /** Options in front that never say rw, and repeat nothing behind them that says ro, decide nothing. */
  lemma OverruledBehind(front: Opts, rest: Opts, ro: bool)
    requires forall o :: o in front ==> OptionWord(o) != SaysRw && (o in rest ==> OptionWord(o) == NoWord)
    ensures RwOverruled(front + rest, ro) <==> RwOverruled(rest, ro)
  {
    var all := front + rest;
    forall f, g | f in rest && f !in front && OptionWord(f) == SaysRw
      ensures Overrules(all, ro, g, f) <==> Overrules(rest, ro, g, f)
    {
      PositionConcat(front, rest, f);
      if g in all {
        PositionConcat(front, rest, g);
      }
    }
    if RwOverruled(all, ro) {
      forall f | f in rest && !Dropped(f, ro) && OptionWord(f) == SaysRw ensures exists g :: Overrules(rest, ro, g, f) {
        assert f in all;
        var g :| Overrules(all, ro, g, f);
      }
    }
    if RwOverruled(rest, ro) {
      forall f | f in all && !Dropped(f, ro) && OptionWord(f) == SaysRw ensures exists g :: Overrules(all, ro, g, f) {
        var g :| Overrules(rest, ro, g, f);
      }
    }
  }

  /** A read-only publication is read-only exactly when every rw among the mount flags, be it part of a
      flag with commas, is overruled by a later flag. */
  lemma ReadOnlyPublish(flags: int, mountFlags: Opts)
    ensures var source, request := SourceOptions(flags), PublishOptions(true, mountFlags);
      EffectivelyReadOnly(RemountOptions(source, request)) <==> RwOverruled(ExtraFlags(mountFlags), "ro" in source)
  {
    hide RemountOptions, SourceOptions, ExtraFlags, EffectivelyReadOnly, RwOverruled, OptionWord;
    var source, request := SourceOptions(flags), PublishOptions(true, mountFlags);
    var front, extra := source + ["bind", "ro"], ExtraFlags(mountFlags);
    RoListed(source, request);
    RemountReadOnly(source, request);
    SourceWords(flags);
    PlainWord("bind");
    PlainWord("ro");
    assert source + request == front + extra;
    OverruledBehind(front, extra, "ro" in source);
  }

  /** A remount list keeps an ro that is listed by itself. */
  lemma RoListed(source: Opts, request: Opts)
    requires "ro" in source || "ro" in request
    ensures AnySays(RemountOptions(source, request), SaysRo)
  {
    var r := RemountOptions(source, request);
    assert "ro" in source + request;
    assert "ro" in r;
    var i :| 0 <= i < |r| && r[i] == "ro";
    PlainWord("ro");
    assert SaysAt(r, i, SaysRo);
  }

  /** For mount flags that hold no comma: exactly when the source is read-only or no flag is rw. */
  lemma PlainReadOnlyPublish(flags: int, mountFlags: Opts)
    requires forall o :: o in mountFlags ==> ',' !in o
    ensures var source, request := SourceOptions(flags), PublishOptions(true, mountFlags);
      EffectivelyReadOnly(RemountOptions(source, request)) <==> "ro" in source || "rw" !in mountFlags
  {
    hide RemountOptions, SourceOptions, ExtraFlags, EffectivelyReadOnly, RwOverruled, OptionWord;
    ReadOnlyPublish(flags, mountFlags);
    PlainOverruled(ExtraFlags(mountFlags), "ro" in SourceOptions(flags));
  }

  lemma RemountMembers(source: Opts, request: Opts)
    requires "ro" in source
    ensures "ro" in RemountOptions(source, request) && "rw" !in RemountOptions(source, request)
  {
    assert "ro" in source + request;
  }

  /** Over a read-only source the list keeps ro and drops an rw listed by itself; it is read-only
      exactly when every rw inside a longer option is overruled, and always when no option holds a
      comma. */
  lemma ReadOnlySource(source: Opts, request: Opts)
    requires "ro" in source
    ensures "ro" in RemountOptions(source, request) && "rw" !in RemountOptions(source, request)
    ensures EffectivelyReadOnly(RemountOptions(source, request)) <==> RwOverruled(source + request, true)
    ensures (forall o :: o in source + request ==> ',' !in o) ==>
              EffectivelyReadOnly(RemountOptions(source, request))
  {
    hide RemountOptions, EffectivelyReadOnly, RwOverruled, OptionWord;
    RemountMembers(source, request);
    RoListed(source, request);
    RemountReadOnly(source, request);
    assert "ro" in source + request;
    if forall o :: o in source + request ==> ',' !in o {
      NoCommaOverruled(source + request);
    }
  }

  lemma NoCommaOverruled(options: Opts)
    requires forall o :: o in options ==> ',' !in o
    ensures RwOverruled(options, true)
  {
    forall o | o in options ensures OptionWord(o) == SaysRw <==> o == "rw" {
      PlainWord(o);
    }
  }

  /** Mount flag rw: the published target is writable although read-only was asked for. */
  lemma ReadOnlyPublishOverridden()
    ensures !EffectivelyReadOnly(RemountOptions(SourceOptions(0), PublishOptions(true, ["rw"])))
  {
    hide RemountOptions, SourceOptions, ExtraFlags, EffectivelyReadOnly, RwOverruled, OptionWord;
    SourceReadOnly(0);
    assert "rw" in ["rw"];
    PlainReadOnlyPublish(0, ["rw"]);
  }

  /** Mount flag "nosuid,rw": writable, over a read-only source as well. */
  lemma CommaOverrides(flags: int)
    ensures !EffectivelyReadOnly(RemountOptions(SourceOptions(flags), PublishOptions(true, ["nosuid,rw"])))
  {
    hide RemountOptions, SourceOptions, ExtraFlags, EffectivelyReadOnly, PublishOptions;
    var flag := "nosuid,rw";
    ReadOnlyPublish(flags, [flag]);
    CommaSaysRw();
    OnlyFlag(flag);
    NothingOverrules(flag, "ro" in SourceOptions(flags));
  }

  lemma CommaSaysRw()
    ensures OptionWord("nosuid,rw") == SaysRw
  {
    assert "nosuid,rw" == "nosuid" + "," + "rw";
    SplitComma("nosuid", "rw");
    SplitPart("nosuid");
    SplitPart("rw");
  }

  lemma NothingOverrules(flag: string, ro: bool)
    requires OptionWord(flag) == SaysRw && !Dropped(flag, ro)
    ensures !RwOverruled([flag], ro)
  {
    assert flag in [flag];
    assert forall g :: g in [flag] ==> g == flag;
    assert forall g :: !Overrules([flag], ro, g, flag);
  }

  lemma OnlyFlag(flag: string)
    requires flag != "bind" && flag != "ro"
    ensures ExtraFlags([flag]) == [flag] && Position([flag], flag) == 0
  {
    assert [flag][..0] == [];
  }
}
