/** Exact masking of known secrets and the line-buffering writer: test/e2e/report/report.go. */
module Masking {
  import opened Sequences
  import opened Text
  import Redaction
  import Ordering

  // ---------------------------------------------------------------------------------------
  // ExactMask
  // ---------------------------------------------------------------------------------------

  /** Longer secrets first, equal lengths in byte order. */
  predicate Before(a: string, b: string) {
    |a| > |b| || (|a| == |b| && Ordering.StringLe(a, b))
  }

  lemma BeforeIsPreorder()
    ensures Ordering.TotalPreorder(Before)
  {
    forall a, b ensures Before(a, b) || Before(b, a) {
      Ordering.StringTotal(a, b);
    }
    forall a, b, c | Before(a, b) && Before(b, c) ensures Before(a, c) {
      if |a| == |b| == |c| {
        Ordering.StringTransitive(a, b, c);
      }
    }
  }

  /** slices.DeleteFunc(secrets, secret == "") */
  function NonEmpty(secrets: seq<string>): (r: seq<string>)
    ensures forall x :: x in r <==> x in secrets && |x| > 0
  {
    if secrets == [] then []
    else
      assert secrets == [secrets[0]] + secrets[1..];
      (if secrets[0] == "" then [] else [secrets[0]]) + NonEmpty(secrets[1..])
  }

  /** The order in which ExactMask replaces the secrets. */
  function Ordered(secrets: seq<string>): (r: seq<string>)
    ensures Ordering.SortedBy(Before, r)
    ensures NoneEmpty(r)
    ensures forall x :: x in r <==> x in secrets && |x| > 0
  {
    BeforeIsPreorder();
    Ordering.SortMembers(Before, NonEmpty(secrets));
    Ordering.Sort(Before, NonEmpty(secrets))
  }

  ghost predicate NoneEmpty(ordered: seq<string>) {
    forall i :: 0 <= i < |ordered| ==> |ordered[i]| > 0
  }

  ghost predicate Starless(ordered: seq<string>) {
    forall i :: 0 <= i < |ordered| ==> '*' !in ordered[i]
  }

  function ReplaceEach(line: string, ordered: seq<string>): (r: string)
    requires NoneEmpty(ordered)
    decreases |ordered|
  {
    if ordered == [] then line else ReplaceEach(ReplaceAll(line, ordered[0]), ordered[1..])
  }

  /** The closure ExactMask returns, as a function of the line. */
  function ExactMask(secrets: seq<string>, line: string): (r: string) {
    Redaction.Redact(ReplaceEach(line, Ordered(secrets)))
  }

  method MaskEach(ordered: seq<string>, line: string) returns (masked: string)
    requires NoneEmpty(ordered)
    ensures masked == ReplaceEach(line, ordered)
  {
    masked := line;
    ghost var goal := ReplaceEach(line, ordered);
    for i := 0 to |ordered|
      invariant ReplaceEach(masked, ordered[i..]) == goal
    {
      assert ordered[i..][1..] == ordered[i + 1..];
      masked := ReplaceAll(masked, ordered[i]);
    }
  }

  method MaskLine(secrets: seq<string>, line: string) returns (masked: string)
    ensures masked == ExactMask(secrets, line)
    ensures Clean(line, secrets) ==> masked == line
    ensures exists ordered :: LongestFirst(ordered, secrets) && MaskedFrom(line, ordered, masked)
  {
    CleanLinePasses(secrets, line);
    LineIsMasked(secrets, line);
    masked := MaskEach(Ordered(secrets), line);
    masked := Redaction.RedactString(masked);
  }

  lemma {:induction false} ReplaceEachContains(line: string, ordered: seq<string>, p: string)
    requires NoneEmpty(ordered) && |p| > 0
    ensures Contains(ReplaceEach(line, ordered), p) ==> '*' in p || (Contains(line, p) && p !in ordered)
    decreases |ordered|
  {
    if ordered != [] {
      assert ordered == [ordered[0]] + ordered[1..];
      ReplaceAllContains(line, ordered[0], p);
      ReplaceEachContains(ReplaceAll(line, ordered[0]), ordered[1..], p);
    }
  }

  lemma {:induction false} ReplaceEachEnd(line: string, ordered: seq<string>)
    requires NoneEmpty(ordered)
    ensures EndKept(line, ReplaceEach(line, ordered))
    decreases |ordered|
  {
    if ordered != [] {
      ReplaceAllEnd(line, ordered[0]);
      ReplaceEachEnd(ReplaceAll(line, ordered[0]), ordered[1..]);
    }
  }

  /** Whatever star-free text a masked line holds was in the line and is no secret. */
  lemma MaskedLineContains(secrets: seq<string>, line: string, p: string)
    requires |p| > 0
    ensures Contains(ExactMask(secrets, line), p) ==> '*' in p || (Contains(line, p) && p !in secrets)
  {
    var replaced := ReplaceEach(line, Ordered(secrets));
    Redaction.RedactContains(replaced, p);
    ReplaceEachContains(line, Ordered(secrets), p);
  }

  lemma MaskedLineEnd(secrets: seq<string>, line: string)
    ensures EndKept(line, ExactMask(secrets, line))
  {
    var replaced := ReplaceEach(line, Ordered(secrets));
    ReplaceEachEnd(line, Ordered(secrets));
    Redaction.RedactEnd(replaced);
    EndKeptThen(line, replaced, Redaction.Redact(replaced));
  }

  lemma EndKeptThen(a: string, b: string, c: string)
    requires EndKept(a, b) && EndKept(b, c)
    ensures EndKept(a, c)
  {
  }

  /** Longest first matters: when no secret holds a star, a line that is one secret comes out as
      three stars, with no tail of it left behind by a shorter secret it begins with. */
  lemma SecretAlone(secrets: seq<string>, x: string)
    requires x in secrets && |x| > 0
    requires Starless(secrets)
    ensures ExactMask(secrets, x) == STARS
  {
    var ordered := Ordered(secrets);
    OrderedStarless(secrets);
    var k :| 0 <= k < |ordered| && ordered[k] == x;
    SecretReplaced(ordered, x, k);
    StarsRedacted();
  }

  lemma OrderedStarless(secrets: seq<string>)
    requires Starless(secrets)
    ensures Starless(Ordered(secrets))
  {
    var ordered := Ordered(secrets);
    forall i | 0 <= i < |ordered| ensures '*' !in ordered[i] {
      assert ordered[i] in ordered;
    }
  }

  lemma {:induction false} SecretReplaced(ordered: seq<string>, x: string, k: nat)
    requires k < |ordered| && ordered[k] == x
    requires Ordering.SortedBy(Before, ordered) && NoneEmpty(ordered)
    requires Starless(ordered)
    ensures ReplaceEach(x, ordered) == STARS
    decreases k
  {
    var y, rest := ordered[0], ordered[1..];
    if y == x {
      assert x[0..|x|] == x;
      assert ReplaceAll(x, x) == STARS;
      StarsStay(rest);
    } else {
      assert Before(ordered[0], ordered[k]);
      assert IndexFrom(x, 0, y) == -1;
      SecretReplaced(rest, x, k - 1);
    }
  }

  lemma StarsHold(i: int, p: string)
    requires |p| > 0
    ensures At(STARS, i, p) ==> '*' in p
  {
    if At(STARS, i, p) {
      assert p[0] == STARS[i..i + |p|][0] == STARS[i];
    }
  }

  lemma StarlessNotInStars(p: string)
    requires |p| > 0 && '*' !in p
    ensures IndexFrom(STARS, 0, p) == -1
  {
    forall i ensures At(STARS, i, p) ==> '*' in p {
      StarsHold(i, p);
    }
  }

  lemma {:induction false} StarsStay(ordered: seq<string>)
    requires NoneEmpty(ordered) && Starless(ordered)
    ensures ReplaceEach(STARS, ordered) == STARS
    decreases |ordered|
  {
    if ordered != [] {
      StarlessNotInStars(ordered[0]);
      StarsStay(ordered[1..]);
    }
  }

  lemma StarsRedacted()
    ensures Redaction.Redact(STARS) == STARS
  {
    Redaction.PrefixesSound();
    forall p | p in Redaction.Prefixes() ensures Redaction.Normal(STARS, p) {
      assert p[0] in p;
      forall i | At(STARS, i, p) ensures Redaction.MaskedValue(STARS, i + |p|) {
        Redaction.FirstByte(STARS, i, p);
      }
    }
    Redaction.RedactFixedPoint(STARS);
  }

  // ---------------------------------------------------------------------------------------
  // What a mask changes, and what it keeps
  // ---------------------------------------------------------------------------------------

  function Interleaved(parts: seq<string>, between: string): string
    requires parts != []
  {
    if |parts| == 1 then parts[0] else parts[0] + between + Interleaved(parts[1..], between)
  }

  /** Parts of a text between the occurrences of `secret` that a search from the left finds. */
  ghost predicate LeftmostParts(parts: seq<string>, secret: string) {
    && parts != [] && !Contains(parts[|parts| - 1], secret)
    && forall i :: 0 <= i < |parts| - 1 ==> FirstAtEnd(parts[i], secret)
  }

  ghost predicate FirstAtEnd(part: string, secret: string) {
    forall j :: At(part + secret, j, secret) ==> j >= |part|
  }

  /** `b` is `a` with the occurrences of `secret` turned into three stars, and nothing else changed. */
  ghost predicate Starred(a: string, b: string, secret: string) {
    exists parts ::
      LeftmostParts(parts, secret) && a == Interleaved(parts, secret) && b == Interleaved(parts, STARS)
  }

  lemma {:induction false} ReplaceAllStars(s: string, secret: string) returns (parts: seq<string>)
    requires |secret| > 0
    ensures LeftmostParts(parts, secret)
    ensures s == Interleaved(parts, secret) && ReplaceAll(s, secret) == Interleaved(parts, STARS)
    decreases |s|
  {
    hide Contains, FirstAtEnd;
    var k := IndexFrom(s, 0, secret);
    if k == -1 {
      parts := [s];
      NotFound(s, secret);
    } else {
      var later := ReplaceAllStars(s[k + |secret|..], secret);
      parts := [s[..k]] + later;
      FirstFound(s, k, secret);
      MorePartsFollow(s[..k], later, secret);
    }
  }

  lemma NotFound(s: string, secret: string)
    requires |secret| > 0
    ensures IndexFrom(s, 0, secret) == -1 ==> !Contains(s, secret)
  {
  }

  lemma MorePartsFollow(first: string, later: seq<string>, secret: string)
    requires LeftmostParts(later, secret) && FirstAtEnd(first, secret)
    ensures LeftmostParts([first] + later, secret)
    ensures forall between :: Interleaved([first] + later, between) == first + between + Interleaved(later, between)
  {
    assert ([first] + later)[1..] == later;
  }

  lemma FirstFound(s: string, k: nat, secret: string)
    requires At(s, k, secret) && forall i :: 0 <= i < k ==> !At(s, i, secret)
    ensures FirstAtEnd(s[..k], secret) && s == s[..k] + secret + s[k + |secret|..]
  {
    assert s[..k] + secret == s[..k + |secret|];
    forall j | At(s[..k] + secret, j, secret) ensures j >= k {
      Shift(s[..k] + secret, j, s, j, secret);
    }
  }

  /** The parts are determined by the text, and so is the starred text. */
  lemma {:induction false} PartsUnique(p: seq<string>, q: seq<string>, secret: string)
    requires |secret| > 0 && LeftmostParts(p, secret) && LeftmostParts(q, secret)
    requires Interleaved(p, secret) == Interleaved(q, secret)
    ensures p == q
    decreases |p|
  {
    FirstPart(p, secret);
    FirstPart(q, secret);
    if |p| > 1 && |q| > 1 {
      assert p[0] == Interleaved(p, secret)[..|p[0]|] == q[0];
      assert Interleaved(p[1..], secret) == Interleaved(p, secret)[|p[0]| + |secret|..] == Interleaved(q[1..], secret);
      PartsUnique(p[1..], q[1..], secret);
      assert p == [p[0]] + p[1..] && q == [q[0]] + q[1..];
    }
  }

  /** The first occurrence in a text stands behind its first part; a text of one part has none. */
  lemma FirstPart(p: seq<string>, secret: string)
    requires |secret| > 0 && LeftmostParts(p, secret)
    ensures |p| == 1 ==> !Contains(Interleaved(p, secret), secret)
    ensures |p| > 1 ==>
              && At(Interleaved(p, secret), |p[0]|, secret)
              && forall j :: At(Interleaved(p, secret), j, secret) ==> j >= |p[0]|
  {
    if |p| > 1 {
      var s, head := Interleaved(p, secret), p[0] + secret;
      assert s[..|head|] == head;
      forall j | At(s, j, secret) ensures j >= |p[0]| {
        if j < |p[0]| {
          Shift(s, j, head, j, secret);
        }
      }
      assert s[|p[0]|..|p[0]| + |secret|] == secret;
    }
  }

  lemma StarredOnce(a: string, b: string, c: string, secret: string)
    requires |secret| > 0 && Starred(a, b, secret) && Starred(a, c, secret)
    ensures b == c
  {
    var p :| LeftmostParts(p, secret) && a == Interleaved(p, secret) && b == Interleaved(p, STARS);
    var q :| LeftmostParts(q, secret) && a == Interleaved(q, secret) && c == Interleaved(q, STARS);
    PartsUnique(p, q, secret);
  }

  /** The secrets are starred one after the other, and then nothing changes but by steps of redaction. */
  ghost predicate MaskedFrom(line: string, ordered: seq<string>, masked: string)
    decreases |ordered|
  {
    if ordered == [] then Redaction.Reduces(line, masked, Redaction.Prefixes())
    else exists mid :: Starred(line, mid, ordered[0]) && MaskedFrom(mid, ordered[1..], masked)
  }

  /** The secrets that are not empty, longest first. */
  ghost predicate LongestFirst(ordered: seq<string>, secrets: seq<string>) {
    && (forall x :: x in ordered <==> x in secrets && x != "")
    && forall i, j :: 0 <= i < j < |ordered| ==> |ordered[i]| >= |ordered[j]|
  }

  /** What becomes of a line: its secrets are starred, longest first, then the values of sensitive keys. */
  lemma LineIsMasked(secrets: seq<string>, line: string)
    ensures exists ordered :: LongestFirst(ordered, secrets) && MaskedFrom(line, ordered, ExactMask(secrets, line))
  {
    hide MaskedFrom, ReplaceEach, Ordered, Redaction.Redact, Redaction.Prefixes, Redaction.Reduces;
    var ordered := Ordered(secrets);
    assert forall i, j :: 0 <= i < j < |ordered| ==> Before(ordered[i], ordered[j]);
    assert LongestFirst(ordered, secrets);
    Redaction.RedactReduces(ReplaceEach(line, ordered));
    EachIsStarred(line, ordered);
  }

  lemma {:induction false} EachIsStarred(line: string, ordered: seq<string>)
    requires NoneEmpty(ordered)
    requires Redaction.Reduces(ReplaceEach(line, ordered), Redaction.Redact(ReplaceEach(line, ordered)),
                               Redaction.Prefixes())
    ensures MaskedFrom(line, ordered, Redaction.Redact(ReplaceEach(line, ordered)))
    decreases |ordered|
  {
    hide Redaction.Redact, Redaction.Prefixes, Redaction.Reduces, ReplaceAll, Interleaved, LeftmostParts;
    if ordered != [] {
      var mid := ReplaceAll(line, ordered[0]);
      var parts := ReplaceAllStars(line, ordered[0]);
      assert Starred(line, mid, ordered[0]);
      EachIsStarred(mid, ordered[1..]);
    }
  }

  /** No secret occurs in the line, and every sensitive key in it is followed by no value or by stars. */
  ghost predicate Clean(line: string, secrets: seq<string>) {
    && (forall x :: x in secrets && x != "" ==> !Contains(line, x))
    && forall p :: p in Redaction.Prefixes() ==> Redaction.Normal(line, p)
  }

  lemma {:induction false} NothingToReplace(line: string, ordered: seq<string>)
    requires NoneEmpty(ordered) && forall x :: x in ordered ==> !Contains(line, x)
    ensures ReplaceEach(line, ordered) == line
    decreases |ordered|
  {
    if ordered != [] {
      assert !Contains(line, ordered[0]);
      NothingToReplace(line, ordered[1..]);
    }
  }

  /** A clean line passes through as it is; when no secret holds a star, no other line does. */
  lemma CleanLinePasses(secrets: seq<string>, line: string)
    ensures Clean(line, secrets) ==> ExactMask(secrets, line) == line
    ensures (forall x :: x in secrets ==> '*' !in x) ==> (ExactMask(secrets, line) == line <==> Clean(line, secrets))
  {
    hide Contains, ReplaceEach, Ordered, Redaction.Redact, Redaction.Prefixes, Redaction.Normal;
    Redaction.RedactFixedPoint(line);
    if forall x :: x in secrets && x != "" ==> !Contains(line, x) {
      NothingToReplace(line, Ordered(secrets));
    } else if ExactMask(secrets, line) == line {
      var x :| x in secrets && x != "" && Contains(line, x);
      MaskedLineContains(secrets, line, x);
    }
  }

  // ---------------------------------------------------------------------------------------
  // Lines
  // ---------------------------------------------------------------------------------------

  /** bytes.IndexByte(s, '\n') */
  function NewlineIndex(s: string): (k: int)
    ensures -1 <= k < |s| && (k >= 0 ==> s[k] == '\n')
    ensures forall i :: 0 <= i < (if k >= 0 then k else |s|) ==> s[i] != '\n'
  {
    if s == "" then -1
    else if s[0] == '\n' then 0
    else
      var k := NewlineIndex(s[1..]);
      if k < 0 then -1 else k + 1
  }

  /** The complete lines of a stream, each with its newline. */
  function Lines(s: string): (ls: seq<string>)
    ensures forall i :: 0 <= i < |ls| ==> |ls[i]| > 0 && ls[i][|ls[i]| - 1] == '\n'
    decreases |s|
  {
    var k := NewlineIndex(s);
    if k < 0 then [] else [s[..k + 1]] + Lines(s[k + 1..])
  }

  /** What follows the last newline. */
  function Rest(s: string): (r: string)
    ensures '\n' !in r
    decreases |s|
  {
    var k := NewlineIndex(s);
    if k < 0 then s else Rest(s[k + 1..])
  }

  function Flatten(ls: seq<string>): string {
    if ls == [] then "" else ls[0] + Flatten(ls[1..])
  }

  function Emit(mask: string -> string, ls: seq<string>): string {
    if ls == [] then "" else mask(ls[0]) + Emit(mask, ls[1..])
  }

  /** The mask applied line by line to a whole stream. */
  function MaskStream(mask: string -> string, s: string): string {
    Emit(mask, Lines(s)) + (if Rest(s) == "" then "" else mask(Rest(s)))
  }

  lemma {:induction false} EmitConcat(mask: string -> string, a: seq<string>, b: seq<string>)
    ensures Emit(mask, a + b) == Emit(mask, a) + Emit(mask, b)
    decreases |a|
  {
    if a == [] {
      assert a + b == b;
    } else {
      EmitConcat(mask, a[1..], b);
      assert (a + b)[1..] == a[1..] + b;
    }
  }

  lemma FlattenFirst(line: string, ls: seq<string>)
    ensures Flatten([line] + ls) == line + Flatten(ls)
  {
    assert ([line] + ls)[1..] == ls;
  }

  lemma NoLine(s: string)
    requires NewlineIndex(s) < 0
    ensures Lines(s) == [] && Rest(s) == s
  {
  }

  /** Cutting a stream loses nothing. */
  lemma {:induction false} LinesAndRest(s: string)
    ensures Flatten(Lines(s)) + Rest(s) == s
    decreases |s|
  {
    hide Lines, Rest;
    var k := NewlineIndex(s);
    if k >= 0 {
      var line, more := s[..k + 1], s[k + 1..];
      LinesAndRest(more);
      FirstLine(s);
      FlattenFirst(line, Lines(more));
      Associates(line, Flatten(Lines(more)), Rest(more));
      assert s == line + more;
    } else {
      NoLine(s);
    }
  }

  /** A stream that arrives in two pieces has the lines of the first piece, then those of its
      remainder joined to the second. */
  lemma {:induction false} LinesConcat(a: string, b: string)
    ensures Lines(a + b) == Lines(a) + Lines(Rest(a) + b)
    ensures Rest(a + b) == Rest(Rest(a) + b)
    decreases |a|
  {
    hide Lines, Rest;
    var k := NewlineIndex(a);
    if k >= 0 {
      var line, more := a[..k + 1], a[k + 1..];
      LinesConcat(more, b);
      FirstLine(a);
      FirstNewline(a, b);
      FirstLine(a + b);
      assert (a + b)[..k + 1] == line && (a + b)[k + 1..] == more + b;
      assert [line] + Lines(more) + Lines(Rest(more) + b) == [line] + (Lines(more) + Lines(Rest(more) + b));
    } else {
      NoLine(a);
    }
  }

  lemma FirstNewline(a: string, b: string)
    requires NewlineIndex(a) >= 0
    ensures NewlineIndex(a + b) == NewlineIndex(a)
  {
    var k, m := NewlineIndex(a), NewlineIndex(a + b);
    assert (a + b)[k] == '\n';
    assert m < |a| ==> (a + b)[m] == a[m];
  }

  // ---------------------------------------------------------------------------------------
  // MaskingWriter
  // ---------------------------------------------------------------------------------------

  /** The destination: `refused` holds the numbers of the writes that fail and keep nothing. */
  class Sink {
    var written: string
    var writes: nat
    const refused: set<nat>

    constructor (refused: set<nat>)
      ensures written == "" && writes == 0 && this.refused == refused
    {
      this.written, this.writes, this.refused := "", 0, refused;
    }

    method WriteString(text: string) returns (failed: bool)
      modifies this
      ensures writes == old(writes) + 1
      ensures failed <==> old(writes) in refused
      ensures written == if failed then old(written) else old(written) + text
    {
      failed := writes in refused;
      if !failed {
        written := written + text;
      }
      writes := writes + 1;
    }
  }

  class MaskingWriter {
    const next: Sink
    const mask: string -> string
    var pending: string

    constructor (next: Sink, mask: string -> string)
      ensures this.next == next && this.mask == mask && pending == ""
    {
      this.next, this.mask, this.pending := next, mask, "";
    }

    /** Passes on the masked complete lines and keeps what follows the last newline. The first write that
        the sink refuses ends the call: its line is lost, and everything after it is kept. */
    method Write(p: string) returns (n: nat, failed: bool)
      modifies this, next
      ensures n == |p|
      ensures !failed ==> pending == Rest(old(pending) + p)
      ensures !failed ==> next.written == old(next.written) + Emit(mask, Lines(old(pending) + p))
      ensures next.refused == {} ==> !failed
      ensures Wrote(mask, next.refused, old(pending) + p, old(next.written), old(next.writes),
                    next.written, next.writes, pending, failed)
    {
      hide Lines, Rest, Wrote, Progress;
      n, failed := |p|, false;
      pending := pending + p;
      ghost var total, base, first := pending, next.written, next.writes;
      ghost var done: nat := 0;
      NothingTaken(mask, next.refused, total, base, first);
      var index := NewlineIndex(pending);
      while index >= 0
        invariant index == NewlineIndex(pending) && next.writes == first + done
        invariant Progress(mask, next.refused, total, base, first, done, next.written, pending)
        decreases |pending|
      {
        var line := pending[..index + 1];
        TakeLine(mask, next.refused, total, base, first, done, next.written, pending);
        pending := pending[index + 1..];
        failed := next.WriteString(mask(line));
        if failed {
          return;
        }
        done := done + 1;
        index := NewlineIndex(pending);
      }
      AllTaken(mask, next.refused, total, base, first, done, next.written, pending);
    }

    /** At the end of the stream, a remainder goes out as it is, masked. */
    method Flush() returns (failed: bool)
      modifies this, next
      ensures pending == ""
      ensures failed <==> old(pending) != "" && old(next.writes) in next.refused
      ensures next.written == old(next.written) + (if failed || old(pending) == "" then "" else mask(old(pending)))
    {
      if |pending| == 0 {
        return false;
      }
      var line := pending;
      pending := "";
      failed := next.WriteString(mask(line));
    }
  }

  /** How many of `n` writes, the first of which has number `w`, succeed before one is refused. */
  function FirstRefused(refused: set<nat>, w: nat, n: nat): (k: nat)
    ensures k <= n
    decreases n
  {
    if n == 0 || w in refused then 0 else 1 + FirstRefused(refused, w + 1, n - 1)
  }

  lemma {:induction false} FirstRefusedAt(refused: set<nat>, w: nat, n: nat, k: nat)
    requires k <= n && forall v :: w <= v < w + k ==> v !in refused
    ensures k == n || w + k in refused ==> FirstRefused(refused, w, n) == k
    decreases k
  {
    if k > 0 {
      FirstRefusedAt(refused, w + 1, n - 1, k - 1);
    }
  }

  /** What is left of a text once `k` of its lines have been taken. */
  function Held(s: string, k: nat): string
    requires k <= |Lines(s)|
  {
    Flatten(Lines(s)[k..]) + Rest(s)
  }

  /** A write over the text `s`, from write number `w` on: the masks of the lines before the first that
      is refused went out, that one is lost, and the rest is held. */
  ghost predicate Wrote(mask: string -> string, refused: set<nat>, s: string, base: string, w: nat,
                        written: string, writes: nat, pending: string, failed: bool) {
    var k := FirstRefused(refused, w, |Lines(s)|);
    var taken := if failed then k + 1 else k;
    && (failed <==> k < |Lines(s)|)
    && written == base + Emit(mask, Lines(s)[..k]) && writes == w + taken && pending == Held(s, taken)
  }

  /** The first `done` lines have been written, the others are still to be found in `pending`. */
  ghost predicate Progress(mask: string -> string, refused: set<nat>, total: string, base: string, w: nat,
                           done: nat, written: string, pending: string) {
    && done <= |Lines(total)| && Lines(total)[done..] == Lines(pending) && Rest(total) == Rest(pending)
    && written == base + Emit(mask, Lines(total)[..done])
    && forall v :: w <= v < w + done ==> v !in refused
  }

  lemma NothingTaken(mask: string -> string, refused: set<nat>, total: string, base: string, w: nat)
    ensures Progress(mask, refused, total, base, w, 0, base, total)
  {
    hide Lines, Rest;
    assert Lines(total)[0..] == Lines(total) && base + "" == base;
  }

  lemma TakeLine(mask: string -> string, refused: set<nat>, total: string, base: string, w: nat, done: nat,
                 written: string, pending: string)
    requires NewlineIndex(pending) >= 0 && Progress(mask, refused, total, base, w, done, written, pending)
    ensures var k := NewlineIndex(pending) + 1;
      if w + done in refused
      then Wrote(mask, refused, total, base, w, written, w + done + 1, pending[k..], true)
      else Progress(mask, refused, total, base, w, done + 1, written + mask(pending[..k]), pending[k..])
  {
    hide Lines, Rest, Emit, NewlineIndex;
    var k := NewlineIndex(pending) + 1;
    var line, later := pending[..k], pending[k..];
    FirstLine(pending);
    LinesAndRest(later);
    FirstRefusedAt(refused, w, |Lines(total)|, done);
    assert Lines(total)[done..] == [line] + Lines(later);
    assert Lines(total)[done + 1..] == Lines(total)[done..][1..] == Lines(later);
    assert Lines(total)[..done + 1] == Lines(total)[..done] + [line];
    LineWritten(mask, Lines(total)[..done], line);
    Associates(base, Emit(mask, Lines(total)[..done]), mask(line));
  }

  lemma AllTaken(mask: string -> string, refused: set<nat>, total: string, base: string, w: nat, done: nat,
                 written: string, pending: string)
    requires NewlineIndex(pending) < 0 && Progress(mask, refused, total, base, w, done, written, pending)
    ensures Wrote(mask, refused, total, base, w, written, w + done, pending, false)
    ensures pending == Rest(total) && written == base + Emit(mask, Lines(total))
  {
    hide Lines, Rest, Emit;
    NoLine(pending);
    FirstRefusedAt(refused, w, |Lines(total)|, done);
    assert Lines(total)[..done] == Lines(total);
    assert Flatten([]) + pending == pending;
  }

  lemma FirstLine(s: string)
    requires NewlineIndex(s) >= 0
    ensures var k := NewlineIndex(s) + 1; Lines(s) == [s[..k]] + Lines(s[k..]) && Rest(s) == Rest(s[k..])
  {
    hide Lines, Rest;
    LinesUnfold(s);
    RestUnfolds(s);
  }

  lemma LinesUnfold(s: string)
    requires NewlineIndex(s) >= 0
    ensures var k := NewlineIndex(s) + 1; Lines(s) == [s[..k]] + Lines(s[k..])
  {
    hide NewlineIndex;
  }

  lemma RestUnfolds(s: string)
    requires NewlineIndex(s) >= 0
    ensures Rest(s) == Rest(s[NewlineIndex(s) + 1..])
  {
    hide NewlineIndex;
  }

  lemma LineWritten(mask: string -> string, done: seq<string>, line: string)
    ensures Emit(mask, done + [line]) == Emit(mask, done) + mask(line)
  {
    EmitConcat(mask, done, [line]);
    assert Emit(mask, [line]) == mask(line) + "";
  }

  /** Every line of the stream, and what follows the last one, is clean. */
  ghost predicate CleanStream(s: string, secrets: seq<string>) {
    (forall i :: 0 <= i < |Lines(s)| ==> Clean(Lines(s)[i], secrets)) && Clean(Rest(s), secrets)
  }

  lemma CleanStreamPasses(secrets: seq<string>, s: string)
    requires CleanStream(s, secrets)
    ensures MaskStream(MaskOf(secrets), s) == s
  {
    hide Clean, Lines, Rest, ExactMask;
    CleanLinePasses(secrets, Rest(s));
    CleanLinesPass(secrets, Lines(s));
    LinesAndRest(s);
  }

  lemma {:induction false} CleanLinesPass(secrets: seq<string>, lines: seq<string>)
    requires forall i :: 0 <= i < |lines| ==> Clean(lines[i], secrets)
    ensures Emit(MaskOf(secrets), lines) == Flatten(lines)
    decreases |lines|
  {
    hide Clean, ExactMask;
    if lines != [] {
      CleanLinePasses(secrets, lines[0]);
      CleanLinesPass(secrets, lines[1..]);
    }
  }

  /** What the sink keeps of a stream that still arrives in these chunks when `pending` is held and its
      next write has number `w`. */
  function Received(mask: string -> string, pending: string, chunks: seq<string>, refused: set<nat>, w: nat): string
    decreases |chunks|
  {
    if chunks == [] then
      if pending == "" || w in refused then "" else mask(pending)
    else
      var s := pending + chunks[0];
      var n := |Lines(s)|;
      var k := FirstRefused(refused, w, n);
      var taken := if k < n then k + 1 else k;
      Emit(mask, Lines(s)[..k]) + Received(mask, Held(s, taken), chunks[1..], refused, w + taken)
  }

  /** However a stream is cut into writes, and whatever the sink refuses, it keeps exactly that much; a
      sink that refuses nothing receives the mask applied line by line to the whole stream. */
  method WriteAll(chunks: seq<string>, next: Sink, mask: string -> string)
    modifies next
    ensures next.written == old(next.written) + Received(mask, "", chunks, next.refused, old(next.writes))
    ensures next.refused == {} ==> next.written == old(next.written) + MaskStream(mask, Flatten(chunks))
  {
    hide Lines, Rest, Held, Emit, FirstRefused, MaskStream;
    var w := new MaskingWriter(next, mask);
    ghost var goal := next.written + Received(mask, "", chunks, next.refused, next.writes);
    if next.refused == {} {
      NothingLost(mask, "", chunks, next.writes);
      assert "" + Flatten(chunks) == Flatten(chunks);
    }
    assert chunks[0..] == chunks;
    for i := 0 to |chunks|
      invariant w.next == next && w.mask == mask && fresh(w)
      invariant next.written + Received(mask, w.pending, chunks[i..], next.refused, next.writes) == goal
    {
      ReceivedStep(mask, w.pending, chunks, i, next.refused, next.writes, next.written);
      var _, _ := w.Write(chunks[i]);
    }
    var _ := w.Flush();
  }

  lemma ReceivedStep(mask: string -> string, pending: string, chunks: seq<string>, i: nat, refused: set<nat>,
                     w: nat, written: string)
    requires i < |chunks|
    ensures var s := pending + chunks[i];
            var n := |Lines(s)|;
            var k := FirstRefused(refused, w, n);
            var taken := if k < n then k + 1 else k;
      written + Received(mask, pending, chunks[i..], refused, w)
      == written + Emit(mask, Lines(s)[..k]) + Received(mask, Held(s, taken), chunks[i + 1..], refused, w + taken)
  {
    hide Lines, Rest, Held, Emit, FirstRefused;
    assert chunks[i..][0] == chunks[i] && chunks[i..][1..] == chunks[i + 1..];
  }

  lemma {:induction false} NothingLost(mask: string -> string, pending: string, chunks: seq<string>, w: nat)
    requires NewlineIndex(pending) < 0
    ensures Received(mask, pending, chunks, {}, w) == MaskStream(mask, pending + Flatten(chunks))
    decreases |chunks|
  {
    hide Lines, Rest, Emit, NewlineIndex, MaskStream, Held, FirstRefused;
    if chunks == [] {
      assert pending + Flatten(chunks) == pending;
      StreamEnd(mask, pending);
    } else {
      var s, more := pending + chunks[0], Flatten(chunks[1..]);
      FirstRefusedAt({}, w, |Lines(s)|, |Lines(s)|);
      NothingHeld(s);
      NothingLost(mask, Rest(s), chunks[1..], w + |Lines(s)|);
      assert s + more == pending + Flatten(chunks);
      StreamStep(mask, s, more);
    }
  }

  lemma NothingHeld(s: string)
    ensures Lines(s)[..|Lines(s)|] == Lines(s) && Held(s, |Lines(s)|) == Rest(s) && NewlineIndex(Rest(s)) < 0
  {
    hide Lines, Rest;
    assert Flatten([]) + Rest(s) == Rest(s);
    NoNewline(Rest(s));
  }

  lemma StreamEnd(mask: string -> string, s: string)
    requires NewlineIndex(s) < 0
    ensures MaskStream(mask, s) == if s == "" then "" else mask(s)
  {
    hide Lines, Rest;
    NoLine(s);
    assert "" + mask(s) == mask(s);
  }

  /** The mask of a stream whose first part is complete lines and a remainder. */
  lemma StreamStep(mask: string -> string, s: string, more: string)
    ensures MaskStream(mask, s + more) == Emit(mask, Lines(s)) + MaskStream(mask, Rest(s) + more)
  {
    hide Lines, Rest;
    LinesConcat(s, more);
    EmitConcat(mask, Lines(s), Lines(Rest(s) + more));
    Associates(Emit(mask, Lines(s)), Emit(mask, Lines(Rest(s) + more)),
               if Rest(s + more) == "" then "" else mask(Rest(s + more)));
  }

  lemma NoNewline(s: string)
    requires '\n' !in s
    ensures NewlineIndex(s) < 0
  {
  }

  /** The mask of each line whose write, numbered from `w` on, is not refused. */
  function Survivors(mask: string -> string, lines: seq<string>, refused: set<nat>, w: nat): string {
    if lines == [] then ""
    else (if w in refused then "" else mask(lines[0])) + Survivors(mask, lines[1..], refused, w + 1)
  }

  /** What a sink keeps of a stream, whatever it refuses: the masks of a first part of the stream's lines,
      one write each and none but the refused ones lost, and in one last write the mask of all the rest. */
  lemma {:induction false} ReceivedIs(mask: string -> string, pending: string, chunks: seq<string>,
                                      refused: set<nat>, w: nat) returns (k: nat)
    ensures k <= |Lines(pending + Flatten(chunks))|
    ensures Received(mask, pending, chunks, refused, w)
         == KeptOf(mask, pending + Flatten(chunks), k, refused, w)
    decreases |chunks|
  {
    hide Lines, Rest, Held, Emit, FirstRefused, KeptOf;
    if chunks == [] {
      k := 0;
      assert pending + Flatten(chunks) == pending;
      KeptNone(mask, pending, refused, w);
    } else {
      var s, more := pending + chunks[0], Flatten(chunks[1..]);
      var n := |Lines(s)|;
      var kept := FirstRefused(refused, w, n);
      var taken := if kept < n then kept + 1 else kept;
      var later := ReceivedIs(mask, Held(s, taken), chunks[1..], refused, w + taken);
      k := taken + later;
      assert s + more == pending + Flatten(chunks);
      KeptThen(mask, s, more, later, refused, w);
    }
  }

  /** The masks of the first `k` lines that are not refused, and that of the rest in one write. */
  function KeptOf(mask: string -> string, s: string, k: nat, refused: set<nat>, w: nat): string
    requires k <= |Lines(s)|
  {
    Survivors(mask, Lines(s)[..k], refused, w)
    + (if Held(s, k) == "" || w + k in refused then "" else mask(Held(s, k)))
  }

  lemma KeptNone(mask: string -> string, s: string, refused: set<nat>, w: nat)
    ensures KeptOf(mask, s, 0, refused, w) == if s == "" || w in refused then "" else mask(s)
  {
    hide Lines, Rest;
    LinesAndRest(s);
    assert Lines(s)[0..] == Lines(s) && Lines(s)[..0] == [];
  }

  lemma KeptThen(mask: string -> string, s: string, more: string, later: nat, refused: set<nat>, w: nat)
    requires var k := FirstRefused(refused, w, |Lines(s)|);
             var taken := if k < |Lines(s)| then k + 1 else k;
             later <= |Lines(Held(s, taken) + more)|
    ensures var k := FirstRefused(refused, w, |Lines(s)|);
            var taken := if k < |Lines(s)| then k + 1 else k;
      && taken + later <= |Lines(s + more)|
      && KeptOf(mask, s + more, taken + later, refused, w)
         == Emit(mask, Lines(s)[..k]) + KeptOf(mask, Held(s, taken) + more, later, refused, w + taken)
  {
    hide Lines, Rest, Emit, FirstRefused, Survivors, Held;
    var k := FirstRefused(refused, w, |Lines(s)|);
    var taken := if k < |Lines(s)| then k + 1 else k;
    var first, whole := Lines(s)[..taken], Held(s, taken) + more;
    TakeMore(s, taken, more, later);
    SurvivorsConcat(mask, first, Lines(whole)[..later], refused, w);
    TakenSurvive(mask, Lines(s), refused, w);
    Associates(Emit(mask, Lines(s)[..k]), Survivors(mask, Lines(whole)[..later], refused, w + taken),
               if Held(whole, later) == "" || w + taken + later in refused then "" else mask(Held(whole, later)));
  }

  /** Taking lines off a text does not change the lines that follow. */
  lemma HeldThen(s: string, k: nat, more: string)
    requires k <= |Lines(s)|
    ensures Lines(s + more) == Lines(s)[..k] + Lines(Held(s, k) + more)
    ensures Rest(s + more) == Rest(Held(s, k) + more)
    decreases k
  {
    hide Lines, Rest;
    if k == 0 {
      LinesAndRest(s);
    } else {
      var i := NewlineIndex(s);
      if i < 0 {
        NoLine(s);
      }
      FirstLine(s);
      var line, after := s[..i + 1], s[i + 1..];
      HeldThen(after, k - 1, more);
      FirstNewline(s, more);
      FirstLine(s + more);
      assert (s + more)[..i + 1] == line && (s + more)[i + 1..] == after + more;
      assert Lines(s)[k..] == Lines(after)[k - 1..] && Lines(s)[..k] == [line] + Lines(after)[..k - 1];
    }
  }

  lemma TakeMore(s: string, k: nat, more: string, later: nat)
    requires k <= |Lines(s)| && later <= |Lines(Held(s, k) + more)|
    ensures k + later <= |Lines(s + more)|
    ensures Lines(s + more)[..k + later] == Lines(s)[..k] + Lines(Held(s, k) + more)[..later]
    ensures Held(s + more, k + later) == Held(Held(s, k) + more, later)
  {
    hide Lines, Rest;
    HeldThen(s, k, more);
    var whole := Held(s, k) + more;
    assert (Lines(s)[..k] + Lines(whole))[k + later..] == Lines(whole)[later..];
  }

  lemma {:induction false} SurvivorsConcat(mask: string -> string, a: seq<string>, b: seq<string>,
                                           refused: set<nat>, w: nat)
    ensures Survivors(mask, a + b, refused, w) == Survivors(mask, a, refused, w) + Survivors(mask, b, refused, w + |a|)
    decreases |a|
  {
    hide Survivors;
    if a == [] {
      assert a + b == b;
      NoSurvivors(mask, refused, w);
    } else {
      var line, more := a[0], a[1..];
      assert [line] + more == a && [line] + (more + b) == a + b;
      SurvivorsConcat(mask, more, b, refused, w + 1);
      FirstSurvivor(mask, line, more, refused, w);
      FirstSurvivor(mask, line, more + b, refused, w);
      Associates(if w in refused then "" else mask(line), Survivors(mask, more, refused, w + 1),
                 Survivors(mask, b, refused, w + 1 + |more|));
    }
  }

  lemma NoSurvivors(mask: string -> string, refused: set<nat>, w: nat)
    ensures Survivors(mask, [], refused, w) == ""
  {
  }

  lemma FirstSurvivor(mask: string -> string, line: string, more: seq<string>, refused: set<nat>, w: nat)
    ensures Survivors(mask, [line] + more, refused, w)
         == (if w in refused then "" else mask(line)) + Survivors(mask, more, refused, w + 1)
  {
    assert ([line] + more)[1..] == more;
  }

  lemma {:induction false} TakenSurvive(mask: string -> string, lines: seq<string>, refused: set<nat>, w: nat)
    ensures var k := FirstRefused(refused, w, |lines|);
            var taken := if k < |lines| then k + 1 else k;
      Survivors(mask, lines[..taken], refused, w) == Emit(mask, lines[..k])
    decreases |lines|
  {
    if lines != [] {
      if w in refused {
        assert lines[..1][1..] == [];
      } else {
        TakenSurvive(mask, lines[1..], refused, w + 1);
        var k := 1 + FirstRefused(refused, w + 1, |lines| - 1);
        var taken := if k < |lines| then k + 1 else k;
        assert lines[..taken][1..] == lines[1..][..taken - 1] && lines[..k][1..] == lines[1..][..k - 1];
      }
    }
  }

  // ---------------------------------------------------------------------------------------
  // No secret reaches the sink
  // ---------------------------------------------------------------------------------------

  /** A mask that lets `x` through in no line and ends each line as it ended or in a star. */
  ghost predicate Hides(mask: string -> string, x: string) {
    forall line: string :: !Contains(mask(line), x) && EndKept(line, mask(line))
  }

  /** The closure that ExactMask returns. */
  function MaskOf(secrets: seq<string>): (mask: string -> string) {
    line => ExactMask(secrets, line)
  }

  lemma ExactMaskHides(secrets: seq<string>, x: string)
    requires x in secrets && |x| > 0 && '*' !in x
    ensures Hides(MaskOf(secrets), x)
  {
    forall line: string ensures !Contains(MaskOf(secrets)(line), x) && EndKept(line, MaskOf(secrets)(line)) {
      MaskedLineContains(secrets, line, x);
      MaskedLineEnd(secrets, line);
    }
  }

  /** A text that `x` neither occurs in nor can straddle the end of. */
  ghost predicate Sealed(text: string, x: string) {
    !Contains(text, x) && (text == "" || text[|text| - 1] !in x)
  }

  lemma AppendSealed(text: string, more: string, x: string)
    requires |x| > 0 && Sealed(text, x) && Sealed(more, x)
    ensures Sealed(text + more, x)
  {
    SeamContains(text, more, x);
    if more == "" {
      assert text + more == text;
    }
  }

  lemma {:induction false} EmitSealed(mask: string -> string, lines: seq<string>, x: string)
    requires |x| > 0 && '*' !in x && '\n' !in x && Hides(mask, x)
    requires forall i :: 0 <= i < |lines| ==> |lines[i]| > 0 && lines[i][|lines[i]| - 1] == '\n'
    ensures Sealed(Emit(mask, lines), x)
    decreases |lines|
  {
    if lines != [] {
      EmitSealed(mask, lines[1..], x);
      assert Sealed(mask(lines[0]), x);
      AppendSealed(mask(lines[0]), Emit(mask, lines[1..]), x);
    }
  }

  /** No text that the mask hides in each line, free of stars and newlines, occurs anywhere in
      what the stream emits: not within a line and not across lines. */
  lemma HiddenInStream(mask: string -> string, stream: string, x: string)
    requires |x| > 0 && '*' !in x && '\n' !in x && Hides(mask, x)
    ensures !Contains(MaskStream(mask, stream), x)
  {
    EmitSealed(mask, Lines(stream), x);
    var head := Emit(mask, Lines(stream));
    if Rest(stream) == "" {
      assert head + "" == head;
    } else {
      SeamContains(head, mask(Rest(stream)), x);
    }
  }

  /** For ExactMask that is every non-empty secret without star or newline, and the redaction
      that rewrites the line afterwards does not bring one back. */
  lemma NoSecretInStream(secrets: seq<string>, stream: string, x: string)
    requires x in secrets && |x| > 0 && '*' !in x && '\n' !in x
    ensures !Contains(MaskStream(MaskOf(secrets), stream), x)
  {
    ExactMaskHides(secrets, x);
    HiddenInStream(MaskOf(secrets), stream, x);
  }

  ghost predicate HoldsNoSecret(text: string, secrets: seq<string>) {
    forall x :: x in secrets && |x| > 0 && '*' !in x && '\n' !in x ==> !Contains(text, x)
  }

  /** Losing lines brings no hidden text out: what is kept is masked lines and a masked remainder. */
  lemma {:induction false} HiddenInReceived(mask: string -> string, pending: string, chunks: seq<string>,
                                            refused: set<nat>, w: nat, x: string)
    requires |x| > 0 && '*' !in x && '\n' !in x && Hides(mask, x)
    ensures !Contains(Received(mask, pending, chunks, refused, w), x)
    decreases |chunks|
  {
    hide Lines, Rest, Held;
    if chunks != [] {
      var s := pending + chunks[0];
      var n := |Lines(s)|;
      var k := FirstRefused(refused, w, n);
      var taken := if k < n then k + 1 else k;
      HiddenInReceived(mask, Held(s, taken), chunks[1..], refused, w + taken, x);
      var head, tail := Emit(mask, Lines(s)[..k]), Received(mask, Held(s, taken), chunks[1..], refused, w + taken);
      EmitSealed(mask, Lines(s)[..k], x);
      SeamContains(head, tail, x);
    }
  }

  lemma NoSecretsReceived(secrets: seq<string>, chunks: seq<string>, refused: set<nat>, w: nat)
    ensures HoldsNoSecret(Received(MaskOf(secrets), "", chunks, refused, w), secrets)
  {
    forall x | x in secrets && |x| > 0 && '*' !in x && '\n' !in x
      ensures !Contains(Received(MaskOf(secrets), "", chunks, refused, w), x)
    {
      ExactMaskHides(secrets, x);
      HiddenInReceived(MaskOf(secrets), "", chunks, refused, w, x);
    }
  }

  /** The whole path: any cutting of any stream through a writer that masks these secrets, onto a sink that
      may refuse any write. */
  method WriteMasked(chunks: seq<string>, next: Sink, secrets: seq<string>)
    modifies next
    ensures var kept := Received(MaskOf(secrets), "", chunks, next.refused, old(next.writes));
      next.written == old(next.written) + kept && HoldsNoSecret(kept, secrets)
    ensures next.refused == {} ==> next.written == old(next.written) + MaskStream(MaskOf(secrets), Flatten(chunks))
    ensures next.refused == {} && CleanStream(Flatten(chunks), secrets) ==>
              next.written == old(next.written) + Flatten(chunks)
  {
    if CleanStream(Flatten(chunks), secrets) {
      CleanStreamPasses(secrets, Flatten(chunks));
    }
    NoSecretsReceived(secrets, chunks, next.refused, next.writes);
    WriteAll(chunks, next, MaskOf(secrets));
  }
}
