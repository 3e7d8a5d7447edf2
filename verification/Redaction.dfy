/** Credential redaction: internal/log/logger.go. */
module Redaction {
  import opened Text

  const SENSITIVE_KEYS: seq<string> := [
    "OS_ACCESS_KEY", "OS_SECRET_KEY", "OS_SECURITY_TOKEN", "Authorization", "authorization", "AK", "SK"]

  const SENSITIVE_SEPARATORS: seq<string> := [": Bearer ", ": Basic ", "=", ":"]

  predicate IsLetterOrDigit(b: char) {
    'a' <= b <= 'z' || 'A' <= b <= 'Z' || '0' <= b <= '9'
  }

  predicate IsQuoteOrSpace(b: char) {
    b == ' ' || b == '"' || b == '\''
  }

  predicate IsTokenDelimiter(b: char) {
    b == ' ' || b == '"' || b == '\'' || b == '}' || b == ',' || b == ';' || b == '\n'
  }

  /** Which bytes separate tokens, and which may stand between a separator and its value. */
  lemma ByteClasses(b: char)
    ensures IsTokenDelimiter(b) <==> b in {' ', '"', '\'', '}', ',', ';', '\n'}
    ensures IsQuoteOrSpace(b) <==> b in {' ', '"', '\''}
    ensures IsQuoteOrSpace(b) ==> IsTokenDelimiter(b)
    ensures IsLetterOrDigit(b) ==> !IsTokenDelimiter(b)
  {
  }

  /** A match at `pos` does not merely end a longer word. */
  predicate StartsName(s: string, pos: nat)
    requires pos <= |s|
  {
    pos == 0 || !IsLetterOrDigit(s[pos - 1])
  }

  // ---------------------------------------------------------------------------------------
  // Values
  // ---------------------------------------------------------------------------------------

  /** First position at or after `i` that holds neither a quote nor a space. */
  function ValueStart(s: string, i: nat): (n: nat)
    requires i <= |s|
    ensures i <= n <= |s|
    ensures forall x :: i <= x < n ==> IsQuoteOrSpace(s[x])
    ensures n < |s| ==> !IsQuoteOrSpace(s[n])
    decreases |s| - i
  {
    if i < |s| && IsQuoteOrSpace(s[i]) then ValueStart(s, i + 1) else i
  }

  /** First delimiter at or after `i`, or the end of the text. */
  function RunEnd(s: string, i: nat): (n: nat)
    requires i <= |s|
    ensures i <= n <= |s|
    ensures forall x :: i <= x < n ==> !IsTokenDelimiter(s[x])
    ensures n < |s| ==> IsTokenDelimiter(s[n])
    decreases |s| - i
  {
    if i < |s| && !IsTokenDelimiter(s[i]) then RunEnd(s, i + 1) else i
  }

  function ValueEnd(s: string, start: nat): (n: nat)
    requires start <= |s|
    ensures ValueStart(s, start) <= n <= |s|
  {
    RunEnd(s, ValueStart(s, start))
  }

  /** The value that follows a key and separator ending at `start` is absent or masked. */
  ghost predicate MaskedValue(s: string, start: nat)
    requires start <= |s|
  {
    var a, b := ValueStart(s, start), ValueEnd(s, start);
    a == b || (b == a + 3 && s[a] == s[a + 1] == s[a + 2] == '*')
  }

  lemma ValueIs(s: string, start: nat, a: nat, b: nat)
    requires start <= a <= b <= |s|
    requires forall x :: start <= x < a ==> IsQuoteOrSpace(s[x])
    requires a < |s| ==> !IsQuoteOrSpace(s[a])
    requires forall x :: a <= x < b ==> !IsTokenDelimiter(s[x])
    requires b < |s| ==> IsTokenDelimiter(s[b])
    ensures ValueStart(s, start) == a && ValueEnd(s, start) == b
  {
    assert ValueStart(s, start) == a;
    assert RunEnd(s, a) == b;
  }

  method ValueBounds(s: string, start: nat) returns (valStart: nat, valEnd: nat)
    requires start <= |s|
    ensures valStart == ValueStart(s, start) && valEnd == ValueEnd(s, start)
  {
    valStart := start;
    while valStart < |s| && IsQuoteOrSpace(s[valStart])
      invariant start <= valStart <= |s|
      invariant ValueStart(s, valStart) == ValueStart(s, start)
    {
      valStart := valStart + 1;
    }
    valEnd := valStart;
    while valEnd < |s| && !IsTokenDelimiter(s[valEnd])
      invariant valStart <= valEnd <= |s|
      invariant RunEnd(s, valEnd) == RunEnd(s, valStart)
    {
      valEnd := valEnd + 1;
    }
  }

  // ---------------------------------------------------------------------------------------
  // One prefix
  // ---------------------------------------------------------------------------------------

  /** A copy of `p` shifted by `j` clashes with `p` within two bytes. */
  predicate Clashes(p: string, j: nat)
    requires j < |p|
  {
    p[j] != p[0] || (j + 1 < |p| && p[j + 1] != p[1])
  }

  /** What every key+separator satisfies and the argument needs: it cannot overlap itself,
      holds no star and does not begin with a delimiter. */
  ghost predicate WellFormedPrefix(p: string) {
    && StarFree(p)
    && !IsTokenDelimiter(p[0])
    && forall j :: 0 < j < |p| ==> Clashes(p, j)
  }

  datatype Turn = Finished | Next(text: string, from: nat)

  /** One turn of the scan: the text and the position to go on from. */
  function MaskTurn(s: string, prefix: string, idx: nat): (t: Turn)
    requires |prefix| > 0 && idx <= |s|
    ensures t.Next? ==> t.from <= |t.text| && |t.text| - t.from < |s| - idx
  {
    var k := IndexFrom(s, idx, prefix);
    if k == -1 then Finished
    else if !StartsName(s, k) then Next(s, k + 1)
    else
      var start := k + |prefix|;
      var valStart, valEnd := ValueStart(s, start), ValueEnd(s, start);
      if valEnd > valStart then Next(Splice(s, valStart, valEnd), valStart + 3) else Next(s, start)
  }

  /** The specification of maskKeyValues from position `idx` on. */
  function MaskFrom(s: string, prefix: string, idx: nat): (r: string)
    requires |prefix| > 0 && idx <= |s|
    decreases |s| - idx
  {
    match MaskTurn(s, prefix, idx)
    case Finished => s
    case Next(text, from) => MaskFrom(text, prefix, from)
  }

  /** The body of the scanning loop of maskKeyValues. */
  method ScanTurn(s: string, prefix: string, idx: nat) returns (t: Turn)
    requires |prefix| > 0 && idx <= |s|
    ensures t == MaskTurn(s, prefix, idx)
  {
    var keyStart := IndexFrom(s, idx, prefix);
    if keyStart == -1 {
      return Finished;
    }
    if !StartsName(s, keyStart) {
      return Next(s, keyStart + 1);
    }
    var start := keyStart + |prefix|;
    var valStart, valEnd := ValueBounds(s, start);
    if valEnd > valStart {
      return Next(Splice(s, valStart, valEnd), valStart + 3);
    }
    return Next(s, start);
  }

  /** maskKeyValues: the text it scans is rewritten while it scans, and the unread remainder
      still shrinks on every turn. */
  method MaskKeyValues(text: string, prefix: string) returns (s: string)
    requires |prefix| > 0
    ensures s == MaskFrom(text, prefix, 0)
  {
    s := text;
    var idx: nat := 0;
    ghost var goal := MaskFrom(text, prefix, 0);
    while true
      invariant idx <= |s|
      invariant MaskFrom(s, prefix, idx) == goal
      decreases |s| - idx
    {
      var turn := ScanTurn(s, prefix, idx);
      if turn.Finished? {
        break;
      }
      s, idx := turn.text, turn.from;
    }
  }

  // ---------------------------------------------------------------------------------------
  // What masking may do to a text
  // ---------------------------------------------------------------------------------------

  /** s[a..b] is a non-empty run free of delimiters that reaches the next delimiter or the end
      and does not continue a run of stars. */
  ghost predicate RunAt(s: string, a: int, b: int) {
    && 0 <= a < b <= |s|
    && (forall x :: a <= x < b ==> !IsTokenDelimiter(s[x]))
    && (b < |s| ==> IsTokenDelimiter(s[b]))
    && (a > 0 ==> s[a - 1] != '*')
  }

  /** The value after a key and separator `p` that starts a name at `k` is replaced by stars, nothing
      else changes. */
  ghost predicate ValueStarred(s: string, r: string, p: string, k: int) {
    && StarFree(p) && At(s, k, p) && StartsName(s, k)
    && var a, b := ValueStart(s, k + |p|), ValueEnd(s, k + |p|);
       a < b && r == Splice(s, a, b)
  }

  /** One value of one of the prefixes `ps` is masked. */
  ghost predicate Step(s: string, r: string, ps: seq<string>) {
    exists p, k :: p in ps && ValueStarred(s, r, p, k)
  }

  ghost predicate Chain(c: seq<string>, ps: seq<string>) {
    |c| > 0 && forall i {:trigger c[i]} :: 0 <= i < |c| - 1 ==> Step(c[i], c[i + 1], ps)
  }

  ghost predicate Reduces(s: string, r: string, ps: seq<string>) {
    exists c :: Chain(c, ps) && c[0] == s && c[|c| - 1] == r
  }

  /** A masked value is a run. */
  lemma StepIsRun(s: string, r: string, ps: seq<string>) returns (a: nat, b: nat)
    requires Step(s, r, ps)
    ensures RunAt(s, a, b) && r == Splice(s, a, b)
  {
    var p, k :| p in ps && ValueStarred(s, r, p, k);
    ValueIsRun(s, k, p);
    a, b := ValueStart(s, k + |p|), ValueEnd(s, k + |p|);
  }

  lemma ReducesSelf(s: string, ps: seq<string>)
    ensures Reduces(s, s, ps)
  {
    assert Chain([s], ps);
  }

  lemma ReducesStep(s: string, m: string, r: string, ps: seq<string>)
    requires Step(s, m, ps) && Reduces(m, r, ps)
    ensures Reduces(s, r, ps)
  {
    var c :| Chain(c, ps) && c[0] == m && c[|c| - 1] == r;
    var d := [s] + c;
    forall i {:trigger d[i]} | 0 <= i < |d| - 1 ensures Step(d[i], d[i + 1], ps) {
      if i > 0 {
        assert d[i] == c[i - 1] && d[i + 1] == c[i];
      }
    }
    assert Chain(d, ps);
  }

  lemma ReducesTransitive(s: string, m: string, r: string, ps: seq<string>)
    requires Reduces(s, m, ps) && Reduces(m, r, ps)
    ensures Reduces(s, r, ps)
  {
    var c :| Chain(c, ps) && c[0] == s && c[|c| - 1] == m;
    ReducesAlong(c, r, ps);
  }

  lemma {:induction false} ReducesAlong(c: seq<string>, r: string, ps: seq<string>)
    requires Chain(c, ps) && Reduces(c[|c| - 1], r, ps)
    ensures Reduces(c[0], r, ps)
    decreases |c|
  {
    if |c| > 1 {
      var d := c[1..];
      forall i {:trigger d[i]} | 0 <= i < |d| - 1 ensures Step(d[i], d[i + 1], ps) {
        assert d[i] == c[i + 1];
      }
      ReducesAlong(d, r, ps);
      assert Step(c[0], c[1], ps);
      ReducesStep(c[0], c[1], r, ps);
    }
  }

  lemma TurnReduces(s: string, p: string, idx: nat, ps: seq<string>)
    requires |p| > 0 && '*' !in p && p in ps && idx <= |s|
    ensures MaskTurn(s, p, idx).Next? ==>
              var t := MaskTurn(s, p, idx).text; t == s || Step(s, t, ps)
  {
    var t := MaskTurn(s, p, idx);
    if t.Next? && t.text != s {
      assert ValueStarred(s, t.text, p, IndexFrom(s, idx, p));
    }
  }

  lemma {:induction false} MaskReduces(s: string, p: string, idx: nat, ps: seq<string>)
    requires |p| > 0 && '*' !in p && p in ps && idx <= |s|
    ensures Reduces(s, MaskFrom(s, p, idx), ps)
    decreases |s| - idx
  {
    TurnReduces(s, p, idx, ps);
    match MaskTurn(s, p, idx)
    case Finished => ReducesSelf(s, ps);
    case Next(text, from) =>
      MaskReduces(text, p, from, ps);
      if text != s {
        ReducesStep(s, text, MaskFrom(text, p, from), ps);
      }
  }

  // ---------------------------------------------------------------------------------------
  // Normal form
  // ---------------------------------------------------------------------------------------

  /** Every occurrence of `p` that starts a name below position `limit` is followed by an
      empty value or by exactly three stars. */
  ghost predicate NormalBelow(s: string, p: string, limit: int) {
    forall i :: i < limit && At(s, i, p) && StartsName(s, i) ==> MaskedValue(s, i + |p|)
  }

  ghost predicate Normal(s: string, p: string) {
    NormalBelow(s, p, |s|)
  }

  /** Masking a later run leaves a masked value masked. */
  lemma MaskedBefore(s: string, a: nat, b: nat, start: nat)
    requires RunAt(s, a, b) && start <= a && MaskedValue(s, start)
    ensures MaskedValue(Splice(s, a, b), start)
  {
    var r := Splice(s, a, b);
    var va, vb := ValueStart(s, start), ValueEnd(s, start);
    assert !IsTokenDelimiter(s[a]);
    assert va <= a;
    if va == a {
      ValueIs(r, start, a, a + 3);
    } else {
      assert vb < a;
      ValueIs(r, start, va, vb);
    }
  }

  /** A value behind the masked run moves with its text. */
  lemma MaskedBehind(s: string, a: nat, b: nat, start: nat)
    requires a <= b <= start <= |s| && MaskedValue(s, start)
    ensures start - b + a + 3 <= |Splice(s, a, b)| && MaskedValue(Splice(s, a, b), start - b + a + 3)
  {
    var r, d := Splice(s, a, b), a + 3 - b;
    var va, vb := ValueStart(s, start), ValueEnd(s, start);
    ValueIs(r, start + d, va + d, vb + d);
  }

  lemma StepKeepsNormal(s: string, a: nat, b: nat, q: string)
    requires RunAt(s, a, b) && WellFormedPrefix(q) && Normal(s, q)
    ensures Normal(Splice(s, a, b), q)
  {
    var r := Splice(s, a, b);
    forall i | At(r, i, q) && StartsName(r, i) ensures MaskedValue(r, i + |q|) {
      OccurrenceStaysMasked(s, a, b, q, i);
    }
  }

  lemma OccurrenceStaysMasked(s: string, a: nat, b: nat, q: string, i: nat)
    requires RunAt(s, a, b) && StarFree(q) && !IsTokenDelimiter(q[0]) && Normal(s, q)
    requires At(Splice(s, a, b), i, q) && StartsName(Splice(s, a, b), i)
    ensures MaskedValue(Splice(s, a, b), i + |q|)
  {
    hide ValueStart, ValueEnd, Splice, MaskedValue;
    SpliceOccurrence(s, a, b, i, q);
    if i + |q| <= a {
      OccurrenceBefore(s, a, b, q, i);
    } else {
      OccurrenceBehind(s, a, b, q, i - (a + 3) + b);
    }
  }

  lemma OccurrenceBefore(s: string, a: nat, b: nat, q: string, i: nat)
    requires RunAt(s, a, b) && i + |q| <= a && (StartsName(s, i) ==> MaskedValue(s, i + |q|))
    requires StartsName(Splice(s, a, b), i)
    ensures MaskedValue(Splice(s, a, b), i + |q|)
  {
    SameNameBefore(s, a, b, i);
    MaskedBefore(s, a, b, i + |q|);
  }

  lemma OccurrenceBehind(s: string, a: nat, b: nat, q: string, j: nat)
    requires RunAt(s, a, b) && Normal(s, q)
    requires b <= j && At(s, j, q) && |q| > 0 && !IsTokenDelimiter(q[0])
    requires StartsName(Splice(s, a, b), j - b + a + 3)
    ensures MaskedValue(Splice(s, a, b), j - b + a + 3 + |q|)
  {
    hide ValueStart, ValueEnd, Splice, RunAt, MaskedValue;
    RunBounds(s, a, b);
    FirstByte(s, j, q);
    SameNameBehind(s, a, b, j);
    MaskedBehind(s, a, b, j + |q|);
  }

  lemma RunBounds(s: string, a: nat, b: nat)
    requires RunAt(s, a, b)
    ensures a < b <= |s| && |Splice(s, a, b)| == |s| - (b - a) + 3
  {
  }

  lemma FirstByte(s: string, j: nat, q: string)
    requires At(s, j, q) && |q| > 0
    ensures j < |s| && s[j] == q[0]
  {
    assert s[j..j + |q|][0] == s[j];
  }

  lemma SameNameBefore(s: string, a: nat, b: nat, i: nat)
    requires i <= a <= b <= |s|
    ensures StartsName(s, i) == StartsName(Splice(s, a, b), i)
  {
  }

  lemma SameNameBehind(s: string, a: nat, b: nat, j: nat)
    requires RunAt(s, a, b) && b <= j < |s| && !IsTokenDelimiter(s[j])
    ensures StartsName(s, j) == StartsName(Splice(s, a, b), j - b + a + 3)
  {
    assert Splice(s, a, b)[j - b + a + 2] == s[j - 1];
  }

  lemma {:induction false} ChainNormal(c: seq<string>, ps: seq<string>, q: string)
    requires Chain(c, ps) && WellFormedPrefix(q) && Normal(c[0], q)
    ensures Normal(c[|c| - 1], q)
    decreases |c|
  {
    if |c| > 1 {
      var d := c[1..];
      forall i {:trigger d[i]} | 0 <= i < |d| - 1 ensures Step(d[i], d[i + 1], ps) {
        assert d[i] == c[i + 1];
      }
      assert Step(c[0], c[1], ps);
      var a, b := StepIsRun(c[0], c[1], ps);
      StepKeepsNormal(c[0], a, b, q);
      ChainNormal(d, ps, q);
    }
  }

  /** A text in normal form for a prefix stays so under any masking. */
  lemma ReducesNormal(s: string, r: string, ps: seq<string>, q: string)
    requires Reduces(s, r, ps) && WellFormedPrefix(q) && Normal(s, q)
    ensures Normal(r, q)
  {
    var c :| Chain(c, ps) && c[0] == s && c[|c| - 1] == r;
    ChainNormal(c, ps, q);
  }

  lemma Bytes(s: string, k: nat, p: string)
    ensures At(s, k, p) ==> forall x :: k <= x < k + |p| ==> s[x] == p[x - k]
  {
    forall x | At(s, k, p) && k <= x < k + |p| ensures s[x] == p[x - k] {
      assert s[k..k + |p|][x - k] == s[x];
    }
  }

  lemma NoOverlap(s: string, k: nat, i: nat, p: string)
    requires WellFormedPrefix(p) && At(s, k, p) && k < i < k + |p|
    ensures !At(s, i, p)
  {
    Bytes(s, k, p);
    Bytes(s, i, p);
    assert Clashes(p, i - k);
    assert s[i] == p[i - k];
    assert i - k + 1 < |p| ==> s[i + 1] == p[i - k + 1];
  }

  /** A turn leaves no named occurrence unmasked behind the position it moves to. */
  lemma TurnNormal(s: string, p: string, idx: nat)
    requires WellFormedPrefix(p) && idx <= |s| && NormalBelow(s, p, idx) && MaskTurn(s, p, idx).Next?
    ensures NormalBelow(MaskTurn(s, p, idx).text, p, MaskTurn(s, p, idx).from)
  {
    hide NormalBelow, Splice;
    var k := IndexFrom(s, idx, p);
    if StartsName(s, k) {
      NamedTurn(s, p, idx, k);
    } else {
      PassedOver(s, p, idx, k);
    }
  }

  lemma TurnFinished(s: string, p: string, idx: nat)
    requires |p| > 0 && idx <= |s| && NormalBelow(s, p, idx) && MaskTurn(s, p, idx).Finished?
    ensures Normal(s, p)
  {
    PassedOver(s, p, idx, |s|);
  }

  lemma PassedOver(s: string, p: string, idx: nat, k: nat)
    requires NormalBelow(s, p, idx) && idx <= k <= |s| && |p| > 0
    requires forall i :: idx <= i < k ==> !At(s, i, p)
    ensures NormalBelow(s, p, k) && (k < |s| && !StartsName(s, k) ==> NormalBelow(s, p, k + 1))
  {
  }

  lemma NamedTurn(s: string, p: string, idx: nat, k: nat)
    requires WellFormedPrefix(p) && idx <= k && At(s, k, p) && NormalBelow(s, p, idx)
    requires forall i :: idx <= i < k ==> !At(s, i, p)
    ensures var a, b := ValueStart(s, k + |p|), ValueEnd(s, k + |p|);
      if a < b then NormalBelow(Splice(s, a, b), p, a + 3) else NormalBelow(s, p, k + |p|)
  {
    forall i | k < i < k + |p| ensures !At(s, i, p) {
      NoOverlap(s, k, i, p);
    }
    var start := k + |p|;
    var a, b := ValueStart(s, start), ValueEnd(s, start);
    if a < b {
      ValueIsRun(s, k, p);
      var r := Splice(s, a, b);
      forall i | i < a + 3 && At(r, i, p) && StartsName(r, i) ensures MaskedValue(r, i + |p|) {
        MaskedOccurrence(s, p, idx, k, a, b, i);
      }
    }
  }

  lemma ValueIsRun(s: string, k: nat, p: string)
    requires At(s, k, p) && StarFree(p) && ValueStart(s, k + |p|) < ValueEnd(s, k + |p|)
    ensures RunAt(s, ValueStart(s, k + |p|), ValueEnd(s, k + |p|))
  {
    var a := ValueStart(s, k + |p|);
    Bytes(s, k, p);
    if a > k + |p| {
      assert IsQuoteOrSpace(s[a - 1]);
    } else {
      assert s[a - 1] == p[|p| - 1];
    }
  }

  lemma MaskedOccurrence(s: string, p: string, idx: nat, k: nat, a: nat, b: nat, i: nat)
    requires StarFree(p) && !IsTokenDelimiter(p[0]) && At(s, k, p) && NormalBelow(s, p, idx)
    requires a == ValueStart(s, k + |p|) && RunAt(s, a, b)
    requires forall i :: idx <= i < k + |p| && i != k ==> !At(s, i, p)
    requires i < a + 3 && At(Splice(s, a, b), i, p) && StartsName(Splice(s, a, b), i)
    ensures MaskedValue(Splice(s, a, b), i + |p|)
  {
    hide ValueStart, ValueEnd, Splice, MaskedValue, StartsName;
    RunBounds(s, a, b);
    SpliceOccurrence(s, a, b, i, p);
    NotInLead(s, k + |p|, i, p);
    if i == k {
      FreshStars(s, k + |p|, a, b);
    } else {
      OccurrenceBefore(s, a, b, p, i);
    }
  }

  lemma FreshStars(s: string, start: nat, a: nat, b: nat)
    requires start <= |s| && a == ValueStart(s, start) && RunAt(s, a, b)
    ensures MaskedValue(Splice(s, a, b), start)
  {
    ValueIs(Splice(s, a, b), start, a, a + 3);
  }

  lemma NotInLead(s: string, start: nat, i: nat, p: string)
    requires start <= |s| && |p| > 0 && !IsTokenDelimiter(p[0]) && At(s, i, p)
    ensures i < start || ValueStart(s, start) <= i
  {
    FirstByte(s, i, p);
  }

  /** maskKeyValues brings a text into normal form for its prefix. */
  lemma {:induction false} MaskNormal(s: string, p: string, idx: nat)
    requires WellFormedPrefix(p) && idx <= |s| && NormalBelow(s, p, idx)
    ensures Normal(MaskFrom(s, p, idx), p)
    decreases |s| - idx
  {
    match MaskTurn(s, p, idx)
    case Finished => TurnFinished(s, p, idx);
    case Next(text, from) =>
      TurnNormal(s, p, idx);
      MaskNormal(text, p, from);
  }

  /** and leaves a text in that form alone. */
  lemma {:induction false} MaskStable(s: string, p: string, idx: nat)
    requires |p| > 0 && idx <= |s| && Normal(s, p)
    ensures MaskFrom(s, p, idx) == s
    decreases |s| - idx
  {
    match MaskTurn(s, p, idx)
    case Finished =>
    case Next(text, from) =>
      TurnStable(s, p, idx);
      MaskStable(s, p, from);
  }

  lemma TurnStable(s: string, p: string, idx: nat)
    requires |p| > 0 && idx <= |s| && Normal(s, p) && MaskTurn(s, p, idx).Next?
    ensures MaskTurn(s, p, idx).text == s
  {
    var k := IndexFrom(s, idx, p);
    if StartsName(s, k) {
      assert MaskedValue(s, k + |p|);
      var a, b := ValueStart(s, k + |p|), ValueEnd(s, k + |p|);
      if a < b {
        assert s[a..b] == STARS;
        assert s == s[..a] + s[a..b] + s[b..];
      }
    }
  }

  // ---------------------------------------------------------------------------------------
  // RedactString
  // ---------------------------------------------------------------------------------------

  function PrefixesOfKey(key: string, separators: seq<string>): seq<string> {
    if separators == [] then [] else [key + separators[0]] + PrefixesOfKey(key, separators[1..])
  }

  function PrefixesOf(keys: seq<string>, separators: seq<string>): seq<string> {
    if keys == [] then [] else PrefixesOfKey(keys[0], separators) + PrefixesOf(keys[1..], separators)
  }

  function Prefixes(): seq<string> {
    PrefixesOf(SENSITIVE_KEYS, SENSITIVE_SEPARATORS)
  }

  ghost predicate NonEmptyPrefixes(ps: seq<string>) {
    forall p :: p in ps ==> |p| > 0
  }

  /** One maskKeyValues pass per prefix, in order. */
  function MaskAll(s: string, ps: seq<string>): (r: string)
    requires NonEmptyPrefixes(ps)
    decreases |ps|
  {
    if ps == [] then s else MaskAll(MaskFrom(s, ps[0], 0), ps[1..])
  }

  lemma PrefixOfKeyMember(key: string, separators: seq<string>, p: string)
    ensures p in PrefixesOfKey(key, separators) <==> exists sep :: sep in separators && p == key + sep
  {
    if separators != [] {
      PrefixOfKeyMember(key, separators[1..], p);
      assert separators == [separators[0]] + separators[1..];
    }
  }

  lemma PrefixMember(keys: seq<string>, separators: seq<string>, p: string)
    ensures p in PrefixesOf(keys, separators)
       <==> exists key, sep :: key in keys && sep in separators && p == key + sep
  {
    if keys != [] {
      PrefixMember(keys[1..], separators, p);
      PrefixOfKeyMember(keys[0], separators, p);
      assert keys == [keys[0]] + keys[1..];
    }
  }

  /** A key of at least two letters, and a separator, neither of which repeats the key's
      first two bytes. */
  predicate NoEcho(t: string, key: string, from: nat)
    requires |key| > 1
    decreases |t| - from
  {
    from >= |t|
    || (&& t[from] != '*'
        && (t[from] != key[0] || (from + 1 < |t| && t[from + 1] != key[1]))
        && NoEcho(t, key, from + 1))
  }

  lemma NoEchoAt(t: string, key: string, from: nat, j: nat)
    requires |key| > 1 && NoEcho(t, key, from) && from <= j < |t|
    ensures t[j] != '*' && (t[j] != key[0] || (j + 1 < |t| && t[j + 1] != key[1]))
    decreases |t| - from
  {
    if from < j {
      NoEchoAt(t, key, from + 1, j);
    }
  }

  lemma PairWellFormed(key: string, sep: string)
    requires |key| > 1 && IsLetterOrDigit(key[0]) && NoEcho(key, key, 1) && NoEcho(sep, key, 0)
    ensures WellFormedPrefix(key + sep)
  {
    var p := key + sep;
    forall j | 0 <= j < |p| ensures p[j] != '*' && (j > 0 ==> Clashes(p, j)) {
      if 0 < j < |key| {
        NoEchoAt(key, key, 1, j);
      } else if |key| <= j {
        NoEchoAt(sep, key, 0, j - |key|);
      }
    }
  }

  /** A key that makes a well-formed prefix with every separator. */
  predicate SoundKey(key: string) {
    && |key| > 1 && IsLetterOrDigit(key[0]) && NoEcho(key, key, 1)
    && NoEcho(": Bearer ", key, 0) && NoEcho(": Basic ", key, 0) && NoEcho("=", key, 0) && NoEcho(":", key, 0)
  }

  lemma AccessKeysSound()
    ensures SoundKey("OS_ACCESS_KEY") && SoundKey("OS_SECRET_KEY") && SoundKey("AK") && SoundKey("SK")
  {
  }

  lemma TokenKeySound()
    ensures SoundKey("OS_SECURITY_TOKEN")
  {
  }

  lemma HeaderKeysSound()
    ensures SoundKey("Authorization") && SoundKey("authorization")
  {
  }

  lemma KeySound(key: string)
    requires key in SENSITIVE_KEYS
    ensures SoundKey(key)
  {
    AccessKeysSound();
    TokenKeySound();
    HeaderKeysSound();
  }

  lemma KeyWellFormed(key: string, sep: string)
    requires SoundKey(key) && sep in SENSITIVE_SEPARATORS
    ensures WellFormedPrefix(key + sep)
  {
    assert sep == ": Bearer " || sep == ": Basic " || sep == "=" || sep == ":";
    PairWellFormed(key, sep);
  }

  lemma PrefixWellFormed(keys: seq<string>, separators: seq<string>, p: string)
    requires forall key, sep :: key in keys && sep in separators ==> WellFormedPrefix(key + sep)
    requires p in PrefixesOf(keys, separators)
    ensures WellFormedPrefix(p)
  {
    PrefixMember(keys, separators, p);
  }

  lemma PrefixesSound()
    ensures forall p :: p in Prefixes() ==> WellFormedPrefix(p)
    ensures NonEmptyPrefixes(Prefixes())
  {
    forall key, sep | key in SENSITIVE_KEYS && sep in SENSITIVE_SEPARATORS
      ensures WellFormedPrefix(key + sep)
    {
      KeySound(key);
      KeyWellFormed(key, sep);
    }
    forall p | p in Prefixes() ensures WellFormedPrefix(p) {
      PrefixWellFormed(SENSITIVE_KEYS, SENSITIVE_SEPARATORS, p);
    }
  }

  /** The specification of RedactString. */
  function Redact(s: string): (r: string) {
    PrefixesSound();
    MaskAll(s, Prefixes())
  }

  lemma {:induction false} MaskAllReduces(s: string, ps: seq<string>, all: seq<string>)
    requires NonEmptyPrefixes(ps) && forall p :: p in ps ==> WellFormedPrefix(p) && p in all
    ensures Reduces(s, MaskAll(s, ps), all)
    decreases |ps|
  {
    if ps == [] {
      ReducesSelf(s, all);
    } else {
      var m := MaskFrom(s, ps[0], 0);
      MaskReduces(s, ps[0], 0, all);
      MaskAllReduces(m, ps[1..], all);
      ReducesTransitive(s, m, MaskAll(m, ps[1..]), all);
    }
  }

  lemma {:induction false} MaskAllNormal(s: string, ps: seq<string>, q: string)
    requires NonEmptyPrefixes(ps) && forall p :: p in ps ==> WellFormedPrefix(p)
    requires q in ps
    ensures Normal(MaskAll(s, ps), q)
    decreases |ps|
  {
    var m, rest := MaskFrom(s, ps[0], 0), ps[1..];
    if q == ps[0] {
      MaskNormal(s, q, 0);
      MaskAllReduces(m, rest, rest);
      ReducesNormal(m, MaskAll(m, rest), rest, q);
    } else {
      MaskAllNormal(m, rest, q);
    }
  }

  lemma {:induction false} MaskAllStable(s: string, ps: seq<string>)
    requires NonEmptyPrefixes(ps) && forall p :: p in ps ==> Normal(s, p)
    ensures MaskAll(s, ps) == s
    decreases |ps|
  {
    if ps != [] {
      MaskStable(s, ps[0], 0);
      MaskAllStable(s, ps[1..]);
    }
  }

  /** The keys and the separators, in the order in which they are looked for. */
  lemma SensitiveNames()
    ensures |SENSITIVE_KEYS| == 7 && |SENSITIVE_SEPARATORS| == 4
    ensures forall key :: key in SENSITIVE_KEYS <==>
              key in {"OS_ACCESS_KEY", "OS_SECRET_KEY", "OS_SECURITY_TOKEN", "Authorization", "authorization",
                      "AK", "SK"}
    ensures forall sep :: sep in SENSITIVE_SEPARATORS <==> sep in {": Bearer ", ": Basic ", "=", ":"}
  {
  }

  /** What follows a key and separator at the start of a text, or behind a byte that is neither letter nor
      digit, is masked: no value is left there, or exactly three stars. */
  lemma RedactHides(s: string, key: string, sep: string, i: nat)
    requires key in SENSITIVE_KEYS && sep in SENSITIVE_SEPARATORS && At(Redact(s), i, key + sep)
    requires i > 0 ==>
               var b := Redact(s)[i - 1]; !('a' <= b <= 'z') && !('A' <= b <= 'Z') && !('0' <= b <= '9')
    ensures MaskedValue(Redact(s), i + |key + sep|)
  {
    hide Redact;
    RedactNormal(s, key, sep);
    assert StartsName(Redact(s), i);
  }

  /** In redacted text every key and separator that starts a name, for every one of the 28
      combinations, is followed by an empty value or by exactly three stars. */
  lemma RedactNormal(s: string, key: string, sep: string)
    requires key in SENSITIVE_KEYS && sep in SENSITIVE_SEPARATORS
    ensures Normal(Redact(s), key + sep)
  {
    PrefixesSound();
    PrefixMember(SENSITIVE_KEYS, SENSITIVE_SEPARATORS, key + sep);
    MaskAllNormal(s, Prefixes(), key + sep);
  }

  /** A text is left alone exactly when it is already in that form. */
  lemma RedactFixedPoint(s: string)
    ensures Redact(s) == s <==> forall p :: p in Prefixes() ==> Normal(s, p)
  {
    PrefixesSound();
    if forall p :: p in Prefixes() ==> Normal(s, p) {
      MaskAllStable(s, Prefixes());
    }
    if Redact(s) == s {
      forall p | p in Prefixes() ensures Normal(s, p) {
        MaskAllNormal(s, Prefixes(), p);
      }
    }
  }

  lemma RedactIdempotent(s: string)
    ensures Redact(Redact(s)) == Redact(s)
  {
    PrefixesSound();
    forall p | p in Prefixes() ensures Normal(Redact(s), p) {
      MaskAllNormal(s, Prefixes(), p);
    }
    MaskAllStable(Redact(s), Prefixes());
  }

  /** Redaction is a chain of single steps, each of which stars the value of one of the 28 keys and
      separators where it starts a name. */
  lemma RedactReduces(s: string)
    ensures Reduces(s, Redact(s), Prefixes())
  {
    PrefixesSound();
    MaskAllReduces(s, Prefixes(), Prefixes());
  }

  method RedactString(s: string) returns (res: string)
    ensures res == Redact(s)
  {
    if s == "" {
      RedactEmpty();
      return s;
    }
    PrefixesSound();
    res := RedactWith(s, SENSITIVE_KEYS, SENSITIVE_SEPARATORS);
  }

  lemma RedactEmpty()
    ensures Redact("") == ""
  {
    RedactEnd("");
  }

  /** The nested loops of RedactString over keys and separators. */
  method RedactWith(s: string, keys: seq<string>, separators: seq<string>) returns (res: string)
    requires NonEmptyPrefixes(PrefixesOf(keys, separators))
    ensures res == MaskAll(s, PrefixesOf(keys, separators))
  {
    res := s;
    ghost var all := PrefixesOf(keys, separators);
    for i := 0 to |keys|
      invariant Pending(s, res, all, PrefixesOf(keys[i..], separators))
    {
      var key := keys[i];
      ghost var later := PrefixesOf(keys[i + 1..], separators);
      assert keys[i..][1..] == keys[i + 1..];
      for j := 0 to |separators|
        invariant Pending(s, res, all, PrefixesOfKey(key, separators[j..]) + later)
      {
        var sep := separators[j];
        assert separators[j..][1..] == separators[j + 1..];
        PendingPass(s, res, all, key, sep, separators[j..], later);
        res := MaskKeyValues(res, key + sep);
      }
      assert PrefixesOfKey(key, separators[|separators|..]) + later == later;
    }
  }

  /** What is left to do on `res` completes the passes `all` on `s`. */
  ghost predicate Pending(s: string, res: string, all: seq<string>, left: seq<string>) {
    NonEmptyPrefixes(all) && NonEmptyPrefixes(left) && MaskAll(res, left) == MaskAll(s, all)
  }

  lemma PendingPass(s: string, res: string, all: seq<string>, key: string, sep: string,
                    separators: seq<string>, later: seq<string>)
    requires separators != [] && separators[0] == sep
    requires Pending(s, res, all, PrefixesOfKey(key, separators) + later)
    ensures |key + sep| > 0
    ensures Pending(s, MaskFrom(res, key + sep, 0), all, PrefixesOfKey(key, separators[1..]) + later)
  {
    hide MaskFrom, Prefixes;
    var left := PrefixesOfKey(key, separators) + later;
    assert left[0] == key + sep;
    assert left[1..] == PrefixesOfKey(key, separators[1..]) + later;
  }

  // ---------------------------------------------------------------------------------------
  // What redaction cannot do
  // ---------------------------------------------------------------------------------------

  lemma {:induction false} ChainContains(c: seq<string>, ps: seq<string>, p: string)
    requires Chain(c, ps) && |p| > 0
    ensures Contains(c[|c| - 1], p) ==> Contains(c[0], p) || '*' in p
    decreases |c|
  {
    if |c| > 1 {
      var d := c[..|c| - 1];
      forall i {:trigger d[i]} | 0 <= i < |d| - 1 ensures Step(d[i], d[i + 1], ps) {
        assert d[i] == c[i];
      }
      ChainContains(d, ps, p);
      assert Step(c[|c| - 2], c[|c| - 1], ps);
      var a, b := StepIsRun(c[|c| - 2], c[|c| - 1], ps);
      SpliceContains(d[|d| - 1], a, b, p);
    }
  }

  /** Redaction brings no text free of stars into being. */
  lemma RedactContains(s: string, p: string)
    requires |p| > 0
    ensures Contains(Redact(s), p) ==> Contains(s, p) || '*' in p
  {
    RedactReduces(s);
    var ps := Prefixes();
    var c :| Chain(c, ps) && c[0] == s && c[|c| - 1] == Redact(s);
    ChainContains(c, ps, p);
  }

  lemma StepEnd(s: string, r: string, ps: seq<string>)
    requires Step(s, r, ps)
    ensures EndKept(s, r)
  {
    var a, b := StepIsRun(s, r, ps);
  }

  lemma {:induction false} ChainEnd(c: seq<string>, ps: seq<string>)
    requires Chain(c, ps)
    ensures EndKept(c[0], c[|c| - 1])
    decreases |c|
  {
    if |c| > 1 {
      var d := c[..|c| - 1];
      forall i {:trigger d[i]} | 0 <= i < |d| - 1 ensures Step(d[i], d[i + 1], ps) {
        assert d[i] == c[i];
      }
      ChainEnd(d, ps);
      assert Step(c[|c| - 2], c[|c| - 1], ps);
      StepEnd(c[|c| - 2], c[|c| - 1], ps);
    }
  }

  lemma RedactEnd(s: string)
    ensures EndKept(s, Redact(s))
  {
    RedactReduces(s);
    var ps := Prefixes();
    var c :| Chain(c, ps) && c[0] == s && c[|c| - 1] == Redact(s);
    ChainEnd(c, ps);
  }

  // ---------------------------------------------------------------------------------------
  // Token by token
  // ---------------------------------------------------------------------------------------

  /** The text cut at every delimiter; there is one token more than there are delimiters. */
  function Tokens(s: string): (ts: seq<string>)
    ensures |ts| > 0
  {
    if s == "" then [""]
    else if IsTokenDelimiter(s[0]) then [""] + Tokens(s[1..])
    else
      var rest := Tokens(s[1..]);
      [[s[0]] + rest[0]] + rest[1..]
  }

  function Delimiters(s: string): string {
    if s == "" then ""
    else if IsTokenDelimiter(s[0]) then [s[0]] + Delimiters(s[1..])
    else Delimiters(s[1..])
  }

  /** A token is kept, or some proper prefix of it is kept and the remainder becomes stars. */
  ghost predicate TokenMasked(t: string, u: string) {
    u == t || exists n: nat :: HeadKept(t, u, n)
  }

  ghost predicate HeadKept(t: string, u: string, n: nat) {
    n < |t| && u == t[..n] + STARS && (n > 0 ==> t[n - 1] != '*')
  }

  ghost predicate TokensMasked(ts: seq<string>, us: seq<string>) {
    |ts| == |us| && forall i :: 0 <= i < |ts| ==> TokenMasked(ts[i], us[i])
  }

  /** Two token lists joined where the last token of one meets the first of the other. */
  function Joined(a: seq<string>, b: seq<string>): seq<string>
    requires a != [] && b != []
  {
    a[..|a| - 1] + [a[|a| - 1] + b[0]] + b[1..]
  }

  lemma JoinedAfterDelimiter(a: seq<string>, b: seq<string>)
    requires a != [] && b != []
    ensures Joined([""] + a, b) == [""] + Joined(a, b)
  {
    assert ([""] + a)[..|a|] == [""] + a[..|a| - 1];
  }

  lemma JoinedAfterByte(c: char, a: seq<string>, b: seq<string>)
    requires a != [] && b != []
    ensures Joined([[c] + a[0]] + a[1..], b) == [[c] + Joined(a, b)[0]] + Joined(a, b)[1..]
  {
    var x := [[c] + a[0]] + a[1..];
    if |a| == 1 {
      assert [c] + a[0] + b[0] == [c] + (a[0] + b[0]);
    } else {
      assert x[..|x| - 1] == [[c] + a[0]] + a[1..|a| - 1];
      assert x[|x| - 1] == a[|a| - 1];
    }
  }

  lemma TokensOfNothing()
    ensures Tokens("") == [""] && Delimiters("") == ""
  {
  }

  lemma TokensAfterDelimiter(c: char, s: string)
    requires IsTokenDelimiter(c)
    ensures Tokens([c] + s) == [""] + Tokens(s) && Delimiters([c] + s) == [c] + Delimiters(s)
  {
    assert ([c] + s)[1..] == s;
  }

  lemma TokensAfterByte(c: char, s: string)
    requires !IsTokenDelimiter(c)
    ensures Tokens([c] + s) == [[c] + Tokens(s)[0]] + Tokens(s)[1..] && Delimiters([c] + s) == Delimiters(s)
  {
    assert ([c] + s)[1..] == s;
  }

  lemma {:induction false} TokensConcat(l: string, r: string)
    ensures Tokens(l + r) == Joined(Tokens(l), Tokens(r))
    ensures Delimiters(l + r) == Delimiters(l) + Delimiters(r)
    decreases |l|
  {
    hide Tokens, Delimiters;
    if l == "" {
      TokensOfNothing();
      assert l + r == r;
      assert "" + Tokens(r)[0] == Tokens(r)[0];
    } else {
      var c, rest := l[0], l[1..];
      TokensConcat(rest, r);
      assert l == [c] + rest && l + r == [c] + (rest + r);
      if IsTokenDelimiter(c) {
        TokensAfterDelimiter(c, rest);
        TokensAfterDelimiter(c, rest + r);
        JoinedAfterDelimiter(Tokens(rest), Tokens(r));
      } else {
        TokensAfterByte(c, rest);
        TokensAfterByte(c, rest + r);
        JoinedAfterByte(c, Tokens(rest), Tokens(r));
      }
    }
  }

  lemma {:induction false} TokensOfRun(s: string)
    requires forall x :: 0 <= x < |s| ==> !IsTokenDelimiter(s[x])
    ensures Tokens(s) == [s] && Delimiters(s) == ""
    decreases |s|
  {
    if s != "" {
      TokensOfRun(s[1..]);
      assert [s[0]] + s[1..] == s;
    }
  }

  lemma TokensStart(tail: string)
    requires tail == "" || IsTokenDelimiter(tail[0])
    ensures Tokens(tail)[0] == ""
  {
  }

  lemma JoinedFirst(run: string, b: seq<string>)
    requires b != [] && b[0] == ""
    ensures Joined([run], b) == [run] + b[1..]
  {
    assert run + "" == run;
  }

  lemma TokensOfTail(run: string, tail: string)
    requires forall x :: 0 <= x < |run| ==> !IsTokenDelimiter(run[x])
    requires tail == "" || IsTokenDelimiter(tail[0])
    ensures Tokens(run + tail) == [run] + Tokens(tail)[1..] && Delimiters(run + tail) == Delimiters(tail)
  {
    TokensConcat(run, tail);
    TokensOfRun(run);
    TokensStart(tail);
    JoinedFirst(run, Tokens(tail));
  }

  /** Masking a run replaces the end of exactly one token. */
  lemma StepTokens(s: string, a: nat, b: nat)
    requires RunAt(s, a, b)
    ensures Delimiters(Splice(s, a, b)) == Delimiters(s)
    ensures TokensMasked(Tokens(s), Tokens(Splice(s, a, b)))
  {
    hide Tokens, Delimiters, Joined, TokensMasked, Splice;
    var l, run, tail := s[..a], s[a..b], s[b..];
    RunParts(s, a, b);
    TokensAround(l, run, tail);
    TokensAround(l, STARS, tail);
    LastToken(l);
    OneTokenMasked(Tokens(l), run, Tokens(tail)[1..]);
  }

  lemma RunParts(s: string, a: nat, b: nat)
    requires RunAt(s, a, b)
    ensures var l, run, tail := s[..a], s[a..b], s[b..];
      && s == l + (run + tail) && Splice(s, a, b) == l + (STARS + tail)
      && (forall x :: 0 <= x < |run| ==> !IsTokenDelimiter(run[x]))
      && (tail == "" || IsTokenDelimiter(tail[0])) && run != "" && (l != "" ==> l[|l| - 1] != '*')
  {
  }

  /** The tokens of a text that holds a whole run. */
  lemma TokensAround(l: string, run: string, tail: string)
    requires forall x :: 0 <= x < |run| ==> !IsTokenDelimiter(run[x])
    requires tail == "" || IsTokenDelimiter(tail[0])
    ensures Tokens(l + (run + tail)) == Joined(Tokens(l), [run] + Tokens(tail)[1..])
    ensures Delimiters(l + (run + tail)) == Delimiters(l) + Delimiters(tail)
  {
    hide Tokens, Delimiters, Joined;
    TokensConcat(l, run + tail);
    TokensOfTail(run, tail);
  }

  lemma OneTokenMasked(before: seq<string>, run: string, after: seq<string>)
    requires before != [] && run != ""
    requires var last := before[|before| - 1]; last != "" ==> last[|last| - 1] != '*'
    ensures TokensMasked(Joined(before, [run] + after), Joined(before, [STARS] + after))
  {
    var last := before[|before| - 1];
    assert (last + run)[..|last|] == last;
    assert HeadKept(last + run, last + STARS, |last|);
  }

  /** The last token ends the text, and a single token is the whole text. */
  lemma {:induction false} LastToken(s: string)
    ensures var t := Tokens(s)[|Tokens(s)| - 1];
      (t != "" ==> s != "" && s[|s| - 1] == t[|t| - 1]) && (|Tokens(s)| == 1 ==> t == s)
    decreases |s|
  {
    if s != "" {
      LastToken(s[1..]);
    }
  }

  lemma TokenTransitive(t: string, u: string, v: string)
    requires TokenMasked(t, u) && TokenMasked(u, v)
    ensures TokenMasked(t, v)
  {
    if t != u && u != v {
      var n: nat :| HeadKept(t, u, n);
      var m: nat :| HeadKept(u, v, m);
      assert forall x :: n <= x < |u| ==> u[x] == '*';
      assert m <= n;
      assert u[..m] == t[..m];
      assert HeadKept(t, v, m);
    }
  }

  lemma TokensTransitive(ts: seq<string>, us: seq<string>, vs: seq<string>)
    requires TokensMasked(ts, us) && TokensMasked(us, vs)
    ensures TokensMasked(ts, vs)
  {
    forall i | 0 <= i < |ts| ensures TokenMasked(ts[i], vs[i]) {
      TokenTransitive(ts[i], us[i], vs[i]);
    }
  }

  lemma {:induction false} ChainTokens(c: seq<string>, ps: seq<string>)
    requires Chain(c, ps)
    ensures Delimiters(c[|c| - 1]) == Delimiters(c[0])
    ensures TokensMasked(Tokens(c[0]), Tokens(c[|c| - 1]))
    decreases |c|
  {
    if |c| > 1 {
      var d := c[..|c| - 1];
      forall i {:trigger d[i]} | 0 <= i < |d| - 1 ensures Step(d[i], d[i + 1], ps) {
        assert d[i] == c[i];
      }
      ChainTokens(d, ps);
      assert Step(c[|c| - 2], c[|c| - 1], ps);
      var m := d[|d| - 1];
      var a, b := StepIsRun(m, c[|c| - 1], ps);
      StepTokens(m, a, b);
      TokensTransitive(Tokens(c[0]), Tokens(m), Tokens(c[|c| - 1]));
    }
  }

  /** Redaction keeps every delimiter, and changes a token only by turning some end of it into
      three stars. */
  lemma RedactTokens(s: string)
    ensures Delimiters(Redact(s)) == Delimiters(s)
    ensures TokensMasked(Tokens(s), Tokens(Redact(s)))
  {
    RedactReduces(s);
    var ps := Prefixes();
    var c :| Chain(c, ps) && c[0] == s && c[|c| - 1] == Redact(s);
    ChainTokens(c, ps);
  }
}
