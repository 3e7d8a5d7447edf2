/** Substring search and the "replace by three stars" step shared by redaction and masking.
    A Go string is a sequence of bytes; here each byte is one `char`. */
module Text {

  const STARS: string := "***"

  /** `p` occurs in `s` at position `i`. */
  ghost predicate At(s: string, i: int, p: string) {
    0 <= i && i + |p| <= |s| && s[i..i + |p|] == p
  }

  ghost predicate Contains(s: string, p: string) {
    exists i :: At(s, i, p)
  }

  /** `p` can be masked by stars without ever reappearing. */
  ghost predicate StarFree(p: string) {
    |p| > 0 && '*' !in p
  }

  /** strings.Index(s[from:], p), as an index into `s`; -1 when there is none. */
  function IndexFrom(s: string, from: nat, p: string): (k: int)
    requires from <= |s|
    ensures k == -1 || (from <= k && At(s, k, p))
    ensures forall i :: from <= i && (k == -1 || i < k) ==> !At(s, i, p)
    decreases |s| - from
  {
    if from + |p| > |s| then -1
    else if s[from..from + |p|] == p then from
    else if from == |s| then -1
    else IndexFrom(s, from + 1, p)
  }

  /** s[:a] + "***" + s[b:] */
  function Splice(s: string, a: nat, b: nat): (r: string)
    requires a <= b <= |s|
  {
    s[..a] + STARS + s[b..]
  }

  /** `p` stands in `s` at `i` when it stands, byte for byte, in `r` at `j`. */
  lemma Shift(r: string, j: int, s: string, i: int, p: string)
    requires At(r, j, p) && 0 <= i && i + |p| <= |s|
    requires forall x :: i <= x < i + |p| ==> s[x] == r[x - i + j]
    ensures At(s, i, p)
  {
    forall x | 0 <= x < |p| ensures s[i..i + |p|][x] == p[x] {
      assert r[j..j + |p|][x] == r[x + j];
      assert s[i..i + |p|][x] == s[i + x];
    }
  }

  /** An occurrence of a star-free text never overlaps inserted stars, so it already stood
      on one side of the replaced range. */
  lemma SpliceOccurrence(s: string, a: nat, b: nat, i: int, p: string)
    requires a <= b <= |s| && |p| > 0
    requires At(Splice(s, a, b), i, p)
    ensures || (i + |p| <= a && At(s, i, p))
            || (a + 3 <= i && At(s, i - (a + 3) + b, p))
            || '*' in p
  {
    var r := Splice(s, a, b);
    if i + |p| <= a {
      Shift(r, i, s, i, p);
    } else if a + 3 <= i {
      Shift(r, i, s, i - (a + 3) + b, p);
    } else {
      var k := if i < a then a else i;
      assert r[i..i + |p|][k - i] == r[k] == '*';
    }
  }

  lemma SpliceContains(s: string, a: nat, b: nat, p: string)
    requires a <= b <= |s| && |p| > 0
    ensures Contains(Splice(s, a, b), p) ==> Contains(s, p) || '*' in p
  {
    if Contains(Splice(s, a, b), p) {
      var i :| At(Splice(s, a, b), i, p);
      SpliceOccurrence(s, a, b, i, p);
    }
  }

  /** A text straddles a seam only if it holds the last character before the seam. */
  lemma SeamContains(l: string, r: string, p: string)
    requires |p| > 0
    ensures Contains(l + r, p) ==> Contains(l, p) || Contains(r, p) || (l != "" && l[|l| - 1] in p)
  {
    if Contains(l + r, p) {
      var i :| At(l + r, i, p);
      if i + |p| <= |l| {
        Shift(l + r, i, l, i, p);
      } else if |l| <= i {
        Shift(l + r, i, r, i - |l|, p);
      } else {
        assert (l + r)[i..i + |p|][|l| - 1 - i] == l[|l| - 1];
      }
    }
  }

  /** strings.ReplaceAll(s, old, "***") for a non-empty `old`. */
  function ReplaceAll(s: string, target: string): (r: string)
    requires |target| > 0
    decreases |s|
  {
    var k := IndexFrom(s, 0, target);
    if k == -1 then s else s[..k] + STARS + ReplaceAll(s[k + |target|..], target)
  }

  /** Whatever star-free text the result holds was there before and is not the one replaced. */
  lemma {:induction false} ReplaceAllContains(s: string, target: string, p: string)
    requires |target| > 0 && |p| > 0
    ensures Contains(ReplaceAll(s, target), p) ==> '*' in p || (Contains(s, p) && p != target)
    decreases |s|
  {
    var k := IndexFrom(s, 0, target);
    if k != -1 {
      ReplaceAllContains(s[k + |target|..], target, p);
      Around(s, k, target, ReplaceAll(s[k + |target|..], target), p);
    }
  }

  /** The inductive step of `ReplaceAllContains`, for the first match at `k`. */
  lemma Around(s: string, k: nat, target: string, r: string, p: string)
    requires |target| > 0 && |p| > 0 && At(s, k, target)
    requires forall i :: 0 <= i < k ==> !At(s, i, target)
    requires var rest := s[k + |target|..];
      Contains(r, p) ==> '*' in p || (Contains(rest, p) && p != target)
    ensures Contains(s[..k] + STARS + r, p) ==> '*' in p || (Contains(s, p) && p != target)
  {
    var l := s[..k];
    if Contains(l + STARS + r, p) && '*' !in p {
      assert l + STARS + r == Splice(l + r, k, k);
      var i :| At(Splice(l + r, k, k), i, p);
      SpliceOccurrence(l + r, k, k, i, p);
      if i + |p| <= k {
        Shift(l + r, i, s, i, p);
      } else {
        Shift(l + r, i - 3, r, i - 3 - k, p);
        var rest := s[k + |target|..];
        var m :| At(rest, m, p);
        Shift(rest, m, s, m + k + |target|, p);
      }
    }
  }

  /** The last byte is kept or becomes a star; an empty text stays empty and only that. */
  ghost predicate EndKept(s: string, r: string) {
    (s == "" <==> r == "") && (s != "" ==> r[|r| - 1] == s[|s| - 1] || r[|r| - 1] == '*')
  }

  lemma {:induction false} ReplaceAllEnd(s: string, target: string)
    requires |target| > 0
    ensures EndKept(s, ReplaceAll(s, target))
    decreases |s|
  {
    var k := IndexFrom(s, 0, target);
    if k != -1 {
      var rest := s[k + |target|..];
      ReplaceAllEnd(rest, target);
      if rest == "" {
        assert ReplaceAll(s, target) == s[..k] + STARS;
      }
    }
  }
}
