/** Error kinds of the cloud client: internal/evs/client.go. */
module Errors {

  datatype Option<+T> = None | Some(value: T)

  datatype Result<+T, +E> = Ok(value: T) | Err(error: E)

  /** The sentinels classifyError keeps, and the two context causes. */
  datatype Error =
    | NotFound | Conflict | InvalidArgument | NotOwned | Unauthenticated | PermissionDenied
    | Unavailable | OperationFailed | Canceled | DeadlineExceeded

  predicate IsContextError(e: Error) {
    e == Canceled || e == DeadlineExceeded
  }

  /** What ctx.Err() reports once a context has ended. */
  type Cause = e: Error | IsContextError(e) witness Canceled

  /** A context: when it ends, and what it reports from then on. */
  datatype Ctx = Ctx(endsAt: nat, cause: Cause)

  /** classifyErrorKind: a context error that reaches it is an expired network deadline or an
      unclassified failure. */
  function Kind(e: Error): Error {
    match e
    case DeadlineExceeded => Unavailable
    case Canceled => OperationFailed
    case _ => e
  }

  predicate IsTransient(e: Error) {
    Kind(e) == Unavailable || Kind(e) == OperationFailed
  }

  predicate IsSpace(c: char) {
    c == ' ' || c == '\t' || c == '\n' || c == '\r' || c == '\U{0B}' || c == '\U{0C}'
  }

  /** strings.TrimSpace(s) == "" */
  predicate Blank(s: string) {
    forall i :: 0 <= i < |s| ==> IsSpace(s[i])
  }

  function TrimLeft(s: string): string {
    if s != "" && IsSpace(s[0]) then TrimLeft(s[1..]) else s
  }

  function TrimRight(s: string): string {
    if s != "" && IsSpace(s[|s| - 1]) then TrimRight(s[..|s| - 1]) else s
  }

  /** strings.TrimSpace */
  function Trim(s: string): string {
    TrimRight(TrimLeft(s))
  }

  lemma {:induction false} TrimRightKeeps(s: string, i: nat)
    requires i < |s| && !IsSpace(s[i])
    ensures i < |TrimRight(s)| && TrimRight(s)[i] == s[i]
  {
    if IsSpace(s[|s| - 1]) {
      TrimRightKeeps(s[..|s| - 1], i);
    }
  }

  lemma {:induction false} TrimLeftKeeps(s: string, i: nat)
    requires i < |s| && !IsSpace(s[i])
    ensures s[i] in TrimLeft(s)
  {
    if IsSpace(s[0]) {
      TrimLeftKeeps(s[1..], i - 1);
    }
  }

  /** A text is trimmed away exactly when it is blank. */
  lemma {:induction false} TrimmedAway(s: string)
    ensures Trim(s) == "" <==> Blank(s)
  {
    if s == "" {
    } else if Blank(s) {
      assert Blank(s[1..]);
      TrimmedAway(s[1..]);
    } else {
      var i :| 0 <= i < |s| && !IsSpace(s[i]);
      TrimLeftKeeps(s, i);
      var j :| 0 <= j < |TrimLeft(s)| && TrimLeft(s)[j] == s[i];
      TrimRightKeeps(TrimLeft(s), j);
    }
  }
}
