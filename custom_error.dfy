/** The application's error values: six sentinel kinds and `AppError`, which pairs an
    underlying ("generic") error with exactly one kind. */
module AppErrors {
  import opened Wrappers

  /** The six sentinels `ErrResourceNotFound` ... `ErrDBOperation`. */
  datatype Kind = ResourceNotFound | AuthFailed | AccessDenied | Validation | Conflict | DBOperation

  /** The text each sentinel was created with (`errors.New(...)`). */
  function KindMessage(k: Kind): string {
    match k
    case ResourceNotFound => "resource not found"
    case AuthFailed => "auth failed"
    case AccessDenied => "access denied"
    case Validation => "validation failed"
    case Conflict => "conflict"
    case DBOperation => "db operation failed"
  }

  /** A Go `error` as far as the services can observe it:
      - `Sentinel(k)`: one of the six sentinel values themselves;
      - `Plain(msg)`: any other error without an `Unwrap` (from `errors.New`, `fmt.Errorf`
        without `%w`, the database driver, bcrypt, ...);
      - `App(generic, kind)`: an `*AppError`; `generic == None` stands for a nil `Generic`. */
  datatype Error =
    | Sentinel(kind: Kind)
    | Plain(msg: string)
    | App(generic: Option<Error>, kind: Kind)

  /** `NewError(generic, kind)`; every call site passes one of the six sentinels as kind. */
  function NewError(generic: Option<Error>, kind: Kind): (e: Error)
    ensures e.App? && e.generic == generic && e.kind == kind
  {
    App(generic, kind)
  }

  /** Shorthand for the common `NewError(errors.New(msg), kind)`. */
  function Fail(msg: string, kind: Kind): (e: Error)
    ensures e == NewError(Some(Plain(msg)), kind)
  {
    App(Some(Plain(msg)), kind)
  }

  /** `err.Error()`. For an AppError: "kind: generic", or just the kind's text when the
      generic error is nil. */
  function Message(e: Error): string {
    match e
    case Sentinel(k) => KindMessage(k)
    case Plain(m) => m
    case App(g, k) => if g.Some? then KindMessage(k) + ": " + Message(g.value) else KindMessage(k)
  }

  /** `errors.Unwrap(e)`: an AppError unwraps to its Kind only, never to its Generic. */
  function Unwrap(e: Error): (r: Option<Error>)
    ensures r.Some? <==> e.App?
    ensures r.Some? ==> r.value == Sentinel(e.kind)
  {
    match e
    case App(_, k) => Some(Sentinel(k))
    case _ => None
  }

  function Depth(e: Error): nat {
    if e.App? then 1 else 0
  }

  /** `errors.Is(e, target)` for a sentinel target: `e` or something on its Unwrap chain
      equals the sentinel. */
  predicate Is(e: Error, target: Kind)
    decreases Depth(e)
  {
    e == Sentinel(target) || (Unwrap(e).Some? && Is(Unwrap(e).value, target))
  }

  /** An AppError matches exactly its own kind; whatever it wraps in Generic is invisible
      to `errors.Is`. */
  lemma IsAppError(g: Option<Error>, k: Kind, target: Kind)
    ensures Is(App(g, k), target) <==> k == target
  {
    assert Unwrap(App(g, k)) == Some(Sentinel(k));
    assert Is(Sentinel(k), target) <==> k == target;
  }

  /** Re-wrapping: an error of kind `inner` wrapped again as kind `outer` answers only to `outer`
      (as when a DBOperation failure of the batch lookup is re-wrapped as ResourceNotFound). */
  lemma RewrapHidesInnerKind(g: Option<Error>, inner: Kind, outer: Kind)
    requires inner != outer
    ensures Is(NewError(Some(NewError(g, inner)), outer), outer)
    ensures !Is(NewError(Some(NewError(g, inner)), outer), inner)
  {
    IsAppError(Some(App(g, inner)), outer, outer);
    IsAppError(Some(App(g, inner)), outer, inner);
  }

  /** Every error answers to at most one kind. */
  lemma {:induction false} AtMostOneKind(e: Error, k1: Kind, k2: Kind)
    requires Is(e, k1) && Is(e, k2)
    ensures k1 == k2
  {
    match e
    case Sentinel(_) =>
    case Plain(_) =>
    case App(g, k) =>
      IsAppError(g, k, k1);
      IsAppError(g, k, k2);
  }

  /** Errors that are not AppErrors or sentinels answer to no kind. */
  lemma PlainHasNoKind(msg: string, k: Kind)
    ensures !Is(Plain(msg), k)
  {
  }

  /** The six kinds are told apart by their texts. */
  lemma KindMessagesDistinct(a: Kind, b: Kind)
    requires a != b
    ensures KindMessage(a) != KindMessage(b)
  {
  }

  /** Position of the first ':' in `s` (or |s| when there is none). */
  function ColonIndex(s: string): (n: nat)
    ensures n <= |s|
    ensures forall i :: 0 <= i < n ==> s[i] != ':'
    ensures n < |s| ==> s[n] == ':'
  {
    if s == [] then 0 else if s[0] == ':' then 0 else 1 + ColonIndex(s[1..])
  }

  /** The kind whose text is exactly `t`. */
  function KindOfText(t: string): (r: Option<Kind>)
    ensures r.Some? ==> KindMessage(r.value) == t
  {
    if t == KindMessage(ResourceNotFound) then Some(ResourceNotFound)
    else if t == KindMessage(AuthFailed) then Some(AuthFailed)
    else if t == KindMessage(AccessDenied) then Some(AccessDenied)
    else if t == KindMessage(Validation) then Some(Validation)
    else if t == KindMessage(Conflict) then Some(Conflict)
    else if t == KindMessage(DBOperation) then Some(DBOperation)
    else None
  }

  /** Reads the kind back from an error text: the part before the first ':'. */
  function KindOfMessage(s: string): Option<Kind> {
    KindOfText(s[..ColonIndex(s)])
  }

  /** `Error()` of an AppError starts with its kind's text, then either ends or continues
      with ": " and the generic error's text. */
  lemma AppErrorMessageShape(g: Option<Error>, k: Kind)
    ensures g.None? ==> Message(App(g, k)) == KindMessage(k)
    ensures g.Some? ==> KindMessage(k) + ": " <= Message(App(g, k))
    ensures g.Some? ==> Message(App(g, k))[|KindMessage(k)| + 2..] == Message(g.value)
  {
  }

  lemma {:induction false} ColonIndexAfter(m: string, t: string)
    requires forall i :: 0 <= i < |m| ==> m[i] != ':'
    ensures ColonIndex(m + t) == |m| + ColonIndex(t)
  {
    if m != [] {
      assert (m + t)[1..] == m[1..] + t;
      ColonIndexAfter(m[1..], t);
    } else {
      assert m + t == t;
    }
  }

  lemma KindMessageHasNoColon(k: Kind)
    ensures forall i :: 0 <= i < |KindMessage(k)| ==> KindMessage(k)[i] != ':'
  {
  }

  lemma KindOfOwnText(k: Kind)
    ensures KindOfText(KindMessage(k)) == Some(k)
  {
    match k
    case ResourceNotFound =>
    case AuthFailed =>
    case AccessDenied =>
    case Validation =>
    case Conflict =>
    case DBOperation =>
  }

  /** The kind of an AppError can be read back from its text: `Error()` never loses the kind. */
  lemma KindOfAppErrorMessage(g: Option<Error>, k: Kind)
    ensures KindOfMessage(Message(App(g, k))) == Some(k)
  {
    var m := KindMessage(k);
    var s := Message(App(g, k));
    var rest := if g.Some? then ": " + Message(g.value) else "";
    assert s == m + rest;
    KindMessageHasNoColon(k);
    ColonIndexAfter(m, rest);
    assert ColonIndex(rest) == 0;
    assert s[..ColonIndex(s)] == m;
    KindOfOwnText(k);
  }
}
