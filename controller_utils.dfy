/**
 * The operator's shared helpers: turning an arbitrary string into a valid
 * Kubernetes resource name, and retrying a failing call a bounded number of
 * times.
 */
module ControllerUtils {
  import opened Strings

  // ---------------------------------------------------------------------
  // sanitizeResourceName
  // ---------------------------------------------------------------------

  /** The characters `[a-z0-9]` that survive sanitising unchanged. */
  predicate IsNameChar(c: char) { IsAsciiLower(c) || IsDigit(c) }

  predicate IsSeparator(c: char) { !IsNameChar(c) }

  predicate IsNotLetter(c: char) { !IsAsciiLower(c) }

  /** Every character is in `[a-z0-9-]`. */
  predicate NameCharset(s: string)
  {
    forall i :: 0 <= i < |s| ==> IsNameChar(s[i]) || s[i] == '-'
  }

  /** Empty, or beginning and ending with a letter. */
  predicate LetterEnds(s: string)
  {
    s == [] || (IsAsciiLower(s[0]) && IsAsciiLower(s[|s| - 1]))
  }

  predicate NoDoubleDash(s: string)
  {
    forall i :: 0 <= i < |s| - 1 ==> !(s[i] == '-' && s[i + 1] == '-')
  }

  /** `replace(/[^a-z0-9]+/g, "-")`: every maximal run of other characters becomes one '-'. */
  function CollapseSeparators(s: string): (r: string)
    ensures |r| <= |s|
    ensures r == [] <==> s == []
    ensures s != [] ==> (r[0] == '-' <==> IsSeparator(s[0]))
    ensures NameCharset(r) && NoDoubleDash(r)
    decreases |s|
  {
    if s == [] then []
    else if IsNameChar(s[0]) then [s[0]] + CollapseSeparators(s[1..])
    else
      var rest := TrimStart(s[1..], IsSeparator);
      assert rest == [] || IsNameChar(rest[0]);
      "-" + CollapseSeparators(rest)
  }

  /** `slice(0, 250)`. */
  const MaxNameLength: nat := 250

  /** A piece of a string over `[a-z0-9-]` with single dashes is one too. */
  lemma SliceKeepsNameShape(s: string, i: nat, j: nat)
    requires i <= j <= |s|
    requires NameCharset(s) && NoDoubleDash(s)
    ensures NameCharset(s[i..j]) && NoDoubleDash(s[i..j])
  {
    assert forall k :: 0 <= k < j - i ==> s[i..j][k] == s[i + k];
  }

  /** `replace(/^[^a-z]+|[^a-z]+$/g, "")`: leading and trailing non-letters removed. */
  function StripNonLetters(s: string): (r: string)
    requires NameCharset(s) && NoDoubleDash(s)
    ensures |r| <= |s|
    ensures NameCharset(r) && NoDoubleDash(r) && LetterEnds(r)
  {
    var front := TrimStart(s, IsNotLetter);
    TrimStartIsSuffix(s, IsNotLetter);
    SliceKeepsNameShape(s, |s| - |front|, |s|);
    var both := TrimEnd(front, IsNotLetter);
    TrimEndIsPrefix(front, IsNotLetter);
    SliceKeepsNameShape(front, 0, |both|);
    assert both == Trim(s, IsNotLetter);
    both
  }

  /**
   * sanitizeResourceName: lower-cased, runs of other characters turned into
   * one '-', cut to 250 characters, leading and trailing non-letters removed.
   */
  function SanitizeResourceName(name: string): (r: string)
    ensures NameCharset(r) && NoDoubleDash(r) && LetterEnds(r)
    ensures |r| <= MaxNameLength
  {
    var collapsed := CollapseSeparators(ToLower(name));
    var cut := if |collapsed| <= MaxNameLength then collapsed else collapsed[..MaxNameLength];
    SliceKeepsNameShape(collapsed, 0, |cut|);
    StripNonLetters(cut)
  }

  /** Lower-casing leaves a string over `[a-z0-9-]` alone. */
  lemma ToLowerOfNameCharset(s: string)
    requires NameCharset(s)
    ensures ToLower(s) == s
  {
    assert forall i :: 0 <= i < |s| ==> ToLower(s)[i] == s[i];
  }

  /** Collapsing leaves a string over `[a-z0-9-]` with single dashes alone. */
  lemma {:induction false} CollapseOfCollapsed(s: string)
    requires NameCharset(s) && NoDoubleDash(s)
    ensures CollapseSeparators(s) == s
    decreases |s|
  {
    if s != [] {
      assert NameCharset(s[1..]) && NoDoubleDash(s[1..]);
      if !IsNameChar(s[0]) {
        assert s[1..] == [] || IsNameChar(s[1]);
        assert TrimStart(s[1..], IsSeparator) == s[1..];
      }
      CollapseOfCollapsed(s[1..]);
    }
  }

  /** Sanitising a sanitised name changes nothing. */
  lemma SanitizeIdempotent(name: string)
    ensures SanitizeResourceName(SanitizeResourceName(name)) == SanitizeResourceName(name)
  {
    var r := SanitizeResourceName(name);
    ToLowerOfNameCharset(r);
    CollapseOfCollapsed(r);
    if r != [] {
      assert TrimStart(r, IsNotLetter) == r;
      assert TrimEnd(r, IsNotLetter) == r;
    }
  }

  // ---------------------------------------------------------------------
  // retryWithDelay
  // ---------------------------------------------------------------------

  /** The default number of attempts. */
  const DefaultRetries: int := 5

  /** What one call of the retried function does: resolve with a value or reject with an error. */
  datatype Outcome<T, E> = Resolved(value: T) | Rejected(error: E)

  /** How retryWithDelay ends. */
  datatype RetryResult<T, E> =
    | Returned(value: T)
    | Rethrown(error: E)
    /** With no attempt allowed the loop never runs and a fixed error is thrown. */
    | LoopExited

  /** The run from the (k+1)-th call on: the result and the number of calls made in total. */
  function RetryFrom<T, E>(attempts: nat -> Outcome<T, E>, retries: int, k: nat): (RetryResult<T, E>, nat)
    requires k < retries
    decreases retries - k
  {
    match attempts(k)
    case Resolved(v) => (Returned(v), k + 1)
    case Rejected(e) => if k + 1 >= retries then (Rethrown(e), k + 1) else RetryFrom(attempts, retries, k + 1)
  }

  /** What retryWithDelay does with the outcomes `attempts` of successive calls. */
  function Retry<T, E>(attempts: nat -> Outcome<T, E>, retries: int): (RetryResult<T, E>, nat)
  {
    if retries <= 0 then (LoopExited, 0) else RetryFrom(attempts, retries, 0)
  }

  /**
   * retryWithDelay. `attempts(k)` is what the (k+1)-th call of `fn` does;
   * `calls` is how many calls were made. The delay and the warning log are
   * not modelled.
   */
  method RetryWithDelay<T, E>(attempts: nat -> Outcome<T, E>, retries: int)
    returns (r: RetryResult<T, E>, calls: nat)
    ensures (r, calls) == Retry(attempts, retries)
  {
    var attempt := 0;
    calls := 0;
    while attempt < retries
      invariant 0 <= attempt == calls
      invariant retries > 0 ==> attempt < retries
      invariant retries <= 0 ==> attempt == 0
      invariant attempt < retries ==> RetryFrom(attempts, retries, attempt) == Retry(attempts, retries)
      decreases retries - attempt
    {
      var outcome := attempts(attempt);
      calls := calls + 1;
      match outcome
      case Resolved(v) =>
        return Returned(v), calls;
      case Rejected(err) =>
        attempt := attempt + 1;
        if attempt >= retries {
          return Rethrown(err), calls;
        }
    }
    return LoopExited, calls;
  }

  /** From the (k+1)-th call on, at most `retries` calls are made in total, and at least k+1. */
  lemma {:induction false} RetryFromCalls<T, E>(attempts: nat -> Outcome<T, E>, retries: int, k: nat)
    requires k < retries
    ensures k < RetryFrom(attempts, retries, k).1 <= retries
    ensures !RetryFrom(attempts, retries, k).0.LoopExited?
    decreases retries - k
  {
    if attempts(k).Rejected? && k + 1 < retries {
      RetryFromCalls(attempts, retries, k + 1);
    }
  }

  /** fn is called at most `retries` times, and at least once when an attempt is allowed. */
  lemma RetryCallsBounded<T, E>(attempts: nat -> Outcome<T, E>, retries: int)
    ensures retries <= 0 ==> Retry(attempts, retries) == (LoopExited, 0)
    ensures retries > 0 ==> 1 <= Retry(attempts, retries).1 <= retries
    ensures retries > 0 ==> !Retry(attempts, retries).0.LoopExited?
  {
    if retries > 0 {
      RetryFromCalls(attempts, retries, 0);
    }
  }

  lemma {:induction false} RetryFromFirstSuccess<T, E>(attempts: nat -> Outcome<T, E>, retries: int, j: nat, k: nat)
    requires j <= k < retries && attempts(k).Resolved?
    requires forall i :: j <= i < k ==> attempts(i).Rejected?
    ensures RetryFrom(attempts, retries, j) == (Returned(attempts(k).value), k + 1)
    decreases k - j
  {
    if j < k {
      RetryFromFirstSuccess(attempts, retries, j + 1, k);
    }
  }

  /** The first call that resolves within the allowed attempts gives the result, after k+1 calls. */
  lemma RetryFirstSuccess<T, E>(attempts: nat -> Outcome<T, E>, retries: int, k: nat)
    requires k < retries && attempts(k).Resolved?
    requires forall i :: 0 <= i < k ==> attempts(i).Rejected?
    ensures Retry(attempts, retries) == (Returned(attempts(k).value), k + 1)
  {
    RetryFromFirstSuccess(attempts, retries, 0, k);
  }

  lemma {:induction false} RetryFromAllFail<T, E>(attempts: nat -> Outcome<T, E>, retries: int, j: nat)
    requires j < retries
    requires forall i :: j <= i < retries ==> attempts(i).Rejected?
    ensures RetryFrom(attempts, retries, j) == (Rethrown(attempts(retries - 1).error), retries)
    decreases retries - j
  {
    if j + 1 < retries {
      RetryFromAllFail(attempts, retries, j + 1);
    }
  }

  /** When every allowed call rejects, the last error is rethrown after exactly `retries` calls. */
  lemma RetryAllFail<T, E>(attempts: nat -> Outcome<T, E>, retries: int)
    requires retries > 0
    requires forall i :: 0 <= i < retries ==> attempts(i).Rejected?
    ensures Retry(attempts, retries) == (Rethrown(attempts(retries - 1).error), retries)
  {
    RetryFromAllFail(attempts, retries, 0);
  }
}
