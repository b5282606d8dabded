/** Small building blocks shared by the models: optional and failure-carrying
    values, the blank-string test used for every optional request parameter,
    and the LINQ-style sequence filters (`Where`, `Select`) the source uses. */
module Common {

  datatype Option<+T> = None | Some(value: T)

  datatype Result<+T, +E> = Success(value: T) | Failure(error: E)

  /** A validation step: it lets the request through or rejects it. */
  datatype Check<+E> = Pass | Reject(error: E)

  /** Runs checks in order and stops at the first rejection, as a sequence
      of statements that each may throw does. */
  function FirstReject<E>(cs: seq<Check<E>>): (r: Check<E>)
    ensures r == Pass <==> forall i :: 0 <= i < |cs| ==> cs[i] == Pass
    ensures r.Reject? ==> exists k :: 0 <= k < |cs| && cs[k] == r && forall j :: 0 <= j < k ==> cs[j] == Pass
  {
    if cs == [] then Pass
    else if cs[0].Reject? then cs[0]
    else
      var rest := FirstReject(cs[1..]);
      assert forall i :: 1 <= i < |cs| ==> cs[i] == cs[1..][i - 1];
      rest
  }

  /** .NET whitespace restricted to the ASCII control and space characters. */
  predicate IsWhiteSpace(c: char) {
    c == ' ' || c == '\t' || c == '\n' || c == '\r' || c == '\U{000B}' || c == '\U{000C}'
  }

  /** `string.IsNullOrWhiteSpace`: an absent parameter is modelled as "". */
  predicate IsBlank(s: string) {
    forall i | 0 <= i < |s| :: IsWhiteSpace(s[i])
  }

  /** `Where`: the elements of `s` satisfying `p`, in their order in `s`. */
  function Filter<T>(p: T -> bool, s: seq<T>): (r: seq<T>)
    ensures |r| <= |s|
    ensures forall i :: 0 <= i < |r| ==> r[i] in s && p(r[i])
    ensures forall i :: 0 <= i < |s| && p(s[i]) ==> s[i] in r
  {
    if s == [] then []
    else if p(s[0]) then [s[0]] + Filter(p, s[1..])
    else Filter(p, s[1..])
  }

  /** `Select`: `f` applied to every element, in order. */
  function MapSeq<T, U>(f: T -> U, s: seq<T>): (r: seq<U>)
    ensures |r| == |s|
    ensures forall i :: 0 <= i < |s| ==> r[i] == f(s[i])
  {
    if s == [] then [] else [f(s[0])] + MapSeq(f, s[1..])
  }

  /** Filtering a concatenation filters each part: the filter keeps the
      original order of the elements it keeps. */
  lemma {:induction false} FilterAppend<T>(p: T -> bool, a: seq<T>, b: seq<T>)
    ensures Filter(p, a + b) == Filter(p, a) + Filter(p, b)
  {
    if a == [] {
      assert a + b == b;
    } else {
      assert (a + b)[1..] == a[1..] + b;
      FilterAppend(p, a[1..], b);
    }
  }

  /** The first element kept by a filter is the first element of `s` that
      satisfies `p`: every element before it fails `p`. */
  lemma {:induction false} FilterHead<T>(p: T -> bool, s: seq<T>)
    requires Filter(p, s) != []
    ensures exists k :: 0 <= k < |s| && s[k] == Filter(p, s)[0] && p(s[k])
                        && forall j :: 0 <= j < k ==> !p(s[j])
  {
    if p(s[0]) {
      assert s[0] == Filter(p, s)[0];
    } else {
      FilterHead(p, s[1..]);
      var k :| 0 <= k < |s[1..]| && s[1..][k] == Filter(p, s[1..])[0] && p(s[1..][k])
               && forall j :: 0 <= j < k ==> !p(s[1..][j]);
      assert s[k + 1] == Filter(p, s)[0];
      forall j | 0 <= j < k + 1 ensures !p(s[j]) {
        if j > 0 { assert s[j] == s[1..][j - 1]; }
      }
    }
  }

  /** Filtering with `p` leaves a sequence unchanged exactly when every
      element satisfies `p`. */
  lemma {:induction false} FilterIdentity<T>(p: T -> bool, s: seq<T>)
    ensures Filter(p, s) == s <==> forall i :: 0 <= i < |s| ==> p(s[i])
  {
    if s != [] {
      FilterIdentity(p, s[1..]);
      if !p(s[0]) {
        assert |Filter(p, s)| < |s|;
      } else if Filter(p, s) == s {
        assert Filter(p, s[1..]) == s[1..];
      }
      if forall i :: 0 <= i < |s| ==> p(s[i]) {
        assert forall i :: 0 <= i < |s[1..]| ==> p(s[1..][i]) by {
          forall i | 0 <= i < |s[1..]| ensures p(s[1..][i]) { assert s[1..][i] == s[i + 1]; }
        }
      }
    }
  }
}
