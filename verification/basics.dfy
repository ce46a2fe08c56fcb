/** Optional values and decode results shared by every module of the model. */
module Basics {

  /** A nullable value: Kotlin's `T?` and Swift's `Optional<T>`. */
  datatype Option<+T> = None | Some(value: T) {

    /** Kotlin's `?:` and Swift's `??`: the value, or `default` when absent. */
    function GetOr(default: T): T {
      match this
      case Some(v) => v
      case None => default
    }
  }

  /** The outcome of decoding a JSON value: a value or a decoding error. */
  datatype Result<+T> = Ok(value: T) | Err(message: string)

  /** The first index of `s` whose element satisfies `p` (Kotlin `firstOrNull`, Swift `first(where:)`). */
  function FirstIndex<T>(s: seq<T>, p: T -> bool): (r: Option<nat>)
    ensures r.Some? ==> r.value < |s| && p(s[r.value])
    ensures r.Some? ==> forall j :: 0 <= j < r.value ==> !p(s[j])
    ensures r.None? <==> forall j :: 0 <= j < |s| ==> !p(s[j])
  {
    if |s| == 0 then None
    else if p(s[0]) then Some(0)
    else match FirstIndex(s[1..], p)
      case None => None
      case Some(i) => Some(i + 1)
  }

  /** The elements of `s` that satisfy `p`, in their order in `s` (`filter`). */
  function Filter<T(!new)>(s: seq<T>, p: T -> bool): (r: seq<T>)
    ensures |r| <= |s|
    ensures forall i :: 0 <= i < |r| ==> r[i] in s && p(r[i])
    ensures forall i :: 0 <= i < |s| && p(s[i]) ==> s[i] in r
  {
    if |s| == 0 then []
    else
      assert s == [s[0]] + s[1..];
      (if p(s[0]) then [s[0]] else []) + Filter(s[1..], p)
  }

  /** A filter keeps every accepted element as often as it occurs, and no other element. */
  lemma {:induction false} FilterMultiplicity<T(!new)>(s: seq<T>, p: T -> bool)
    ensures forall x :: multiset(Filter(s, p))[x] == if p(x) then multiset(s)[x] else 0
    decreases |s|
  {
    if |s| > 0 {
      var head := if p(s[0]) then [s[0]] else [];
      FilterMultiplicity(s[1..], p);
      assert s == [s[0]] + s[1..];
      assert multiset(s) == multiset{s[0]} + multiset(s[1..]);
      assert Filter(s, p) == head + Filter(s[1..], p);
      assert multiset(Filter(s, p)) == multiset(head) + multiset(Filter(s[1..], p));
    }
  }

  /** Filtering a concatenation filters each part and keeps them in order; with the one-element
      case this determines the kept elements and their order completely. */
  lemma {:induction false} FilterAppend<T(!new)>(a: seq<T>, b: seq<T>, p: T -> bool)
    ensures Filter(a + b, p) == Filter(a, p) + Filter(b, p)
    decreases |a|
  {
    if |a| > 0 {
      var head := if p(a[0]) then [a[0]] else [];
      assert (a + b)[0] == a[0] && (a + b)[1..] == a[1..] + b;
      assert Filter(a + b, p) == head + Filter(a[1..] + b, p);
      assert Filter(a, p) == head + Filter(a[1..], p);
      FilterAppend(a[1..], b, p);
    } else {
      assert a + b == b;
    }
  }

  /** A filter keeps exactly the elements the test accepts: one element is kept or dropped. */
  lemma FilterSingle<T(!new)>(x: T, p: T -> bool)
    ensures Filter([x], p) == if p(x) then [x] else []
  {
    assert [x][1..] == [];
  }

  /** Tests that agree on every element filter a sequence the same way. */
  lemma {:induction false} FilterCongruent<T(!new)>(s: seq<T>, p: T -> bool, q: T -> bool)
    requires forall i :: 0 <= i < |s| ==> p(s[i]) == q(s[i])
    ensures Filter(s, p) == Filter(s, q)
    decreases |s|
  {
    if |s| > 0 {
      assert forall i :: 1 <= i < |s| ==> s[1..][i - 1] == s[i];
      FilterCongruent(s[1..], p, q);
    }
  }

  /** When `p` holds exactly where one of two exclusive predicates `q` and `r` holds, the
      elements satisfying `p` are as many as those satisfying `q` and those satisfying `r`. */
  lemma {:induction false} FilterCountSplit<T(!new)>(s: seq<T>, p: T -> bool, q: T -> bool, r: T -> bool)
    requires forall i :: 0 <= i < |s| ==> (p(s[i]) <==> q(s[i]) || r(s[i]))
    requires forall i :: 0 <= i < |s| ==> !(q(s[i]) && r(s[i]))
    ensures |Filter(s, p)| == |Filter(s, q)| + |Filter(s, r)|
  {
    if |s| > 0 {
      assert forall i :: 1 <= i < |s| ==> s[1..][i - 1] == s[i];
      FilterCountSplit(s[1..], p, q, r);
    }
  }

  /** Nothing passes a filter that rejects every element. */
  lemma FilterNone<T(!new)>(s: seq<T>, p: T -> bool)
    requires forall i :: 0 <= i < |s| ==> !p(s[i])
    ensures Filter(s, p) == []
  {
  }

  /** Two sequences whose elements agree on the predicates point by point have the same first match. */
  lemma FirstIndexCongruent<T, U>(s: seq<T>, p: T -> bool, t: seq<U>, q: U -> bool)
    requires |s| == |t|
    requires forall i :: 0 <= i < |s| ==> p(s[i]) == q(t[i])
    ensures FirstIndex(s, p) == FirstIndex(t, q)
  {
  }

  /** A first match found within a prefix is the first match of the whole sequence; a prefix
      without a match has the same first match as the whole when the rest has none either. */
  lemma FirstIndexPrefix<T>(s: seq<T>, k: nat, p: T -> bool)
    requires k <= |s|
    ensures FirstIndex(s[..k], p).Some? ==> FirstIndex(s, p) == FirstIndex(s[..k], p)
    ensures (forall j :: k <= j < |s| ==> !p(s[j])) ==> FirstIndex(s, p) == FirstIndex(s[..k], p)
  {
    var a := FirstIndex(s[..k], p);
    if a.Some? {
      assert s[..k][a.value] == s[a.value];
      assert forall j :: 0 <= j < a.value ==> s[..k][j] == s[j];
    } else {
      assert forall j :: 0 <= j < k ==> s[..k][j] == s[j];
    }
  }

  /** `f` applied to every element in order, failing with the first element's error (decoding
      a JSON array element by element). */
  function MapResult<A, B>(items: seq<A>, f: A -> Result<B>): (r: Result<seq<B>>)
    ensures r.Ok? <==> forall i :: 0 <= i < |items| ==> f(items[i]).Ok?
    ensures r.Ok? ==> |r.value| == |items| && forall i :: 0 <= i < |items| ==> f(items[i]) == Ok(r.value[i])
    ensures r.Err? ==> exists i :: (0 <= i < |items| && f(items[i]) == Err(r.message)
      && forall j :: 0 <= j < i ==> f(items[j]).Ok?)
  {
    if |items| == 0 then Ok([])
    else
      match f(items[0])
      case Err(e) => Err(e)
      case Ok(first) =>
        match MapResult(items[1..], f)
        case Err(e) =>
          assert forall i :: 1 <= i < |items| ==> items[i] == items[1..][i - 1];
          Err(e)
        case Ok(rest) => Ok([first] + rest)
  }

  /** Element-wise equal decoders decode a sequence the same way. */
  lemma {:induction false} MapResultCongruent<A, B>(items: seq<A>, f: A -> Result<B>, g: A -> Result<B>)
    requires forall i :: 0 <= i < |items| ==> f(items[i]) == g(items[i])
    ensures MapResult(items, f) == MapResult(items, g)
  {
    if |items| > 0 {
      MapResultCongruent(items[1..], f, g);
    }
  }
}
