/**
  `prepareJavascriptValue` of `src/prepareJavascriptValue.ts` (the Flow
  file `src/prepareJavascriptValue.js` is the same function): the hook that
  lets registered JavaScript types convert a parameter before the driver's
  own preparation sees it.
 */
module PrepareValue {
  import opened Wrappers
  import opened Values
  import opened Errors

  /** A registered type: a matcher and a converter to a string (or `null`). */
  datatype JavascriptType = JavascriptType(matches: Value -> bool, convert: Value -> Option<string>)

  /** What the hook returns: the driver's own preparation, or one converter's output. */
  datatype Prepared<P> = Original(prepared: P) | Converted(text: Option<string>)

  /** The indices of the types whose matcher accepts the value, in registration order. */
  function Matching(types: seq<JavascriptType>, value: Value): (m: seq<nat>)
    ensures forall k :: k in m <==> 0 <= k < |types| && types[k].matches(value)
    ensures forall a, b :: 0 <= a < b < |m| ==> m[a] < m[b]
    ensures forall a :: 0 <= a < |m| ==> m[a] < |types|
    decreases |types|
  {
    if |types| == 0 then []
    else
      var n := |types| - 1;
      Matching(types[..n], value) + (if types[n].matches(value) then [n] else [])
  }

  lemma {:induction false} MatchingStep(types: seq<JavascriptType>, value: Value, i: nat)
    requires i < |types|
    ensures Matching(types[..i + 1], value) == Matching(types[..i], value) + (if types[i].matches(value) then [i] else [])
  {
    assert types[..i + 1][..i] == types[..i];
  }

  /** The positions 0 .. n-1 in order. */
  function UpTo(n: nat): (s: seq<nat>)
    ensures |s| == n && forall k :: 0 <= k < n ==> s[k] == k
  {
    seq(n, k requires 0 <= k < n => k)
  }

  lemma UpToStep(i: nat)
    ensures UpTo(i) + [i] == UpTo(i + 1)
  {
  }

  /** `customTypes.filter(...)`: calls every matcher once, in order, and keeps the indices that match. */
  method FilterMatching(types: seq<JavascriptType>, value: Value) returns (found: seq<nat>, matchCalls: seq<nat>)
    ensures found == Matching(types, value)
    ensures matchCalls == UpTo(|types|)
  {
    found := [];
    matchCalls := [];
    var i := 0;
    while i < |types|
      invariant 0 <= i <= |types|
      invariant found == Matching(types[..i], value)
      invariant matchCalls == UpTo(i)
    {
      MatchingStep(types, value, i);
      UpToStep(i);
      matchCalls := matchCalls + [i];
      if types[i].matches(value) {
        found := found + [i];
      }
      i := i + 1;
    }
    assert types[..|types|] == types;
  }

  /**
    The hook. Every matcher is called once, in order (a `filter`, not a
    search). With no match the driver's preparation is used, and it receives
    the `seen` argument unchanged (its type `S` is left opaque); with exactly one
    its converter is called; with more the call throws. The out-parameters
    record which matchers and converters ran and how often the original
    preparation ran.
   */
  method PrepareJavascriptValue<S, P>(original: (Value, S) -> P, types: seq<JavascriptType>, value: Value, seen: S)
    returns (r: Result<Prepared<P>, Error>, matchCalls: seq<nat>, convertCalls: seq<nat>, originalCalls: nat)
    ensures matchCalls == UpTo(|types|)
    ensures var m := Matching(types, value);
      && (|m| == 0 ==> r == Ok(Original(original(value, seen))) && originalCalls == 1 && convertCalls == [])
      && (|m| == 1 ==> r == Ok(Converted(types[m[0]].convert(value))) && originalCalls == 0 && convertCalls == m)
      && (|m| > 1 ==> r == Err(MultipleConverters(value)) && originalCalls == 0 && convertCalls == [])
  {
    var found;
    found, matchCalls := FilterMatching(types, value);
    r, convertCalls, originalCalls := UseMatches(original, types, value, seen, found);
  }

  /** What the hook does once the matching indices are known. */
  method UseMatches<S, P>(original: (Value, S) -> P, types: seq<JavascriptType>, value: Value, seen: S, found: seq<nat>)
    returns (r: Result<Prepared<P>, Error>, convertCalls: seq<nat>, originalCalls: nat)
    requires forall a :: 0 <= a < |found| ==> found[a] < |types|
    ensures |found| == 0 ==> r == Ok(Original(original(value, seen))) && originalCalls == 1 && convertCalls == []
    ensures |found| == 1 ==> r == Ok(Converted(types[found[0]].convert(value))) && originalCalls == 0 && convertCalls == found
    ensures |found| > 1 ==> r == Err(MultipleConverters(value)) && originalCalls == 0 && convertCalls == []
  {
    convertCalls := [];
    originalCalls := 0;
    if |found| == 0 {
      originalCalls := 1;
      r := Ok(Original(original(value, seen)));
    } else if |found| != 1 {
      r := Err(MultipleConverters(value));
    } else {
      convertCalls := [found[0]];
      r := Ok(Converted(types[found[0]].convert(value)));
    }
  }

  /** No index is matching exactly when no matcher accepts the value. */
  lemma {:induction false} NoneMatching(types: seq<JavascriptType>, value: Value)
    ensures Matching(types, value) == [] <==> forall k :: 0 <= k < |types| ==> !types[k].matches(value)
  {
    var m := Matching(types, value);
    if m != [] {
      assert m[0] in m;
    }
  }

  /** The only matching type gives a single-index match. */
  lemma {:induction false} OnlyMatchIsSingleton(types: seq<JavascriptType>, value: Value, k: nat)
    requires k < |types| && types[k].matches(value)
    requires forall k' :: 0 <= k' < |types| && k' != k ==> !types[k'].matches(value)
    ensures Matching(types, value) == [k]
    decreases |types|
  {
    var n := |types| - 1;
    var prefix := types[..n];
    assert forall k' :: 0 <= k' < n ==> prefix[k'] == types[k'];
    if n == k {
      NoneMatching(prefix, value);
      assert Matching(types, value) == [] + [k];
    } else {
      OnlyMatchIsSingleton(prefix, value, k);
      assert Matching(types, value) == Matching(prefix, value) + [];
    }
  }

  /** A converter is used exactly when its type is the only one that matches. */
  lemma {:induction false} ConverterUsedIffOnlyMatch(types: seq<JavascriptType>, value: Value, k: nat)
    requires k < |types|
    ensures Matching(types, value) == [k] <==>
      types[k].matches(value) && forall k' :: 0 <= k' < |types| && k' != k ==> !types[k'].matches(value)
  {
    var m := Matching(types, value);
    if m == [k] {
      assert k in m;
      forall k' | 0 <= k' < |types| && k' != k
        ensures !types[k'].matches(value)
      {
        assert k' !in m;
      }
    }
    if types[k].matches(value) && forall k' :: 0 <= k' < |types| && k' != k ==> !types[k'].matches(value) {
      OnlyMatchIsSingleton(types, value, k);
    }
  }
}
