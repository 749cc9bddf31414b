/** The presence check that `LookupArgumentSet#validate` runs on a parsed
    lookup argument set (lib/rapid/lookup_argument_set.rb:45-55): exactly
    one way of finding the record must be given. */
module LookupValidation {
  import opened Wrappers
  import opened OrderedMaps
  import opened Values
  import opened Schema

  /** `values.compact.size`: the number of stored values that are not nil. */
  function NonNilCount(source: OMap<string, Value>): (n: nat)
    ensures n <= |source|
  {
    if |source| == 0 then 0
    else (if source[0].1.Nil? then 0 else 1) + NonNilCount(source[1..])
  }

  /** No two stored values are both non-nil. */
  predicate AtMostOneNonNil(source: OMap<string, Value>) {
    forall i, j :: 0 <= i < j < |source| ==> source[i].1.Nil? || source[j].1.Nil?
  }

  lemma {:induction false} NonNilCountAtMostOne(source: OMap<string, Value>)
    ensures NonNilCount(source) <= 1 <==> AtMostOneNonNil(source)
  {
    if |source| > 0 {
      var t := source[1..];
      NonNilCountAtMostOne(t);
      NonNilCountZero(t);
      assert forall i :: 1 <= i < |source| ==> source[i] == t[i - 1];
      if !source[0].1.Nil? && NonNilCount(t) > 0 {
        var j :| 0 <= j < |t| && !t[j].1.Nil?;
        assert !source[j + 1].1.Nil?;
      }
    }
  }

  lemma {:induction false} NonNilCountZero(source: OMap<string, Value>)
    ensures NonNilCount(source) == 0 <==> forall i :: 0 <= i < |source| ==> source[i].1.Nil?
  {
    if |source| > 0 {
      NonNilCountZero(source[1..]);
      assert forall i :: 1 <= i < |source| ==> source[i] == source[1..][i - 1];
    }
  }

  /** `validate(argument, index:)`, where `path` is the set's own path. */
  function Validate(source: OMap<string, Value>, argument: string, index: Option<nat>, path: seq<string>): (r: Result<bool, ArgumentError>)
    ensures r.Ok? ==> r.value
    ensures r.Ok? <==> |source| > 0 && NonNilCount(source) <= 1
    ensures r.Err? ==> r.error.InvalidArgument? && r.error.argument == argument && r.error.index == index && r.error.path == path
    ensures r.Err? ==> (r.error.issue == MissingLookupValue <==> |source| == 0)
  {
    if |source| == 0 then Err(InvalidArgument(argument, MissingLookupValue, index, path, []))
    else if NonNilCount(source) > 1 then Err(InvalidArgument(argument, AmbiguousLookupValues, index, path, []))
    else Ok(true)
  }

  /** The hook passes exactly when something was given and at most one of
      the given values is non-nil; otherwise it names the reason, the
      argument, the index and the set's own path. */
  lemma ValidateOutcome(source: OMap<string, Value>, argument: string, index: Option<nat>, path: seq<string>)
    ensures Validate(source, argument, index, path).Ok? <==> |source| > 0 && AtMostOneNonNil(source)
    ensures |source| == 0 ==> Validate(source, argument, index, path) == Err(InvalidArgument(argument, MissingLookupValue, index, path, []))
    ensures |source| > 0 && !AtMostOneNonNil(source) ==>
      Validate(source, argument, index, path) == Err(InvalidArgument(argument, AmbiguousLookupValues, index, path, []))
  {
    NonNilCountAtMostOne(source);
  }

  /** Keys that are present but hold nil do not count as ambiguous. */
  lemma AllNilAccepted(source: OMap<string, Value>, argument: string, index: Option<nat>, path: seq<string>)
    requires |source| > 0
    requires forall i :: 0 <= i < |source| ==> source[i].1.Nil?
    ensures Validate(source, argument, index, path) == Ok(true)
  {
    NonNilCountZero(source);
  }
}
