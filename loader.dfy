/**
 * `loadProperties`: the locations of the search path are tried strictly in
 * order; the first one that opens and parses is the result, and when none does,
 * construction fails with the last failure as cause.
 */
module Loader {
  import opened Wrappers
  import opened SearchPath
  import opened Bootstrap

  /** A parsed property file. */
  type Properties = map<string, string>

  /**
   * Opening and parsing one location (`createInputStream`, then `Properties.load`),
   * with `E` standing for the exception thrown when either fails.
   */
  type Opener<E> = Location -> Result<Properties, E>

  /** The `RuntimeException` raised when no location loads; `cause` is the last exception. */
  datatype LoadFailure<E> = NoReadableSource(locations: seq<string>, cause: Option<E>)

  /** Whether `location` opens and parses. */
  predicate Loads<E>(open: Opener<E>, location: string) {
    open(ParseLocation(location)).Success?
  }

  /** The exception thrown while loading `location`, if any. */
  function FailureOf<E>(open: Opener<E>, location: string): Option<E> {
    match open(ParseLocation(location))
    case Success(_) => None
    case Failure(e) => Some(e)
  }

  /** The search from position `i` on, `last` being the last exception seen before it. */
  function Attempt<E>(locations: seq<string>, i: nat, last: Option<E>, open: Opener<E>): (r: Result<Properties, LoadFailure<E>>)
    requires i <= |locations|
    ensures r.Failure? ==> r.error.locations == locations
    ensures r.Success? ==>
      exists j :: i <= j < |locations| && Loads(open, locations[j]) && r.value == open(ParseLocation(locations[j])).value
    decreases |locations| - i
  {
    if i == |locations| then Failure(NoReadableSource(locations, last))
    else match open(ParseLocation(locations[i]))
      case Success(props) => Success(props)
      case Failure(e) => Attempt(locations, i + 1, Some(e), open)
  }

  /** The outcome of trying `locations` in order. */
  function TryInOrder<E>(locations: seq<string>, open: Opener<E>): (r: Result<Properties, LoadFailure<E>>)
    ensures r.Failure? ==> r.error.locations == locations
    ensures r.Success? ==>
      exists j :: 0 <= j < |locations| && Loads(open, locations[j]) && r.value == open(ParseLocation(locations[j])).value
  {
    Attempt(locations, 0, None, open)
  }

  lemma {:induction false} AttemptFindsFirst<E>(locations: seq<string>, i: nat, last: Option<E>, open: Opener<E>, k: nat)
    requires i <= k < |locations|
    requires forall j :: i <= j < k ==> !Loads(open, locations[j])
    requires Loads(open, locations[k])
    ensures Attempt(locations, i, last, open) == Success(open(ParseLocation(locations[k])).value)
    decreases k - i
  {
    if i < k {
      AttemptFindsFirst(locations, i + 1, Some(open(ParseLocation(locations[i])).error), open, k);
    }
  }

  lemma {:induction false} AttemptExhausted<E>(locations: seq<string>, i: nat, last: Option<E>, open: Opener<E>)
    requires i <= |locations|
    requires forall j :: i <= j < |locations| ==> !Loads(open, locations[j])
    ensures Attempt(locations, i, last, open) == Failure(NoReadableSource(locations,
      if i == |locations| then last else FailureOf(open, locations[|locations| - 1])))
    decreases |locations| - i
  {
    if i < |locations| {
      AttemptExhausted(locations, i + 1, Some(open(ParseLocation(locations[i])).error), open);
    }
  }

  /** The first location that loads is the result, whatever failed before it. */
  lemma FirstLoadableWins<E>(locations: seq<string>, open: Opener<E>, k: nat)
    requires k < |locations|
    requires forall j :: 0 <= j < k ==> !Loads(open, locations[j])
    requires Loads(open, locations[k])
    ensures TryInOrder(locations, open) == Success(open(ParseLocation(locations[k])).value)
  {
    AttemptFindsFirst(locations, 0, None, open, k);
  }

  /**
   * When no location loads, the search fails naming every location, with the
   * failure of the last one as cause, and with no cause only when there was no location.
   */
  lemma NoneLoadable<E>(locations: seq<string>, open: Opener<E>)
    requires forall j :: 0 <= j < |locations| ==> !Loads(open, locations[j])
    ensures TryInOrder(locations, open) == Failure(NoReadableSource(locations,
      if locations == [] then None else FailureOf(open, locations[|locations| - 1])))
  {
    AttemptExhausted(locations, 0, None, open);
  }

  /** The search succeeds exactly when some location loads. */
  lemma SucceedsIffSomeLoads<E>(locations: seq<string>, open: Opener<E>)
    ensures TryInOrder(locations, open).Success? <==> exists j :: 0 <= j < |locations| && Loads(open, locations[j])
  {
    if exists j :: 0 <= j < |locations| && Loads(open, locations[j]) {
      var k :| 0 <= k < |locations| && Loads(open, locations[k]);
      while exists j :: 0 <= j < k && Loads(open, locations[j])
        invariant 0 <= k < |locations| && Loads(open, locations[k])
        decreases k
      {
        var earlier :| 0 <= earlier < k && Loads(open, locations[earlier]);
        k := earlier;
      }
      FirstLoadableWins(locations, open, k);
    } else {
      NoneLoadable(locations, open);
    }
  }

  /**
   * Locations after the first that loads are never attempted: changing what
   * they would yield does not change the result.
   */
  lemma LaterLocationsIgnored<E>(locations: seq<string>, open: Opener<E>, other: Opener<E>, k: nat)
    requires k < |locations|
    requires forall j :: 0 <= j < k ==> !Loads(open, locations[j])
    requires Loads(open, locations[k])
    requires forall j :: 0 <= j <= k ==> other(ParseLocation(locations[j])) == open(ParseLocation(locations[j]))
    ensures TryInOrder(locations, other) == TryInOrder(locations, open)
  {
    FirstLoadableWins(locations, open, k);
    FirstLoadableWins(locations, other, k);
  }

  /** `loadProperties`: split the search path, then try each location in turn. */
  method LoadProperties<E>(searchPath: string, open: Opener<E>) returns (r: Result<Properties, LoadFailure<E>>)
    ensures r == TryInOrder(Split(searchPath), open)
  {
    var locations := Split(searchPath);
    var lastException: Option<E> := None;
    for i := 0 to |locations|
      invariant Attempt(locations, i, lastException, open) == TryInOrder(locations, open)
    {
      match open(ParseLocation(locations[i]))
      case Success(props) =>
        return Success(props);
      case Failure(e) =>
        lastException := Some(e);
    }
    return Failure(NoReadableSource(locations, lastException));
  }

  /** The load failure carries no cause exactly when the search path is made of commas only. */
  lemma NoCauseOnlyForCommas<E>(searchPath: string, open: Opener<E>)
    requires TryInOrder(Split(searchPath), open).Failure?
    ensures TryInOrder(Split(searchPath), open).error.cause.None?
        <==> (searchPath != [] && forall k :: 0 <= k < |searchPath| ==> searchPath[k] == ',')
  {
    var locations := Split(searchPath);
    SucceedsIffSomeLoads(locations, open);
    NoneLoadable(locations, open);
    SplitEmpty(searchPath);
    if locations != [] {
      assert !Loads(open, locations[|locations| - 1]);
    }
  }

  /**
   * The properties the source is built from: the search along the resolved
   * search path, with the deployment's policy applied when nothing loads.
   */
  function LoadOutcome<E>(d: Defaults, p: Process, open: Opener<E>): (r: Result<Properties, LoadFailure<E>>)
    ensures var search := TryInOrder(Split(SearchPathOf(d, p)), open);
      && (r.Success? <==> search.Success? || d.onNoSource == Lenient)
      && (search.Success? || d.onNoSource == Strict ==> r == search)
      && (search.Failure? && d.onNoSource == Lenient ==> r == Success(map[]))
  {
    var search := TryInOrder(Split(SearchPathOf(d, p)), open);
    if search.Failure? && d.onNoSource == Lenient then Success(map[]) else search
  }
}
