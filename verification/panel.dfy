/**
 * The library panel's state and its load effect: every run of the effect
 * starts a load of the listing endpoint and clears the previous run's
 * `mounted` flag, and a load whose flag is cleared changes nothing when
 * it completes.
 */
module Panel {
  import opened Wrappers
  import opened LibraryView
  import Backend

  /** The message shown when a load fails without a message of its own. */
  const DefaultError: string := "Failed to load library"

  /** The parsed body of a successful response: an array of items, or any other JSON value. */
  datatype Data = ItemArray(items: seq<Item>) | NotAnArray

  /**
   * How one load's fetch ends: `fetch` or `res.json()` rejected with an
   * error whose message may be empty, the response was not ok, or the body
   * parsed.
   */
  datatype Response = Rejected(message: string) | NotOk | Parsed(data: Data)

  /**
   * What a load delivers: the new item list, or the error message to show.
   * An array body is the new list and any other body an empty one; a
   * rejection shows its own message, falling back to the default only when
   * that message is empty; a response that is not ok shows the default. No
   * failure has an empty message.
   */
  function Settle(r: Response): (o: Result<seq<Item>, string>)
    ensures o.Success? <==> r.Parsed?
    ensures r.Parsed? && r.data.ItemArray? ==> o == Success(r.data.items)
    ensures r == Parsed(NotAnArray) ==> o == Success([])
    ensures r.Rejected? ==> o == Failure(if r.message != "" then r.message else DefaultError)
    ensures r == NotOk ==> o == Failure(DefaultError)
    ensures o.Failure? ==> o.error != ""
  {
    match r
    case Rejected(m) => Failure(if m != "" then m else DefaultError)
    case NotOk => Failure(DefaultError)
    case Parsed(data) => Success(if data.ItemArray? then data.items else [])
  }

  class LibraryPanel {
    const base: string
    var limit: nat
    var items: seq<Item>
    var loading: bool
    var error: string
    var search: string
    var sort: string
    /** The `mounted` flag of every load started so far; a load's token is its index. */
    var mounted: seq<bool>
    /** The loads whose fetch has not completed yet. */
    var pending: set<nat>

    /** The latest load is still current and has not completed. */
    predicate InFlight()
      reads this
    {
      |mounted| > 0 && mounted[|mounted| - 1] && |mounted| - 1 in pending
    }

    /**
     * Only the latest load can still be mounted, pending tokens are tokens
     * that were handed out, and while the current load is in flight the
     * panel shows it loading with no error.
     */
    ghost predicate Valid()
      reads this
    {
      && (forall t :: 0 <= t < |mounted| - 1 ==> !mounted[t])
      && (forall t :: t in pending ==> t < |mounted|)
      && (InFlight() ==> loading && error == "")
    }

    /** The endpoint the load effect fetches; it splits back into the base and the page size. */
    function Endpoint(): (r: string)
      reads this
      ensures r == base + Backend.RecentPath + Backend.Decimal(limit)
      ensures Backend.SplitEndpoint(r) == Some((base, limit))
    {
      Backend.EndpointRoundTrip(base, limit);
      Backend.Endpoint(base, limit)
    }

    /**
     * The list the panel renders, recomputed from items, search and sort:
     * it only ever shows fetched items, and all of them when the search is blank.
     */
    function Filtered(): (r: seq<Item>)
      reads this
      ensures forall x :: x in r ==> x in items
      ensures Query(search) == "" ==> multiset(r) == multiset(items)
    {
      ViewContents(items, search, sort);
      View(items, search, sort)
    }

    /** The panel's initial state, before its first load starts. */
    constructor (env: Option<string>)
      ensures Valid()
      ensures base == Backend.BackendBase(env) && limit == 24
      ensures items == [] && loading && error == ""
      ensures search == "" && sort == "newest"
      ensures mounted == [] && pending == {}
    {
      base := Backend.BackendBase(env);
      limit := 24;
      items := [];
      loading := true;
      error := "";
      search := "";
      sort := "newest";
      mounted := [];
      pending := {};
    }

    /** The effect's cleanup: the latest load is no longer mounted. */
    method Cleanup()
      requires Valid()
      modifies this
      ensures Valid()
      ensures |mounted| == |old(mounted)| && forall t :: 0 <= t < |mounted| ==> !mounted[t]
      ensures pending == old(pending) && limit == old(limit)
      ensures items == old(items) && loading == old(loading) && error == old(error)
      ensures search == old(search) && sort == old(sort)
    {
      if |mounted| > 0 {
        mounted := mounted[|mounted| - 1 := false];
      }
    }

    /**
     * The effect body: a new load with its own `mounted` flag set, showing
     * the loading state with the error cleared. Returns the load's token and
     * the URL it fetches.
     */
    method Load() returns (token: nat, url: string)
      requires Valid()
      requires forall t :: 0 <= t < |mounted| ==> !mounted[t]
      modifies this
      ensures Valid() && InFlight()
      ensures token == |old(mounted)| && mounted == old(mounted) + [true]
      ensures pending == old(pending) + {token}
      ensures url == Backend.Endpoint(base, limit)
      ensures loading && error == ""
      ensures items == old(items) && limit == old(limit)
      ensures search == old(search) && sort == old(sort)
    {
      token := |mounted|;
      url := Backend.Endpoint(base, limit);
      mounted := mounted + [true];
      pending := pending + {token};
      loading := true;
      error := "";
    }

    /** One run of the effect: clean up after the previous run, then load. */
    method RunEffect() returns (token: nat, url: string)
      requires Valid()
      modifies this
      ensures Valid() && InFlight()
      ensures token == |old(mounted)| && |mounted| == token + 1
      ensures forall t :: 0 <= t < token ==> !mounted[t]
      ensures pending == old(pending) + {token}
      ensures url == Backend.Endpoint(base, limit)
      ensures loading && error == ""
      ensures items == old(items) && limit == old(limit)
      ensures search == old(search) && sort == old(sort)
    {
      Cleanup();
      token, url := Load();
    }

    /** The panel goes away: the last cleanup runs and no load is current. */
    method Unmount()
      requires Valid()
      modifies this
      ensures Valid() && !InFlight()
      ensures |mounted| == |old(mounted)| && forall t :: 0 <= t < |mounted| ==> !mounted[t]
      ensures pending == old(pending) && limit == old(limit)
      ensures items == old(items) && loading == old(loading) && error == old(error)
      ensures search == old(search) && sort == old(sort)
    {
      Cleanup();
    }

    /**
     * A new page size. The effect depends on the endpoint only, so it runs
     * again, starting a load, exactly when the page size changes.
     */
    method SetLimit(n: nat) returns (started: Option<nat>)
      requires Valid()
      modifies this
      ensures Valid() && limit == n
      ensures started.Some? <==> n != old(limit)
      ensures started.Some? ==> started.value == |old(mounted)| && InFlight()
                                && pending == old(pending) + {started.value}
                                && loading && error == ""
      ensures started.None? ==> mounted == old(mounted) && pending == old(pending)
                                && loading == old(loading) && error == old(error)
      ensures items == old(items) && search == old(search) && sort == old(sort)
    {
      var before := Backend.Endpoint(base, limit);
      limit := n;
      Backend.EndpointInjective(base, old(limit), n);
      if Backend.Endpoint(base, limit) != before {
        var token, _ := RunEffect();
        started := Some(token);
      } else {
        started := None;
      }
    }

    /** Typing in the search box: only `search` changes, and no load starts. */
    method SetSearch(q: string)
      requires Valid()
      modifies this`search
      ensures Valid() && search == q
    {
      search := q;
    }

    /** Choosing a sort key: only `sort` changes, and no load starts. */
    method SetSort(s: string)
      requires Valid()
      modifies this`sort
      ensures Valid() && sort == s
    {
      sort := s;
    }

    /**
     * The load with this token completes. If its `mounted` flag is still set
     * it settles the panel: the new items on success, the error message
     * (items kept) on failure, and loading over either way. Otherwise
     * nothing visible changes.
     */
    method Resolve(token: nat, r: Response)
      requires Valid() && token in pending
      modifies this
      ensures Valid()
      ensures mounted == old(mounted) && pending == old(pending) - {token}
      ensures limit == old(limit) && search == old(search) && sort == old(sort)
      ensures old(mounted[token]) ==> !loading && match Settle(r)
        case Success(list) => items == list && error == ""
        case Failure(m) => items == old(items) && error == m
      ensures !old(mounted[token]) ==>
        items == old(items) && error == old(error) && loading == old(loading)
      ensures !old(mounted[token]) ==> Filtered() == old(Filtered())
    {
      var current := mounted[token];
      match r {
        case Parsed(data) =>
          if current {
            items := if data.ItemArray? then data.items else [];
          }
        case Rejected(m) =>
          if current {
            error := if m != "" then m else DefaultError;
          }
        case NotOk =>
          if current {
            error := DefaultError;
          }
      }
      if current {
        loading := false;
      }
      pending := pending - {token};
    }
  }

  /**
   * Two overlapping loads: the panel mounts (load A), the page size changes
   * (load B), and the two complete in either order. The panel ends up with
   * B's outcome and nothing of A's.
   */
  method OverlappingLoads(env: Option<string>, n: nat, a: Response, b: Response, bFirst: bool)
    returns (items: seq<Item>, error: string, loading: bool)
    requires n != 24
    ensures !loading
    ensures Settle(b).Success? ==> items == Settle(b).value && error == ""
    ensures Settle(b).Failure? ==> items == [] && error == Settle(b).error
  {
    var panel := new LibraryPanel(env);
    var first, _ := panel.RunEffect();
    var started := panel.SetLimit(n);
    var second := started.value;
    assert first < second && !panel.mounted[first] && panel.mounted[second];
    if bFirst {
      panel.Resolve(second, b);
      panel.Resolve(first, a);
    } else {
      panel.Resolve(first, a);
      panel.Resolve(second, b);
    }
    items, error, loading := panel.items, panel.error, panel.loading;
  }
}
