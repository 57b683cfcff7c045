/**
 * The `use` API demo (UseApiDemo): the simulated fetch, the module-level
 * promise cache that memoises one fetch per resource id, and the
 * conditional context reader. A promise is modelled by the fetch that
 * created it and the record it resolves to; the timer before resolution is
 * not modelled.
 */
module ResourceCache {
  import opened Wrappers
  import opened Text

  /** The record a fetch resolves to. */
  datatype Resource = Resource(id: int, title: string, details: string)

  const Details := "Verified integrity. Ready for consumption."

  /** What `fetchData(id)` resolves to. */
  function FetchData(id: int): (r: Resource)
    ensures r.id == id && r.details == Details
    ensures |r.title| > 17 && r.title[..17] == "Resource Packet #" && r.title[17..] == IntToString(id)
  {
    Resource(id, "Resource Packet #" + IntToString(id), Details)
  }

  /** Different ids give different titles, so the title identifies the resource. */
  lemma TitleIdentifiesResource(a: int, b: int)
    requires FetchData(a).title == FetchData(b).title
    ensures a == b
  {
    assert FetchData(a).title[17..] == FetchData(b).title[17..];
    IntToStringInjective(a, b);
  }

  /**
   * A promise made by `fetchData`. Promises are compared by identity; the
   * serial number of the fetch that created it stands for that identity.
   */
  datatype Fetch = Fetch(serial: nat, result: Resource)

  /** `promiseCache` together with the count of fetches started so far. */
  class PromiseCache {
    /** The cached promise of each id. */
    var entries: map<int, Fetch>
    /** How many times `fetchData` has been called. */
    var started: nat

    /** Each entry is the fetch of its own id, and no two entries share a fetch. */
    ghost predicate Valid()
      reads this
    {
      && (forall id :: id in entries ==> entries[id].result == FetchData(id) && entries[id].serial < started)
      && (forall a, b :: a in entries && b in entries && a != b ==> entries[a].serial != entries[b].serial)
    }

    /** `new Map()`: nothing cached and nothing fetched. */
    constructor ()
      ensures Valid()
      ensures entries == map[] && started == 0
    {
      entries := map[];
      started := 0;
    }

    /** `getPromise(id)`: start a fetch only for an id not yet cached, then return the cached promise. */
    method GetPromise(id: int) returns (p: Fetch)
      requires Valid()
      modifies this
      ensures Valid()
      ensures id in entries && p == entries[id] && p.result == FetchData(id)
      ensures id in old(entries) ==> entries == old(entries) && started == old(started)
      ensures id !in old(entries) ==>
                && entries == old(entries)[id := p]
                && started == old(started) + 1
                && p.serial == old(started)
      ensures forall other :: other in old(entries) ==> other in entries && entries[other] == old(entries)[other]
    {
      if id !in entries {
        entries := entries[id := Fetch(started, FetchData(id))];
        started := started + 1;
      }
      p := entries[id];
    }

    /** Asking twice for the same id yields the very same promise, and the second call starts no fetch. */
    method GetPromiseTwice(id: int) returns (p1: Fetch, p2: Fetch)
      requires Valid()
      modifies this
      ensures Valid()
      ensures p1 == p2 && p1.result == FetchData(id)
      ensures started <= old(started) + 1
    {
      p1 := GetPromise(id);
      p2 := GetPromise(id);
    }
  }

  /** `ContextComponent({ show })`: nothing when hidden, otherwise the context value it reads. */
  function ContextComponent(show: bool, theme: string): (r: Option<string>)
    ensures r.None? <==> !show
    ensures r.Some? ==> r.value == theme
  {
    if !show then None else Some(theme)
  }
}
