/** The per-city data service: the two-tier cache (the in-memory `window.RailwayData` map in
    front of the persistent store), payload dispatch to the two ingestion modes, and the
    `isLoading` single-flight guard of the overlay loader. Store operations that can fail
    take their outcome as a parameter. */
module RegionService {
  import opened Tags
  import opened Taxonomy
  import opened Stations
  import opened OsmIngest
  import opened GeoJsonIngest

  /** A cached or imported JSON payload as dispatch sees it: its `type` string, its `features`
      list and its `elements` array (`None` when missing or not an array). Payloads are JSON
      objects, so a payload is always truthy. */
  datatype Payload = Payload(
    typeTag: Option<string>,
    features: Option<seq<GeoFeature>>,
    elements: Option<seq<Element>>)

  /** The dataset one of the two ingestion modes produced. */
  datatype Processed =
    | GeoResult(geo: Dataset<GeoFeature, GeoFeature>)
    | RawResult(raw: Dataset<LineFeature, StationFeature>)

  /** What one call of the overlay loader did. */
  datatype LoadOutcome = AlreadyLoading | NoMap | NoData | Drawn(data: Processed)

  /** The persistent-store key of a city. */
  function StoreKey(city: string): string {
    "railway_data_" + city
  }

  /** Dispatch by payload shape. A `FeatureCollection` goes to GeoJSON mode (without a
      `features` list, `forEach` throws and the caller's `catch` yields null); otherwise an
      `elements` array goes to raw mode; anything else yields null. */
  function Dispatch(p: Payload): Option<Processed> {
    if p.typeTag == Some("FeatureCollection") then
      if p.features.Some? then Some(GeoResult(GeoIngest(p.features.value))) else None
    else if p.elements.Some? then Some(RawResult(RawIngest(p.elements.value)))
    else None
  }

  /** Which payload a fetch uses: none on a forced refresh; otherwise the in-memory entry,
      else the stored entry if the store read succeeds. */
  function Lookup(memory: map<string, Payload>, store: map<string, Payload>, city: string,
                  forceRefresh: bool, readOk: bool): Option<Payload>
  {
    if forceRefresh then None
    else if city in memory then Some(memory[city])
    else if readOk && StoreKey(city) in store then Some(store[StoreKey(city)])
    else None
  }

  /** `processGeoJSON` or `processOSMDataV6`, whichever the payload's shape selects. */
  method ProcessPayload(p: Payload) returns (r: Option<Processed>)
    ensures r == Dispatch(p)
  {
    if p.typeTag == Some("FeatureCollection") {
      if p.features.None? {
        return None;
      }
      var geo := ProcessGeoJson(p.features.value);
      return Some(GeoResult(geo));
    }
    if p.elements.Some? {
      var raw := ProcessOsmData(p.elements.value);
      return Some(RawResult(raw));
    }
    return None;
  }

  /** Dispatch takes exactly one of three ways: GeoJSON mode for a `FeatureCollection` with
      features, raw mode for a non-collection with an `elements` array, else nothing; a
      collection is never read as raw elements even when it carries an `elements` array. */
  lemma DispatchModes(p: Payload)
    ensures Dispatch(p).Some? && Dispatch(p).value.GeoResult? <==>
              p.typeTag == Some("FeatureCollection") && p.features.Some?
    ensures Dispatch(p).Some? && Dispatch(p).value.RawResult? <==>
              p.typeTag != Some("FeatureCollection") && p.elements.Some?
    ensures Dispatch(p).None? <==>
              (p.typeTag == Some("FeatureCollection") && p.features.None?) ||
              (p.typeTag != Some("FeatureCollection") && p.elements.None?)
    ensures Dispatch(p).Some? && Dispatch(p).value.GeoResult? ==> Dispatch(p).value.geo == GeoIngest(p.features.value)
    ensures Dispatch(p).Some? && Dispatch(p).value.RawResult? ==> Dispatch(p).value.raw == RawIngest(p.elements.value)
  {
  }

  /** The in-memory tier wins: with an in-memory entry the store's contents play no part;
      without one, the stored entry is used exactly when it exists and the read succeeds; a
      forced refresh uses neither. */
  lemma LookupPrecedence(memory: map<string, Payload>, store: map<string, Payload>, city: string,
                         forceRefresh: bool, readOk: bool, other: map<string, Payload>)
    ensures forceRefresh ==> Lookup(memory, store, city, forceRefresh, readOk).None?
    ensures !forceRefresh && city in memory ==>
              Lookup(memory, store, city, forceRefresh, readOk) == Some(memory[city]) &&
              Lookup(memory, other, city, forceRefresh, false) == Some(memory[city])
    ensures !forceRefresh && city !in memory ==>
              (Lookup(memory, store, city, forceRefresh, readOk).Some? <==> readOk && StoreKey(city) in store)
  {
  }

  /** Store keys are distinct per city. */
  lemma StoreKeyInjective(a: string, b: string)
    ensures StoreKey(a) == StoreKey(b) ==> a == b
  {
    if StoreKey(a) == StoreKey(b) {
      assert a == StoreKey(a)[13..];
      assert b == StoreKey(b)[13..];
    }
  }

  /** The overlay's state: the in-memory payload map, the persistent store (keyed by
      `StoreKey`), the city codes the host knows, the current city and the loading flag. */
  class RailwayOverlay {
    var memory: map<string, Payload>
    var store: map<string, Payload>
    var cities: set<string>
    var currentCity: Option<string>
    var isLoading: bool
    /** How many times the persistent store has been read. */
    ghost var storeReads: nat

    /** A fresh session over whatever the store already holds. An in-memory map the page
        already defines (embedded data) is kept as it is; without one it starts empty. */
    constructor (known: set<string>, embedded: Option<map<string, Payload>>, persisted: map<string, Payload>)
      ensures embedded.Some? ==> memory == embedded.value
      ensures embedded.None? ==> memory == map[]
      ensures store == persisted && cities == known
      ensures currentCity == None && !isLoading && storeReads == 0
    {
      if embedded.Some? {
        memory := embedded.value;
      } else {
        memory := map[];
      }
      store := persisted;
      cities := known;
      currentCity := None;
      isLoading := false;
      storeReads := 0;
    }

    /** `loadFromCache`: one store read; a hit back-fills the in-memory map. A failed read
        yields nothing. */
    method LoadFromCache(city: string, readOk: bool) returns (r: Option<Payload>)
      modifies this`memory, this`storeReads
      ensures storeReads == old(storeReads) + 1
      ensures r == (if readOk && StoreKey(city) in store then Some(store[StoreKey(city)]) else None)
      ensures memory == (if r.Some? then old(memory)[city := r.value] else old(memory))
    {
      storeReads := storeReads + 1;
      var key := StoreKey(city);
      if readOk && key in store {
        var cached := store[key];
        memory := memory[city := cached];
        return Some(cached);
      }
      return None;
    }

    /** `saveToCache`: reports whether the put request succeeded. Success is reported before
        the transaction commits, so a reported write may still be lost (`committed` false);
        only a committed write changes the store, and only at the city's key. */
    method SaveToCache(city: string, data: Payload, writeOk: bool, committed: bool) returns (saved: bool)
      requires committed ==> writeOk
      modifies this`store
      ensures saved == writeOk
      ensures store == (if committed then old(store)[StoreKey(city) := data] else old(store))
    {
      if committed {
        store := store[StoreKey(city) := data];
      }
      return writeOk;
    }

    /** `fetchRailwayData`: an unknown city yields nothing; otherwise the payload `Lookup`
        selects is dispatched. The store is read only when there is no forced refresh and no
        in-memory entry, and a stored hit is copied into the in-memory map. */
    method FetchRailwayData(city: string, forceRefresh: bool, readOk: bool) returns (r: Option<Processed>)
      modifies this`memory, this`storeReads
      ensures city !in cities ==> r.None? && memory == old(memory) && storeReads == old(storeReads)
      ensures city in cities ==>
                r == (match Lookup(old(memory), store, city, forceRefresh, readOk)
                      case None => None
                      case Some(p) => Dispatch(p))
      ensures storeReads == (if city in cities && !forceRefresh && city !in old(memory)
                             then old(storeReads) + 1 else old(storeReads))
      ensures memory == (if city in cities && !forceRefresh && city !in old(memory) && readOk && StoreKey(city) in store
                         then old(memory)[city := store[StoreKey(city)]] else old(memory))
    {
      if city !in cities {
        return None;
      }
      var payload: Option<Payload> := None;
      if !forceRefresh && city in memory {
        payload := Some(memory[city]);
      } else if !forceRefresh {
        var cached := LoadFromCache(city, readOk);
        if cached.Some? {
          memory := memory[city := cached.value];
          payload := cached;
        }
      }
      if payload.None? {
        return None;
      }
      r := ProcessPayload(payload.value);
    }

    /** The synchronous start of `loadRailwayOverlay`: a call made while a load is in flight
        is dropped and changes nothing; otherwise the flag is raised and the city recorded,
        and the flag is lowered again at once when there is no map. */
    method BeginLoad(city: string, mapReady: bool) returns (proceed: bool)
      modifies this`isLoading, this`currentCity
      ensures old(isLoading) ==> !proceed && isLoading && currentCity == old(currentCity)
      ensures !old(isLoading) ==> currentCity == Some(city) && proceed == mapReady && isLoading == mapReady
    {
      if isLoading {
        return false;
      }
      isLoading := true;
      currentCity := Some(city);
      if !mapReady {
        isLoading := false;
        return false;
      }
      return true;
    }

    /** The rest of `loadRailwayOverlay`, after its `await`: fetch the data and, if there is
        some, hand it to the renderer; every exit lowers the flag. */
    method FinishLoad(city: string, forceRefresh: bool, readOk: bool) returns (outcome: LoadOutcome)
      requires isLoading
      modifies this`memory, this`storeReads, this`isLoading
      ensures !isLoading
      ensures storeReads == (if city in cities && !forceRefresh && city !in old(memory)
                             then old(storeReads) + 1 else old(storeReads))
      ensures memory == (if city in cities && !forceRefresh && city !in old(memory) && readOk && StoreKey(city) in store
                         then old(memory)[city := store[StoreKey(city)]] else old(memory))
      ensures outcome == NoData || outcome.Drawn?
      ensures outcome.Drawn? <==>
                city in cities && Lookup(old(memory), store, city, forceRefresh, readOk).Some? &&
                Dispatch(Lookup(old(memory), store, city, forceRefresh, readOk).value).Some?
      ensures outcome.Drawn? ==>
                outcome.data == Dispatch(Lookup(old(memory), store, city, forceRefresh, readOk).value).value
    {
      var data := FetchRailwayData(city, forceRefresh, readOk);
      isLoading := false;
      if data.None? {
        return NoData;
      }
      return Drawn(data.value);
    }

    /** `loadRailwayOverlay` run to completion with no other call in between: the flag is
        down afterwards whatever happened, and a call made while a load is in flight does
        nothing at all. */
    method LoadRailwayOverlay(city: string, forceRefresh: bool, mapReady: bool, readOk: bool)
      returns (outcome: LoadOutcome)
      modifies this`memory, this`storeReads, this`isLoading, this`currentCity
      ensures old(isLoading) ==> outcome == AlreadyLoading && isLoading && unchanged(this)
      ensures !old(isLoading) ==> !isLoading && currentCity == Some(city)
      ensures !old(isLoading) && !mapReady ==>
                outcome == NoMap && memory == old(memory) && storeReads == old(storeReads)
      ensures !old(isLoading) && mapReady ==>
                && (outcome == NoData || outcome.Drawn?)
                && (outcome.Drawn? <==>
                      city in cities && Lookup(old(memory), store, city, forceRefresh, readOk).Some? &&
                      Dispatch(Lookup(old(memory), store, city, forceRefresh, readOk).value).Some?)
                && (outcome.Drawn? ==>
                      outcome.data == Dispatch(Lookup(old(memory), store, city, forceRefresh, readOk).value).value)
                && storeReads == (if city in cities && !forceRefresh && city !in old(memory)
                                  then old(storeReads) + 1 else old(storeReads))
                && memory == (if city in cities && !forceRefresh && city !in old(memory) && readOk &&
                                 StoreKey(city) in store
                              then old(memory)[city := store[StoreKey(city)]] else old(memory))
    {
      var wasLoading := isLoading;
      var proceed := BeginLoad(city, mapReady);
      if !proceed {
        return if wasLoading then AlreadyLoading else NoMap;
      }
      outcome := FinishLoad(city, forceRefresh, readOk);
    }
  }

  /** Two overlapping loads: the second starts while the first awaits its data, so it is
      dropped and the first load's city stays current; once the first finishes the flag is
      down and a new load can start. */
  method OverlappingLoads(o: RailwayOverlay, a: string, b: string, readOk: bool)
    returns (second: bool, third: bool, ghost during: Option<string>)
    requires !o.isLoading
    modifies o
    ensures !second && third
    ensures during == Some(a)
    ensures o.currentCity == Some(b) && o.isLoading
  {
    var first := o.BeginLoad(a, true);
    second := o.BeginLoad(b, true);
    during := o.currentCity;
    var outcome := o.FinishLoad(a, false, readOk);
    third := o.BeginLoad(b, true);
  }

  /** A second fetch of the same city after a stored hit is served from memory: the store is
      read once, and both fetches produce the same dataset. */
  method FetchTwice(o: RailwayOverlay, city: string)
    returns (first: Option<Processed>, second: Option<Processed>)
    requires city in o.cities && city !in o.memory && StoreKey(city) in o.store
    modifies o
    ensures o.storeReads == old(o.storeReads) + 1
    ensures first == second == Dispatch(old(o.store[StoreKey(city)]))
  {
    first := o.FetchRailwayData(city, false, true);
    second := o.FetchRailwayData(city, false, true);
  }
}
