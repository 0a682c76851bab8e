# Railway overlay data core, in Dafny

This project models the data side of the Metro Maker railway overlay mod
(`mods/railway-overlay/index.js`). The mod draws a city's railway network from
OpenStreetMap data that the player has imported, and keeps that data per city.

What is modelled:

- **Raw (Overpass JSON) ingestion**, `processOSMDataV6`, in `osm_ingest.dfy`:
  - The first pass walks the element list in chunks of 5000 and fills the node
    index, a JavaScript `Map` kept as first-insertion order plus last-written
    record.
  - The second pass walks the list again in chunks. It resolves each way's
    node ids to coordinates, classifies the way, and appends a LineString
    feature to its bucket.
  - A last pass over the node index extracts the stations.
  - Both chunked passes are `while` loops with an inner `for`. They are proved
    to visit every index once, in order, and equal to a fold over the element
    list. That fold is the specification the lemmas talk about.
- **GeoJSON ingestion**, `processGeoJSON`, in `geojson_ingest.dfy`:
  - Station points go to the station list.
  - Lines, multi-lines and polygons go to their buckets unchanged.
- **The classification table**, in `classifier.dfy`. The source has two inline
  copies of it; here it is a single function `Classify` with a `Variant` flag.
  It covers:
  - the raw category, with the `platform` fallback;
  - the abandoned family;
  - tunnel over bridge;
  - the `rail_yard` remap.
  The two copies differ only in their tunnel and bridge tests:
  - the Overpass copy also takes `bridge=viaduct`;
  - the GeoJSON copy also takes boolean `true`.
- **The bucket taxonomy**, in `taxonomy.dfy`: 9 categories × 3 contexts, keyed
  `${category}_${context}`.
- **Tag access**, in `tags.dfy`: JavaScript truthiness and `parseInt` on `layer`.
- **Coordinate resolution and the node index**, in `resolver.dfy`.
- **Station extraction**, in `stations.dfy`: the station kinds, the line and
  platform fallback chains, and the defaults.
- **The per-city service**, in `region_service.dfy`:
  - The class `RailwayOverlay` holds the in-memory payload map
    (`window.RailwayData`), the persistent store (IndexedDB, as a map), the
    cities the host knows, the current city and the `isLoading` flag.
  - Its methods are `loadFromCache`, `saveToCache` and `fetchRailwayData`, plus
    `loadRailwayOverlay` split at its `await`. The split lets the model show a
    call made during a load being dropped.
  - Dispatch by payload shape sends a payload to one of the two ingestion
    modes.

**The `rail_yard` drop.** The classifier can produce category `rail_yard`, and
the renderer has a style and a drawing slot for it (line 425). Both bucket
tables (lines 202 and 258), however, allocate only nine categories, without
`rail_yard`. The guarded push (`if (layerData[key])`, lines 245 and 328)
therefore drops every yard and siding track silently. Since the style table
(lines 29-33) and the draw order (line 425) both include `rail_yard`, leaving
it out of the bucket tables looks unintended. This model follows the code as
written: `OsmIngest.YardWaysDropped` and
`GeoJsonIngest.GeoYardDropped` prove the drop.

Store reads and writes can fail, and the host's map may not be ready. These
outcomes are method parameters (`readOk`, `writeOk`, `mapReady`). The set of
city codes the host knows is a field.

## Model

| member | source | states |
|---|---|---|
| Tags.LiftReads | mods/railway-overlay/index.js:296-319 | On an Overpass tag bag, `tags[k] === v` holds exactly for the stored string, a tag is truthy exactly when its string is non-empty, no tag is ever `=== true`, and a template literal gives back the stored string |
| Tags.ParseIntMinus | mods/railway-overlay/index.js:317 | `parseInt` of a minus sign followed by digits, after white space, is the negated digit value |
| Tags.ParseIntPlain | mods/railway-overlay/index.js:317-318 | `parseInt` without a sign is the value of the leading digit run, and `NaN` when there is none |
| Tags.ParseIntSign | mods/railway-overlay/index.js:317 | `parseInt` gives a negative number only for a string whose first non-blank character is `-`, so only such a `layer` makes a tunnel |
| Tags.DigitsNonNegative | mods/railway-overlay/index.js:317-318 | A run of decimal digits denotes a number that is never negative |
| Tags.ParseMinusDigit | mods/railway-overlay/index.js:317 | `parseInt` of a minus sign and a digit is the negated digit, as for layer `-1` |
| Tags.ParseSpacedDigit | mods/railway-overlay/index.js:317-318 | `parseInt` skips leading white space before a digit, as for layer ` 2` |
| Tags.ParseDigit | mods/railway-overlay/index.js:317-318 | `parseInt` of one digit is that digit, so layer `0` is neither below nor above ground |
| Tags.ParseNonNumber | mods/railway-overlay/index.js:317-318 | `parseInt` of a string that starts with no white space, sign or digit is `NaN` |
| Taxonomy.EmptyBuckets | mods/railway-overlay/index.js:258-265 | The fresh bucket table has exactly the keys of the nine categories in each of the three contexts, all empty |
| Taxonomy.NewBuckets | mods/railway-overlay/index.js:261-265 | The nested allocation loops build exactly that table |
| Taxonomy.Place | mods/railway-overlay/index.js:328-343 | The guarded push appends the feature to its own bucket only, and never adds a key |
| Taxonomy.KeyNameInjective | mods/railway-overlay/index.js:326 | Two `${category}_${context}` keys are equal only for the same category and context |
| Taxonomy.KeyInBuckets | mods/railway-overlay/index.js:326-328 | A key exists in the table exactly when its category is one of the nine allocated categories |
| Taxonomy.RailYardHasNoBucket | mods/railway-overlay/index.js:425 | `rail_yard` is a drawn category, but no bucket is allocated for it in any context |
| Classifier.CategoryRule | mods/railway-overlay/index.js:296-300 | A feature is a railway feature exactly when it has a truthy `railway` tag or is a `public_transport=platform`; an untagged platform gets category `platform`; other values pass through |
| Classifier.AbandonedNormalization | mods/railway-overlay/index.js:314-315 | `abandoned`, `disused`, `razed` and `dismantled`, and only these, become `abandoned`; normalising is idempotent |
| Classifier.ContextPrecedence | mods/railway-overlay/index.js:317-323 | Tunnel exactly when the tunnel test holds, even if the bridge test holds too; bridge only without tunnel; surface otherwise |
| Classifier.LayerDecidesContext | mods/railway-overlay/index.js:317-318 | With no `tunnel` or `bridge` tag, layer `-1` is a tunnel, ` 2` a bridge, and `0` or `x` the surface |
| Classifier.LayerOnlyContext | mods/railway-overlay/index.js:317-323 | With no `tunnel` or `bridge` tag the context follows the sign of the parsed layer: negative is tunnel, positive bridge, otherwise surface |
| Classifier.YardRemap | mods/railway-overlay/index.js:319-325 | The final category is `rail_yard` exactly for a `rail` track with `service` yard or siding, or a literal `rail_yard`; the context is untouched |
| Classifier.ServiceIgnoredByContext | mods/railway-overlay/index.js:317-323 | Changing `service` never changes the context |
| Classifier.VariantsAgree | mods/railway-overlay/index.js:234-235 | The GeoJSON and Overpass copies of the table agree on all-string bags without `bridge=viaduct` |
| Classifier.VariantsDiffer | mods/railway-overlay/index.js:318 | A viaduct is a bridge to the Overpass copy only, and a boolean `bridge: true` to the GeoJSON copy only |
| Classifier.BucketExists | mods/railway-overlay/index.js:326-328 | A classified feature has a bucket exactly when its final category is allocated; a `rail_yard` feature never has one |
| GraphResolver.NodeIndex.Set | mods/railway-overlay/index.js:281 | `Map.set` stores the record; a new id goes to the end of the iteration order, and a known id keeps its place |
| GraphResolver.SetKeepsValid | mods/railway-overlay/index.js:267-281 | The index stays duplicate-free, with the order in step with the keys |
| GraphResolver.ResolveCoords | mods/railway-overlay/index.js:304-310 | The coordinate loop yields the positions of the way's known nodes, in the way's order |
| GraphResolver.ResolveAppend | mods/railway-overlay/index.js:305-310 | Resolution works id by id: resolving a concatenation concatenates the resolutions |
| GraphResolver.ResolveOne | mods/railway-overlay/index.js:306-309 | One id gives its node's `[lon, lat]`, or nothing when the node is missing |
| GraphResolver.ResolveBound | mods/railway-overlay/index.js:304-310 | A way never gets more points than it lists ids |
| GraphResolver.ResolveAllPresent | mods/railway-overlay/index.js:304-310 | When every id is known, the k-th point is the k-th node's position |
| GraphResolver.ResolveSkipsMissing | mods/railway-overlay/index.js:304-312 | Ids 1, 2, 3 with node 2 missing give the line through 1 and 3; with only node 1 known there is a single point |
| Stations.FirstTextPicksFirst | mods/railway-overlay/index.js:351-357 | A logical-or fallback chain picks the first non-empty key, and is `''` only when every key is empty or missing |
| Stations.StationFields | mods/railway-overlay/index.js:359-373 | A station is never nameless (the default is `Station`), keeps its `railway` kind, sits at `[lon, lat]`, has `''` for a missing network, operator or ref, takes its platforms from `platforms` falling back to `public_transport:platforms`, and takes its line from the first non-empty of line, lines, subway:line, train:line, tram:line, ref |
| Stations.SubwayLineFallback | mods/railway-overlay/index.js:351-357 | A station tagged only `subway:line=A` has line `A` |
| Stations.ExtractStations | mods/railway-overlay/index.js:349-376 | The pass over the node index yields the station records of the qualifying nodes, in index order |
| Stations.StationsExactly | mods/railway-overlay/index.js:349-350 | A record is a station exactly when it comes from an indexed node whose `railway` is station, halt, stop, subway_entrance or tram_stop |
| OsmIngest.BuildNodeIndex | mods/railway-overlay/index.js:275-286 | The chunked first pass visits indices 0 … n-1, each once and in order, and builds the index of the whole list |
| OsmIngest.PlaceWay | mods/railway-overlay/index.js:292-343 | One element's step: the way's feature, if any, is pushed to its bucket, and nothing else changes |
| OsmIngest.PlaceWays | mods/railway-overlay/index.js:288-347 | The chunked second pass visits every index once, in order, and places every way against the complete index |
| OsmIngest.ProcessOsmData | mods/railway-overlay/index.js:254-386 | The whole ingestion equals the specification: the first pass completes before any way is resolved, then the buckets and the stations |
| OsmIngest.IndexOfValid | mods/railway-overlay/index.js:267-284 | The node index built from any element list is well formed |
| OsmIngest.IndexHasEveryNode | mods/railway-overlay/index.js:275-284 | An id is in the index exactly when some node element has it, wherever it sits in the list |
| OsmIngest.LastNodeWins | mods/railway-overlay/index.js:281 | For a repeated node id, the last node element's record is kept |
| OsmIngest.PlacedPartition | mods/railway-overlay/index.js:288-347 | Pass 2 keeps the bucket keys, and each bucket gains, in element order, exactly the emitted features with its key |
| OsmIngest.WayFeatureRule | mods/railway-overlay/index.js:294-312 | A way yields a feature exactly when it has node refs, a railway category and two or more resolvable nodes; the feature carries the resolved line and the classification |
| OsmIngest.EmittedShape | mods/railway-overlay/index.js:312 | Every emitted line has at least two points |
| OsmIngest.StoredFeatures | mods/railway-overlay/index.js:326-343 | Each stored feature sits in the one allocated bucket its category and context name; its category is allocated (never `rail_yard`), and its line has two or more points |
| OsmIngest.YardWaysDropped | mods/railway-overlay/index.js:325-328 | A feature classified `rail_yard` is in no bucket of the result |
| OsmIngest.RawBuckets | mods/railway-overlay/index.js:258-347 | The result has exactly the allocated buckets (nine categories in three contexts), and each holds the emitted features with its key, in element order |
| OsmIngest.WayBeforeItsNodes | mods/railway-overlay/index.js:275-312 | A way listed before its own nodes is still drawn, with the nodes' positions |
| OsmIngest.ForwardIndex | mods/railway-overlay/index.js:275-286 | A way followed by its two nodes leaves both nodes in the index after the first pass |
| OsmIngest.SubwayWayFeature | mods/railway-overlay/index.js:294-343 | A `railway=subway` way over two indexed nodes yields a surface subway line through them, with empty name, ref and operator |
| GeoJsonIngest.IngestFeature | mods/railway-overlay/index.js:211-249 | One feature's step: null geometry is skipped, a station point is listed, and a line-like railway feature is pushed to its bucket if that exists |
| GeoJsonIngest.ProcessGeoJson | mods/railway-overlay/index.js:199-252 | The allocation plus the `forEach` pass equals the fold specification |
| GeoJsonIngest.StationOrLine | mods/railway-overlay/index.js:216-224 | No feature is both a station point and a bucketed line |
| GeoJsonIngest.GeoPartition | mods/railway-overlay/index.js:205-249 | The buckets stay the allocated ones (nine categories in three contexts); each holds, in order, the line features with its key; the station list holds, in order, the station points |
| GeoJsonIngest.GeoStoredFeatures | mods/railway-overlay/index.js:224-247 | A stored feature has line, multi-line or polygon geometry and is classified to that bucket's allocated (never `rail_yard`) category |
| GeoJsonIngest.GeoYardDropped | mods/railway-overlay/index.js:242-247 | A line feature classified `rail_yard` is neither in a bucket nor a station |
| GeoJsonIngest.StationPointsMember | mods/railway-overlay/index.js:216-222 | A feature is listed as a station exactly when it is a Point whose `railway` is a station kind or which is a `stop_position` |
| GeoJsonIngest.LineKeyBucket | mods/railway-overlay/index.js:224-245 | A feature's key comes from its classification, and names a bucket exactly when its category is allocated |
| RegionService.ProcessPayload | mods/railway-overlay/index.js:173-182 | Running the selected ingestion gives the dispatch specification's result |
| RegionService.DispatchModes | mods/railway-overlay/index.js:173-182 | `FeatureCollection` gives GeoJSON mode (even with an `elements` array), an `elements` array gives raw mode, anything else null |
| RegionService.LookupPrecedence | mods/railway-overlay/index.js:161-171 | A forced refresh uses no tier; an in-memory entry wins whatever the store holds; otherwise the stored entry is used exactly when present and readable |
| RegionService.StoreKeyInjective | mods/railway-overlay/index.js:128 | Different cities never share a store key |
| RegionService.RailwayOverlay.constructor | mods/railway-overlay/index.js:11-20 | A session keeps the in-memory map the page already defines (embedded data), else starts it empty; no current city and the flag down |
| RegionService.RailwayOverlay.LoadFromCache | mods/railway-overlay/index.js:126-137 | One store read; a hit is returned and copied into memory; a miss or failed read returns null and changes nothing |
| RegionService.RailwayOverlay.SaveToCache | mods/railway-overlay/index.js:110-147 | Reports the put request's success, which comes before the commit; the store changes only when the write commits, and only at the city's key, so a reported success may still be lost |
| RegionService.RailwayOverlay.FetchRailwayData | mods/railway-overlay/index.js:149-193 | An unknown city gives null; otherwise the looked-up payload is dispatched; the store is read only without refresh and without a memory entry, and a stored hit back-fills memory |
| RegionService.RailwayOverlay.BeginLoad | mods/railway-overlay/index.js:388-400 | A call during a load is dropped and changes nothing; otherwise the flag goes up, the city becomes current, and the flag drops at once without a map |
| RegionService.RailwayOverlay.FinishLoad | mods/railway-overlay/index.js:402-407 | After the fetch, every exit lowers the flag; data is drawn exactly when the lookup finds a payload that dispatches, and it is that payload's dataset; the store is read once on a memory miss without `forceRefresh`, and a successful read is copied into memory |
| RegionService.RailwayOverlay.LoadRailwayOverlay | mods/railway-overlay/index.js:388-533 | A call during a load does nothing; any other call ends with the flag down and its city current; without a map nothing is read or changed; with a map the outcome, the store reads and the new in-memory map are those of the fetch |
| RegionService.OverlappingLoads | mods/railway-overlay/index.js:388-394 | A second load started while the first awaits is dropped and the first city stays current (the city seen in between is returned); after the first finishes, a new load proceeds |
| RegionService.FetchTwice | mods/railway-overlay/index.js:161-171 | After a stored hit, a second fetch is served from memory: one store read, same result |

## Left out

- IndexedDB (`openDB`, `dbGet`, `dbSet`, lines 80-124) is browser I/O. The store is a map field, and read and write failures are boolean parameters.
- The `setTimeout` yields between chunks (lines 285, 346) only keep the event loop live. The chunk loops run without suspension, so no other code runs between chunks.
- `fetchRailwayData` is treated as one atomic step. Only the `await` of `loadRailwayOverlay` is modelled as a point where other calls can run (`BeginLoad` / `FinishLoad`).
- Map rendering (layer creation and removal, opacity, visibility, lines 411-634) is calls into an external map library.
  - `RailwayOverlay.FinishLoad`: an exception thrown by the layer calls outside their `try` would leave `isLoading` set in the source. The model assumes rendering returns.
- The React panel, file reader, clipboard, notifications and `processImportedData` (lines 636-1028), and the host hooks (lines 1030-1062), are UI and host plumbing.
- `downloadFromOSM` (lines 195-197) is an empty stub.
- The `RAILWAY_STYLES` colours are presentation data. Only the set of drawn categories is kept, to state the `rail_yard` drop.
- `getCities()` is a set of known city codes. City names are used only in notifications.
- `Tags.ParseInt`:
  - a hexadecimal `0x` prefix and non-ASCII white space are not modelled;
  - GeoJSON property values are strings or booleans, so a numeric `layer` or `railway` in a GeoJSON bag is not modelled.
- GeoJSON coordinates are carried along unread and are not part of the model. Raw-mode output features keep their resolved coordinates.
- The diagnostic counters (`nodeCount`, `wayCount`, `railwayWayCount`, `featureCounts`) are never read.
- `RegionService.RailwayOverlay.LoadFromCache`: the notification on a thrown read error is not modelled. A failed read is a `null` result.
- Malformed entries are not modelled. Every entry of `elements` and `features` is assumed to be an object, and every node is assumed to carry `lat` and `lon`. In the source, a `null` entry throws at `el.type` (line 280) or `feature.properties` (line 212), and the catch at lines 189-191 turns the whole fetch into `null`. A node without coordinates is still indexed (line 281), and its ways get `undefined` points (line 308).
- Payloads are JSON objects and therefore always truthy. A falsy value stored in the cache is not modelled.
