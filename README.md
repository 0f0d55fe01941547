# MOCache translation cache, modelled in Dafny

MOCache (`mo-cache.php`) is a WordPress plugin that takes over the loading
of `.mo` translation catalogs. For each text domain it installs a cache in
front of the catalog parser.

- A `translate` request is keyed on its argument list as passed, plus the
  domain. A `translate_plural` request is keyed on `[selected text, count,
  context]` plus the domain, where the selected text is the singular for
  counts 1 and -1 and the plural otherwise. The model has this as-written key
  (`Controller.TranslatePluralAsWritten`) and a corrected one that keys on the
  full argument list (`Controller.TranslatePlural`); see Findings.
- A hit is answered from an in-memory map.
- A miss marks the cache dirty. It is resolved through the domain's previous
  translator when there is one. Otherwise it goes to a catalog parser, which
  is built on the first such miss. The answer is then stored.
- At the end of the request a dirty cache is saved with the catalog's mtime.
  It goes to a temp file (`MOFile`) or to a transient of the object cache
  (`MOTransient`).
- The next request adopts the saved map unless the catalog has changed since.

The model has five modules:

- `Wrappers` — `Option` and map lookup.
- `Keys` — the argument lists as passed (`func_get_args()`), the cache key,
  the plural text rule, and the plural key as the source writes it.
- `Lookup` — `get_translation` as a function `Step` on the cache state, taking
  the caller's key and argument list. It also has runs of many such (key,
  argument list) requests (`Run`, `Answers`, `Misses`, `Builds`) and induction
  lemmas about them. Those lemmas hold for any keys, so they cover the
  as-written plural key as well.
- `Persistence` — the two storage locations, the persisted record, the two
  staleness tests, and the save/restore round trip.
- `MOCache` — class `Controller` (`MO`, with `MOFile`/`MOTransient` chosen by
  a `Backend` value) and class `Registry` (`$l10n` and the `override` hook).

The hash `md5(json_encode([args, domain]))` is modelled by the pair itself.
This is an injective stand-in; collision resistance is not argued.

The catalog parser and the previous translator are `Translator` values,
i.e. two functions whose behaviour is left open. The host side is a `Host`
value: readability, file mtimes, what a catalog parses to, whether an object
cache is in use, and the home URL. The temp directory and the object cache
together are one `Store` object holding `map<StoreKey, Record>`.

The central invariant of `Controller.Valid` is transparency. Every entry the
cache computed itself holds what the answering translator gives for the
argument list it was resolved for. So a request keyed on its own argument
list is answered from the adopted map when it is there, and otherwise as the
resolving translator answers (`Controller.Behaviour`, `LookedUp`,
`Lookup.RunIsTransparent`). Requests through the as-written plural key do not
get this guarantee (see Findings).

## Model

| member | source | states |
|---|---|---|
| `Keys.HashInjective` | mo-cache.php:102-104 | Two keys are equal exactly when their argument lists and domains are equal; the key includes the domain |
| `Keys.TranslateArgs` | mo-cache.php:87-89 | translate's argument list has the text first; the context is second exactly when the caller passed one, even a null |
| `Keys.PluralArgs` | mo-cache.php:94-96 | translate_plural's argument list is singular, plural, count, then the context exactly when it was passed |
| `Keys.OmittedContextIsNotNullContext` | mo-cache.php:87-88 | `translate("x")` and `translate("x", null)` have different keys |
| `Keys.SingularAndPluralKeysDiffer` | mo-cache.php:88-96 | A translate request never shares a key with a translate_plural request, under either the as-written or the corrected plural key |
| `Keys.PluralText` | mo-cache.php:95 | The selected text is the singular for counts 1 and -1 and the plural for every other count |
| `Keys.PluralKeyAsWrittenShape` | mo-cache.php:96 | An as-written plural key is in the cache's domain, and its list is a string, an integer and one more value |
| `Keys.OwnArgsAreNotAsWrittenPluralShape` | mo-cache.php:88-96 | No argument list of translate or translate_plural has that shape, so a key built from a request's own arguments is never an as-written plural key |
| `Keys.PluralKeysAsWrittenCoincide` | mo-cache.php:95-96 | Two plural requests share the as-written key exactly when their selected text, count and context (null if omitted) agree |
| `Keys.PluralKeyAsWrittenDropsUnselectedText` | mo-cache.php:95-96 | As written, the plural key does not depend on the singular when abs(count) is not 1, nor on the plural when it is 1 |
| `Lookup.ResolveDispatchesByCaller` | mo-cache.php:118-131 | Dispatching on more than two arguments sends translate's arguments to `translate` and translate_plural's to `translate_plural` |
| `Lookup.StepKeepsCoherent` | mo-cache.php:109-132 | A lookup keyed on its own argument list keeps every entry equal to the translator's answer, and it returns exactly that answer |
| `Lookup.Misses` | mo-cache.php:111-116 | A run consults a resolver at most once per request |
| `Lookup.AnswersAreFinalEntries` | mo-cache.php:111-131 | After a run every request's key has an entry, and each answer equals the final entry under its key |
| `Lookup.RunAppend` | mo-cache.php:109-132 | Running two batches one after the other equals running them joined: same state, misses added, answers concatenated |
| `Lookup.RunOnlyGrows` | mo-cache.php:116-131 | Over any run of lookups the map only gains entries; no stored value changes |
| `Lookup.RunCachesEveryRequest` | mo-cache.php:122-131 | After a run, every request of it has an entry |
| `Lookup.WarmRunIsIdle` | mo-cache.php:111-113 | If every request is already cached, the run consults nothing, changes no state, and answers each request from the map |
| `Lookup.ReplayIsIdle` | mo-cache.php:109-132 | Replaying a run on the state it produced consults nothing, changes nothing and gives the same answers. So running the requests twice misses only as often as running them once |
| `Lookup.DirtyIffMissed` | mo-cache.php:111-116 | After a run the cache is dirty exactly when it was dirty before or some request missed |
| `Lookup.UpstreamBuiltAtMostOnce` | mo-cache.php:121-129 | The catalog parser is built at most once in a run. It is never built when an override exists or when it already exists. It exists afterwards exactly when it existed before or the run built it |
| `Lookup.RunIsTransparent` | mo-cache.php:109-132 | From a coherent cache, every answer of a run of self-keyed requests equals the answering translator's answer, and the cache stays coherent |
| `Lookup.AsWrittenPluralKeyServesWrongEntry` | mo-cache.php:94-97 | With the plural key as written, the second of two plural requests that differ only in the singular gets the first one's translation |
| `Lookup.CorrectedPluralKeyServesOwnEntry` | mo-cache.php:94-97 | With the argument-list key, the same two requests get separate entries and their own translations |
| `Persistence.LocationScope` | mo-cache.php:144-183 | Two domains on one catalog path share one transient but never one cache file |
| `Persistence.BackendsAgreeOnStaleness` | mo-cache.php:149-191 | MOFile's test and MOTransient's test both reject exactly the records with no mtime or with an mtime older than the catalog's |
| `Persistence.StaleRecordIsDiscarded` | mo-cache.php:152-153 | A record with no mtime, or one older than the catalog, restores the empty map whatever entries it holds |
| `Persistence.Saved` | mo-cache.php:199-202 | The saved record's mtime is exactly the cache's catalog mtime and its map is exactly the cache's map, so it is valid for that mtime |
| `Persistence.SaveThenRestore` | mo-cache.php:163-205 | After a save, a load at the same location returns the saved map when the catalog is no newer, and the empty map when it is newer |
| `MOCache.Controller.constructor` | mo-cache.php:67-76 | Records path, domain, override and the catalog's mtime, then loads. The new cache is clean, has no parser yet, and holds the stored map if valid, otherwise the empty map |
| `MOCache.Controller.LoadCache` | mo-cache.php:143-192 | Adopts a valid stored map and empties the map for a stale or mtime-less record. A missing cache file leaves the map as it was; a missing transient empties it |
| `MOCache.Controller.SaveCache` | mo-cache.php:163-205 | Writes (catalog mtime, whole map) to this cache's location only when dirty; otherwise the store is unchanged |
| `MOCache.Controller.BehaviourAt` | mo-cache.php:111-131 | What a cache answers to a self-keyed request: the adopted entry if there is one, otherwise the resolver's answer |
| `MOCache.Controller.GetTranslation` | mo-cache.php:109-132 | Takes the caller's key. On a hit: returns the stored value and changes no state. On a miss: sets dirty, resolves the arguments via the override if present, else via the catalog parser (built on first use), stores the answer under the key and leaves all other entries alone |
| `MOCache.Controller.Translate` | mo-cache.php:87-89 | A lookup of translate's argument list as passed, with the hit and miss behaviour of GetTranslation; it answers as `Behaviour` does |
| `MOCache.Controller.TranslatePluralAsWritten` | mo-cache.php:94-97 | The source's translate_plural: a lookup of the full argument list under the as-written key, with the hit and miss behaviour of GetTranslation |
| `MOCache.Controller.TranslatePlural` | mo-cache.php:94-97 | The corrected translate_plural: a lookup keyed on the full argument list, answering as `Behaviour` does |
| `MOCache.TranslateTwice` | mo-cache.php:111-113 | The same request twice returns the same answer; the second call consults nothing |
| `MOCache.FlushClean` | mo-cache.php:163-171 | A cache that never missed writes nothing when flushed |
| `MOCache.SaveThenReload` | mo-cache.php:67-76 | After a flush, a new cache for the same catalog starts from the flushed map if the catalog is unchanged, and from the empty map if it is newer |
| `MOCache.Registry.Override` | mo-cache.php:22-39 | Declines and leaves the registry unchanged if the catalog is unreadable. Otherwise it installs a fresh, clean cache for the domain, with that catalog, its mtime and the home URL (transient backend with an object cache, file backend without). Its override is what the domain's previous entry answers, or none; other domains are unchanged |
| `MOCache.OverrideSeesAdoptedEntries` | mo-cache.php:34 | After a second load of a domain, a request the new cache lacks is answered from the previous cache's adopted entries |

## Left out

- WordPress hook plumbing is not modelled: `add_filter` (line 40) and the `load_textdomain_mofile` filter (line 24). `Registry.Override` receives the already filtered path.
- `wp_using_ext_object_cache()`, `get_home_url()`, `is_readable()`, `filemtime()` and the catalog parser's reading of the file are host calls. They are fields of `Host`, so the catalog is taken not to change during one request.
- `register_shutdown_function` (line 75) is not modelled. The flush is an explicit `SaveCache` call, and running it once at shutdown is the host's job.
- File and transient I/O are not modelled: `include`, `file_put_contents` with `LOCK_EX`, `var_export`, `get_transient` and `set_transient`. The store is a map from location to `(mtime, map)`, and the file format is modelled only as an exact round trip.
- A cache file that does not parse, or that sets `$_mtime` without `$_cache`, is not modelled. The store holds only well-formed records.
- `md5` is replaced by the values it hashes. The cache file name hashes `implode(' ', [home, domain, path])`. That join is not injective when a part contains a space, and the model's `FileKey` triple does not capture this.
- Cross-process races on a shared file or transient (last writer wins) are concurrency and are not modelled.
- PHP reference aliasing (`&$mo`, `&$_cache`, `&$data['cache']`) is modelled as plain assignment.
- MOCache.Registry.Override: the previous entry is kept as what it answers. For a previous MOCache cache that is `Controller.Behaviour`: adopted entries first, then its resolver. For any other translator in `$l10n` (an `Entry.Foreign`) it is that translator. Calls sent to a previous MOCache cache also fill that cache's own map and set its dirty flag; the model does not capture this. `Behaviour` describes the previous cache when it is called with self-keyed requests, as the corrected program does. A previous cache that keys plurals as written answers according to its history, and the model does not capture that either.
- MOCache.Controller.TranslatePlural: its answer is stated through `Behaviour`, which trusts adopted entries. A stored map may hold answers from another process with a different override chain.
- MOCache.Controller.GetTranslation: the unused `$text` parameter is dropped. Its precondition `KeyedAsInSource` admits the two kinds of key the callers pass: the argument list's own hash, and an as-written plural key. For the second it accepts any key of that shape in the cache's domain, not only the one computed from these arguments.
- Arguments beyond the declared parameters (PHP's `func_get_args()` also returns extras) are not modelled. The count is an integer; PHP also accepts floats and numeric strings.
- `isset()` treats a stored null as a miss. Translations are always strings, so the model tests membership only.

## Findings

| source | as written | input that shows it | evidently intended | confidence | as-written member | corrected member |
|---|---|---|---|---|---|---|
| mo-cache.php:95-96 | `translate_plural` keys on `[text, count, context]`, with `text` only the selected form. When abs(count) is not 1, the singular is not in the key, yet it is the msgid the catalog looks up | `translate_plural("%d apple", "%d items", 2)`, then `translate_plural("%d pear", "%d items", 2)` in one domain: the second is a hit and returns the apple translation | key on the full argument list, as `translate` does (`func_get_args()`), so each request gets its own entry | medium, not executed | `Lookup.AsWrittenPluralKeyServesWrongEntry` | `MOCache.Controller.TranslatePlural` |
