/**
 * The translation cache of mo-cache.php: class MO with its two backends
 * (one class with a Backend value) and the `override` hook that installs a
 * cache as the translator of a text domain.
 */
module MOCache {
  import opened Wrappers
  import opened Keys
  import opened Lookup
  import opened Persistence

  /**
   * What the host provides: which files are readable, their modification
   * times, what the catalog parser would read from a catalog, whether an
   * external object cache is in use, and the site's home URL.
   */
  datatype Host = Host(
    readable: string -> bool,
    filemtime: string -> int,
    catalogOf: string -> Translator,
    extObjectCache: bool,
    homeUrl: string)

  /**
   * The keys get_translation is called with: the request's own argument list
   * (translate) or, as written, the plural key (translate_plural); both in the
   * cache's domain.
   */
  predicate KeyedAsInSource(key: Key, args: seq<Arg>, domain: string)
  {
    key.domain == domain && (key.args == args || AsWrittenPluralShape(key.args))
  }

  /** The cache of one catalog for one text domain (MO, MOFile, MOTransient). */
  class Controller {
    const mofile: string
    const domain: string
    const mtime: int
    /** The translator the domain had before this one, consulted on misses. */
    const override: Option<Translator>
    /** What the catalog parser answers once it has imported `mofile`. */
    const catalog: Translator
    const backend: Backend
    const home: string
    const store: Store

    var cache: map<Key, string>
    var dirty: bool
    /** Whether the catalog parser has been constructed and has imported `mofile`. */
    var upstreamBuilt: bool
    /** The map adopted by load_cache. */
    var loaded: map<Key, string>

    /** For each entry this cache computed, the argument list it was resolved for. */
    ghost var origin: map<Key, seq<Arg>>
    /** The lookups this cache resolved through the override or the catalog, in order. */
    ghost var consulted: seq<Request>
    /** How many times the catalog parser was constructed. */
    ghost var builds: nat

    function Sources(): Lookup.Sources
    {
      Lookup.Sources(override, catalog)
    }

    /** The translator this cache resolves its misses with. */
    function Answerer(): Translator
    {
      Lookup.Answerer(Sources())
    }

    /**
     * What this cache answers, as a translator, to a request keyed on its own
     * argument list: the adopted entry when there is one, the resolver's answer otherwise.
     */
    function Behaviour(): Translator
      reads this
    {
      var adopted, resolver, d := loaded, Answerer(), domain;
      var answer := (args: seq<Arg>) => if Hash(args, d) in adopted then adopted[Hash(args, d)] else Resolve(resolver, args);
      Translator(answer, answer)
    }

    /** Behaviour answers adopted entries from the map and everything else through the resolver. */
    lemma BehaviourAt(args: seq<Arg>)
      ensures Resolve(Behaviour(), args)
           == if Hash(args, domain) in loaded then loaded[Hash(args, domain)] else Resolve(Answerer(), args)
    {
    }

    function Snapshot(): State
      reads this
    {
      State(cache, dirty, upstreamBuilt)
    }

    /** The file or transient this cache loads from and saves to. */
    function CacheLocation(): StoreKey
    {
      Location(backend, home, domain, mofile)
    }

    ghost predicate Valid()
      reads this
    {
      && builds == (if upstreamBuilt then 1 else 0)
      && (upstreamBuilt <==> override.None? && consulted != [])
      && (dirty <==> consulted != [])
      && (!dirty ==> cache == loaded)
      && Extends(cache, loaded)
      && (forall k :: k in cache && k !in loaded ==> k in origin && cache[k] == Resolve(Answerer(), origin[k]))
      && (forall k :: k in origin ==> KeyedAsInSource(k, origin[k], domain))
      && (forall i :: 0 <= i < |consulted| ==>
            && consulted[i].key in cache && consulted[i].key !in loaded
            && consulted[i].key in origin && origin[consulted[i].key] == consulted[i].args)
      && (forall i, j :: 0 <= i < j < |consulted| ==> consulted[i].key != consulted[j].key)
    }

    /** MO::__construct: record the catalog and its mtime, then load the persisted cache. */
    constructor (mofile: string, domain: string, override: Option<Translator>, backend: Backend,
                 host: Host, store: Store)
      ensures this.mofile == mofile && this.domain == domain && this.override == override
      ensures this.backend == backend && this.store == store && home == host.homeUrl
      ensures mtime == host.filemtime(mofile) && catalog == host.catalogOf(mofile)
      ensures Valid() && !dirty && !upstreamBuilt && consulted == []
      ensures cache == loaded == Restored(Get(store.records, CacheLocation()), mtime)
    {
      this.mofile := mofile;
      this.domain := domain;
      this.override := override;
      this.backend := backend;
      this.store := store;
      home := host.homeUrl;
      mtime := host.filemtime(mofile);
      catalog := host.catalogOf(mofile);
      cache := map[];
      dirty := false;
      upstreamBuilt := false;
      loaded := map[];
      origin := map[];
      consulted := [];
      builds := 0;
      new;
      LoadCache();
    }

    /**
     * MOFile::load_cache and MOTransient::load_cache: adopt the stored map when
     * it is still valid, take the empty map when it is not. A missing cache file
     * leaves the map as it was; a missing transient empties it.
     */
    method LoadCache()
      modifies this`cache, this`loaded
      ensures loaded == cache
      ensures backend == FileBackend && CacheLocation() !in store.records ==> cache == old(cache)
      ensures !(backend == FileBackend && CacheLocation() !in store.records) ==>
                cache == Restored(Get(store.records, CacheLocation()), mtime)
    {
      var at := CacheLocation();
      match backend {
        case FileBackend =>
          if at in store.records {
            var rec := store.records[at];
            BackendsAgreeOnStaleness(rec, mtime);
            if FileRejects(rec, mtime) {
              cache := map[];
            } else {
              cache := rec.cache;
            }
          }
        case TransientBackend =>
          var data := Get(store.records, at);
          if data.Some? {
            BackendsAgreeOnStaleness(data.value, mtime);
          }
          if TransientRejects(data, mtime) {
            cache := map[];
          } else {
            cache := data.value.cache;
          }
      }
      loaded := cache;
    }

    /** MOFile::save_cache and MOTransient::save_cache: store the mtime and the whole map, only when dirty. */
    method SaveCache()
      modifies store
      ensures store.records == if dirty then old(store.records)[CacheLocation() := Saved(mtime, cache)]
                               else old(store.records)
    {
      if dirty {
        store.records := store.records[CacheLocation() := Saved(mtime, cache)];
      }
    }

    /**
     * What a lookup of `args` under `key` answering `r` does: a hit answers the
     * stored value and changes nothing; a miss marks the cache dirty, resolves
     * through the override or else the catalog (constructing the parser on its
     * first use), stores the answer under the key and leaves every other entry
     * alone. A lookup keyed on its own argument list answers as Behaviour does.
     */
    twostate predicate LookedUp(key: Key, args: seq<Arg>, r: string)
      reads this
    {
      && Snapshot() == Step(old(Snapshot()), key, args, Sources()).state
      && r == Step(old(Snapshot()), key, args, Sources()).answer
      && loaded == old(loaded)
      && (key in old(cache) ==>
            && r == old(cache)[key] && cache == old(cache) && dirty == old(dirty)
            && upstreamBuilt == old(upstreamBuilt) && builds == old(builds) && consulted == old(consulted)
            && origin == old(origin))
      && (key !in old(cache) ==>
            && dirty && cache == old(cache)[key := r] && consulted == old(consulted) + [Request(key, args)]
            && origin == old(origin)[key := args]
            && r == Resolve(if override.Some? then override.value else catalog, args)
            && upstreamBuilt == (old(upstreamBuilt) || override.None?))
      && (key == Hash(args, domain) && !AsWrittenPluralShape(args) ==> r == Resolve(Behaviour(), args))
    }

    /** MO::get_translation: look `args` up under the key the caller computed. */
    method GetTranslation(key: Key, args: seq<Arg>) returns (r: string)
      requires Valid() && KeyedAsInSource(key, args, domain)
      modifies this
      ensures Valid()
      ensures LookedUp(key, args, r)
    {
      if key in cache {
        r := cache[key];
        return;
      }
      dirty := true;
      consulted := consulted + [Request(key, args)];
      origin := origin[key := args];
      if override.Some? {
        r := Resolve(override.value, args);
        cache := cache[key := r];
        return;
      }
      if !upstreamBuilt {
        upstreamBuilt := true;
        builds := builds + 1;
      }
      r := Resolve(catalog, args);
      cache := cache[key := r];
    }

    /** MO::translate: the key is the argument list exactly as passed. */
    method Translate(text: string, context: Option<Arg>) returns (r: string)
      requires Valid()
      modifies this
      ensures Valid()
      ensures LookedUp(Hash(TranslateArgs(text, context), domain), TranslateArgs(text, context), r)
      ensures r == Resolve(Behaviour(), TranslateArgs(text, context))
    {
      OwnArgsAreNotAsWrittenPluralShape(text, context, "", "", 0, None);
      r := GetTranslation(Hash(TranslateArgs(text, context), domain), TranslateArgs(text, context));
    }

    /**
     * MO::translate_plural as written: the key is [selected text, count,
     * context or null], the list passed on is the full argument list.
     */
    method TranslatePluralAsWritten(singular: string, plural: string, count: int, context: Option<Arg>)
      returns (r: string)
      requires Valid()
      modifies this
      ensures Valid()
      ensures LookedUp(PluralKeyAsWritten(singular, plural, count, context, domain),
                       PluralArgs(singular, plural, count, context), r)
    {
      PluralKeyAsWrittenShape(singular, plural, count, context, domain);
      r := GetTranslation(PluralKeyAsWritten(singular, plural, count, context, domain),
                          PluralArgs(singular, plural, count, context));
    }

    /**
     * MO::translate_plural corrected: keyed like translate on the argument list
     * as passed, so that the singular is part of the key
     * (see AsWrittenPluralKeyServesWrongEntry).
     */
    method TranslatePlural(singular: string, plural: string, count: int, context: Option<Arg>) returns (r: string)
      requires Valid()
      modifies this
      ensures Valid()
      ensures LookedUp(Hash(PluralArgs(singular, plural, count, context), domain),
                       PluralArgs(singular, plural, count, context), r)
      ensures r == Resolve(Behaviour(), PluralArgs(singular, plural, count, context))
    {
      OwnArgsAreNotAsWrittenPluralShape("", None, singular, plural, count, context);
      r := GetTranslation(Hash(PluralArgs(singular, plural, count, context), domain),
                          PluralArgs(singular, plural, count, context));
    }
  }

  /**
   * A flush followed by a new cache for the same catalog, domain and backend
   * (the next request of the site): the new cache starts from the flushed map
   * if the catalog has not changed since, and from nothing if it has.
   */
  method SaveThenReload(c: Controller, host: Host) returns (d: Controller)
    requires c.Valid() && c.dirty && host.homeUrl == c.home
    modifies c.store
    ensures fresh(d) && d.domain == c.domain && d.mofile == c.mofile && !d.dirty
    ensures host.filemtime(c.mofile) <= c.mtime ==> d.cache == c.cache
    ensures host.filemtime(c.mofile) > c.mtime ==> d.cache == map[]
  {
    c.SaveCache();
    SaveThenRestore(old(c.store.records), c.CacheLocation(), c.mtime, c.cache, host.filemtime(c.mofile));
    d := new Controller(c.mofile, c.domain, c.override, c.backend, host, c.store);
  }

  /** The same request twice: the second is a hit with the first's answer and changes nothing. */
  method TranslateTwice(c: Controller, text: string, context: Option<Arg>) returns (first: string, second: string)
    requires c.Valid()
    modifies c
    ensures c.Valid() && first == second
    ensures Hash(TranslateArgs(text, context), c.domain) in c.cache
    ensures c.consulted == old(c.consulted) +
      (if Hash(TranslateArgs(text, context), c.domain) in old(c.cache) then []
       else [Request(Hash(TranslateArgs(text, context), c.domain), TranslateArgs(text, context))])
  {
    first := c.Translate(text, context);
    ghost var between := c.Snapshot();
    ghost var consultedBetween := c.consulted;
    second := c.Translate(text, context);
    assert c.Snapshot() == between && c.consulted == consultedBetween;
  }

  /** A cache that never missed writes nothing when flushed. */
  method FlushClean(c: Controller)
    requires c.Valid() && c.consulted == []
    modifies c.store
    ensures c.store.records == old(c.store.records)
  {
    c.SaveCache();
  }

  /** An entry of `$l10n`: a cache installed by the hook, or a translator loaded some other way. */
  datatype Entry = Cache(mo: Controller) | Foreign(translator: Translator)

  /** What an entry answers when a newer cache consults it. */
  function TranslatorOf(e: Entry): Translator
    reads if e.Cache? then {e.mo} else {}
  {
    match e
    case Cache(mo) => mo.Behaviour()
    case Foreign(t) => t
  }

  /** The global `$l10n`: the translator of every text domain. */
  class Registry {
    var l10n: map<string, Entry>

    ghost function Caches(): set<Controller>
      reads this
    {
      set d | d in l10n && l10n[d].Cache? :: l10n[d].mo
    }

    ghost predicate Valid()
      reads this, Caches()
    {
      forall d :: d in l10n && l10n[d].Cache? ==> l10n[d].mo.domain == d && l10n[d].mo.Valid()
    }

    /** The registry before the hook ran: translators the host loaded itself. */
    constructor (loadedBefore: map<string, Translator>)
      ensures l10n == map d | d in loadedBefore :: Foreign(loadedBefore[d])
      ensures Valid()
    {
      l10n := map d | d in loadedBefore :: Foreign(loadedBefore[d]);
    }

    /**
     * The override_load_textdomain hook: decline when the catalog cannot be
     * read; otherwise install a new cache for the domain, on the object cache
     * when one is in use and on a temp file otherwise, whose override is the
     * domain's previous translator, if any.
     */
    method Override(domain: string, mofile: string, host: Host, store: Store) returns (handled: bool)
      requires Valid()
      modifies this
      ensures Valid()
      ensures handled == host.readable(mofile)
      ensures !handled ==> l10n == old(l10n)
      ensures handled ==>
        && domain in l10n && l10n[domain].Cache? && fresh(l10n[domain].mo)
        && l10n == old(l10n)[domain := l10n[domain]]
        && var mo := l10n[domain].mo;
        && mo.mofile == mofile && mo.store == store
        && mo.catalog == host.catalogOf(mofile) && mo.mtime == host.filemtime(mofile) && mo.home == host.homeUrl
        && mo.backend == (if host.extObjectCache then TransientBackend else FileBackend)
        && mo.override == (if domain in old(l10n) then Some(old(TranslatorOf(l10n[domain]))) else None)
        && !mo.dirty && !mo.upstreamBuilt && mo.consulted == [] && mo.Valid()
        && mo.cache == Restored(Get(store.records, mo.CacheLocation()), mo.mtime)
    {
      if !host.readable(mofile) {
        return false;
      }
      var backend := if host.extObjectCache then TransientBackend else FileBackend;
      var previous := if domain in l10n then Some(TranslatorOf(l10n[domain])) else None;
      var mo := new Controller(mofile, domain, previous, backend, host, store);
      l10n := l10n[domain := Cache(mo)];
      return true;
    }
  }

  /**
   * A domain loaded twice: a request the new cache has no entry for is passed
   * to the previous cache, which answers from the entries it adopted from storage.
   */
  method OverrideSeesAdoptedEntries(reg: Registry, domain: string, mofile: string, host: Host, store: Store,
                                    text: string) returns (r: string)
    requires reg.Valid() && domain in reg.l10n && reg.l10n[domain].Cache?
    requires host.readable(mofile)
    requires Hash(TranslateArgs(text, None), domain) in reg.l10n[domain].mo.loaded
    requires Hash(TranslateArgs(text, None), domain) !in
      Restored(Get(store.records, Location(if host.extObjectCache then TransientBackend else FileBackend,
                                           host.homeUrl, domain, mofile)), host.filemtime(mofile))
    modifies reg
    ensures r == old(reg.l10n[domain].mo.loaded[Hash(TranslateArgs(text, None), domain)])
  {
    var previous := reg.l10n[domain].mo;
    var handled := reg.Override(domain, mofile, host, store);
    var mo := reg.l10n[domain].mo;
    r := mo.Translate(text, None);
    mo.BehaviourAt(TranslateArgs(text, None));
    previous.BehaviourAt(TranslateArgs(text, None));
  }
}
