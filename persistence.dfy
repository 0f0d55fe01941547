/**
 * The two persistence backends of the translation cache (MOFile and
 * MOTransient in mo-cache.php): where a cache is stored, the record stored
 * there, and when a stored record is adopted.
 */
module Persistence {
  import opened Wrappers
  import opened Keys

  /** MOFile keeps the cache in a temp file, MOTransient in a transient of the object cache. */
  datatype Backend = FileBackend | TransientBackend

  /**
   * Where a cache lives. A temp file is named after the site's home URL, the
   * domain and the catalog path; a transient after the catalog path alone.
   * The two constructors keep the file system and the object cache apart.
   */
  datatype StoreKey = FileKey(home: string, domain: string, mofile: string) | TransientKey(mofile: string)

  /** A persisted cache: `$_mtime` and `$_cache` of a cache file, or `mtime` and `cache` of a transient. */
  datatype Record = Record(mtime: Option<int>, cache: map<Key, string>)

  /** The records of the temp directory and of the object cache, shared by every cache of the site. */
  class Store {
    var records: map<StoreKey, Record>

    constructor (records: map<StoreKey, Record>)
      ensures this.records == records
    {
      this.records := records;
    }
  }

  function Location(backend: Backend, home: string, domain: string, mofile: string): StoreKey
  {
    match backend
    case FileBackend => FileKey(home, domain, mofile)
    case TransientBackend => TransientKey(mofile)
  }

  /** Caches of two domains on one catalog path share one transient, but never one cache file. */
  lemma LocationScope(home: string, domain1: string, domain2: string, mofile: string)
    ensures Location(TransientBackend, home, domain1, mofile) == Location(TransientBackend, home, domain2, mofile)
    ensures domain1 != domain2 ==> Location(FileBackend, home, domain1, mofile) != Location(FileBackend, home, domain2, mofile)
  {
  }

  /** MOFile's test on an included cache file: no `$_mtime`, or one older than the catalog. */
  predicate FileRejects(rec: Record, mtime: int)
  {
    rec.mtime.None? || (rec.mtime.Some? && rec.mtime.value < mtime)
  }

  /** MOTransient's test on the transient it read: none at all, no `mtime`, or a catalog newer than it. */
  predicate TransientRejects(data: Option<Record>, mtime: int)
  {
    data.None? || data.value.mtime.None? || mtime > data.value.mtime.value
  }

  /** A record is valid for a catalog when it carries an mtime no older than the catalog's. */
  predicate Usable(rec: Record, mtime: int)
  {
    rec.mtime.Some? && rec.mtime.value >= mtime
  }

  /** Both backends reject exactly the records that are not valid for the catalog. */
  lemma BackendsAgreeOnStaleness(rec: Record, mtime: int)
    ensures FileRejects(rec, mtime) <==> !Usable(rec, mtime)
    ensures TransientRejects(Some(rec), mtime) <==> !Usable(rec, mtime)
  {
  }

  /** The map a fresh cache starts from: the stored one when it is still valid, the empty one otherwise. */
  function Restored(data: Option<Record>, mtime: int): map<Key, string>
  {
    if data.Some? && Usable(data.value, mtime) then data.value.cache else map[]
  }

  /** What save_cache stores: this cache's catalog mtime and all of its entries. */
  function Saved(mtime: int, cache: map<Key, string>): (rec: Record)
    ensures rec.mtime == Some(mtime) && rec.cache == cache
    ensures Usable(rec, mtime)
  {
    Record(Some(mtime), cache)
  }

  /**
   * Saving and then loading at the same location gives back the saved map when
   * the catalog is no newer than at the save, and the empty map when it is.
   */
  lemma SaveThenRestore(records: map<StoreKey, Record>, at: StoreKey, saveMtime: int,
                        cache: map<Key, string>, loadMtime: int)
    ensures loadMtime <= saveMtime ==> Restored(Get(records[at := Saved(saveMtime, cache)], at), loadMtime) == cache
    ensures loadMtime > saveMtime ==> Restored(Get(records[at := Saved(saveMtime, cache)], at), loadMtime) == map[]
  {
  }

  /** A stale record, or one without an mtime, yields the empty map whatever it holds. */
  lemma StaleRecordIsDiscarded(rec: Record, mtime: int)
    requires rec.mtime.None? || rec.mtime.value < mtime
    ensures Restored(Some(rec), mtime) == map[]
  {
  }
}
