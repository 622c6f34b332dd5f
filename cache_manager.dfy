/**
 * The pickle cache: a flat directory of files `cache_dir/<key>.pkl`. The
 * directory is a map from file path to entry; an entry that cannot be
 * unpickled is Unreadable.
 */
module CacheManagement {
  import opened Wrappers
  import opened Text
  import opened Paths

  datatype Entry<V> = Stored(value: V) | Unreadable

  /** What loading the file at `path` yields: its value, or None for a missing or unreadable file. */
  function Lookup<V>(files: map<string, Entry<V>>, path: string): Option<V>
  {
    if path in files && files[path].Stored? then Some(files[path].value) else None
  }

  /** The directory after dumping `value` to `path`; a failed dump leaves it as it was. */
  function Written<V>(files: map<string, Entry<V>>, path: string, value: V, ok: bool): map<string, Entry<V>>
  {
    if ok then files[path := Stored(value)] else files
  }

  class CacheManager<V> {
    const cacheDir: string
    var files: map<string, Entry<V>>

    /** Creating the directory is I/O; the model starts from whatever it already holds. */
    constructor (cacheDir: string, files: map<string, Entry<V>>)
      ensures this.cacheDir == cacheDir && this.files == files
    {
      this.cacheDir := cacheDir;
      this.files := files;
    }

    /** `cache_dir/<key>.pkl`. */
    function GetCachePath(key: string): (p: string)
      ensures EndsWith(p, key + ".pkl")
      ensures !IsAbsolute(key) ==> InDirectory(p, cacheDir, key + ".pkl")
    {
      Join(cacheDir, key + ".pkl")
    }

    /** A miss, and a file that fails to load, both read as None; nothing is raised. */
    method Get(key: string) returns (v: Option<V>)
      ensures v == Lookup(files, GetCachePath(key))
      ensures GetCachePath(key) !in files ==> v == None
      ensures GetCachePath(key) in files && files[GetCachePath(key)].Unreadable? ==> v == None
    {
      var path := GetCachePath(key);
      if path in files {
        match files[path]
        case Stored(x) =>
          v := Some(x);
        case Unreadable =>
          v := None;
      } else {
        v := None;
      }
    }

    /** Dumps `value` under `key`; `ok` is false when the dump fails, which is swallowed. */
    method Set(key: string, value: V, ok: bool)
      modifies this
      ensures files == Written(old(files), GetCachePath(key), value, ok)
    {
      var path := GetCachePath(key);
      if ok {
        files := files[path := Stored(value)];
      }
    }
  }

  /**
   * Distinct keys have distinct files, as long as no key starts with '/'
   * (such a key makes `os.path.join` drop the cache directory).
   */
  lemma CachePathInjective<V>(c: CacheManager<V>, k1: string, k2: string)
    requires !IsAbsolute(k1) && !IsAbsolute(k2)
    ensures c.GetCachePath(k1) == c.GetCachePath(k2) <==> k1 == k2
  {
    if c.GetCachePath(k1) == c.GetCachePath(k2) {
      JoinInjective(c.cacheDir, k1 + ".pkl", k2 + ".pkl");
      assert k1 == (k1 + ".pkl")[..|k1|];
      assert k2 == (k2 + ".pkl")[..|k2|];
    }
  }

  /** After a successful `set(k, v)`, `get(k)` returns `v`. */
  lemma SetThenGet<V>(c: CacheManager<V>, files: map<string, Entry<V>>, k: string, v: V)
    ensures Lookup(Written(files, c.GetCachePath(k), v, true), c.GetCachePath(k)) == Some(v)
  {
  }

  /** `set(k, v)` touches the file of `k` only: every other key reads as before. */
  lemma SetKeepsOtherKeys<V>(c: CacheManager<V>, files: map<string, Entry<V>>, k: string, other: string, v: V, ok: bool)
    requires !IsAbsolute(k) && !IsAbsolute(other) && k != other
    ensures Lookup(Written(files, c.GetCachePath(k), v, ok), c.GetCachePath(other)) == Lookup(files, c.GetCachePath(other))
  {
    CachePathInjective(c, k, other);
  }

  /** A second `set` on a key replaces the first. */
  lemma SetReplaces<V>(c: CacheManager<V>, files: map<string, Entry<V>>, k: string, v1: V, v2: V)
    ensures Written(Written(files, c.GetCachePath(k), v1, true), c.GetCachePath(k), v2, true)
            == Written(files, c.GetCachePath(k), v2, true)
  {
    var p := c.GetCachePath(k);
    assert files[p := Stored(v1)][p := Stored(v2)] == files[p := Stored(v2)];
  }

  /** A failed `set` changes nothing. */
  lemma FailedSetChangesNothing<V>(c: CacheManager<V>, files: map<string, Entry<V>>, k: string, v: V)
    ensures Written(files, c.GetCachePath(k), v, false) == files
  {
  }
}
