/**
 * The response cache: one JSON file per key in a cache directory, expiring
 * after a time-to-live.
 *
 * The directory is state: a map from file name to the file's text and its
 * modification time, in seconds. The location of the directory, the clock
 * and JSON (de)serialisation are parameters.
 */
module Cache {
  import opened Wrappers
  import opened Str

  /** Default time-to-live, in hours. */
  const CACHE_TTL_HOURS: nat := 24

  /** `Duration::from_secs(hours * 3600)`, in seconds. */
  function TtlSeconds(hours: nat): (secs: nat)
    ensures secs / 3600 == hours && secs % 3600 == 0
  {
    hours * 3600
  }

  /** The characters a cache key keeps: alphanumeric, `-` and `_`. */
  predicate IsSafeChar(ch: char)
  {
    IsAlphanumeric(ch) || ch == '-' || ch == '_'
  }

  predicate IsSafe(s: string)
  {
    forall i :: 0 <= i < |s| ==> IsSafeChar(s[i])
  }

  /** The key as a file name stem: every other character becomes `_`. */
  function SafeKey(key: string): (safe: string)
    ensures |safe| == |key|
    ensures IsSafe(safe)
  {
    seq(|key|, i requires 0 <= i < |key| => if IsSafeChar(key[i]) then key[i] else '_')
  }

  /** Safe characters stay where they are; every other position holds `_`. */
  lemma SafeKeySpec(key: string)
    ensures forall i :: 0 <= i < |key| ==> (IsSafeChar(key[i]) <==> SafeKey(key)[i] == key[i])
    ensures forall i :: 0 <= i < |key| && !IsSafeChar(key[i]) ==> SafeKey(key)[i] == '_'
  {
  }

  /** A safe key is its own sanitisation, so sanitising is idempotent. */
  lemma SafeKeyFixed(key: string)
    ensures IsSafe(key) <==> SafeKey(key) == key
    ensures SafeKey(SafeKey(key)) == SafeKey(key)
  {
    if SafeKey(key) == key {
      assert IsSafe(key);
    }
  }

  /** Keys that differ only where `_` stands against an unsafe character share a file. */
  lemma SafeKeyCollision(a: string, b: string)
    requires |a| == |b|
    requires forall i :: 0 <= i < |a| ==> a[i] == b[i] || (a[i] == '_' && !IsSafeChar(b[i]))
    ensures SafeKey(a) == SafeKey(b)
  {
  }

  /** The file name of a key: the safe key with the `.json` extension. */
  function FileName(key: string): string
  {
    SafeKey(key) + ".json"
  }

  /** `cache_path`: the file name joined onto the cache directory. */
  function CachePath(dir: string, key: string): string
  {
    PathJoin(dir, FileName(key))
  }

  /**
   * A key never leaves the cache directory: the path is the directory followed
   * by a name without `/` that ends with `.json`.
   */
  lemma CachePathInsideDir(dir: string, key: string)
    ensures StartsWith(CachePath(dir, key), dir)
    ensures EndsWith(CachePath(dir, key), FileName(key))
    ensures EndsWith(CachePath(dir, key), ".json")
    ensures forall i :: 0 <= i < |FileName(key)| ==> FileName(key)[i] != '/'
  {
    var name := FileName(key);
    assert name[|name| - 5..] == ".json";
    forall i | 0 <= i < |name|
      ensures name[i] != '/'
    {
      if i < |key| {
        assert name[i] == SafeKey(key)[i];
      } else {
        assert name[i] == ".json"[i - |key|];
      }
    }
    PathJoinRelative(dir, name);
    var path := CachePath(dir, key);
    EndsWithIff(path, name);
    EndsWithIff(path, ".json");
    assert path[|path| - |name|..] == name;
    assert path[|path| - 5..] == name[|name| - 5..];
  }

  /** A file of the directory: its text and its modification time, when the platform reports one. */
  datatype StoredFile = StoredFile(content: string, modified: Option<nat>)

  /**
   * Whether an entry is stale at time `now`: only when the modification
   * time is known and not in the future, and strictly more than the
   * time-to-live has passed since it.
   */
  predicate Expired(file: StoredFile, now: nat, ttl: nat)
  {
    file.modified.Some? && file.modified.value <= now && now - file.modified.value > ttl
  }

  /** The index of the last `.` of a name. */
  function LastDot(name: string): (r: Option<nat>)
    ensures r.Some? ==> r.value < |name| && name[r.value] == '.' && forall j :: r.value < j < |name| ==> name[j] != '.'
    ensures r.None? ==> forall j :: 0 <= j < |name| ==> name[j] != '.'
  {
    if name == [] then Option.None
    else if name[|name| - 1] == '.' then Some(|name| - 1)
    else LastDot(name[..|name| - 1])
  }

  /**
   * `Path::extension` of a file name: what follows the last `.`, unless the
   * name is `..`, has no `.`, or has nothing before its last `.`.
   */
  function Extension(name: string): Option<string>
  {
    if name == ".." then Option.None
    else match LastDot(name)
      case None => Option.None
      case Some(k) => if k == 0 then Option.None else Some(name[k + 1..])
  }

  predicate IsJsonFile(name: string)
  {
    Extension(name) == Some("json")
  }

  /** The file of every non-empty key carries the `json` extension. */
  lemma FileNameIsJson(key: string)
    requires key != []
    ensures IsJsonFile(FileName(key))
  {
    var name := FileName(key);
    assert name[|key|] == '.';
    forall j | |key| < j < |name|
      ensures name[j] != '.'
    {
      assert name[j] == ".json"[j - |key|];
    }
    assert LastDot(name) == Some(|key|);
    assert name[|key| + 1..] == "json";
  }

  /**
   * The empty key's file is `.json`, which has no extension: `clear` leaves
   * it in place.
   */
  lemma EmptyKeyNotJson()
    ensures FileName([]) == ".json"
    ensures !IsJsonFile(FileName([]))
  {
    var name := FileName([]);
    assert name == ".json";
    assert name[0] == '.' && forall j :: 0 < j < |name| ==> name[j] != '.';
    assert LastDot(name) == Some(0);
  }

  /** The entries `clear` keeps. */
  function WithoutJson(files: map<string, StoredFile>): (r: map<string, StoredFile>)
    ensures forall n :: n in r <==> n in files && !IsJsonFile(n)
    ensures forall n :: n in r ==> r[n] == files[n]
  {
    map n | n in files && !IsJsonFile(n) :: files[n]
  }

  class Cache {
    const dir: string
    /** Time-to-live in seconds. */
    const ttl: nat
    /** The files of the cache directory, by name. */
    var files: map<string, StoredFile>

    /** `Cache::new`: the default time-to-live of 24 hours, over the directory's present files. */
    constructor (dir: string, files: map<string, StoredFile>)
      ensures this.dir == dir && this.files == files
      ensures ttl == TtlSeconds(CACHE_TTL_HOURS) && ttl == 86400
    {
      this.dir := dir;
      this.ttl := TtlSeconds(CACHE_TTL_HOURS);
      this.files := files;
    }

    /** `Cache::with_ttl_hours`. */
    constructor WithTtlHours(dir: string, hours: nat, files: map<string, StoredFile>)
      ensures this.dir == dir && this.files == files
      ensures ttl == TtlSeconds(hours)
    {
      this.dir := dir;
      this.ttl := TtlSeconds(hours);
      this.files := files;
    }

    /**
     * `get` at time `now`: no file, no value; an expired file is removed and
     * gives no value; otherwise the decoded text of the file.
     */
    method Get<T>(key: string, now: nat, decode: string -> Option<T>) returns (r: Option<T>)
      modifies this
      ensures var name := FileName(key);
        && (name !in old(files) ==> r.None? && files == old(files))
        && (name in old(files) && Expired(old(files)[name], now, ttl) ==> r.None? && files == old(files) - {name})
        && (name in old(files) && !Expired(old(files)[name], now, ttl) ==>
              r == decode(old(files)[name].content) && files == old(files))
    {
      var name := FileName(key);
      if name !in files {
        return Option.None;
      }
      var file := files[name];
      if file.modified.Some? && file.modified.value <= now {
        var elapsed := now - file.modified.value;
        if elapsed > ttl {
          files := files - {name};
          return Option.None;
        }
      }
      r := decode(file.content);
    }

    /** `set` at time `now`: the key's file holds the encoded value, written now; no other file changes. */
    method Set(key: string, content: string, now: nat)
      modifies this
      ensures files == old(files)[FileName(key) := StoredFile(content, Some(now))]
    {
      files := files[FileName(key) := StoredFile(content, Some(now))];
    }

    /** `clear`: every file with the `json` extension is removed, one directory entry at a time. */
    method Clear()
      modifies this
      ensures files == WithoutJson(old(files))
    {
      ghost var start := files;
      var pending := files.Keys;
      while pending != {}
        invariant pending <= start.Keys
        invariant forall n :: n in files <==> n in start && (n in pending || !IsJsonFile(n))
        invariant forall n :: n in files ==> files[n] == start[n]
        decreases pending
      {
        var n :| n in pending;
        if IsJsonFile(n) {
          files := files - {n};
        }
        pending := pending - {n};
      }
    }
  }

  /**
   * After `set` at time `t`, `get` of the same key at `now` finds the value
   * iff at most the time-to-live has passed; any other key's file is as
   * before.
   */
  lemma SetThenGet(files: map<string, StoredFile>, key: string, other: string, content: string, t: nat, now: nat, ttl: nat)
    requires t <= now
    requires FileName(other) != FileName(key)
    ensures var after := files[FileName(key) := StoredFile(content, Some(t))];
      && FileName(key) in after
      && (Expired(after[FileName(key)], now, ttl) <==> now - t > ttl)
      && after[FileName(key)].content == content
      && (FileName(other) in after <==> FileName(other) in files)
      && (FileName(other) in files ==> after[FileName(other)] == files[FileName(other)])
  {
  }

  /** A file written at `t` is never stale before `t + ttl`, and always stale after. */
  lemma ExpiryBoundary(content: string, t: nat, now: nat, ttl: nat)
    ensures now <= t + ttl ==> !Expired(StoredFile(content, Some(t)), now, ttl)
    ensures now > t + ttl ==> Expired(StoredFile(content, Some(t)), now, ttl)
    ensures !Expired(StoredFile(content, Option.None), now, ttl)
  {
  }

  /** After `clear`, no non-empty key has a file, and the empty key's file survives. */
  lemma ClearForgetsKeys(files: map<string, StoredFile>, key: string)
    ensures key != [] ==> FileName(key) !in WithoutJson(files)
    ensures key == [] && FileName(key) in files ==> FileName(key) in WithoutJson(files)
  {
    if key != [] {
      FileNameIsJson(key);
    } else {
      EmptyKeyNotJson();
    }
  }
}
