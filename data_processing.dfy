/**
 * `DataProcessor`: picks the data file, loads it through the pickle cache,
 * normalises the table and derives the station (`cidades`) and year
 * (`anos`) lists the dashboard offers.
 */
module DataProcessing {
  import opened Wrappers
  import opened Seqs
  import opened Text
  import opened Paths
  import opened Tables
  import opened CacheManagement

  /** Rows of later years are dropped. */
  const LastYear := 2023

  const CacheKeyPrefix := "temp_data_"

  /** DATA_DIR and PROCESSED_DIR. */
  datatype Config = Config(dataDir: string, processedDir: string)

  /**
   * A data file: its modification time, and what each reader returns for
   * it (None where `pd.read_parquet` or `pd.read_excel` raises).
   */
  datatype SourceFile = SourceFile(mtime: int, asParquet: Option<Table>, asExcel: Option<Table>)

  /** The file `load_data` starts from, and whether it is read as Parquet. */
  datatype Source = Source(path: string, parquet: bool)

  function ParquetPath(config: Config): string
  {
    Join(config.processedDir, "temp.parquet")
  }

  function DefaultExcelPath(config: Config): string
  {
    Join(config.dataDir, "temp.xlsx")
  }

  /**
   * The pre-converted Parquet file when it exists; otherwise the caller's
   * path, or the default spreadsheet when the caller gave none (Python's
   * `or` also treats "" as none).
   */
  function ChooseSource(filePath: Option<string>, config: Config, existing: set<string>): (s: Source)
    ensures s.parquet <==> ParquetPath(config) in existing
    ensures s.parquet ==> s.path == ParquetPath(config)
    ensures !s.parquet && filePath.Some? && filePath.value != "" ==> s.path == filePath.value
    ensures !s.parquet && (filePath == None || filePath == Some("")) ==> s.path == DefaultExcelPath(config)
  {
    var excel := if filePath.Some? && filePath.value != "" then filePath.value else DefaultExcelPath(config);
    if ParquetPath(config) in existing then Source(ParquetPath(config), true) else Source(excel, false)
  }

  /**
   * The file `load_data` reads: `path` itself, else the file of the same
   * name in DATA_DIR, else none.
   */
  function ResolveSource(path: string, dataDir: string, existing: set<string>): (r: Option<string>)
    ensures r.Some? ==> r.value in existing
    ensures path in existing ==> r == Some(path)
    ensures r.Some? && r.value != path ==>
              r.value == Join(dataDir, Basename(path)) && Basename(r.value) == Basename(path)
    ensures r.None? <==> path !in existing && Join(dataDir, Basename(path)) !in existing
  {
    BasenameOfJoin(dataDir, Basename(path));
    if path in existing then Some(path)
    else
      var alt := Join(dataDir, Basename(path));
      if alt in existing then Some(alt) else None
  }

  /** `f"temp_data_{mtime}"`: the key names the modification time it was made from. */
  function CacheKey(mtime: int): (k: string)
    ensures StartsWith(k, CacheKeyPrefix)
    ensures MtimeOfKey(k) == Some(mtime)
    ensures !IsAbsolute(k)
  {
    var k := CacheKeyPrefix + IntToString(mtime);
    IntToStringRoundTrip(mtime);
    assert k[|CacheKeyPrefix|..] == IntToString(mtime);
    k
  }

  /** The modification time a cache key was made from; None for any other name. */
  function MtimeOfKey(k: string): Option<int>
  {
    if StartsWith(k, CacheKeyPrefix) then ParseInt(k[|CacheKeyPrefix|..]) else None
  }

  /** A changed modification time gives a different key, so a stale entry is never read. */
  lemma CacheKeyInjective(a: int, b: int)
    ensures CacheKey(a) == CacheKey(b) <==> a == b
  {
  }

  /** What the reader chosen by `parquet` returns for the file. */
  function ReadWith(f: SourceFile, parquet: bool): Option<Table>
  {
    if parquet then f.asParquet else f.asExcel
  }

  /** How `load_data` obtains the table it normalises. */
  datatype Fetch = NotFound | ReadFailed(path: string) | Got(path: string, key: string, raw: Table)

  /**
   * The first half of `load_data`: resolve the file, look its key up in
   * the cache, and read the file only on a miss.
   */
  function FetchRaw(filePath: string, parquet: bool, config: Config, cache: CacheManager<Table>,
                    files: map<string, Entry<Table>>, disk: map<string, SourceFile>): (f: Fetch)
    ensures f.NotFound? <==> ResolveSource(filePath, config.dataDir, disk.Keys).None?
    ensures !f.NotFound? ==> f.path == ResolveSource(filePath, config.dataDir, disk.Keys).value && f.path in disk
    ensures f.Got? ==> f.key == CacheKey(disk[f.path].mtime)
    ensures f.Got? && Lookup(files, cache.GetCachePath(f.key)).Some? ==>
              f.raw == Lookup(files, cache.GetCachePath(f.key)).value
    ensures !f.NotFound? && Lookup(files, cache.GetCachePath(CacheKey(disk[f.path].mtime))).Some? ==> f.Got?
    ensures !f.NotFound? && Lookup(files, cache.GetCachePath(CacheKey(disk[f.path].mtime))).None? ==>
              (f.Got? <==> ReadWith(disk[f.path], parquet).Some?) &&
              (f.Got? ==> f.raw == ReadWith(disk[f.path], parquet).value)
  {
    match ResolveSource(filePath, config.dataDir, disk.Keys)
    case None => NotFound
    case Some(p) =>
      // `load_data`'s `else 0` guard never applies: a resolved file exists.
      var key := CacheKey(disk[p].mtime);
      match Lookup(files, cache.GetCachePath(key))
      case Some(t) => Got(p, key, t)
      case None =>
        match ReadWith(disk[p], parquet)
        case Some(t) => Got(p, key, t)
        case None => ReadFailed(p)
  }

  // Normalisation, one pandas step per function.

  /** `year` is rebuilt from the `index` date when the column is absent or has a gap. */
  predicate NeedsDerivedYear(t: Table)
  {
    "index" in t.columns && ("year" !in t.columns || exists i :: 0 <= i < |t.rows| && t.rows[i].year.None?)
  }

  /** `.dt.year`: NaT gives NaN. */
  function DateYear(d: Option<Date>): Option<int>
  {
    if d.Some? then Some(d.value.year) else None
  }

  function WithDerivedYear(t: Table): (d: Table)
    ensures d.columns == if "index" in t.columns then t.columns + {"year"} else t.columns
    ensures |d.rows| == |t.rows|
    ensures NeedsDerivedYear(t) ==> forall r :: r in d.rows ==> r.year == DateYear(r.index)
    ensures !NeedsDerivedYear(t) ==> d == t
    ensures forall i :: 0 <= i < |t.rows| ==> d.rows[i] == t.rows[i].(year := d.rows[i].year)
  {
    if NeedsDerivedYear(t) then
      Table(t.columns + {"year"},
            seq(|t.rows|, i requires 0 <= i < |t.rows| => t.rows[i].(year := DateYear(t.rows[i].index))))
    else t
  }

  /** `astype(str)`: a missing name becomes the text "nan". */
  function CityText(c: Option<string>): (text: string)
    ensures c.Some? ==> text == c.value
    ensures text == "nan" <==> c == None || c == Some("nan")
  {
    if c.Some? then c.value else "nan"
  }

  function CleanCity(r: Row): Row
  {
    r.(cidade := Some(Strip(CityText(r.cidade))))
  }

  predicate NamedCity(r: Row)
  {
    r.cidade != Some("nan")
  }

  function CleanCities(rows: seq<Row>): (c: seq<Row>)
    ensures |c| == |rows|
    ensures forall r :: r in c ==> r.cidade.Some? && IsStripped(r.cidade.value)
    ensures forall i :: 0 <= i < |rows| ==> c[i].year == rows[i].year && c[i].index == rows[i].index
    ensures forall i :: 0 <= i < |rows| ==> c[i] == rows[i].(cidade := Some(Strip(CityText(rows[i].cidade))))
  {
    seq(|rows|, i requires 0 <= i < |rows| => CleanCity(rows[i]))
  }

  function WithCleanCities(t: Table): (c: Table)
    ensures c.columns == t.columns && |c.rows| <= |t.rows|
    ensures "cidade" in t.columns ==>
              forall r :: r in c.rows ==> r.cidade.Some? && IsStripped(r.cidade.value) && r.cidade.value != "nan"
    ensures (forall r :: r in t.rows ==> r.year == DateYear(r.index)) ==>
              forall r :: r in c.rows ==> r.year == DateYear(r.index)
    ensures "cidade" in t.columns ==> forall r :: r in c.rows <==> r in CleanCities(t.rows) && NamedCity(r)
    ensures "cidade" !in t.columns ==> c == t
  {
    if "cidade" in t.columns then t.(rows := Filter(NamedCity, CleanCities(t.rows))) else t
  }

  predicate HasYear(r: Row)
  {
    r.year.Some?
  }

  function WithKnownYears(t: Table): (k: Table)
    ensures k.columns == t.columns && |k.rows| <= |t.rows|
    ensures forall r :: r in k.rows ==> r in t.rows
    ensures "year" in t.columns ==> forall r :: r in k.rows <==> r in t.rows && HasYear(r)
    ensures "year" !in t.columns ==> k == t
  {
    if "year" in t.columns then t.(rows := Filter(HasYear, t.rows)) else t
  }

  /** `year <= 2023`; NaN compares false. */
  predicate NotAfterLastYear(r: Row)
  {
    r.year.Some? && r.year.value <= LastYear
  }

  function UpToLastYear(t: Table): (u: Table)
    ensures u.columns == t.columns && |u.rows| <= |t.rows|
    ensures forall r :: r in u.rows ==> r in t.rows
    ensures "year" in t.columns ==> forall r :: r in u.rows <==> r in t.rows && NotAfterLastYear(r)
    ensures "year" !in t.columns ==> u == t
  {
    if "year" in t.columns then t.(rows := Filter(NotAfterLastYear, t.rows)) else t
  }

  /** The whole normalisation of `load_data`. */
  function Normalize(t: Table): (n: Table)
    ensures n.columns == if "index" in t.columns then t.columns + {"year"} else t.columns
    ensures |n.rows| <= |t.rows|
    ensures "cidade" in t.columns ==>
              forall r :: r in n.rows ==> r.cidade.Some? && IsStripped(r.cidade.value) && r.cidade.value != "nan"
    ensures "year" in n.columns ==>
              forall r :: r in n.rows ==> r.year.Some? && r.year.value <= LastYear
    ensures NeedsDerivedYear(t) ==>
              forall r :: r in n.rows ==> r.index.Some? && r.year == Some(r.index.value.year)
  {
    var d := WithDerivedYear(t);
    var c := WithCleanCities(d);
    var k := WithKnownYears(c);
    UpToLastYear(k)
  }

  /** The row tests of the three masks. */
  predicate Kept(columns: set<string>, r: Row)
  {
    && ("cidade" in columns ==> NamedCity(r))
    && ("year" in columns ==> NotAfterLastYear(r))
  }

  /**
   * The masks applied one after another keep exactly the rows, in their
   * order, that pass all of them after the year and city columns are fixed.
   */
  lemma NormalizeIsOneFilter(t: Table)
    ensures var d := WithDerivedYear(t);
            var fixed := if "cidade" in d.columns then CleanCities(d.rows) else d.rows;
            Normalize(t).rows == Filter(r => Kept(d.columns, r), fixed)
  {
    var d := WithDerivedYear(t);
    var fixed := if "cidade" in d.columns then CleanCities(d.rows) else d.rows;
    var kept := (r: Row) => Kept(d.columns, r);
    var c := WithCleanCities(d);
    var k := WithKnownYears(c);
    if "cidade" in d.columns {
      assert c.rows == Filter(NamedCity, fixed);
      if "year" in d.columns {
        var namedWithYear := (r: Row) => NamedCity(r) && HasYear(r);
        FilterFuse(NamedCity, HasYear, namedWithYear, fixed);
        assert k.rows == Filter(namedWithYear, fixed);
        FilterFuse(namedWithYear, NotAfterLastYear, kept, fixed);
      } else {
        FilterCongruent(NamedCity, kept, fixed);
      }
    } else {
      if "year" in d.columns {
        FilterFuse(HasYear, NotAfterLastYear, kept, fixed);
      } else {
        FilterKeepsAll(kept, fixed);
      }
    }
  }

  /**
   * A normalised table is its own normalisation. A cache hit normalises the
   * stored, already normalised table again; this is why it changes nothing.
   */
  lemma NormalizeIdempotent(t: Table)
    ensures Normalize(Normalize(t)) == Normalize(t)
  {
    var n := Normalize(t);
    assert !NeedsDerivedYear(n);
    assert WithDerivedYear(n) == n;
    CleanCitiesOfNormalized(t);
    assert WithCleanCities(n) == n;
    if "year" in n.columns {
      FilterKeepsAll(HasYear, n.rows);
      FilterKeepsAll(NotAfterLastYear, n.rows);
    }
  }

  /** Cleaning the cities of a normalised table changes no row and drops none. */
  lemma CleanCitiesOfNormalized(t: Table)
    ensures var n := Normalize(t);
            "cidade" in n.columns ==> Filter(NamedCity, CleanCities(n.rows)) == n.rows
  {
    var n := Normalize(t);
    if "cidade" in n.columns {
      CleanCitiesKeepsClean(n.rows);
      FilterKeepsAll(NamedCity, n.rows);
    }
  }

  lemma CleanCitiesKeepsClean(rows: seq<Row>)
    requires forall r :: r in rows ==> r.cidade.Some? && IsStripped(r.cidade.value)
    ensures CleanCities(rows) == rows
  {
    forall i | 0 <= i < |rows| ensures CleanCity(rows[i]) == rows[i] {
      assert rows[i] in rows;
    }
  }

  function CityColumn(rows: seq<Row>): seq<string>
  {
    seq(|rows|, i requires 0 <= i < |rows| => CityText(rows[i].cidade))
  }

  /** `sorted(df["cidade"].unique())`, or [] without the column. */
  function Cities(t: Table): (cs: seq<string>)
    ensures StrictlyIncreasing(LexLess, cs)
    ensures "cidade" !in t.columns ==> cs == []
    ensures "cidade" in t.columns ==>
              forall c :: c in cs <==> exists r :: r in t.rows && CityText(r.cidade) == c
  {
    if "cidade" in t.columns then
      LexLessIsStrictTotalOrder();
      var column := CityColumn(t.rows);
      assert forall c :: c in column <==> exists r :: r in t.rows && CityText(r.cidade) == c by {
        forall c | c in column ensures exists r :: r in t.rows && CityText(r.cidade) == c {
          var i :| 0 <= i < |column| && column[i] == c;
          assert t.rows[i] in t.rows;
        }
        forall c | (exists r :: r in t.rows && CityText(r.cidade) == c) ensures c in column {
          var r :| r in t.rows && CityText(r.cidade) == c;
          var i :| 0 <= i < |t.rows| && t.rows[i] == r;
          assert column[i] == c;
        }
      }
      SortedDistinct(LexLess, column)
    else []
  }

  function IntLess(a: int, b: int): bool
  {
    a < b
  }

  /** The non-missing years, in row order. */
  function YearColumn(rows: seq<Row>): seq<int>
  {
    var known := Filter(HasYear, rows);
    seq(|known|, i requires 0 <= i < |known| => assert known[i] in known; known[i].year.value)
  }

  /** `sorted(int(x) for x in df["year"].unique() if pd.notna(x))`, or [] without the column. */
  function Years(t: Table): (ys: seq<int>)
    ensures StrictlyIncreasing(IntLess, ys)
    ensures "year" !in t.columns ==> ys == []
    ensures "year" in t.columns ==> forall y :: y in ys <==> exists r :: r in t.rows && r.year == Some(y)
  {
    if "year" in t.columns then
      var column := YearColumn(t.rows);
      assert forall y :: y in column <==> exists r :: r in t.rows && r.year == Some(y) by {
        var known := Filter(HasYear, t.rows);
        forall y | y in column ensures exists r :: r in t.rows && r.year == Some(y) {
          var i :| 0 <= i < |column| && column[i] == y;
          assert known[i] in known;
        }
        forall y | (exists r :: r in t.rows && r.year == Some(y)) ensures y in column {
          var r :| r in t.rows && r.year == Some(y);
          assert r in known;
          var i :| 0 <= i < |known| && known[i] == r;
          assert column[i] == y;
        }
      }
      SortedDistinct(IntLess, column)
    else []
  }

  class DataProcessor {
    const config: Config
    const cache: CacheManager<Table>
    var filePath: string
    var useParquet: bool
    var df: Option<Table>
    var cidades: seq<string>
    var anos: seq<int>

    /**
     * `DataProcessor(file_path)`: choose the source, start from no table and
     * empty lists, then `load_data()`.
     */
    constructor (filePath: Option<string>, config: Config, cache: CacheManager<Table>,
                 disk: map<string, SourceFile>, writeOk: bool)
      modifies cache
      ensures this.config == config && this.cache == cache
      ensures useParquet == ChooseSource(filePath, config, disk.Keys).parquet
      ensures var s := ChooseSource(filePath, config, disk.Keys);
              var f := FetchRaw(s.path, s.parquet, config, cache, old(cache.files), disk);
              && (f.NotFound? ==> this.filePath == s.path)
              && (!f.NotFound? ==> this.filePath == f.path)
              && (!f.Got? ==> df == None && cidades == [] && anos == [] && cache.files == old(cache.files))
              && (f.Got? ==> Loaded(Normalize(f.raw)) && cache.files == Written(old(cache.files), cache.GetCachePath(f.key), Normalize(f.raw), writeOk))
    {
      var source := ChooseSource(filePath, config, disk.Keys);
      this.config := config;
      this.cache := cache;
      this.filePath := source.path;
      useParquet := source.parquet;
      df := None;
      cidades := [];
      anos := [];
      new;
      var loaded := LoadData(disk, writeOk);
    }

    /** The fields hold `t` and the lists derived from it. */
    ghost predicate Loaded(t: Table)
      reads this
    {
      df == Some(t) && cidades == Cities(t) && anos == Years(t)
    }

    /** The first step of `load_data`: a missing file falls back to the file of the same name in DATA_DIR. */
    method Locate(existing: set<string>) returns (found: bool)
      modifies this`filePath
      ensures found <==> ResolveSource(old(filePath), config.dataDir, existing).Some?
      ensures found ==> filePath == ResolveSource(old(filePath), config.dataDir, existing).value
      ensures !found ==> filePath == old(filePath)
    {
      found := true;
      if filePath !in existing {
        var alt := Join(config.dataDir, Basename(filePath));
        if alt in existing {
          filePath := alt;
        } else {
          found := false;
        }
      }
    }

    /**
     * The cache lookup of `load_data`: the cached table under the file's key, or
     * on a miss what the reader returns (None when it raises).
     */
    method Fetch(disk: map<string, SourceFile>) returns (raw: Option<Table>, key: string)
      requires filePath in disk
      ensures key == CacheKey(disk[filePath].mtime)
      ensures Lookup(cache.files, cache.GetCachePath(key)).Some? ==> raw == Lookup(cache.files, cache.GetCachePath(key))
      ensures Lookup(cache.files, cache.GetCachePath(key)).None? ==> raw == ReadWith(disk[filePath], useParquet)
    {
      key := CacheKey(disk[filePath].mtime);
      var cached := cache.Get(key);
      if cached.Some? {
        raw := cached;
      } else {
        raw := ReadWith(disk[filePath], useParquet);
      }
    }

    /** The last step of `load_data`: install the table and its lists, then write it back. */
    method Install(t: Table, key: string, writeOk: bool)
      modifies this`df, this`cidades, this`anos, cache
      ensures Loaded(t)
      ensures cache.files == Written(old(cache.files), cache.GetCachePath(key), t, writeOk)
    {
      df := Some(t);
      cidades := Cities(t);
      anos := Years(t);
      cache.Set(key, t, writeOk);
    }

    /**
     * `load_data()`. A missing file and a reader that raises both give an
     * empty table and leave the fields as they were (except `file_path`,
     * already moved to DATA_DIR); otherwise the normalised table is
     * installed, its lists derived, and it is written back to the cache.
     */
    method LoadData(disk: map<string, SourceFile>, writeOk: bool) returns (result: Table)
      modifies this, cache
      ensures useParquet == old(useParquet)
      ensures var f := FetchRaw(old(filePath), useParquet, config, cache, old(cache.files), disk);
              && (f.NotFound? ==> filePath == old(filePath))
              && (!f.NotFound? ==> filePath == f.path)
              && (!f.Got? ==> result == EmptyTable && df == old(df) && cidades == old(cidades) && anos == old(anos)
                               && cache.files == old(cache.files))
              && (f.Got? ==> result == Normalize(f.raw) && Loaded(result)
                             && cache.files == Written(old(cache.files), cache.GetCachePath(f.key), result, writeOk))
    {
      ghost var f := FetchRaw(filePath, useParquet, config, cache, cache.files, disk);
      ghost var resolved := ResolveSource(filePath, config.dataDir, disk.Keys);
      var found := Locate(disk.Keys);
      if !found {
        assert f.NotFound?;
        return EmptyTable;
      }
      assert resolved == Some(filePath) && filePath in disk;
      var raw, key := Fetch(disk);
      if raw.None? {
        assert f == ReadFailed(filePath);
        return EmptyTable;
      }
      assert f == Got(filePath, key, raw.value);
      result := NormaliseStepByStep(raw.value);
      Install(result, key, writeOk);
    }
  }

  /** The normalisation of `load_data`, one pandas step after another, reassigning the table. */
  method NormaliseStepByStep(raw: Table) returns (t: Table)
    ensures t == Normalize(raw)
  {
    t := WithDerivedYear(raw);
    t := WithCleanCities(t);
    t := WithKnownYears(t);
    t := UpToLastYear(t);
  }

  /**
   * A load that wrote its table back is followed by a load that hits the
   * cache, skips the file and installs the same table and lists.
   */
  lemma SecondLoadHitsCache(filePath: string, parquet: bool, config: Config, cache: CacheManager<Table>,
                            files: map<string, Entry<Table>>, disk: map<string, SourceFile>)
    requires FetchRaw(filePath, parquet, config, cache, files, disk).Got?
    ensures var f := FetchRaw(filePath, parquet, config, cache, files, disk);
            var n := Normalize(f.raw);
            var again := FetchRaw(f.path, parquet, config, cache, Written(files, cache.GetCachePath(f.key), n, true), disk);
            again == Got(f.path, f.key, n) && Normalize(again.raw) == n
            && Cities(Normalize(again.raw)) == Cities(n) && Years(Normalize(again.raw)) == Years(n)
  {
    var f := FetchRaw(filePath, parquet, config, cache, files, disk);
    NormalizeIdempotent(f.raw);
  }
}
