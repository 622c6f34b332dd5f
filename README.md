# dash_temp core in Dafny

A model of the data path behind the dash_temp temperature dashboard. The
dashboard shows daily temperatures and monthly mean humidity for Brazilian
weather stations (`cidade`). The model covers three parts of it.

- **`DataProcessor`** (`data_processing.dfy`, module `DataProcessing`) picks
  the data file: the pre-converted Parquet file if it exists, else the
  caller's or the default spreadsheet. `load_data` then moves a missing file
  to the file of the same name in DATA_DIR. It looks the table up in the
  pickle cache under `temp_data_<mtime>`, and reads the file only on a
  miss. It then normalises the table:
  - derive `year` from the `index` date;
  - strip the city names and drop "nan" cities;
  - drop rows without a year, and rows after 2023.

  Finally it installs the table with its sorted, distinct `cidades` and
  `anos` lists and writes it back to the cache. `DataProcessor` is a class
  whose fields the constructor and `LoadData` update. `LoadData` is built
  from three steps:
  - `Locate` moves `filePath`;
  - `Fetch` reads the cache, or the file on a miss;
  - `Install` sets the fields and writes the cache.

  `Locate` is proved against `ResolveSource`. `Fetch` is specified
  through the cache key, the cache lookup and the reader. `Install` holds
  for any table. `LoadData` ties the three together: its contract gives
  every field and the cache from the old state through `FetchRaw`,
  `Normalize` and the cache write.
- **`Visualizer`** (`visualization.dfy`, module `Visualization`) holds no
  state, so each chart is a function from a table, a city and a year range
  to a `Plot`:
  - a `Figure` (traces, title and category order), or
  - the column whose lookup raised `KeyError`.
- **`CacheManager`** (`cache_manager.dfy`, module `CacheManagement`) is a
  class whose `files` field maps each file path to its stored entry.
  `Get` and `Set` read and update that map.

Support modules:
- `tables.dfy`: rows and tables. `None` stands for NaN/NaT.
- `text.dfy`: Python's `str.strip`, `str` ordering and `str(int)`.
- `paths.dfy`: POSIX `os.path.join` and `basename`.
- `seqs.dfy`: filtering, and sorting with duplicates removed.
- `wrappers.dfy`: `Option`.

The file system, the file readers and the outcome of a pickle dump are
parameters:
- `disk` maps each existing path to its modification time and to what each
  reader returns for it.
- `writeOk` says whether the dump succeeds.
- An `Unreadable` cache entry stands for a file that `joblib.load` cannot
  read.

When a column a chart needs is missing, the code raises `KeyError`; the
model returns `Plot.KeyError(column)`.

## Model

| member | source | states |
|---|---|---|
| DataProcessing.ChooseSource | data_processing.py:19-29 | Parquet is used iff the pre-converted file exists, and then it is the path; otherwise the caller's path, or the default spreadsheet when none (or "") was given |
| DataProcessing.DataProcessor.constructor | data_processing.py:18-34 | `use_parquet` and the first `file_path` come from the source choice. Without a table, `df`, `cidades` and `anos` stay None, [] and []. With one, the fields hold the normalised table and its lists, and the cache holds it under its key |
| DataProcessing.ResolveSource | data_processing.py:41-50 | the path itself if it exists; else `DATA_DIR/basename`, which keeps the file name; none exactly when both are missing |
| DataProcessing.DataProcessor.Locate | data_processing.py:41-50 | `file_path` moves to the resolved file when there is one, and is left alone when there is none |
| DataProcessing.CacheKey | data_processing.py:52 | the key starts with `temp_data_`, the mtime parses back from the rest, and it is a relative file name |
| DataProcessing.CacheKeyInjective | data_processing.py:52 | two modification times give the same key iff they are equal |
| DataProcessing.FetchRaw | data_processing.py:41-66 | not found iff resolution fails; the key is built from the resolved file's mtime; a cache hit always yields the cached table, whatever the reader would do; on a miss the table is what the reader returns, and a reader failure is reported |
| DataProcessing.DataProcessor.Fetch | data_processing.py:52-66 | the cached table under the file's key, or on a miss the reader's result |
| DataProcessing.WithDerivedYear | data_processing.py:73-75 | when `index` exists and `year` is absent or has a gap, `year` is added and every row's year becomes its date's year; otherwise the table is unchanged; each row keeps its city, date and cells, and the row count is kept |
| DataProcessing.CleanCities | data_processing.py:76-79 | each row's city becomes the stripped `astype(str)` text of its old city, so it is present and whitespace-stripped; year, date and cells are kept position by position |
| DataProcessing.CityText | data_processing.py:78-79 | `astype(str)` keeps a present name and turns NaN into "nan"; the text is "nan" exactly for NaN and for the name "nan" |
| DataProcessing.CleanCitiesKeepsClean | data_processing.py:79 | cleaning rows whose cities are already stripped changes nothing |
| DataProcessing.WithCleanCities | data_processing.py:76-80 | with a `cidade` column, the rows kept are exactly the cleaned rows whose city is not "nan", so every remaining city is stripped and not "nan"; without the column the table is unchanged |
| DataProcessing.WithKnownYears | data_processing.py:81-86 | with a `year` column, the rows kept are exactly the rows that have a year; without the column the table is unchanged |
| DataProcessing.UpToLastYear | data_processing.py:87-88 | with a `year` column, the rows kept are exactly the rows with a year ≤ 2023; without the column the table is unchanged |
| DataProcessing.Normalize | data_processing.py:69-88 | `year` is added iff `index` exists; no row is added; cities are stripped and not "nan"; years are present and ≤ 2023; derived years equal the date's year |
| DataProcessing.NormaliseStepByStep | data_processing.py:69-88 | the four pandas steps done in sequence give `Normalize` |
| DataProcessing.NormalizeIsOneFilter | data_processing.py:76-88 | the masks applied in turn keep exactly the rows, in order, that pass the city test and the year test together |
| DataProcessing.NormalizeIdempotent | data_processing.py:69-100 | normalising a normalised table gives it back |
| DataProcessing.CleanCitiesOfNormalized | data_processing.py:76-80 | the city step drops no row of a normalised table and changes none |
| DataProcessing.Cities | data_processing.py:91-94 | strictly increasing in Python's `str` order; exactly the city texts of the table; [] without the column |
| DataProcessing.Years | data_processing.py:95-98 | strictly increasing; exactly the non-missing years; [] without the column |
| DataProcessing.DataProcessor.Install | data_processing.py:90-100 | `df`, `cidades` and `anos` hold the table and its lists, and the cache holds the table under the key unless the dump fails |
| DataProcessing.DataProcessor.LoadData | data_processing.py:36-107 | a missing file or a reader failure returns an empty table and leaves `df`, the lists and the cache as they were. Otherwise the result is the normalised table, installed with its lists and written to the cache; `file_path` ends at the resolved file |
| DataProcessing.SecondLoadHitsCache | data_processing.py:52-100 | after a load that wrote its table, a second load hits the cache and yields the same table, `cidades` and `anos` |
| CacheManagement.CacheManager.constructor | cache_manager.py:16-18 | the manager keeps its directory and starts from the entries already there |
| CacheManagement.CacheManager.GetCachePath | cache_manager.py:20-21 | the path ends in `key + ".pkl"`; for a relative key it is `cache_dir + "/" + key + ".pkl"`, or `cache_dir + key + ".pkl"` exactly when `cache_dir` is empty or already ends in '/' |
| CacheManagement.CachePathInjective | cache_manager.py:20-21 | distinct relative keys give distinct paths, and equal keys equal paths |
| CacheManagement.CacheManager.Get | cache_manager.py:23-31 | the stored value, or None for a missing file and for one that fails to load; nothing is raised |
| CacheManagement.CacheManager.Set | cache_manager.py:33-39 | a successful dump stores the value at the key's path; a failed one is swallowed and changes nothing |
| CacheManagement.SetThenGet | cache_manager.py:33-36 | after a successful `set(k, v)`, `get(k)` returns `v` |
| CacheManagement.SetKeepsOtherKeys | cache_manager.py:34-36 | `set(k, v)` leaves what every other key reads unchanged |
| CacheManagement.SetReplaces | cache_manager.py:34-36 | a second `set` on a key replaces the first |
| CacheManagement.FailedSetChangesNothing | cache_manager.py:35-39 | a failed dump leaves the directory unchanged |
| Paths.Join | cache_manager.py:21 | an absolute name replaces the directory; a relative one gives `dir + "/" + name` when `dir` is non-empty and does not end in '/', and `dir + name` otherwise; the path always ends with the name |
| Paths.JoinInjective | cache_manager.py:21 | for relative names, joining to one directory is injective |
| Paths.AbsoluteNameEscapes | cache_manager.py:21 | an absolute name replaces the directory, so two names can join to one path |
| Paths.Basename | data_processing.py:43 | the base name holds no '/', ends the path and follows its last '/' |
| Paths.BasenameOfJoin | data_processing.py:43-44 | a file name moved into DATA_DIR keeps its base name |
| Text.IsSpace | data_processing.py:79 | the `str.isspace` set that `strip` removes: it holds space, tab, newline and carriage return, and never an ASCII letter or digit |
| Text.TrimStart | data_processing.py:79 | leading whitespace removed; the rest is an unchanged suffix |
| Text.TrimEnd | data_processing.py:79 | trailing whitespace removed; the rest is an unchanged prefix |
| Text.Strip | data_processing.py:79 | the result has no whitespace at either end; an already stripped text is unchanged |
| Text.StripKeepsMiddle | data_processing.py:79 | strip removes only whitespace at the two ends and keeps the middle as it was |
| Text.LexLessIsStrictTotalOrder | data_processing.py:92 | Python's `str` `<` is irreflexive, transitive and total, so `sorted` has one answer |
| Text.IntToStringRoundTrip | data_processing.py:52 | `int(str(i)) == i` |
| Text.IntToStringShape | visualization.py:57 | `str(i)` is an optional minus followed by digits |
| Text.LastBracketSplits | visualization.py:57 | a text ending in '(' and a bracket-free tail splits there in one way only |
| Seqs.Filter | data_processing.py:80 | a mask keeps exactly the rows that pass, never adding any |
| Seqs.FilterAppend | data_processing.py:80 | masking keeps row order |
| Seqs.FilterFuse | data_processing.py:80-88 | two masks in turn equal one mask with both tests |
| Seqs.FilterKeepsAll | data_processing.py:86 | a mask every row passes keeps the table |
| Seqs.SortedDistinct | data_processing.py:92 | `sorted(unique())`: strictly increasing, no duplicates, same elements |
| Seqs.IncreasingIsUnique | data_processing.py:92 | two strictly increasing lists with the same elements are equal |
| Tables.IsEmpty | visualization.py:24 | `df.empty`: the table has no cells, i.e. rows times columns is zero |
| Visualization.Selection | visualization.py:27-31 | exactly the rows with that city and a year in the inclusive range |
| Visualization.SelectionKeepsOrder | visualization.py:27-31 | the selection is taken row by row and keeps row order |
| Visualization.FirstMissing | visualization.py:37-54 | none iff every wanted column exists; otherwise the first wanted column that is missing |
| Visualization.CreateTemperaturePlot | visualization.py:16-66 | empty figure for an empty table or empty selection (and only then); `KeyError` for the first missing column in the order the code reads them: `cidade`, `year`, then `index`, `tempMax`, `tempMed`, `tempMin`. Otherwise exactly three traces, Máxima/tempMax, Média/tempMed and Mínima/tempMin, each plotting the selected rows' cells against their `index` dates, and the title of the city and range |
| Visualization.Title | visualization.py:57 | the title starts with the chart heading, " em ", the city and " (", and ends with the range `start-end` and ")"; TitleNamesCityAndRange shows it determines city and range |
| Visualization.RangeTextInjective | visualization.py:57 | `f"{a}-{b}"` determines `a` and `b` |
| Visualization.TitleSplits | visualization.py:57 | the title is the heading, '(', and a bracket-free range text |
| Visualization.TitleNamesCityAndRange | visualization.py:57 | two titles of one chart are equal iff city, start and end year are |
| Visualization.HumidityColumn | visualization.py:88-95 | `HumidadeMed` when present, else `umidade` when present, else none; the chosen column exists |
| Visualization.MonthsOf | visualization.py:98 | the months of the rows that have a date |
| Visualization.MonthsPresent | visualization.py:98 | the group keys: strictly increasing months, exactly those of the dated rows |
| Visualization.MonthNamesFollowCalendar | visualization.py:99-127 | the month dictionary names every month 1..12, the category order lists those names in calendar order, and no name repeats |
| Visualization.MonthLabels | visualization.py:99-103 | one label per group key, the calendar name of that month |
| Visualization.MonthLabelsDistinct | visualization.py:99-103 | distinct months get distinct labels |
| Visualization.CreateUmidityPlot | visualization.py:68-129 | empty figure for an empty table, an empty selection or no humidity column (and only then); `KeyError` for missing `cidade`, `year` or `index`. Otherwise one trace, "Umidade Média", with the months present as labels and the chosen column's monthly means; calendar category order; the title of the city and range |
| Visualization.HumidityPointPerMonth | visualization.py:98-111 | the humidity trace has one point per month present among the selected dated rows, each month once, in calendar order |

## Left out

- Reading the data files is not modelled: `pd.read_parquet`, `pd.read_excel` and `pd.to_datetime` are foreign library calls. Each file's read result is an input (`SourceFile`), and a reader that raises is None.
- The dtype coercions are not modelled: categorical `cidade`, categorical or non-integer `year`, `astype('Int64')`. The model's year is already an optional integer, so a coercion that raises inside `load_data`'s `except` is not represented.
- Exceptions other than a reader failure that `load_data`'s `except` would catch are not modelled.
- A `cidade` cell holding Python `None` (possible from Parquet) becomes "None" under `astype(str)`. The model treats every missing city as NaN, which becomes "nan".
- CacheKey: `os.path.getmtime` returns a float, and `str` of a float always has a fractional part, so the source's key reads `temp_data_1700000000.0` where the model's reads `temp_data_1700000000`. No key text of the model matches a key the source writes. What the model keeps is the key's structure: one key per modification time, as a relative file name.
- CacheManagement.CacheManager.Set: a failed `joblib.dump` leaves the directory unchanged in the model; a partially written file is not modelled.
- Pickling, `joblib` compression, `os.makedirs` and `cached_df.copy()` are not modelled. The model's tables are values, so no copy is needed.
- `Paths.Join` is POSIX `os.path.join`; Windows drive and separator rules are not modelled.
- Monthly humidity means and other floating-point numerics are not modelled. A humidity trace names its column and months instead of carrying the means.
- Plot styling (colours, fonts, axis titles, legend, hover mode) is library layout and is not modelled.
- `.dt.month` on a non-datetime `index` would raise. This is not modelled, because a model row's `index` is always a date or NaT.
- `Visualizer` has no state and is not modelled as a class; its two methods are functions.
- app.py (the Dash layout and callbacks, and the map centre means) is not part of this model, and neither is config_paths.py (directory constants and `makedirs`).
- Logging is not modelled.
