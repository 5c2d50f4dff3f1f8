# pyROS cross-referencing core, modelled in Dafny

This project models the part of pyROS that cross-references an eROSITA
source catalog against reference databases (NED, SIMBAD) and proves
properties of that model:

- **Database selection**: `Database(name)` builds a name→class dict over the
  subclasses and raises `ValueError` for an unknown name (`Databases`).
- **The per-source retry loop** of `_mtqrad`: a `ConnectTimeout` is retried
  while the counter stays within `retries`. Otherwise the source is recorded
  as an error. `None` and a table both end the source, and any other
  exception leaves the worker (`Retry`).
- **The group worker** `_mtqrad`: it walks its sources and tags each table
  reply with the source's eROSITA values. At the end it concatenates the
  replies, selects the database and eROSITA columns, renames them, and makes
  one append to `XREF_<database>` (`Worker`).
- **The driver** `query_radius`: it broadcasts the radii, checks the shape,
  reads each object's position and eROSITA values, and sizes the pool. It
  divides by the call frequency and by the group size, cuts the lists into
  `N // G + 1` groups and adds up the workers' error counts (`Driver`,
  `Partition`).
- **Source records**: `eROSITASource.__init__` and `from_pandas` (`Sources`).
- **The catalog**: the `_object_map` type lookup, `__getattr__`, and `xref`.
  `xref` chooses the databases to visit, checks the output file, declares
  each `XREF_<name>` table with its column schema, and runs the driver per
  database (`Catalogs`).

The remote cone search is an oracle. `remote(i)` is a `Script`: the number
of calls that time out for source `i` before the first call that does not,
and what that call does. Every call sequence looks like this to the loop,
because the loop stops at the first non-timeout. In `xref` the oracle is
`remote(j)(i)`, the service's behaviour for source `i` while the j-th
database of the loop is queried, so a name listed twice may see different
replies on each visit. A dict is an
insertion-ordered list of pairs (`Dicts`): a later duplicate key overrides
the value but keeps the first position, as Python's dict does.

Three behaviours of the code that the model keeps as written:

- The driver asks `split` for `len // group_size + 1` groups. So an empty
  object list still yields one, empty, group. A group size that divides
  the count also gives one group more than the count needs: 20 objects
  with a group size of 20 become two groups of 10, although the group size
  is documented as a minimum target.
- A non-timeout exception of the remote call is not caught by the retry
  loop. It escapes the worker and is re-raised by `query_radius`; the
  source is not added to the error list.
- A string `included_databases` other than `"all"` is iterated one character
  at a time, so every character is looked up as a database name.

## Model

| member | source | states |
|---|---|---|
| Databases.Dispatch | pyROS/queries.py:41-51 | a name selects a class exactly when it is a subclass name; the class returned carries that name; any other name raises UnknownDatabase(name) |
| Databases.DispatchRegistered | pyROS/queries.py:216-246 | exactly "NED" and "SIMBAD" select a database, and each selects the class built from its own configuration entry |
| Retry.QuerySource | pyROS/queries.py:140-165 | the retry loop ends, in the closed-form outcome: failed exactly when the calls that time out exhaust the budget of retries + 1 (at least 1), else the first non-timeout call decides; it makes between 1 and that budget calls |
| Retry.RetriedThenAnswered | pyROS/queries.py:151-165 | a source that times out at most `retries` times and then answers is not an error, ends with that answer, and costs timeouts + 1 calls |
| Retry.ExhaustedFails | pyROS/queries.py:153-161 | a source that times out retries + 1 times is recorded as failed after exactly retries + 1 calls |
| Worker.Zip3 | pyROS/queries.py:140 | zipping the three lists stops at the shortest and pairs entries position by position |
| Worker.Select | pyROS/queries.py:187 | `.loc[:, sel]` succeeds exactly when every selected label is a column; it then keeps the labels in the order given and projects every row; otherwise it raises a KeyError naming a selected label that is absent |
| Worker.Finish | pyROS/queries.py:181-206 | with no kept table nothing is written; with kept tables it raises exactly when a selected column is missing from their concatenation, with a MissingColumn for a selected label, and otherwise appends to XREF_<database>; the error list, progress and call counts pass through |
| Worker.QueryGroup | pyROS/queries.py:133-212 | the worker ends as the loop-free description of the group: the first non-timeout fault of its sources, else the post-processing of the failed sources' data and the tagged replies; each source costs 1 to retries + 1 calls |
| Worker.QuerySources | pyROS/queries.py:140-177 | the source loop leaves with the kind of the first non-timeout fault exactly when one occurs; otherwise it holds the tagged table replies, the failed sources' data and each source's call count, in source order |
| Worker.GroupResult | pyROS/queries.py:133-212 | a worker raises exactly when one of its sources raises a non-timeout fault or its kept replies lack a selected column; the exception is the first such fault, or else a missing selected column; a returned worker reports exactly the failed sources' data, its group size and the call counts, and appends only to XREF_<database> |
| Worker.FirstMissing | pyROS/queries.py:187 | the label reported missing is a selected label absent from the columns, and every label selected before it is present |
| Worker.EscapeIsFirstFault | pyROS/queries.py:151-153 | the worker's exception is the kind of the first source, in group order, whose call raised something other than a timeout, and it exists exactly when such a source exists |
| Worker.ErrorsAreFailures | pyROS/queries.py:153-161 | the error list holds a source's data exactly when some source with that data failed by timing out past its budget, and is never longer than the group |
| Worker.NoErrorsIffNoFailures | pyROS/queries.py:153-161 | the worker reports no errors exactly when no source of the group failed |
| Worker.ConcatFrames | pyROS/queries.py:167-183 | the concatenated frame's rows are the rows of the table replies, tagged, in source order |
| Worker.NoFramesWithoutTables | pyROS/queries.py:164-181 | no frame is kept exactly when no source answered with a table |
| Worker.WrittenTable | pyROS/queries.py:181-206 | nothing is appended exactly when no source answered with a table; an append goes to XREF_<database>, has the renamed selection as its columns and, row by row, the tagged reply rows in source order projected onto the selection; the only exception is a missing selected column |
| Worker.TaggedCell | pyROS/queries.py:169-171 | after tagging, a selected eROSITA column reads the source's own value in every reply row |
| Driver.BroadcastAsWritten | pyROS/queries.py:84-85 | as written, one given radius is replaced by n copies of the one-element list itself; more radii are kept as they are |
| Driver.Broadcast | pyROS/queries.py:84-85 | one given radius stands for every object; more radii are kept as they are |
| Driver.BroadcastShape | pyROS/queries.py:84-87 | the shape assertion passes exactly when one radius, or one radius per object, was given |
| Driver.BroadcastFinding | pyROS/queries.py:84-85 | with one radius, every entry the written broadcast produces is a list where the intended broadcast produces a radius; with more radii the two agree |
| Driver.Row | pyROS/queries.py:90 | reading the eROSITA attributes of one object succeeds exactly when it has them all, and yields them in column order; otherwise it raises AttributeError for the first absent column in column order |
| Driver.Attributes | pyROS/queries.py:90 | reading every object succeeds exactly when every object has every column, and yields the values object by object; otherwise the error is the one the first object lacking a column raises, every earlier object having them all |
| Driver.Coords | pyROS/queries.py:89 | positions are read exactly when every object has RA and DEC, one per object, in order; otherwise AttributeError for the first object without a position, naming RA if it lacks RA and else DEC |
| Driver.PoolSize | pyROS/queries.py:94-97 | the pool size is the smaller of the database's thread limit and maxworkers, or maxworkers when the database sets no limit |
| Driver.Prepare | pyROS/queries.py:84-113 | the checks raise in code order, each exactly when every earlier one passed and it fails: a shape mismatch (only when neither one radius nor one per object was given), the missing RA or DEC of the first object without a position, the first missing eROSITA attribute, a zero call frequency, a zero group size, a group count below one, a pool size below one; a negative group size with objects asks for fewer than one group and is rejected; preparation succeeds exactly when the shape, positions, eROSITA values, call frequency, group size, group count and pool size are all valid, and then yields per object its position, its broadcast radius and its eROSITA values in column order, with the pool size and N // G + 1 groups |
| Driver.RunGroup | pyROS/queries.py:113-122 | the worker of group g receives exactly the objects from the group's first position to the next group's, and ends as the loop-free description of those sources |
| Driver.AbsorbKeeps | pyROS/queries.py:124-126 | taking one group's result into the running totals extends the error count, the progress and the first exception from the sources before the group to the sources through it |
| Driver.GroupJoins | pyROS/queries.py:124-126 | the errors of a prefix of groups are the errors before a group followed by that group's; the run's exception is the earlier one if any, else the group's |
| Driver.RunGroups | pyROS/queries.py:105-126 | over all groups: the appends are the workers' appends in group order; the run finishes exactly when no source raises a non-timeout fault and no group's replies lack a selected column, and then counts exactly the failed sources of the whole list with progress for every object; otherwise it re-raises the first worker's exception, which is the run's first fault or a missing selected column; every append goes to XREF_<database> |
| Driver.RunRaises | pyROS/queries.py:113-126 | the result loop re-raises exactly when some source raises a non-timeout fault or some group's replies lack a selected column; what it raises is the run's first fault or a missing selected column |
| Driver.RunRaisesFirst | pyROS/queries.py:124-126 | the first worker that raised, every earlier one having returned, raises the run's first non-timeout fault when one occurs in a source up to the end of its group, and otherwise a missing selected column |
| Driver.GroupRaises | pyROS/queries.py:113-122 | the worker of group g raises exactly when a source of its piece raises a non-timeout fault or its piece's replies lack a selected column, and appends only to XREF_<database> |
| Driver.EscapeByGroups | pyROS/queries.py:105-126 | the sources before group g raise no non-timeout fault exactly when none of the groups before g does |
| Driver.FirstRaisedIsFirst | pyROS/queries.py:125-126 | the exception the result loop re-raises is that of a worker every earlier worker of which returned |
| Driver.NoneRaised | pyROS/queries.py:125-126 | the result loop re-raises nothing exactly when every worker returned |
| Driver.AppendsGoToTable | pyROS/queries.py:197-201 | every append of the run goes to XREF_<database> |
| Driver.QueryRadius | pyROS/queries.py:54-130 | a failed check rejects the call with that check's exception; otherwise the prepared plan runs with the same finishing condition, appends and exception as Driver.RunGroups; every exception is one the driver can raise |
| Driver.GroupItems | pyROS/queries.py:105-107 | the three lists are split with identical boundaries, so group g zipped is the zipped objects between two consecutive boundaries |
| Partition.SplitCovers | pyROS/queries.py:105-107 | the pieces, joined in order, give back the list |
| Partition.SplitPrefixCovers | pyROS/queries.py:105-107 | the first i pieces, joined, are the list up to the i-th boundary |
| Partition.SplitLockstep | pyROS/queries.py:105-107 | two lists of the same length are cut into pieces of the same sizes, and item j of piece i is the same position of the input in both |
| Partition.StartClosedForm | pyROS/queries.py:105-107 | the boundary before piece i is i times the quotient plus the number of earlier pieces that take one of the remainder items |
| Partition.PiecesWithinGroupSize | pyROS/queries.py:75-76 | with N // G + 1 pieces, no piece holds more than G objects |
| Sources.InitSource | pyROS/erosita/sources.py:11-19 | the record has exactly the keyword names and the standard keys; a supplied value wins, even for a standard key; an unsupplied standard key is None |
| Sources.MakeSourceFields | pyROS/erosita/sources.py:11-19 | the same three facts about the record a keyword list builds |
| Sources.FromPandasCells | pyROS/erosita/sources.py:21-29 | record k holds, under each column label, row k's value in the last column with that label |
| Sources.ERASS1RecordsHaveExactlyTheColumns | pyROS/erosita/sources.py:41-43 | an eRASS1 record built from a frame row has exactly the frame's columns as attributes |
| Catalogs.SourceClassFor | pyROS/erosita/catalogs.py:16 | only "eRASS1" is a catalog type, and it selects eRASS1Source; any other type raises KeyError |
| Catalogs.MakeCatalog | pyROS/erosita/catalogs.py:57-78 | a catalog is constructed exactly for the type "eRASS1", keeping its file name and data; any other type raises KeyError for that type |
| Catalogs.GetAttr | pyROS/erosita/catalogs.py:136-142 | an attribute of the parent class is returned as inherited; otherwise a column name gives that column's values, row by row; otherwise AttributeError |
| Catalogs.GetAttrAsWritten | pyROS/erosita/catalogs.py:136-138 | as written, every name the parent class answers raises TypeError; every other name behaves as intended |
| Catalogs.DatabaseNames | pyROS/erosita/catalogs.py:172-175 | "all" visits every registered database in definition order; a list is visited as given; any other string is visited character by character |
| Catalogs.AllMeansEveryDatabase | pyROS/erosita/catalogs.py:172-173 | "all" visits NED and then SIMBAD |
| Catalogs.Preflight | pyROS/erosita/catalogs.py:177-190 | an existing path is an error when overwrite is off; with overwrite a file is removed and nothing else changes, while a directory makes the removal fail; an absent file gets every directory above it created and nothing else changes, and the creation fails exactly when one of those paths is a file |
| Catalogs.MappedSpec | pyROS/erosita/catalogs.py:206-207 | mapping a column map to its XREF names keeps each name once, in first-seen order, with the type of its last occurrence |
| Catalogs.XrefSchemaOrder | pyROS/erosita/catalogs.py:202-211 | the declared schema holds each name once, in first-seen order over the database's columns, the eROSITA columns and DELTA; a later type for the same name wins, and DELTA is a FLOAT |
| Catalogs.WrittenColumnsDeclared | pyROS/erosita/catalogs.py:203-211 | every column a worker writes to XREF_<name> is a column of the table declared for it |
| Catalogs.VisitDatabase | pyROS/erosita/catalogs.py:194-224 | one turn of the loop raises UnknownDatabase exactly for a name other than NED or SIMBAD; otherwise it declares the XREF table of the database the name selects, with that database's schema, and its run is that database's query_radius on the given objects and radii, against the service's behaviour for that turn of the loop |
| Catalogs.VisitDatabases | pyROS/erosita/catalogs.py:194-224 | databases are visited in order; the j-th declared table and run are those of the j-th name; the first exception stops the loop: an unknown name is the name after the last visited one, and every run before it finished; a run's exception ends the loop at that run; the loop completes exactly when every run finishes |
| Catalogs.Xref | pyROS/erosita/catalogs.py:144-224 | the call ends with the output-file check's exception, before any table is declared, exactly when that check fails; otherwise the paths are those the check leaves plus the output file once a table is declared, and the j-th table and run are the j-th chosen database's, queried on the catalog's source objects from from_pandas with the service's behaviour for that turn, with the same ordering and stopping guarantees |
| Catalogs.PointwiseMeans | pyROS/erosita/catalogs.py:194-224 | the loop's record holds exactly when there are no more tables than names, one run per table, and each table and run belong to the name at the same position |

## Left out

- The rate-limit wait after each call (`time.sleep`, `perf_counter`) and the timeout interval it uses. Only the division by the call frequency, and the ZeroDivisionError it can raise, are kept.
- The thread pool's concurrency, the lock and the progress bar. Workers run one after the other in group order, which is the order `executor.map` yields their results. An exception from a worker is re-raised when the result loop reaches it; the appends of the other workers still happen.
- The SQL engine. An append is a returned `Write` value, and the table declaration is a `Declared` value. The dtype map passed to `to_sql` is not modelled.
- Coordinates and units. `SkyCoord(ra=o.RA*u.deg, ...)` is modelled as reading `RA` and `DEC`; the TypeError that a `None` position would raise in the unit product is not modelled.
- `_xref_radii` (floating-point error radii from the catalog's columns): the radii are a parameter of `Xref`.
- `split` from pyROS.utils is not part of this model. `Partition.Split` follows the rule of `numpy.array_split`. The rest of the model relies only on contiguous, ordered, covering pieces whose boundaries depend on the length alone.
- Reading the catalog file (`Table.read`), `download_data_product`, `add_table_to_xref`, the plotting and coordinate helpers, `__str__`/`__repr__`, the legacy pyROSITA package and the scripts.
- Frames with duplicate column labels in the worker's selection: a table's columns are a set.
- Sources.FromPandas: its own contract states only the record count; the cell contents are stated by Sources.FromPandasCells and Sources.ERASS1RecordsHaveExactlyTheColumns.
- Driver.Coords: only a missing RA or DEC is an error of the model. `SkyCoord` also raises for a declination outside [-90, 90] (ValueError from its latitude) and for a non-numeric position (TypeError or UnitConversionError); the model takes such positions as given and goes on to query.
- Retry.QuerySource: the sleep between calls is not modelled, so it says nothing about timing.
- Driver.QueryRadius: `query_radius` returns None; the modelled error count of a finished run is the count it logs (pyROS/queries.py:124-130), and the appends are what the workers write to the SQL file.
- Driver.Prepare: a group count below one, which a negative group size gives for a non-empty list, is rejected as InvalidGroupCount, standing for the ValueError `numpy.array_split` raises; `split` itself is not part of this model.
- Catalogs.Preflight: paths are strings and the directories above the output file are its prefixes before each `/`; path normalisation by `pathlib` is not modelled. The FileExistsError and NotADirectoryError `mkdir` raises for a file above the output file are one error, and so are the errors `os.remove` raises for a directory on different systems.
- Catalogs.Xref: the SQL file holds no tables of its own in this model; the output file appears in the paths once the first table is declared, as `create_all` creates it.

## Findings

| source | as written | input that shows it | evidently intended | confidence | as-written member | corrected member |
|---|---|---|---|---|---|---|
| pyROS/queries.py:84-85 | `radii = [radii]*len(objects)` puts the one-element list itself in every position | one radius `[15.0]` for two objects: every worker is handed `[15.0]` where a radius is expected | every object gets the single radius `15.0` | medium, not executed | Driver.BroadcastAsWritten (Driver.BroadcastCounterexample) | Driver.Broadcast (Driver.BroadcastFinding, used by Driver.Prepare) |
| pyROS/erosita/catalogs.py:137-138 | `super().__getattribute__(self, item)` passes the instance a second time to an already bound method | `catalog.__self__`: the `super()` proxy has `__self__`, so the branch is taken and raises TypeError | return the attribute the parent proxy holds, `getattr(super(), item)` | high, not executed | Catalogs.GetAttrAsWritten (Catalogs.GetAttrCounterexample) | Catalogs.GetAttr (Catalogs.GetAttrFinding) |
