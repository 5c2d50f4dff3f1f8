/** The eROSITA catalog (pyROS/erosita/catalogs.py): the catalog-type map,
    column lookup through `__getattr__`, and the cross-referencing run
    `xref` with its output-file check and the XREF table schema.

    The file system is a set of existing paths; creating the SQL tables is
    recorded as the list of tables declared, and reading the catalog file
    is not part of this model: a catalog is given by its frame. */
module Catalogs {
  import opened Values
  import opened Dicts
  import opened Retry
  import opened Databases
  import opened Worker
  import opened Driver
  import opened Sources

  // ---------------------------------------------------------------------------
  // Catalog types

  /** `_object_map[catalog_type]`: only `"eRASS1"` is registered; any other
      type raises `KeyError`. */
  function SourceClassFor(catalogType: string): (r: Result<SourceClass>)
    ensures r.Ok? <==> catalogType == "eRASS1"
    ensures r.Ok? ==> r.value == ERASS1Source
    ensures r.Err? ==> r.error == UnknownCatalogType(catalogType)
  {
    var registry := [("eRASS1", ERASS1Source)];
    LookupIsLastOccurrence(registry, catalogType);
    assert Keys(registry) == ["eRASS1"];
    match Lookup(registry, catalogType)
    case Some(c) => Ok(c)
    case None => Err(UnknownCatalogType(catalogType))
  }

  /** An `eROSITACatalog` once constructed: its file name, its data and the
      source class its type selected. */
  datatype Catalog = Catalog(filename: string, data: Frame, sourceType: SourceClass)

  /** `eROSITACatalog(filename, catalog_type=...)` over data already read. */
  function MakeCatalog(filename: string, data: Frame, catalogType: string): (r: Result<Catalog>)
    ensures r.Ok? <==> catalogType == "eRASS1"
    ensures r.Ok? ==> r.value == Catalog(filename, data, ERASS1Source)
    ensures r.Err? ==> r.error == UnknownCatalogType(catalogType)
  {
    var cls :- SourceClassFor(catalogType);
    Ok(Catalog(filename, data, cls))
  }

  // ---------------------------------------------------------------------------
  // Attribute lookup

  /** What an attribute lookup that reaches `__getattr__` yields: an
      attribute of the parent class, or the values of a data column. */
  datatype Attr = Inherited(name: string) | ColumnValues(values: seq<Value>)

  /** The values of column `j`, one per row. */
  function ColumnAt(df: Frame, j: nat): (vs: seq<Value>)
    requires Rectangular(df) && j < |df.columns|
    ensures |vs| == |df.rows|
    ensures forall k :: 0 <= k < |df.rows| ==> vs[k] == df.rows[k][j]
  {
    seq(|df.rows|, k requires 0 <= k < |df.rows| => df.rows[k][j])
  }

  /** `__getattr__` as intended: an attribute the parent proxy answers is
      returned as inherited, `getattr(super(), item)`; otherwise a column name gives that column's
      values; anything else raises `AttributeError`.  `superAttrs` are the
      names `hasattr(super(), item)` accepts. */
  function GetAttr(superAttrs: set<string>, df: Frame, item: string): (r: Result<Attr>)
    requires Rectangular(df)
    ensures item in superAttrs ==> r == Ok(Inherited(item))
    ensures item !in superAttrs ==> (r.Ok? <==> item in df.columns)
    ensures item !in superAttrs && item in df.columns ==>
              exists j :: 0 <= j < |df.columns| && df.columns[j] == item && r == Ok(ColumnValues(ColumnAt(df, j)))
    ensures r.Err? ==> r.error == CatalogAttributeMissing(item)
  {
    if item in superAttrs then Ok(Inherited(item))
    else if item in df.columns then Ok(ColumnValues(ColumnAt(df, IndexOf(df.columns, item))))
    else Err(CatalogAttributeMissing(item))
  }

  /** `__getattr__` as written: the inherited branch calls
      `super().__getattribute__(self, item)`, which passes the instance a
      second time and so raises `TypeError` for every such item. */
  function GetAttrAsWritten(superAttrs: set<string>, df: Frame, item: string): (r: Result<Attr>)
    requires Rectangular(df)
    ensures item in superAttrs ==> r == Err(BadCall(item))
    ensures item !in superAttrs ==> r == GetAttr(superAttrs, df, item)
  {
    if item in superAttrs then Err(BadCall(item))
    else if item in df.columns then Ok(ColumnValues(ColumnAt(df, IndexOf(df.columns, item))))
    else Err(CatalogAttributeMissing(item))
  }

  // ---------------------------------------------------------------------------
  // Choosing the databases

  /** The `included_databases` argument: a string or a list of names. */
  datatype Included = AsText(s: string) | AsList(ns: seq<string>)

  /** The databases `xref` visits: every registered class for `"all"`,
      otherwise the argument as given; Python iterates a string other than
      `"all"` one character at a time. */
  function DatabaseNames(inc: Included, cfg: Config): (names: seq<Key>)
    ensures inc == AsText("all") ==> names == Names(Subclasses(cfg))
    ensures inc.AsList? ==> names == inc.ns
    ensures inc.AsText? && inc.s != "all" ==>
              |names| == |inc.s| && forall i :: 0 <= i < |inc.s| ==> names[i] == [inc.s[i]]
  {
    match inc
    case AsText(s) =>
      if s == "all" then Names(Subclasses(cfg))
      else seq(|s|, i requires 0 <= i < |s| => [s[i]])
    case AsList(ns) => ns
  }

  // ---------------------------------------------------------------------------
  // The output file

  /** The paths that exist: regular files and directories. */
  datatype FileSystem = FileSystem(files: set<string>, dirs: set<string>)

  /** The directories above `path`: every proper prefix that ends before a
      `/`, except the root. */
  function Ancestors(path: string): (dirs: set<string>)
    ensures forall d :: d in dirs <==> exists i :: 0 < i < |path| && path[i] == '/' && d == path[..i]
    ensures forall d :: d in dirs ==> |d| < |path|
  {
    set i | 0 < i < |path| && path[i] == '/' :: path[..i]
  }

  /** The exceptions the check on the output file raises. */
  predicate PreflightError(e: Error)
  {
    e.OutputExists? || e.RemoveFailed? || e.ParentNotDirectory?
  }

  /** The check on the output file: an existing path is an error unless
      `overwrite` is set, in which case it is removed, which fails for a
      directory; an absent file has its parent directory made, with every
      missing directory above it, which fails when one of them is a file.
      The paths that exist afterwards are returned. */
  function Preflight(fs: FileSystem, filename: string, overwrite: bool): (r: Result<FileSystem>)
    ensures (filename in fs.files || filename in fs.dirs) && !overwrite ==> r == Err(OutputExists(filename))
    ensures filename in fs.dirs && overwrite ==> r == Err(RemoveFailed(filename))
    ensures filename in fs.files && filename !in fs.dirs && overwrite ==>
              r == Ok(FileSystem(fs.files - {filename}, fs.dirs))
    ensures filename !in fs.files && filename !in fs.dirs ==>
              (r.Err? <==> exists i :: 0 < i < |filename| && filename[i] == '/' &&
                                       filename[..i] in fs.files && filename[..i] !in fs.dirs)
    ensures filename !in fs.files && filename !in fs.dirs && r.Err? ==> r.error == ParentNotDirectory(filename)
    ensures filename !in fs.files && filename !in fs.dirs && r.Ok? ==>
              && r.value.files == fs.files
              && forall d :: d in r.value.dirs <==>
                   d in fs.dirs || exists i :: 0 < i < |filename| && filename[i] == '/' && d == filename[..i]
    ensures r.Err? ==> PreflightError(r.error)
    ensures r.Ok? ==> filename !in r.value.files && filename !in r.value.dirs
  {
    if filename in fs.files || filename in fs.dirs then
      if !overwrite then Err(OutputExists(filename))
      else if filename in fs.dirs then Err(RemoveFailed(filename))
      else Ok(fs.(files := fs.files - {filename}))
    else
      var parents := Ancestors(filename);
      if exists d :: d in parents && d in fs.files && d !in fs.dirs then Err(ParentNotDirectory(filename))
      else Ok(fs.(dirs := fs.dirs + parents))
  }

  // ---------------------------------------------------------------------------
  // The XREF table

  /** `{v[0]: v[1] for k, v in schema.items()}`. */
  function Mapped(cm: ColumnMap): seq<(Key, SqlType)>
  {
    FromPairs(seq(|cm|, i requires 0 <= i < |cm| => cm[i].1))
  }

  /** The columns of `XREF_<name>`: the database's mapped columns, the
      eROSITA mapped columns and `DELTA`, merged as one dict literal. */
  function XrefSchema(db: Database, erosita: ColumnMap): seq<(Key, SqlType)>
  {
    FromPairs(Mapped(db.usedColumns) + Mapped(erosita) + [("DELTA", Float)])
  }

  /** A table declared in the output database. */
  datatype Declared = Declared(table: Key, columns: seq<(Key, SqlType)>)

  /** What every database `xref` visits is queried with: the configuration,
      the catalog's source objects and search radii, the thread and group
      settings, and `remote(j)`, the behaviour of the remote service while
      the j-th database of the loop is queried. */
  datatype Query = Query(cfg: Config, objects: seq<Record>, radii: seq<real>, maxthreads: int, groupsize: int,
                         remote: nat -> nat -> Script)

  /** `name`, visited at turn `j`, selects a database, `d` is the table
      declared for it, and `run` is its `query_radius` on the query's
      objects and radii. */
  ghost predicate Visited(q: Query, j: nat, name: Key, d: Declared, run: Run)
  {
    && name in Names(Subclasses(q.cfg))
    && forall db :: Dispatch(Subclasses(q.cfg), name) == Ok(db) ==>
         && d == Declared("XREF_" + name, XrefSchema(db, q.cfg.erosita))
         && QueryRun(db, q.objects, q.radii, q.maxthreads, q.groupsize, q.cfg.erosita, q.remote(j), run)
  }

  /** `p(q, j, xs[j], ys[j], zs[j])` for every position `j` of `ys`, built
      one position at a time; `xs` may run longer than `ys` and `zs`. */
  predicate Pointwise<Q, X, Y, Z>(p: (Q, nat, X, Y, Z) -> bool, q: Q, xs: seq<X>, ys: seq<Y>, zs: seq<Z>)
    decreases |ys|
  {
    && |ys| == |zs| <= |xs|
    && (|ys| > 0 ==>
          var n := |ys| - 1;
          Pointwise(p, q, xs, ys[..n], zs[..n]) && p(q, n, xs[n], ys[n], zs[n]))
  }

  // ---------------------------------------------------------------------------
  // The run

  /** How `xref` ends: the paths that exist, the tables it declared and the
      query runs it made, in database order, and the exception that ended
      it early, if any. */
  datatype XrefOutcome = XrefOutcome(paths: FileSystem, declared: seq<Declared>, runs: seq<Run>, error: Option<Error>)

  /** What one turn of the database loop of `xref` does. */
  datatype Visit = Unknown(error: Error) | Queried(table: Declared, run: Run)

  /** Turn `j` of the loop: `Database(database)`, the table declaration,
      and `db.query_radius(self.source_objects, self._xref_radii(),
      maxworkers=maxthreads, group_size=groupsize, connection=filename)`. */
  method VisitDatabase(q: Query, j: nat, name: Key) returns (v: Visit)
    ensures v.Unknown? <==> name != "NED" && name != "SIMBAD"
    ensures v.Unknown? ==> v.error == UnknownDatabase(name)
    ensures v.Queried? ==> Visited(q, j, name, v.table, v.run)
    ensures v.Queried? && !v.run.Finished? ==> QueryError(v.run.error)
  {
    var d := Dispatch(Subclasses(q.cfg), name);
    DispatchRegistered(q.cfg, name);
    if d.Err? {
      return Unknown(d.error);
    }
    var table := Declared(TableName(d.value), XrefSchema(d.value, q.cfg.erosita));
    var run := QueryRadius(d.value, q.objects, q.radii, q.maxthreads, q.groupsize, q.cfg.erosita, q.remote(j));
    v := Queried(table, run);
  }

  /** `eROSITACatalog.xref(filename, groupsize, maxthreads,
      included_databases, overwrite)` against the existing paths `fs`,
      with `radii` the catalog's search radii and `remote(j)` the behaviour
      of the remote service while the j-th database is queried.  The first
      table declared creates the output file. */
  method Xref(cat: Catalog, fs: FileSystem, filename: string, groupsize: int, maxthreads: int,
              inc: Included, overwrite: bool, cfg: Config, radii: seq<real>, remote: nat -> nat -> Script)
    returns (r: XrefOutcome)
    ensures var pre := Preflight(fs, filename, overwrite);
            pre.Err? ==> r == XrefOutcome(fs, [], [], Some(pre.error))
    ensures var pre := Preflight(fs, filename, overwrite);
            pre.Ok? ==> r.paths == if |r.declared| > 0 then pre.value.(files := pre.value.files + {filename}) else pre.value
    ensures r.error.Some? && PreflightError(r.error.value) <==> Preflight(fs, filename, overwrite).Err?
    ensures Pointwise(Visited, Query(cfg, FromPandas(cat.sourceType, cat.data), radii, maxthreads, groupsize, remote),
                      DatabaseNames(inc, cfg), r.declared, r.runs)
    ensures forall j :: 0 <= j < |r.runs| - 1 ==> r.runs[j].Finished?
    ensures r.error.None? <==> && Preflight(fs, filename, overwrite).Ok?
                               && |r.runs| == |DatabaseNames(inc, cfg)|
                               && forall j :: 0 <= j < |r.runs| ==> r.runs[j].Finished?
    ensures r.error.Some? && r.error.value.UnknownDatabase? ==>
              var dbs := DatabaseNames(inc, cfg);
              && |r.runs| < |dbs| && r.error.value == UnknownDatabase(dbs[|r.runs|])
              && dbs[|r.runs|] != "NED" && dbs[|r.runs|] != "SIMBAD"
              && forall j :: 0 <= j < |r.runs| ==> r.runs[j].Finished?
    ensures r.error.Some? && !r.error.value.UnknownDatabase? && !PreflightError(r.error.value) ==>
              |r.runs| > 0 && !r.runs[|r.runs| - 1].Finished? && r.error.value == r.runs[|r.runs| - 1].error
  {
    var pre := Preflight(fs, filename, overwrite);
    var q := Query(cfg, FromPandas(cat.sourceType, cat.data), radii, maxthreads, groupsize, remote);
    if pre.Err? {
      return XrefOutcome(fs, [], [], Some(pre.error));
    }
    r := VisitDatabases(q, DatabaseNames(inc, cfg));
    r := r.(paths := if |r.declared| > 0 then pre.value.(files := pre.value.files + {filename}) else pre.value);
  }

  /** The `for database in databases` loop of `xref`: each name is looked
      up, its table declared and the driver run, in list order; the first
      exception ends the loop. */
  method VisitDatabases(q: Query, dbs: seq<Key>) returns (r: XrefOutcome)
    ensures Pointwise(Visited, q, dbs, r.declared, r.runs)
    ensures forall j :: 0 <= j < |r.runs| - 1 ==> r.runs[j].Finished?
    ensures r.error.None? <==> |r.runs| == |dbs| && forall j :: 0 <= j < |r.runs| ==> r.runs[j].Finished?
    ensures r.error.Some? && r.error.value.UnknownDatabase? ==>
              && |r.runs| < |dbs| && r.error.value == UnknownDatabase(dbs[|r.runs|])
              && dbs[|r.runs|] != "NED" && dbs[|r.runs|] != "SIMBAD"
              && forall j :: 0 <= j < |r.runs| ==> r.runs[j].Finished?
    ensures r.error.Some? && !r.error.value.UnknownDatabase? ==>
              |r.runs| > 0 && !r.runs[|r.runs| - 1].Finished? && r.error.value == r.runs[|r.runs| - 1].error &&
              QueryError(r.error.value)
  {
    var declared: seq<Declared> := [];
    var runs: seq<Run> := [];
    for i := 0 to |dbs|
      invariant |declared| == |runs| == i
      invariant Pointwise(Visited, q, dbs, declared, runs)
      invariant forall j :: 0 <= j < i ==> runs[j].Finished?
    {
      var v := VisitNext(q, dbs, declared, runs);
      if v.Unknown? {
        return XrefOutcome(FileSystem({}, {}), declared, runs, Some(v.error));
      }
      if !v.run.Finished? {
        return XrefOutcome(FileSystem({}, {}), declared + [v.table], runs + [v.run], Some(v.run.error));
      }
      FinishedExtends(runs, v.run);
      declared := declared + [v.table];
      runs := runs + [v.run];
    }
    r := XrefOutcome(FileSystem({}, {}), declared, runs, None);
  }

  /** The turn of the loop for the next name of `dbs`, extending the record
      of the turns before it. */
  method VisitNext(q: Query, dbs: seq<Key>, declared: seq<Declared>, runs: seq<Run>) returns (v: Visit)
    requires |declared| < |dbs|
    requires Pointwise(Visited, q, dbs, declared, runs)
    ensures v.Unknown? <==> dbs[|declared|] != "NED" && dbs[|declared|] != "SIMBAD"
    ensures v.Unknown? ==> v.error == UnknownDatabase(dbs[|declared|])
    ensures v.Queried? ==> Pointwise(Visited, q, dbs, declared + [v.table], runs + [v.run])
    ensures v.Queried? && !v.run.Finished? ==> QueryError(v.run.error)
  {
    v := VisitDatabase(q, |declared|, dbs[|declared|]);
    if v.Queried? {
      PointwiseExtends(Visited, q, dbs, declared, runs, v.table, v.run);
    }
  }

  // ---------------------------------------------------------------------------
  // Lemmas

  /** One more position related extends the record. */
  lemma PointwiseExtends<Q, X, Y, Z>(p: (Q, nat, X, Y, Z) -> bool, q: Q, xs: seq<X>, ys: seq<Y>, zs: seq<Z>, y: Y, z: Z)
    requires |ys| < |xs|
    requires Pointwise(p, q, xs, ys, zs)
    requires p(q, |ys|, xs[|ys|], y, z)
    ensures Pointwise(p, q, xs, ys + [y], zs + [z])
  {
    assert (ys + [y])[..|ys|] == ys;
    assert (zs + [z])[..|zs|] == zs;
  }

  /** A finished run appended to finished runs. */
  lemma FinishedExtends(runs: seq<Run>, run: Run)
    requires forall j :: 0 <= j < |runs| ==> runs[j].Finished?
    requires run.Finished?
    ensures forall j :: 0 <= j < |runs| + 1 ==> (runs + [run])[j].Finished?
  {
  }

  /** The record read position by position: it holds exactly when `ys` and
      `zs` have one entry per position and no more than `xs`, and every
      position is related. */
  lemma {:induction false} PointwiseMeans<Q, X, Y, Z>(p: (Q, nat, X, Y, Z) -> bool, q: Q, xs: seq<X>, ys: seq<Y>, zs: seq<Z>)
    ensures Pointwise(p, q, xs, ys, zs) <==>
              && |ys| == |zs| <= |xs|
              && forall j: nat :: j < |ys| ==> p(q, j, xs[j], ys[j], zs[j])
    decreases |ys|
  {
    if |ys| > 0 && |ys| == |zs| <= |xs| {
      var n := |ys| - 1;
      PointwiseMeans(p, q, xs, ys[..n], zs[..n]);
      assert forall j :: 0 <= j < n ==> ys[..n][j] == ys[j] && zs[..n][j] == zs[j];
    }
  }

  /** A mapped column map holds each XREF name once, in first-seen order,
      with the type of its last occurrence. */
  lemma MappedSpec(cm: ColumnMap)
    ensures Keys(Mapped(cm)) == Dedup(MappedNames(cm))
    ensures forall k :: k in Keys(Mapped(cm)) <==> k in MappedNames(cm)
    ensures forall i :: 0 <= i < |cm| && (forall i' :: i < i' < |cm| ==> cm[i'].1.0 != cm[i].1.0) ==>
              Lookup(Mapped(cm), cm[i].1.0) == Some(cm[i].1.1)
  {
    var ps := seq(|cm|, i requires 0 <= i < |cm| => cm[i].1);
    FromPairsSpec(ps);
    assert Keys(ps) == MappedNames(cm);
    DedupMembers(MappedNames(cm));
    forall i | 0 <= i < |cm| && (forall i' :: i < i' < |cm| ==> cm[i'].1.0 != cm[i].1.0)
      ensures Lookup(Mapped(cm), cm[i].1.0) == Some(cm[i].1.1)
    {
      LookupIsLastOccurrence(ps, cm[i].1.0);
    }
  }

  /** The XREF schema holds each name once, in first-seen order over the
      database's mapped columns, the eROSITA mapped columns and `DELTA`;
      the names are exactly those; a later type for the same name wins. */
  lemma XrefSchemaOrder(db: Database, erosita: ColumnMap)
    ensures Distinct(Keys(XrefSchema(db, erosita)))
    ensures Keys(XrefSchema(db, erosita)) ==
              Dedup(Keys(Mapped(db.usedColumns)) + Keys(Mapped(erosita)) + ["DELTA"])
    ensures forall k :: k in Keys(XrefSchema(db, erosita)) <==>
              k in MappedNames(db.usedColumns) || k in MappedNames(erosita) || k == "DELTA"
    ensures forall k :: Lookup(XrefSchema(db, erosita), k) ==
              if k == "DELTA" then Some(Float)
              else if Lookup(Mapped(erosita), k).Some? then Lookup(Mapped(erosita), k)
              else Lookup(Mapped(db.usedColumns), k)
  {
    var a, b := Mapped(db.usedColumns), Mapped(erosita);
    var d: seq<(Key, SqlType)> := [("DELTA", Float)];
    FromPairsSpec(a + b + d);
    assert Keys(a + b + d) == Keys(a) + Keys(b) + ["DELTA"];
    DedupMembers(Keys(a + b + d));
    MappedSpec(db.usedColumns);
    MappedSpec(erosita);
    forall k ensures Lookup(XrefSchema(db, erosita), k) ==
                     if k == "DELTA" then Some(Float)
                     else if Lookup(b, k).Some? then Lookup(b, k)
                     else Lookup(a, k)
    {
      LookupAppend(a + b, d, k);
      LookupAppend(a, b, k);
    }
  }

  /** Every column a worker writes to `XREF_<name>` is a column of the
      declared table. */
  lemma WrittenColumnsDeclared(db: Database, erosita: ColumnMap)
    ensures forall c :: c in RenameColumns(Selection(db, MappedNames(erosita)), db.usedColumns) ==>
              c in Keys(XrefSchema(db, erosita))
  {
    XrefSchemaOrder(db, erosita);
    var sel := Selection(db, MappedNames(erosita));
    var used := RenameMap(db.usedColumns);
    forall p | 0 <= p < |sel|
      ensures Renamed(sel[p], db.usedColumns) in Keys(XrefSchema(db, erosita))
    {
      var c := Renamed(sel[p], db.usedColumns);
      if Lookup(used, sel[p]).Some? {
        LookupFound(used, sel[p]);
        var j :| 0 <= j < |used| && used[j] == (sel[p], c);
        assert c == MappedNames(db.usedColumns)[j];
      } else if p < |db.usedColumns| {
        LookupIsLastOccurrence(used, sel[p]);
        assert false;
      } else {
        assert c == MappedNames(erosita)[p - |db.usedColumns|];
      }
    }
  }

  /** `xref` with `"all"` visits NED, then SIMBAD. */
  lemma AllMeansEveryDatabase(cfg: Config)
    ensures DatabaseNames(AsText("all"), cfg) == ["NED", "SIMBAD"]
  {
    assert Names(Subclasses(cfg)) == ["NED", "SIMBAD"];
  }

  /** The intended `__getattr__` differs from the written one exactly on the
      names the parent class answers. */
  lemma GetAttrFinding(superAttrs: set<string>, df: Frame, item: string)
    requires Rectangular(df)
    ensures GetAttrAsWritten(superAttrs, df, item) != GetAttr(superAttrs, df, item) <==> item in superAttrs
  {
  }

  /** `hasattr(super(), "__self__")` holds for the parent proxy, so an access
      to `catalog.__self__` reaches the faulty branch. */
  lemma GetAttrCounterexample()
    ensures GetAttrAsWritten({"__self__"}, Frame(["RA"], []), "__self__") == Err(BadCall("__self__"))
    ensures GetAttr({"__self__"}, Frame(["RA"], []), "__self__") == Ok(Inherited("__self__"))
  {
  }
}
