/** The reference databases and their selection by name: `Database`, `NED`,
    `SIMBAD` and `Database.__new__` in pyROS/queries.py. */
module Databases {
  import opened Values
  import opened Dicts

  datatype SqlType = SqlType(name: string)

  const Float := SqlType("FLOAT")

  /** A `schema` of the configuration: a dict from a column name to the pair
      (the column's name in the XREF table, its SQL type). */
  type ColumnMap = seq<(Key, (Key, SqlType))>

  /** One reference database class and the class attributes the query code reads. */
  datatype Database = Database(
    name: Key,               // the class name, also the `XREF_<name>` suffix
    maxCallFrequency: real,  // calls per second
    maxThreads: Option<int>,
    usedColumns: ColumnMap,
    retries: int)

  /** The per-database entries of the configuration the classes read at import time. */
  datatype Settings = Settings(maxCallFrequency: real, maxThreads: Option<int>, schema: ColumnMap, retries: int)

  /** The configuration: the two databases and the eROSITA columns that tag
      every match. */
  datatype Config = Config(ned: Settings, simbad: Settings, erosita: ColumnMap)

  function FromSettings(name: Key, s: Settings): Database
  {
    Database(name, s.maxCallFrequency, s.maxThreads, s.schema, s.retries)
  }

  /** `Database.__subclasses__()`, in the order the classes are defined. */
  function Subclasses(cfg: Config): seq<Database>
  {
    [FromSettings("NED", cfg.ned), FromSettings("SIMBAD", cfg.simbad)]
  }

  function Names(classes: seq<Database>): (ns: seq<Key>)
    ensures |ns| == |classes|
    ensures forall i :: 0 <= i < |classes| ==> ns[i] == classes[i].name
  {
    seq(|classes|, i requires 0 <= i < |classes| => classes[i].name)
  }

  /** The XREF names of a column map's columns, in order. */
  function MappedNames(cm: ColumnMap): (ns: seq<Key>)
    ensures |ns| == |cm|
    ensures forall i :: 0 <= i < |cm| ==> ns[i] == cm[i].1.0
  {
    seq(|cm|, i requires 0 <= i < |cm| => cm[i].1.0)
  }

  /** `Database(name)`: builds `{cls.__name__: cls}` over the subclasses and
      looks the name up, raising `ValueError` for a name that is not there. */
  function Dispatch(classes: seq<Database>, name: Key): (r: Result<Database>)
    ensures r.Ok? <==> name in Names(classes)
    ensures r.Ok? ==> r.value.name == name && r.value in classes
    ensures r.Err? ==> r.error == UnknownDatabase(name)
  {
    var ps := seq(|classes|, i requires 0 <= i < |classes| => (classes[i].name, classes[i]));
    FromPairsSpec(ps);
    LookupIsLastOccurrence(ps, name);
    assert Keys(ps) == Names(classes);
    match Lookup(FromPairs(ps), name)
    case Some(c) => LookupFound(ps, name); Ok(c)
    case None => Err(UnknownDatabase(name))
  }

  /** Exactly the two configured names select a database. */
  lemma DispatchRegistered(cfg: Config, name: Key)
    ensures Dispatch(Subclasses(cfg), name).Ok? <==> name == "NED" || name == "SIMBAD"
    ensures Dispatch(Subclasses(cfg), name).Ok? ==>
              Dispatch(Subclasses(cfg), name).value ==
                FromSettings(name, if name == "NED" then cfg.ned else cfg.simbad)
  {
    assert Names(Subclasses(cfg)) == ["NED", "SIMBAD"];
  }
}
