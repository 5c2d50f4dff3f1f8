/** eROSITA source records (pyROS/erosita/sources.py).

    A source object is modelled by its attributes: a map from attribute name
    to value.  Keyword arguments are a Python dict, so they are a list of
    (name, value) pairs; a later pair for the same name wins, as it would in
    the dict the caller built. */
module Sources {
  import opened Values
  import opened Dicts

  type Record = map<Key, Value>

  /** A source class: its name and the `_standard_keys` it declares. */
  datatype SourceClass = SourceClass(name: string, standardKeys: seq<Key>)

  /** The base class declares no standard keys ... */
  const EROSITASource := SourceClass("eROSITASource", [])

  /** ... and `eRASS1Source` inherits that empty list unchanged. */
  const ERASS1Source := SourceClass("eRASS1Source", EROSITASource.standardKeys)

  /** A pandas DataFrame: column labels in order and each row's cells in
      column order. */
  datatype Frame = Frame(columns: seq<Key>, rows: seq<seq<Value>>)

  /** Every row of a DataFrame has one cell per column. */
  predicate Rectangular(df: Frame) {
    forall k :: 0 <= k < |df.rows| ==> |df.rows[k]| == |df.columns|
  }

  /** The attributes `cls(**kwargs)` ends up with: every keyword argument,
      then `None` for each standard key that was not supplied. */
  function MakeSource(cls: SourceClass, kwargs: seq<(Key, Value)>): Record
  {
    MapOf(kwargs) + map k | k in cls.standardKeys && k !in Keys(kwargs) :: Null
  }

  /** `eROSITASource.__init__`: the two loops over the keyword arguments and
      the standard keys. */
  method InitSource(cls: SourceClass, kwargs: seq<(Key, Value)>) returns (r: Record)
    ensures forall k :: k in r <==> k in Keys(kwargs) || k in cls.standardKeys
    ensures forall k :: k in Keys(kwargs) ==> Lookup(kwargs, k) == Some(r[k])
    ensures forall k :: k in cls.standardKeys && k !in Keys(kwargs) ==> r[k] == Null
    ensures r == MakeSource(cls, kwargs)
  {
    r := map[];
    for i := 0 to |kwargs|
      invariant r == MapOf(kwargs[..i])
    {
      assert kwargs[..i + 1][..i] == kwargs[..i];
      r := r[kwargs[i].0 := kwargs[i].1];
    }
    assert kwargs[..|kwargs|] == kwargs;
    MapOfLookup(kwargs);
    ghost var supplied := r;
    for i := 0 to |cls.standardKeys|
      invariant forall k :: k in r <==> k in Keys(kwargs) || k in cls.standardKeys[..i]
      invariant forall k :: k in Keys(kwargs) ==> r[k] == supplied[k]
      invariant forall k :: k in cls.standardKeys[..i] && k !in Keys(kwargs) ==> r[k] == Null
    {
      var k := cls.standardKeys[i];
      assert cls.standardKeys[..i + 1] == cls.standardKeys[..i] + [k];
      if k !in Keys(kwargs) {
        r := r[k := Null];
      }
    }
    assert cls.standardKeys[..|cls.standardKeys|] == cls.standardKeys;
  }

  /** The keyword arguments `from_pandas` builds for one row: the dict
      comprehension over `zip(columns, row)`. */
  function RowKwargs(columns: seq<Key>, row: seq<Value>): seq<(Key, Value)>
  {
    FromPairs(Zip(columns, row))
  }

  /** `cls.from_pandas(df)`: one record per row, in row order. */
  function FromPandas(cls: SourceClass, df: Frame): (out: seq<Record>)
    ensures |out| == |df.rows|
  {
    seq(|df.rows|, k requires 0 <= k < |df.rows| => MakeSource(cls, RowKwargs(df.columns, df.rows[k])))
  }

  /** Position `j` holds the last column labelled `columns[j]`. */
  predicate LastLabel(columns: seq<Key>, j: nat)
    requires j < |columns|
  {
    forall j' :: j < j' < |columns| ==> columns[j'] != columns[j]
  }

  // ---------------------------------------------------------------------------
  // Lemmas

  /** The attributes of a constructed source: exactly the supplied names and
      the standard keys; a supplied value is kept even for a standard key;
      an unsupplied standard key is `None`. */
  lemma MakeSourceFields(cls: SourceClass, kwargs: seq<(Key, Value)>)
    ensures forall k :: k in MakeSource(cls, kwargs) <==> k in Keys(kwargs) || k in cls.standardKeys
    ensures forall k :: k in Keys(kwargs) ==> Lookup(kwargs, k) == Some(MakeSource(cls, kwargs)[k])
    ensures forall k :: k in cls.standardKeys && k !in Keys(kwargs) ==> MakeSource(cls, kwargs)[k] == Null
  {
    MapOfLookup(kwargs);
  }

  /** The cell rule of `from_pandas`: record `k` holds, under every column
      label, row `k`'s value in the last column with that label. */
  lemma {:induction false} FromPandasCells(cls: SourceClass, df: Frame)
    requires Rectangular(df)
    ensures forall k, j :: 0 <= k < |df.rows| && 0 <= j < |df.columns| && LastLabel(df.columns, j) ==>
                           df.columns[j] in FromPandas(cls, df)[k] &&
                           FromPandas(cls, df)[k][df.columns[j]] == df.rows[k][j]
  {
    forall k, j | 0 <= k < |df.rows| && 0 <= j < |df.columns| && LastLabel(df.columns, j)
      ensures df.columns[j] in FromPandas(cls, df)[k]
      ensures FromPandas(cls, df)[k][df.columns[j]] == df.rows[k][j]
    {
      var ps := Zip(df.columns, df.rows[k]);
      var kw := RowKwargs(df.columns, df.rows[k]);
      var c := df.columns[j];
      FromPairsSpec(ps);
      LookupIsLastOccurrence(ps, c);
      assert ps[j].0 == c;
      assert Lookup(ps, c) == Some(df.rows[k][j]);
      LookupIsLastOccurrence(kw, c);
      MakeSourceFields(cls, kw);
    }
  }

  /** An `eRASS1Source` built from a DataFrame row has exactly the frame's
      columns as attributes: no standard key is added. */
  lemma {:induction false} ERASS1RecordsHaveExactlyTheColumns(df: Frame)
    requires Rectangular(df)
    ensures forall k :: 0 <= k < |df.rows| ==>
                        FromPandas(ERASS1Source, df)[k].Keys == set c | c in df.columns
  {
    forall k | 0 <= k < |df.rows|
      ensures FromPandas(ERASS1Source, df)[k].Keys == set c | c in df.columns
    {
      var ps := Zip(df.columns, df.rows[k]);
      var kw := RowKwargs(df.columns, df.rows[k]);
      FromPairsSpec(ps);
      DedupMembers(Keys(ps));
      assert Keys(ps) == df.columns;
      MakeSourceFields(ERASS1Source, kw);
    }
  }
}
