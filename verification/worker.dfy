/** The group worker `Database._mtqrad` (pyROS/queries.py).

    A worker walks its group of sources in order.  Each source runs the retry
    loop of module `Retry`; a source that fails is recorded in the error
    list, a table reply is tagged with the source's eROSITA values and kept,
    and an exception other than a timeout ends the worker.  At the end the
    kept tables are concatenated, restricted to the database's columns and
    the eROSITA columns, renamed, and handed to the store as one append to
    `XREF_<database>`.

    Waiting for the rate limit, the progress bar and the SQL write itself
    are not part of this model; the write is returned as a value. */
module Worker {
  import opened Values
  import opened Dicts
  import opened Retry
  import opened Databases
  import Sources

  /** A source position as the worker receives it (`SkyCoord` of `RA`, `DEC`). */
  datatype Coord = Coord(ra: Value, dec: Value)

  /** One source of a group: position, search radius in arcmin, and its
      values in the eROSITA columns. */
  datatype Item = Item(coord: Coord, radius: real, data: seq<Value>)

  /** `zip(coordinates, radii, object_data)`: stops at the shortest list. */
  function Zip3(cs: seq<Coord>, rs: seq<real>, ds: seq<seq<Value>>): (items: seq<Item>)
    ensures |items| <= |cs| && |items| <= |rs| && |items| <= |ds|
    ensures |items| == |cs| || |items| == |rs| || |items| == |ds|
    ensures forall i :: 0 <= i < |items| ==> items[i] == Item(cs[i], rs[i], ds[i])
  {
    var n := if |cs| <= |rs| && |cs| <= |ds| then |cs| else if |rs| <= |ds| then |rs| else |ds|;
    seq(n, i requires 0 <= i < n => Item(cs[i], rs[i], ds[i]))
  }

  // ---------------------------------------------------------------------------
  // Tagging a reply

  /** `o[header] = [value] * len(o)` for every pair of `zip(headers, data)`,
      seen from one row. */
  function TagRow(row: map<Key, Value>, headers: seq<Key>, data: seq<Value>): map<Key, Value>
  {
    row + MapOf(Zip(headers, data))
  }

  /** The same assignments on a whole table; a table without rows still gains
      the columns. */
  function Tag(t: Table, headers: seq<Key>, data: seq<Value>): Table
  {
    Table(t.columns + (set h | h in Keys(Zip(headers, data))),
          seq(|t.rows|, j requires 0 <= j < |t.rows| => TagRow(t.rows[j], headers, data)))
  }

  // ---------------------------------------------------------------------------
  // What the sources of a group contribute, stated without the loop

  /** The outcome of the source at position `i` of a group whose first source
      is source `offset` of the run. */
  function OutcomeAt(remote: nat -> Script, offset: nat, i: nat, retries: int): Phase
  {
    Outcome(remote(offset + i), retries)
  }

  /** The data of the sources that failed, in source order. */
  function Errors(items: seq<Item>, offset: nat, remote: nat -> Script, retries: int): seq<seq<Value>>
  {
    if |items| == 0 then []
    else
      var n := |items| - 1;
      Errors(items[..n], offset, remote, retries) +
      (if OutcomeAt(remote, offset, n, retries).Failed? then [items[n].data] else [])
  }

  /** The tagged replies of the sources that answered with a table, in source order. */
  function Frames(items: seq<Item>, offset: nat, remote: nat -> Script, retries: int, headers: seq<Key>): seq<Table>
  {
    if |items| == 0 then []
    else
      var n := |items| - 1;
      var p := OutcomeAt(remote, offset, n, retries);
      Frames(items[..n], offset, remote, retries, headers) +
      (if p.Succeeded? && p.table.Some? then [Tag(p.table.value, headers, items[n].data)] else [])
  }

  /** The rows of those replies, tagged, in source order. */
  function TaggedRows(items: seq<Item>, offset: nat, remote: nat -> Script, retries: int, headers: seq<Key>): seq<map<Key, Value>>
  {
    if |items| == 0 then []
    else
      var n := |items| - 1;
      var p := OutcomeAt(remote, offset, n, retries);
      TaggedRows(items[..n], offset, remote, retries, headers) +
      (if p.Succeeded? && p.table.Some? then Tag(p.table.value, headers, items[n].data).rows else [])
  }

  /** The kind of the first exception that escapes the retry loop, if any. */
  function Escape(n: nat, offset: nat, remote: nat -> Script, retries: int): Option<string>
  {
    if n == 0 then None
    else
      var e := Escape(n - 1, offset, remote, retries);
      var p := OutcomeAt(remote, offset, n - 1, retries);
      if e.Some? then e else if p.Raised? then Some(p.kind) else None
  }

  /** The number of calls each source costs. */
  function CallCounts(n: nat, offset: nat, remote: nat -> Script, retries: int): (cs: seq<nat>)
    ensures |cs| == n
    ensures forall i :: 0 <= i < n ==> 1 <= cs[i] <= Budget(retries)
  {
    if n == 0 then []
    else CallCounts(n - 1, offset, remote, retries) + [CallCount(remote(offset + n - 1), retries)]
  }

  // ---------------------------------------------------------------------------
  // Post-processing

  /** `pd.concat(frames, ignore_index=True)`: the rows one after the other;
      the columns of every frame. */
  function Concat(frames: seq<Table>): Table
  {
    if |frames| == 0 then Table({}, [])
    else
      var t := Concat(frames[..|frames| - 1]);
      Table(t.columns + frames[|frames| - 1].columns, t.rows + frames[|frames| - 1].rows)
  }

  /** A row's value in column `c`; a row that came from a frame without that
      column reads `NaN` after the concatenation. */
  function Cell(row: map<Key, Value>, c: Key): Value
  {
    if c in row then row[c] else NaN
  }

  function Project(row: map<Key, Value>, sel: seq<Key>): (cells: seq<Value>)
    ensures |cells| == |sel|
    ensures forall p :: 0 <= p < |sel| ==> cells[p] == Cell(row, sel[p])
  {
    seq(|sel|, p requires 0 <= p < |sel| => Cell(row, sel[p]))
  }

  /** The first label of `sel`, in order, that is not among `columns`. */
  function FirstMissing(sel: seq<Key>, columns: set<Key>): (m: Option<Key>)
    ensures m.None? <==> forall c :: c in sel ==> c in columns
    ensures m.Some? ==> m.value in sel && m.value !in columns
    ensures m.Some? ==> exists i :: 0 <= i < |sel| && sel[i] == m.value && forall j :: 0 <= j < i ==> sel[j] in columns
  {
    if |sel| == 0 then None
    else if sel[0] !in columns then Some(sel[0])
    else
      var m := FirstMissing(sel[1..], columns);
      assert m.Some? ==> exists i :: 1 <= i < |sel| && sel[i] == m.value && forall j :: 1 <= j < i ==> sel[j] in columns;
      m
  }

  /** `frame.loc[:, sel]`: the selected columns in the order given, or a
      `KeyError` when a label is not a column of the frame. */
  function Select(t: Table, sel: seq<Key>): (r: Result<Sources.Frame>)
    ensures r.Ok? <==> forall c :: c in sel ==> c in t.columns
    ensures r.Err? ==> r.error.MissingColumn? && r.error.column in sel && r.error.column !in t.columns
    ensures r.Ok? ==> r.value.columns == sel && |r.value.rows| == |t.rows|
    ensures r.Ok? ==> forall j :: 0 <= j < |t.rows| ==> r.value.rows[j] == Project(t.rows[j], sel)
  {
    match FirstMissing(sel, t.columns)
    case Some(c) => Err(MissingColumn(c))
    case None => Ok(Sources.Frame(sel, seq(|t.rows|, j requires 0 <= j < |t.rows| => Project(t.rows[j], sel))))
  }

  /** `list(cls.used_columns.keys()) + _included_erosita_columns_mod`. */
  function Selection(db: Database, names: seq<Key>): seq<Key>
  {
    Keys(db.usedColumns) + names
  }

  /** The label a column gets from `rename(columns={k: v[0] for k, v in
      used_columns.items()})`. */
  function Renamed(c: Key, used: ColumnMap): Key
  {
    match Lookup(RenameMap(used), c)
    case Some(n) => n
    case None => c
  }

  /** `{k: v[0] for k, v in used_columns.items()}`. */
  function RenameMap(used: ColumnMap): (m: seq<(Key, Key)>)
    ensures |m| == |used|
    ensures forall i :: 0 <= i < |used| ==> m[i] == (used[i].0, used[i].1.0)
  {
    seq(|used|, i requires 0 <= i < |used| => (used[i].0, used[i].1.0))
  }

  function RenameColumns(cols: seq<Key>, used: ColumnMap): (r: seq<Key>)
    ensures |r| == |cols|
    ensures forall i :: 0 <= i < |cols| ==> r[i] == Renamed(cols[i], used)
  {
    seq(|cols|, i requires 0 <= i < |cols| => Renamed(cols[i], used))
  }

  function TableName(db: Database): Key
  {
    "XREF_" + db.name
  }

  /** One append to the store. */
  datatype Write = Write(table: Key, frame: Sources.Frame)

  /** What `_mtqrad` ends with: its error list, the append it made (none when
      no table was kept), the progress it reported and the calls per source;
      or the exception that left it. */
  datatype WorkerResult =
    | Returned(errors: seq<seq<Value>>, write: Option<Write>, progress: nat, calls: seq<nat>)
    | WorkerRaised(error: Error)

  /** The post-processing block: nothing is written when no table was kept. */
  function Finish(db: Database, names: seq<Key>, frames: seq<Table>, errors: seq<seq<Value>>,
                  progress: nat, calls: seq<nat>): (r: WorkerResult)
    ensures r.WorkerRaised? <==> |frames| > 0 && !(forall c :: c in Selection(db, names) ==> c in Concat(frames).columns)
    ensures r.WorkerRaised? ==> r.error.MissingColumn? && r.error.column in Selection(db, names)
    ensures r.Returned? ==> r.errors == errors && r.progress == progress && r.calls == calls
    ensures r.Returned? ==> (r.write.None? <==> |frames| == 0)
    ensures r.Returned? && r.write.Some? ==> r.write.value.table == TableName(db)
  {
    if |frames| == 0 then Returned(errors, None, progress, calls)
    else
      match Select(Concat(frames), Selection(db, names))
      case Err(e) => WorkerRaised(e)
      case Ok(f) =>
        var out := Sources.Frame(RenameColumns(f.columns, db.usedColumns), f.rows);
        Returned(errors, Some(Write(TableName(db), out)), progress, calls)
  }

  /** The kept replies of a stretch of sources lack a selected column, so
      the `.loc` of the post-processing raises. */
  predicate SelectionFails(db: Database, names: seq<Key>, items: seq<Item>, offset: nat, remote: nat -> Script)
  {
    var fs := Frames(items, offset, remote, db.retries, names);
    |fs| > 0 && !(forall c :: c in Selection(db, names) ==> c in Concat(fs).columns)
  }

  /** What the worker of the sources `items`, the first of which is source
      `offset` of the run, ends with, stated without the loop: the first
      exception that escapes a retry loop, else the post-processing of what
      the sources answered.  `progress` is the length of the worker's
      coordinate list. */
  function GroupResult(db: Database, names: seq<Key>, items: seq<Item>, offset: nat, remote: nat -> Script,
                       progress: nat): (r: WorkerResult)
    ensures r.WorkerRaised? <==>
              Escape(|items|, offset, remote, db.retries).Some? || SelectionFails(db, names, items, offset, remote)
    ensures r.WorkerRaised? ==>
              var e := Escape(|items|, offset, remote, db.retries);
              (e.Some? && r.error == RemoteFault(e.value)) ||
              (e.None? && r.error.MissingColumn? && r.error.column in Selection(db, names))
    ensures r.Returned? ==> && r.errors == Errors(items, offset, remote, db.retries)
                            && r.progress == progress
                            && r.calls == CallCounts(|items|, offset, remote, db.retries)
    ensures r.Returned? && r.write.Some? ==> r.write.value.table == TableName(db)
  {
    match Escape(|items|, offset, remote, db.retries)
    case Some(kind) => WorkerRaised(RemoteFault(kind))
    case None =>
      Finish(db, names, Frames(items, offset, remote, db.retries, names), Errors(items, offset, remote, db.retries),
             progress, CallCounts(|items|, offset, remote, db.retries))
  }

  /** `_mtqrad(coordinates, radii, object_data, ...)`, with `remote(offset + i)`
      the behaviour of the remote service toward the group's `i`-th source
      and `names` the eROSITA columns' XREF names. */
  method QueryGroup(db: Database, names: seq<Key>, coords: seq<Coord>, radii: seq<real>,
                    data: seq<seq<Value>>, offset: nat, remote: nat -> Script)
    returns (r: WorkerResult)
    ensures r == GroupResult(db, names, Zip3(coords, radii, data), offset, remote, |coords|)
    ensures r.Returned? ==> |r.calls| == |Zip3(coords, radii, data)|
    ensures r.Returned? ==> forall i :: 0 <= i < |r.calls| ==> 1 <= r.calls[i] <= Budget(db.retries)
  {
    var items := Zip3(coords, radii, data);
    var escape, frames, errors, calls := QuerySources(items, offset, remote, db.retries, names);
    if escape.Some? {
      return WorkerRaised(RemoteFault(escape.value));
    }
    r := Finish(db, names, frames, errors, |coords|, calls);
  }

  /** The source loop of `_mtqrad`: each source's retry loop in turn, its
      data kept when it fails and its reply, tagged, when it answers with a
      table; an exception other than a timeout leaves the loop. */
  method QuerySources(items: seq<Item>, offset: nat, remote: nat -> Script, retries: int, names: seq<Key>)
    returns (escape: Option<string>, frames: seq<Table>, errors: seq<seq<Value>>, calls: seq<nat>)
    ensures escape == Escape(|items|, offset, remote, retries)
    ensures escape.None? ==> && frames == Frames(items, offset, remote, retries, names)
                             && errors == Errors(items, offset, remote, retries)
                             && calls == CallCounts(|items|, offset, remote, retries)
  {
    frames, errors, calls := [], [], [];
    for i := 0 to |items|
      invariant frames == Frames(items[..i], offset, remote, retries, names)
      invariant errors == Errors(items[..i], offset, remote, retries)
      invariant calls == CallCounts(i, offset, remote, retries)
      invariant Escape(i, offset, remote, retries).None?
    {
      GroupStep(items, i, offset, remote, retries, names);
      var last, n := QuerySource(remote(offset + i), retries);
      if last.Raised? {
        RaiseEscapes(i, |items|, offset, remote, retries);
        return Some(last.kind), frames, errors, calls;
      }
      if last.Failed? {
        errors := errors + [items[i].data];
      } else if last.table.Some? {
        frames := frames + [Tag(last.table.value, names, items[i].data)];
      }
      calls := calls + [n];
    }
    assert items[..|items|] == items;
    escape := None;
  }

  // ---------------------------------------------------------------------------
  // Lemmas

  /** How the references grow by one source. */
  lemma GroupStep(items: seq<Item>, i: nat, offset: nat, remote: nat -> Script, retries: int, headers: seq<Key>)
    requires i < |items|
    ensures var p := OutcomeAt(remote, offset, i, retries);
            Errors(items[..i + 1], offset, remote, retries) ==
              Errors(items[..i], offset, remote, retries) + (if p.Failed? then [items[i].data] else [])
    ensures var p := OutcomeAt(remote, offset, i, retries);
            Frames(items[..i + 1], offset, remote, retries, headers) ==
              Frames(items[..i], offset, remote, retries, headers) +
              (if p.Succeeded? && p.table.Some? then [Tag(p.table.value, headers, items[i].data)] else [])
    ensures CallCounts(i + 1, offset, remote, retries) ==
              CallCounts(i, offset, remote, retries) + [CallCount(remote(offset + i), retries)]
  {
    assert items[..i + 1][..i] == items[..i];
    assert offset + (i + 1) - 1 == offset + i;
  }

  /** The first source that raises decides the worker's escape. */
  lemma RaiseEscapes(i: nat, n: nat, offset: nat, remote: nat -> Script, retries: int)
    requires i < n && Escape(i, offset, remote, retries).None? && OutcomeAt(remote, offset, i, retries).Raised?
    ensures Escape(n, offset, remote, retries) == Some(OutcomeAt(remote, offset, i, retries).kind)
  {
    EscapeSticks(i + 1, n, offset, remote, retries);
  }

  /** Once a source has raised, the worker's escape is decided. */
  lemma {:induction false} EscapeSticks(i: nat, n: nat, offset: nat, remote: nat -> Script, retries: int)
    requires i <= n && Escape(i, offset, remote, retries).Some?
    ensures Escape(n, offset, remote, retries) == Escape(i, offset, remote, retries)
    decreases n - i
  {
    if i < n {
      EscapeSticks(i, n - 1, offset, remote, retries);
    }
  }

  /** The worker raises exactly when some source's call raises something other
      than a timeout, and then with the first such exception. */
  lemma {:induction false} EscapeIsFirstFault(n: nat, offset: nat, remote: nat -> Script, retries: int)
    ensures Escape(n, offset, remote, retries).Some? <==>
            exists i :: 0 <= i < n && OutcomeAt(remote, offset, i, retries).Raised?
    ensures forall i :: 0 <= i < n && OutcomeAt(remote, offset, i, retries).Raised? &&
                        (forall i' :: 0 <= i' < i ==> !OutcomeAt(remote, offset, i', retries).Raised?) ==>
                        Escape(n, offset, remote, retries) == Some(OutcomeAt(remote, offset, i, retries).kind)
  {
    if n > 0 {
      EscapeIsFirstFault(n - 1, offset, remote, retries);
    }
  }

  /** A stretch of sources raises at its first source that raises. */
  lemma {:induction false} EscapeAppend(m: nat, n: nat, offset: nat, remote: nat -> Script, retries: int)
    ensures Escape(m + n, offset, remote, retries) ==
            if Escape(m, offset, remote, retries).Some? then Escape(m, offset, remote, retries)
            else Escape(n, offset + m, remote, retries)
  {
    if n > 0 {
      EscapeAppend(m, n - 1, offset, remote, retries);
      assert offset + m + (n - 1) == offset + (m + n - 1);
    }
  }

  /** The error list holds the data of exactly the sources that failed. */
  lemma {:induction false} ErrorsAreFailures(items: seq<Item>, offset: nat, remote: nat -> Script, retries: int)
    ensures |Errors(items, offset, remote, retries)| <= |items|
    ensures forall d :: d in Errors(items, offset, remote, retries) <==>
                        exists i :: 0 <= i < |items| && OutcomeAt(remote, offset, i, retries).Failed? && items[i].data == d
  {
    if |items| > 0 {
      var n := |items| - 1;
      ErrorsAreFailures(items[..n], offset, remote, retries);
      forall d | d in Errors(items, offset, remote, retries)
        ensures exists i :: 0 <= i < |items| && OutcomeAt(remote, offset, i, retries).Failed? && items[i].data == d
      {
        if d in Errors(items[..n], offset, remote, retries) {
          var i :| 0 <= i < n && OutcomeAt(remote, offset, i, retries).Failed? && items[..n][i].data == d;
          assert items[i].data == d;
        } else {
          assert items[n].data == d;
        }
      }
      forall d | exists i :: 0 <= i < |items| && OutcomeAt(remote, offset, i, retries).Failed? && items[i].data == d
        ensures d in Errors(items, offset, remote, retries)
      {
        var i :| 0 <= i < |items| && OutcomeAt(remote, offset, i, retries).Failed? && items[i].data == d;
        if i < n {
          assert items[..n][i] == items[i];
        }
      }
    }
  }

  /** The error list is empty exactly when no source failed. */
  lemma {:induction false} NoErrorsIffNoFailures(items: seq<Item>, offset: nat, remote: nat -> Script, retries: int)
    ensures |Errors(items, offset, remote, retries)| == 0 <==>
            forall i :: 0 <= i < |items| ==> !OutcomeAt(remote, offset, i, retries).Failed?
  {
    ErrorsAreFailures(items, offset, remote, retries);
    var es := Errors(items, offset, remote, retries);
    assert forall i :: 0 <= i < |items| && OutcomeAt(remote, offset, i, retries).Failed? ==> items[i].data in es;
    if |es| > 0 {
      assert es[0] in es;
    }
  }

  /** The concatenated replies hold the tagged rows in source order. */
  lemma {:induction false} ConcatFrames(items: seq<Item>, offset: nat, remote: nat -> Script, retries: int, headers: seq<Key>)
    ensures Concat(Frames(items, offset, remote, retries, headers)).rows ==
            TaggedRows(items, offset, remote, retries, headers)
  {
    if |items| > 0 {
      var n := |items| - 1;
      ConcatFrames(items[..n], offset, remote, retries, headers);
      var fs := Frames(items, offset, remote, retries, headers);
      var fs' := Frames(items[..n], offset, remote, retries, headers);
      if |fs| > |fs'| {
        assert fs[..|fs| - 1] == fs';
      } else {
        assert fs == fs';
      }
    }
  }

  /** Nothing is kept, so nothing is written, exactly when no source answered
      with a table. */
  lemma {:induction false} NoFramesWithoutTables(items: seq<Item>, offset: nat, remote: nat -> Script, retries: int, headers: seq<Key>)
    ensures |Frames(items, offset, remote, retries, headers)| == 0 <==>
            forall i :: 0 <= i < |items| ==>
              !(OutcomeAt(remote, offset, i, retries).Succeeded? && OutcomeAt(remote, offset, i, retries).table.Some?)
  {
    if |items| > 0 {
      NoFramesWithoutTables(items[..|items| - 1], offset, remote, retries, headers);
    }
  }

  /** What a worker that did not raise writes: one append to `XREF_<name>`
      with the selected columns renamed, holding every row of every table
      reply in source order, tagged and projected; and no append when no
      source answered with a table. */
  lemma WrittenTable(db: Database, names: seq<Key>, items: seq<Item>, offset: nat, remote: nat -> Script,
                     errors: seq<seq<Value>>, progress: nat, calls: seq<nat>)
    ensures var fs := Frames(items, offset, remote, db.retries, names);
            var rows := TaggedRows(items, offset, remote, db.retries, names);
            var sel := Selection(db, names);
            var r := Finish(db, names, fs, errors, progress, calls);
            && (r.Returned? && r.write.None? <==>
                  forall i :: 0 <= i < |items| ==>
                    !(OutcomeAt(remote, offset, i, db.retries).Succeeded? &&
                      OutcomeAt(remote, offset, i, db.retries).table.Some?))
            && (r.Returned? && r.write.Some? ==>
                  && r.write.value.table == "XREF_" + db.name
                  && r.write.value.frame.columns == RenameColumns(sel, db.usedColumns)
                  && |r.write.value.frame.rows| == |rows|
                  && forall j :: 0 <= j < |rows| ==> r.write.value.frame.rows[j] == Project(rows[j], sel))
            && (r.WorkerRaised? <==> |fs| > 0 && !(forall c :: c in sel ==> c in Concat(fs).columns))
            && (r.WorkerRaised? ==> r.error.MissingColumn? && r.error.column in sel)
  {
    ConcatFrames(items, offset, remote, db.retries, names);
    NoFramesWithoutTables(items, offset, remote, db.retries, names);
  }

  /** A tagged row read in an eROSITA column holds the source's value for that
      column (the last one, should two columns share an XREF name). */
  lemma TaggedCell(row: map<Key, Value>, headers: seq<Key>, data: seq<Value>, sel: seq<Key>, p: nat, j: nat)
    requires p < |sel| && j < |headers| && j < |data| && sel[p] == headers[j]
    requires forall j' :: j < j' < |headers| && j' < |data| ==> headers[j'] != headers[j]
    ensures Project(TagRow(row, headers, data), sel)[p] == data[j]
  {
    var ps := Zip(headers, data);
    MapOfLookup(ps);
    LookupIsLastOccurrence(ps, headers[j]);
    assert ps[j] == (headers[j], data[j]);
  }

  /** The errors of two consecutive stretches of a run are the errors of the
      whole stretch. */
  lemma {:induction false} ErrorsAppend(a: seq<Item>, b: seq<Item>, offset: nat, remote: nat -> Script, retries: int)
    ensures Errors(a + b, offset, remote, retries) ==
            Errors(a, offset, remote, retries) + Errors(b, offset + |a|, remote, retries)
  {
    if |b| == 0 {
      assert a + b == a;
    } else {
      var n := |b| - 1;
      assert (a + b)[..|a + b| - 1] == a + b[..n];
      assert (a + b)[|a + b| - 1] == b[n];
      assert OutcomeAt(remote, offset, |a| + n, retries) == OutcomeAt(remote, offset + |a|, n, retries);
      ErrorsAppend(a, b[..n], offset, remote, retries);
    }
  }
}
