/** The query driver `Database.query_radius` (pyROS/queries.py).

    The driver checks its arguments, reads each object's position and
    eROSITA values, cuts the objects into groups and runs one group worker
    per group on a thread pool, then adds up the workers' error counts.  The
    pool's concurrency is not part of this model: the workers are run one
    after the other in group order, which is also the order in which
    `executor.map` hands back their results. */
module Driver {
  import opened Values
  import opened Partition
  import opened Retry
  import opened Databases
  import opened Worker
  import Sources

  // ---------------------------------------------------------------------------
  // Radii

  /** A search radius as the worker receives it: a number, or (as the code
      is written) a one-element list of numbers. */
  datatype Radius = Scalar(arcmin: real) | Listed(arcmins: seq<real>)

  /** `if len(radii) == 1: radii = [radii]*len(objects)` as written: every
      entry of the new list is the one-element list itself. */
  function BroadcastAsWritten(radii: seq<real>, n: nat): (r: seq<Radius>)
    ensures |radii| == 1 ==> |r| == n && forall i :: 0 <= i < n ==> r[i] == Listed(radii)
    ensures |radii| != 1 ==> |r| == |radii| && forall i :: 0 <= i < |radii| ==> r[i] == Scalar(radii[i])
  {
    if |radii| == 1 then seq(n, _ => Listed(radii))
    else seq(|radii|, i requires 0 <= i < |radii| => Scalar(radii[i]))
  }

  /** The broadcast as intended: one radius given stands for every object. */
  function Broadcast(radii: seq<real>, n: nat): (r: seq<real>)
    ensures |radii| == 1 ==> |r| == n && forall i :: 0 <= i < n ==> r[i] == radii[0]
    ensures |radii| != 1 ==> r == radii
  {
    if |radii| == 1 then seq(n, _ => radii[0]) else radii
  }

  // ---------------------------------------------------------------------------
  // Reading the objects

  /** Every object has every attribute in `cols`. */
  predicate HasAll(objects: seq<Sources.Record>, cols: seq<Key>)
  {
    forall i, j :: 0 <= i < |objects| && 0 <= j < |cols| ==> cols[j] in objects[i]
  }

  /** An object carries a position. */
  predicate Located(o: Sources.Record)
  {
    "RA" in o && "DEC" in o
  }

  /** `[getattr(o, col) for col in cols]` for one object: the first absent
      attribute, in column order, raises `AttributeError`. */
  function Row(o: Sources.Record, cols: seq<Key>): (r: Result<seq<Value>>)
    ensures r.Ok? <==> forall c :: c in cols ==> c in o
    ensures r.Ok? ==> |r.value| == |cols| && forall j :: 0 <= j < |cols| ==> r.value[j] == o[cols[j]]
    ensures r.Err? ==> exists j :: && 0 <= j < |cols| && r.error == SourceAttributeMissing(cols[j])
                                   && cols[j] !in o && forall j' :: 0 <= j' < j ==> cols[j'] in o
  {
    match FirstMissing(cols, o.Keys)
    case Some(c) => Err(SourceAttributeMissing(c))
    case None => Ok(seq(|cols|, j requires 0 <= j < |cols| => o[cols[j]]))
  }

  /** The same over every object, in object order: the first object that
      lacks a column raises, for its first absent column. */
  function Attributes(objects: seq<Sources.Record>, cols: seq<Key>): (r: Result<seq<seq<Value>>>)
    ensures r.Ok? <==> HasAll(objects, cols)
    ensures r.Ok? ==> |r.value| == |objects|
    ensures r.Ok? ==> forall i :: 0 <= i < |objects| ==> |r.value[i]| == |cols|
    ensures r.Ok? ==> forall i, j :: 0 <= i < |objects| && 0 <= j < |cols| ==> r.value[i][j] == objects[i][cols[j]]
    ensures r.Err? ==> exists i :: 0 <= i < |objects| && HasAll(objects[..i], cols) && Row(objects[i], cols) == Err(r.error)
  {
    if |objects| == 0 then Ok([])
    else
      match Row(objects[0], cols)
      case Err(e) =>
        assert HasAll(objects[..0], cols);
        Err(e)
      case Ok(v) =>
        match Attributes(objects[1..], cols)
        case Err(e) =>
          FirstLackingShifts(objects, cols, e);
          Err(e)
        case Ok(vs) =>
          assert forall i :: 0 <= i < |objects| - 1 ==> objects[1..][i] == objects[i + 1];
          Ok([v] + vs)
  }

  /** An object lacking a column after a first object that has them all is,
      counted from the first object, still the first object lacking one. */
  lemma FirstLackingShifts(objects: seq<Sources.Record>, cols: seq<Key>, e: Error)
    requires |objects| > 0 && forall c :: c in cols ==> c in objects[0]
    requires exists i :: 0 <= i < |objects| - 1 && HasAll(objects[1..][..i], cols) && Row(objects[1..][i], cols) == Err(e)
    ensures exists i :: 0 <= i < |objects| && HasAll(objects[..i], cols) && Row(objects[i], cols) == Err(e)
  {
    var i :| 0 <= i < |objects| - 1 && HasAll(objects[1..][..i], cols) && Row(objects[1..][i], cols) == Err(e);
    HasAllCons(objects, i + 1, cols);
    assert objects[1..][i] == objects[i + 1];
  }

  /** The positions: `RA` then `DEC` of every object.  The first object
      without a position raises, for `RA` when it lacks that, else for
      `DEC`. */
  function Coords(objects: seq<Sources.Record>): (r: Result<seq<Coord>>)
    ensures r.Ok? <==> forall i :: 0 <= i < |objects| ==> Located(objects[i])
    ensures r.Ok? ==> |r.value| == |objects| &&
                      forall i :: 0 <= i < |objects| ==> r.value[i] == Coord(objects[i]["RA"], objects[i]["DEC"])
    ensures r.Err? ==> exists i :: && 0 <= i < |objects| && !Located(objects[i])
                                   && (forall i' :: 0 <= i' < i ==> Located(objects[i']))
                                   && r.error == SourceAttributeMissing(if "RA" !in objects[i] then "RA" else "DEC")
  {
    var cols := ["RA", "DEC"];
    LocatedIsHasAll(objects);
    match Attributes(objects, cols)
    case Err(e) =>
      var i :| 0 <= i < |objects| && HasAll(objects[..i], cols) && Row(objects[i], cols) == Err(e);
      LocatedIsHasAll(objects[..i]);
      assert forall i' :: 0 <= i' < i ==> objects[..i][i'] == objects[i'];
      PositionMissing(objects[i]);
      Err(e)
    case Ok(vs) =>
      assert cols[0] == "RA" && cols[1] == "DEC";
      Ok(seq(|objects|, i requires 0 <= i < |objects| => Coord(vs[i][0], vs[i][1])))
  }

  /** The first `n` objects have every column when the first object has
      them and the `n - 1` after it do. */
  lemma HasAllCons(objects: seq<Sources.Record>, n: nat, cols: seq<Key>)
    requires 0 < n <= |objects|
    requires forall c :: c in cols ==> c in objects[0]
    requires HasAll(objects[1..][..n - 1], cols)
    ensures HasAll(objects[..n], cols)
  {
    forall i, j | 0 <= i < n && 0 <= j < |cols|
      ensures cols[j] in objects[..n][i]
    {
      if i > 0 {
        assert objects[..n][i] == objects[1..][..n - 1][i - 1];
      }
    }
  }

  lemma LocatedIsHasAll(objects: seq<Sources.Record>)
    ensures HasAll(objects, ["RA", "DEC"]) <==> forall i :: 0 <= i < |objects| ==> Located(objects[i])
  {
    var cols := ["RA", "DEC"];
    assert cols[0] == "RA" && cols[1] == "DEC";
  }

  /** The attribute reading a position raises for. */
  lemma PositionMissing(o: Sources.Record)
    requires Row(o, ["RA", "DEC"]).Err?
    ensures !Located(o)
    ensures Row(o, ["RA", "DEC"]).error == SourceAttributeMissing(if "RA" !in o then "RA" else "DEC")
  {
    var cols := ["RA", "DEC"];
    assert cols[0] == "RA" && cols[1] == "DEC";
    var j :| 0 <= j < |cols| && Row(o, cols).error == SourceAttributeMissing(cols[j]) && cols[j] !in o &&
             forall j' :: 0 <= j' < j ==> cols[j'] in o;
    if j == 1 {
      assert cols[0] in o;
    }
  }

  // ---------------------------------------------------------------------------
  // Pool and plan

  /** `np.amin([cls.max_threads, maxworkers])`, or `maxworkers` when the
      database sets no limit. */
  function PoolSize(maxThreads: Option<int>, maxworkers: int): (p: int)
    ensures maxThreads.None? ==> p == maxworkers
    ensures maxThreads.Some? ==> p <= maxThreads.value && p <= maxworkers
    ensures maxThreads.Some? ==> p == maxThreads.value || p == maxworkers
  {
    match maxThreads
    case None => maxworkers
    case Some(t) => if t <= maxworkers then t else maxworkers
  }

  /** The exceptions `query_radius` can end with. */
  predicate QueryError(e: Error)
  {
    e.ShapeMismatch? || e.SourceAttributeMissing? || e.ZeroCallFrequency? || e.ZeroGroupSize? ||
    e.InvalidGroupCount? || e.InvalidPoolSize? || e.RemoteFault? || e.MissingColumn?
  }

  /** What the driver has in hand once every check has passed. */
  datatype Plan = Plan(coords: seq<Coord>, radii: seq<real>, data: seq<seq<Value>>, pool: int, groups: nat)

  /** Everything `query_radius` does before it starts the pool, with its
      checks in the order the code makes them: the shape assertion, the
      positions, the eROSITA values, the call frequency (a division), the
      group size (a division), the number of pieces `split` is asked for
      and the pool size. */
  function Prepare(db: Database, objects: seq<Sources.Record>, radii: seq<real>, maxworkers: int,
                   groupSize: int, erosita: ColumnMap): (r: Result<Plan>)
    ensures r.Err? ==> QueryError(r.error) && !r.error.RemoteFault? && !r.error.MissingColumn?
    ensures |radii| != 1 && |radii| != |objects| ==> r == Err(ShapeMismatch(|radii|, |objects|))
    ensures (|radii| == 1 || |radii| == |objects|) && !(forall i :: 0 <= i < |objects| ==> Located(objects[i])) ==>
              r == Err(SourceAttributeMissing("RA")) || r == Err(SourceAttributeMissing("DEC"))
    ensures (|radii| == 1 || |radii| == |objects|) && !(forall i :: 0 <= i < |objects| ==> Located(objects[i])) ==>
              r == Err(Coords(objects).error)
    ensures r.Err? && r.error.SourceAttributeMissing? ==>
              !(forall i :: 0 <= i < |objects| ==> Located(objects[i])) || !HasAll(objects, Dicts.Keys(erosita))
    ensures r.Err? && r.error.ShapeMismatch? ==> |radii| != 1 && |radii| != |objects|
    ensures (|radii| == 1 || |radii| == |objects|) && (forall i :: 0 <= i < |objects| ==> Located(objects[i])) &&
            !HasAll(objects, Dicts.Keys(erosita)) ==>
              r == Err(Attributes(objects, Dicts.Keys(erosita)).error)
    ensures (|radii| == 1 || |radii| == |objects|) && (forall i :: 0 <= i < |objects| ==> Located(objects[i])) &&
            HasAll(objects, Dicts.Keys(erosita)) ==>
              && (db.maxCallFrequency == 0.0 ==> r == Err(ZeroCallFrequency))
              && (db.maxCallFrequency != 0.0 && groupSize == 0 ==> r == Err(ZeroGroupSize))
              && (db.maxCallFrequency != 0.0 && groupSize != 0 && GroupCount(|objects|, groupSize) <= 0 ==>
                    r == Err(InvalidGroupCount(GroupCount(|objects|, groupSize))))
              && (db.maxCallFrequency != 0.0 && groupSize != 0 && GroupCount(|objects|, groupSize) > 0 &&
                  PoolSize(db.maxThreads, maxworkers) <= 0 ==>
                    r == Err(InvalidPoolSize(PoolSize(db.maxThreads, maxworkers))))
    ensures r.Err? && r.error.InvalidGroupCount? ==> groupSize < 0 && |objects| > 0 && r.error.count <= 0
    ensures r.Ok? <==> && (|radii| == 1 || |radii| == |objects|)
                       && (forall i :: 0 <= i < |objects| ==> Located(objects[i]))
                       && HasAll(objects, Dicts.Keys(erosita))
                       && db.maxCallFrequency != 0.0
                       && groupSize != 0 && GroupCount(|objects|, groupSize) > 0
                       && PoolSize(db.maxThreads, maxworkers) > 0
    ensures r.Ok? ==> && |r.value.coords| == |objects| && |r.value.radii| == |objects| && |r.value.data| == |objects|
                      && (forall i :: 0 <= i < |objects| ==> r.value.coords[i] == Coord(objects[i]["RA"], objects[i]["DEC"]))
                      && r.value.radii == Broadcast(radii, |objects|)
                      && r.value.pool == PoolSize(db.maxThreads, maxworkers)
                      && r.value.groups == GroupCount(|objects|, groupSize)
    ensures r.Ok? ==> forall i :: 0 <= i < |objects| ==> |r.value.data[i]| == |erosita|
    ensures r.Ok? ==> forall i, j :: 0 <= i < |objects| && 0 <= j < |erosita| ==>
                        r.value.data[i][j] == objects[i][erosita[j].0]
  {
    var rs := Broadcast(radii, |objects|);
    if |rs| != |objects| then Err(ShapeMismatch(|rs|, |objects|))
    else
      match Coords(objects)
      case Err(e) => Err(e)
      case Ok(coords) =>
        match Attributes(objects, Dicts.Keys(erosita))
        case Err(e) => Err(e)
        case Ok(data) =>
          var pool := PoolSize(db.maxThreads, maxworkers);
          if db.maxCallFrequency == 0.0 then Err(ZeroCallFrequency)
          else if groupSize == 0 then Err(ZeroGroupSize)
          else
            var k := GroupCount(|objects|, groupSize);
            if k <= 0 then Err(InvalidGroupCount(k))
            else if pool <= 0 then Err(InvalidPoolSize(pool))
            else Ok(Plan(coords, rs, data, pool, k))
  }

  // ---------------------------------------------------------------------------
  // The run

  /** How `query_radius` ends: an exception before the pool started; an
      exception from a worker, after every worker has run and made its
      append; or the total number of failed sources. */
  datatype Run =
    | Rejected(error: Error)
    | Aborted(error: Error, writes: seq<Write>)
    | Finished(errorCount: nat, writes: seq<Write>, progress: nat)

  /** What the worker of group `g` ends with, when the run's sources `items`
      are cut into `k` groups. */
  function Group(db: Database, names: seq<Key>, items: seq<Item>, k: nat, g: nat, remote: nat -> Script): WorkerResult
    requires g < k
  {
    GroupBounds(|items|, k, g);
    var lo := Start(|items|, k, g);
    var hi := Start(|items|, k, g + 1);
    GroupResult(db, names, items[lo..hi], lo, remote, hi - lo)
  }

  /** The workers' results, in group order. */
  function Results(db: Database, names: seq<Key>, items: seq<Item>, k: nat, remote: nat -> Script): seq<WorkerResult>
  {
    seq(k, g requires 0 <= g < k => Group(db, names, items, k, g, remote))
  }

  /** The replies kept by the worker of group `g` lack a selected column. */
  predicate GroupSelectionFails(db: Database, names: seq<Key>, items: seq<Item>, k: nat, g: nat, remote: nat -> Script)
    requires g < k
  {
    GroupBounds(|items|, k, g);
    var lo := Start(|items|, k, g);
    SelectionFails(db, names, items[lo..Start(|items|, k, g + 1)], lo, remote)
  }

  /** The kind of the first exception that escapes a retry loop of the
      worker of group `g`, if any. */
  function GroupEscape(n: nat, k: nat, g: nat, remote: nat -> Script, retries: int): Option<string>
    requires 0 < k
  {
    Escape(PieceSize(n, k, g), Start(n, k, g), remote, retries)
  }

  /** The appends made by workers with the results `rs`, in order.  Every
      worker runs to its end whatever the others do, so a worker's append is
      made even when an earlier one raised. */
  function Appends(rs: seq<WorkerResult>): seq<Write>
  {
    if |rs| == 0 then []
    else
      var last := rs[|rs| - 1];
      Appends(rs[..|rs| - 1]) + (if last.Returned? && last.write.Some? then [last.write.value] else [])
  }

  /** The exception of the first of the results `rs` that raised: iterating
      `executor.map`'s results re-raises it. */
  function FirstRaised(rs: seq<WorkerResult>): Option<Error>
  {
    if |rs| == 0 then None
    else
      var earlier := FirstRaised(rs[..|rs| - 1]);
      var last := rs[|rs| - 1];
      if earlier.None? && last.WorkerRaised? then Some(last.error) else earlier
  }

  /** What running the sources `items` in `k` groups ends with: every
      group's append in group order; an exception exactly when some source
      raises something other than a timeout or some group's replies lack a
      selected column, and then the exception of the first group that
      raised; otherwise the number of failed sources. */
  predicate Ran(db: Database, names: seq<Key>, items: seq<Item>, k: nat, remote: nat -> Script, r: Run)
  {
    && (r.Finished? || r.Aborted?)
    && r.writes == Appends(Results(db, names, items, k, remote))
    && (r.Finished? <==> && Escape(|items|, 0, remote, db.retries).None?
                         && forall g :: 0 <= g < k ==> !GroupSelectionFails(db, names, items, k, g, remote))
    && (r.Aborted? ==> FirstRaised(Results(db, names, items, k, remote)) == Some(r.error))
    && (r.Aborted? ==> var e := Escape(|items|, 0, remote, db.retries);
                       (e.Some? && r.error == RemoteFault(e.value)) ||
                       (r.error.MissingColumn? && r.error.column in Selection(db, names)))
    && (r.Finished? ==> r.errorCount == |Errors(items, 0, remote, db.retries)| && r.progress == |items|)
  }

  /** `query_radius` on the database `db`: rejected by the first failing
      check, or the run of the prepared plan. */
  predicate QueryRun(db: Database, objects: seq<Sources.Record>, radii: seq<real>, maxworkers: int, groupSize: int,
                     erosita: ColumnMap, remote: nat -> Script, r: Run)
  {
    match Prepare(db, objects, radii, maxworkers, groupSize, erosita)
    case Err(e) => r == Rejected(e)
    case Ok(plan) => Ran(db, MappedNames(erosita), Zip3(plan.coords, plan.radii, plan.data), plan.groups, remote, r)
  }

  /** `Database.query_radius(objects, radii, maxworkers, connection,
      group_size)` for the database `db`, with `erosita` the configured
      eROSITA columns and `remote(i)` the remote service's behaviour toward
      object `i`. */
  method QueryRadius(db: Database, objects: seq<Sources.Record>, radii: seq<real>, maxworkers: int,
                     groupSize: int, erosita: ColumnMap, remote: nat -> Script)
    returns (r: Run)
    ensures QueryRun(db, objects, radii, maxworkers, groupSize, erosita, remote, r)
    ensures r.Finished? ==> r.progress == |objects|
    ensures !r.Rejected? ==> forall w :: w in r.writes ==> w.table == TableName(db)
    ensures !r.Finished? ==> QueryError(r.error)
  {
    var plan := Prepare(db, objects, radii, maxworkers, groupSize, erosita);
    if plan.Err? {
      return Rejected(plan.error);
    }
    r := RunGroups(db, MappedNames(erosita), plan.value.coords, plan.value.radii, plan.value.data,
                   plan.value.groups, remote);
  }

  /** The running totals of the result loop, and the first exception seen. */
  datatype Tally = Tally(errorCount: nat, writes: seq<Write>, progress: nat, raised: Option<Error>)

  /** One worker's result taken into the totals: its append (made whatever the
      other workers did), its error count, its progress; an exception is
      kept only if none came from an earlier group. */
  function Absorb(t: Tally, res: WorkerResult): Tally
  {
    match res
    case WorkerRaised(e) => if t.raised.None? then t.(raised := Some(e)) else t
    case Returned(errors, write, count, _) =>
      var ws := if write.Some? then t.writes + [write.value] else t.writes;
      if t.raised.None? then Tally(t.errorCount + |errors|, ws, t.progress + count, None)
      else t.(writes := ws)
  }

  /** What the totals say after the groups before `g`, whose results are
      the first `g` of `rs`. */
  predicate Accounts(t: Tally, db: Database, items: seq<Item>, k: nat, g: nat, rs: seq<WorkerResult>,
                     remote: nat -> Script)
    requires 0 < k && g <= k && g <= |rs|
  {
    StartBounds(|items|, k);
    && t.writes == Appends(rs[..g])
    && t.raised == FirstRaised(rs[..g])
    && (t.raised.None? ==> && t.errorCount == |Errors(items[..Start(|items|, k, g)], 0, remote, db.retries)|
                           && t.progress == Start(|items|, k, g))
  }

  /** The worker of group `g`: it is handed the `g`-th piece of each list and
      the position of the piece's first source. */
  method RunGroup(db: Database, names: seq<Key>, coords: seq<Coord>, radii: seq<real>, data: seq<seq<Value>>,
                  k: nat, g: nat, remote: nat -> Script)
    returns (res: WorkerResult)
    requires |coords| == |radii| == |data| && 0 <= g < k
    ensures res == Group(db, names, Zip3(coords, radii, data), k, g, remote)
  {
    GroupItems(coords, radii, data, k, g);
    res := QueryGroup(db, names, Split(coords, k)[g], Split(radii, k)[g], Split(data, k)[g],
                      Start(|coords|, k, g), remote);
  }

  /** The thread pool part of `query_radius`: the lists are cut into `k`
      groups, each group goes to a worker, and the workers' error counts are
      added up in group order; the first worker that raised, in group order,
      decides the exception.  `names` are the eROSITA columns' XREF names. */
  method RunGroups(db: Database, names: seq<Key>, coords: seq<Coord>, radii: seq<real>, data: seq<seq<Value>>,
                   k: nat, remote: nat -> Script)
    returns (r: Run)
    requires |coords| == |radii| == |data| && k > 0
    ensures Ran(db, names, Zip3(coords, radii, data), k, remote, r)
    ensures forall w :: w in r.writes ==> w.table == TableName(db)
  {
    var n := |coords|;
    ghost var items := Zip3(coords, radii, data);
    ghost var rs := Results(db, names, items, k, remote);
    StartBounds(n, k);
    var t := Tally(0, [], 0, None);
    for g := 0 to k
      invariant Accounts(t, db, items, k, g, rs, remote)
    {
      var res := RunGroup(db, names, coords, radii, data, k, g, remote);
      AbsorbKeeps(t, res, db, names, items, k, g, rs, remote);
      t := Absorb(t, res);
    }
    assert rs[..k] == rs && items[..n] == items;
    RunRaises(db, names, items, k, remote);
    AppendsGoToTable(db, names, items, k, remote);
    if t.raised.Some? {
      r := Aborted(t.raised.value, t.writes);
    } else {
      r := Finished(t.errorCount, t.writes, t.progress);
    }
  }

  // ---------------------------------------------------------------------------
  // Lemmas

  /** The group `g` worker receives, zipped, is the run's objects from
      `Start(g)` to `Start(g + 1)`. */
  lemma GroupItems(coords: seq<Coord>, radii: seq<real>, data: seq<seq<Value>>, k: nat, g: nat)
    requires |coords| == |radii| == |data| && 0 <= g < k
    ensures Start(|coords|, k, g) <= Start(|coords|, k, g + 1) <= |coords|
    ensures Zip3(Split(coords, k)[g], Split(radii, k)[g], Split(data, k)[g]) ==
            Zip3(coords, radii, data)[Start(|coords|, k, g)..Start(|coords|, k, g + 1)]
    ensures |Split(coords, k)[g]| == Start(|coords|, k, g + 1) - Start(|coords|, k, g)
  {
    SplitPiece(coords, k, g);
    SplitPiece(radii, k, g);
    SplitPiece(data, k, g);
  }

  /** What the stretch of sources from `lo` to `hi` adds to the stretch
      before it: its errors follow the earlier errors, and the run raises at
      the earlier stretch's first fault, else at this stretch's. */
  lemma GroupJoins(items: seq<Item>, lo: nat, hi: nat, remote: nat -> Script, retries: int)
    requires lo <= hi <= |items|
    ensures Errors(items[..hi], 0, remote, retries) ==
              Errors(items[..lo], 0, remote, retries) + Errors(items[lo..hi], lo, remote, retries)
    ensures Escape(hi, 0, remote, retries) ==
              if Escape(lo, 0, remote, retries).Some? then Escape(lo, 0, remote, retries)
              else Escape(hi - lo, lo, remote, retries)
  {
    SlicesJoin(items, lo, hi);
    ErrorsAppend(items[..lo], items[lo..hi], 0, remote, retries);
    EscapeAppend(lo, hi - lo, 0, remote, retries);
  }

  /** Taking in the result of group `g` carries the totals over the groups
      before `g` to the groups up to `g`. */
  lemma AbsorbKeeps(t: Tally, res: WorkerResult, db: Database, names: seq<Key>, items: seq<Item>,
                    k: nat, g: nat, rs: seq<WorkerResult>, remote: nat -> Script)
    requires g < k && rs == Results(db, names, items, k, remote)
    requires Accounts(t, db, items, k, g, rs, remote)
    requires res == Group(db, names, items, k, g, remote)
    ensures Accounts(Absorb(t, res), db, items, k, g + 1, rs, remote)
  {
    StartBounds(|items|, k);
    var before, through := rs[..g], rs[..g + 1];
    assert through[..g] == before && through[g] == res;
    if t.raised.None? && res.Returned? {
      GroupJoins(items, Start(|items|, k, g), Start(|items|, k, g + 1), remote, db.retries);
    }
  }

  /** A group's bounds lie within the run. */
  lemma GroupBounds(n: nat, k: nat, g: nat)
    requires g < k
    ensures Start(n, k, g) <= Start(n, k, g + 1) <= n
  {
    StartBounds(n, k);
  }

  /** When the worker of group `g` raises, and with what, in terms of the
      group's own sources. */
  lemma GroupRaises(db: Database, names: seq<Key>, items: seq<Item>, k: nat, g: nat, remote: nat -> Script)
    requires g < k
    ensures Start(|items|, k, g) <= Start(|items|, k, g + 1) <= |items|
    ensures var res := Group(db, names, items, k, g, remote);
            var e := GroupEscape(|items|, k, g, remote, db.retries);
            && (res.WorkerRaised? <==> e.Some? || GroupSelectionFails(db, names, items, k, g, remote))
            && (res.WorkerRaised? ==>
                  (e.Some? && res.error == RemoteFault(e.value)) ||
                  (e.None? && res.error.MissingColumn? && res.error.column in Selection(db, names)))
            && (res.Returned? && res.write.Some? ==> res.write.value.table == TableName(db))
  {
    GroupBounds(|items|, k, g);
  }

  /** No result raised exactly when every worker returned. */
  lemma {:induction false} NoneRaised(rs: seq<WorkerResult>)
    ensures FirstRaised(rs).None? <==> forall g :: 0 <= g < |rs| ==> rs[g].Returned?
  {
    if |rs| > 0 {
      NoneRaised(rs[..|rs| - 1]);
      assert forall g :: 0 <= g < |rs| - 1 ==> rs[..|rs| - 1][g] == rs[g];
    }
  }

  /** The exception re-raised is that of the first worker that raised. */
  lemma {:induction false} FirstRaisedIsFirst(rs: seq<WorkerResult>)
    ensures FirstRaised(rs).Some? ==>
              exists g :: && 0 <= g < |rs| && rs[g].WorkerRaised? && FirstRaised(rs).value == rs[g].error
                          && forall g' :: 0 <= g' < g ==> rs[g'].Returned?
  {
    if |rs| > 0 {
      var init := rs[..|rs| - 1];
      FirstRaisedIsFirst(init);
      NoneRaised(init);
      assert forall g :: 0 <= g < |rs| - 1 ==> init[g] == rs[g];
    }
  }

  /** The sources up to group `g` raise at the first fault before the
      group, else at the group's own first fault. */
  lemma GroupEscapeJoins(n: nat, k: nat, g: nat, remote: nat -> Script, retries: int)
    requires 0 < k
    ensures Escape(Start(n, k, g + 1), 0, remote, retries) ==
              if Escape(Start(n, k, g), 0, remote, retries).Some? then Escape(Start(n, k, g), 0, remote, retries)
              else GroupEscape(n, k, g, remote, retries)
  {
    EscapeAppend(Start(n, k, g), PieceSize(n, k, g), 0, remote, retries);
  }

  /** The sources before group `g` raise exactly when one of the groups
      before `g` does. */
  lemma {:induction false} EscapeByGroups(n: nat, k: nat, g: nat, remote: nat -> Script, retries: int)
    requires 0 < k
    ensures Escape(Start(n, k, g), 0, remote, retries).None? <==>
              forall g' :: 0 <= g' < g ==> GroupEscape(n, k, g', remote, retries).None?
  {
    if g > 0 {
      EscapeByGroups(n, k, g - 1, remote, retries);
      GroupEscapeJoins(n, k, g - 1, remote, retries);
    }
  }

  /** The run raises exactly when a source raises something other than a
      timeout or a group's replies lack a selected column; it raises the
      run's first such fault, or a missing selected column. */
  lemma RunRaises(db: Database, names: seq<Key>, items: seq<Item>, k: nat, remote: nat -> Script)
    requires 0 < k
    ensures var f := FirstRaised(Results(db, names, items, k, remote));
            f.None? <==> && Escape(|items|, 0, remote, db.retries).None?
                         && forall g :: 0 <= g < k ==> !GroupSelectionFails(db, names, items, k, g, remote)
    ensures var f := FirstRaised(Results(db, names, items, k, remote));
            var e := Escape(|items|, 0, remote, db.retries);
            f.Some? ==> (e.Some? && f.value == RemoteFault(e.value)) ||
                        (f.value.MissingColumn? && f.value.column in Selection(db, names))
  {
    var n := |items|;
    var rs := Results(db, names, items, k, remote);
    ResultsRaise(db, names, items, k, remote);
    NoneRaised(rs);
    EscapeByGroups(n, k, k, remote, db.retries);
    StartBounds(n, k);
    RunRaisesFirst(db, names, items, k, remote);
  }

  /** When each worker of the run raises, and with what. */
  lemma ResultsRaise(db: Database, names: seq<Key>, items: seq<Item>, k: nat, remote: nat -> Script)
    requires 0 < k
    ensures var rs := Results(db, names, items, k, remote);
            forall g :: 0 <= g < k ==>
              && (rs[g].Returned? <==>
                    GroupEscape(|items|, k, g, remote, db.retries).None? && !GroupSelectionFails(db, names, items, k, g, remote))
              && (rs[g].WorkerRaised? ==>
                    var e := GroupEscape(|items|, k, g, remote, db.retries);
                    (e.Some? && rs[g].error == RemoteFault(e.value)) ||
                    (e.None? && rs[g].error.MissingColumn? && rs[g].error.column in Selection(db, names)))
  {
    var rs := Results(db, names, items, k, remote);
    forall g | 0 <= g < k
      ensures rs[g].Returned? <==>
                GroupEscape(|items|, k, g, remote, db.retries).None? && !GroupSelectionFails(db, names, items, k, g, remote)
      ensures rs[g].WorkerRaised? ==>
                var e := GroupEscape(|items|, k, g, remote, db.retries);
                (e.Some? && rs[g].error == RemoteFault(e.value)) ||
                (e.None? && rs[g].error.MissingColumn? && rs[g].error.column in Selection(db, names))
    {
      GroupRaises(db, names, items, k, g, remote);
    }
  }

  /** The first group that raises, raises the run's first non-timeout fault
      when one occurs in a source up to that group's end, and otherwise a
      missing selected column. */
  lemma RunRaisesFirst(db: Database, names: seq<Key>, items: seq<Item>, k: nat, remote: nat -> Script)
    requires 0 < k
    ensures var f := FirstRaised(Results(db, names, items, k, remote));
            var e := Escape(|items|, 0, remote, db.retries);
            f.Some? ==> (e.Some? && f.value == RemoteFault(e.value)) ||
                        (f.value.MissingColumn? && f.value.column in Selection(db, names))
    ensures var rs := Results(db, names, items, k, remote);
            var e := Escape(|items|, 0, remote, db.retries);
            FirstRaised(rs).Some? ==>
              exists g :: && 0 <= g < k && rs[g].WorkerRaised? && FirstRaised(rs).value == rs[g].error
                          && (forall g' :: 0 <= g' < g ==> rs[g'].Returned?)
                          && var upTo := Escape(Start(|items|, k, g + 1), 0, remote, db.retries);
                             && (upTo.Some? ==> e == upTo && rs[g].error == RemoteFault(upTo.value))
                             && (upTo.None? ==> rs[g].error.MissingColumn? && rs[g].error.column in Selection(db, names))
  {
    var n := |items|;
    var rs := Results(db, names, items, k, remote);
    FirstRaisedIsFirst(rs);
    if FirstRaised(rs).Some? {
      var g :| && 0 <= g < k && rs[g].WorkerRaised? && FirstRaised(rs).value == rs[g].error
               && forall g' :: 0 <= g' < g ==> rs[g'].Returned?;
      ResultsRaise(db, names, items, k, remote);
      var lo, hi := Start(n, k, g), Start(n, k, g + 1);
      var ge := GroupEscape(n, k, g, remote, db.retries);
      EscapeByGroups(n, k, g, remote, db.retries);
      assert forall g' :: 0 <= g' < g ==> GroupEscape(n, k, g', remote, db.retries).None?;
      assert Escape(lo, 0, remote, db.retries).None?;
      GroupEscapeJoins(n, k, g, remote, db.retries);
      StartBounds(n, k);
      if ge.Some? {
        EscapeSticks(hi, n, 0, remote, db.retries);
      }
    }
  }

  /** Every append of the run goes to the database's XREF table. */
  lemma AppendsGoToTable(db: Database, names: seq<Key>, items: seq<Item>, k: nat, remote: nat -> Script)
    ensures forall w :: w in Appends(Results(db, names, items, k, remote)) ==> w.table == TableName(db)
  {
    var rs := Results(db, names, items, k, remote);
    forall g | 0 <= g < k
      ensures rs[g].Returned? && rs[g].write.Some? ==> rs[g].write.value.table == TableName(db)
    {
      GroupRaises(db, names, items, k, g, remote);
    }
    AppendsFrom(rs, TableName(db));
  }

  /** The appends of a run are among its workers' appends. */
  lemma {:induction false} AppendsFrom(rs: seq<WorkerResult>, table: Key)
    requires forall g :: 0 <= g < |rs| && rs[g].Returned? && rs[g].write.Some? ==> rs[g].write.value.table == table
    ensures forall w :: w in Appends(rs) ==> w.table == table
  {
    if |rs| > 0 {
      var init := rs[..|rs| - 1];
      assert forall g :: 0 <= g < |rs| - 1 ==> init[g] == rs[g];
      AppendsFrom(init, table);
    }
  }

  /** The shape assertion passes after the broadcast exactly when one radius
      or one radius per object was given. */
  lemma BroadcastShape(radii: seq<real>, n: nat)
    ensures |Broadcast(radii, n)| == n <==> |radii| == 1 || |radii| == n
  {
  }

  /** The broadcast as written hands every worker a list where a radius is
      expected, whenever a single radius is given for at least one object;
      with more radii it agrees with the intended one. */
  lemma BroadcastFinding(radii: seq<real>, n: nat)
    ensures |radii| == 1 ==> forall i :: 0 <= i < n ==>
              BroadcastAsWritten(radii, n)[i] == Listed([Broadcast(radii, n)[i]]) &&
              BroadcastAsWritten(radii, n)[i] != Scalar(Broadcast(radii, n)[i])
    ensures |radii| != 1 ==> forall i :: 0 <= i < |radii| ==>
              BroadcastAsWritten(radii, n)[i] == Scalar(Broadcast(radii, n)[i])
  {
    if |radii| == 1 {
      assert radii == [radii[0]];
    }
  }

  /** One radius of 15 arcmin for two objects: the workers receive `[15.0]`
      twice instead of `15.0`. */
  lemma BroadcastCounterexample()
    ensures BroadcastAsWritten([15.0], 2) == [Listed([15.0]), Listed([15.0])]
    ensures Broadcast([15.0], 2) == [15.0, 15.0]
  {
  }
}
