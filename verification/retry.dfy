/** The per-source retry loop of `Database._mtqrad` (pyROS/queries.py).

    The remote cone search is not part of this model.  What it does for one
    source is given as a `Script`: the number of calls that raise
    `ConnectTimeout` before the first call that does not, and what that call
    does.  Every sequence of call outcomes looks like this to the loop, since
    the loop stops at the first call that does not time out; a service that
    never answers is a script with more timeouts than the retry budget. */
module Retry {
  import opened Values

  /** A remote table after `to_pandas()`: its column labels and its rows. */
  datatype Table = Table(columns: set<Key>, rows: seq<map<Key, Value>>)

  /** The outcome of one call of `query_region`. */
  datatype Call =
    | Timeout              // raised requests.exceptions.ConnectTimeout
    | NoResult             // returned None
    | Reply(table: Table)  // returned a table
    | Fault(kind: string)  // raised any other exception

  /** `timeouts` calls time out, every later call has outcome `last`. */
  datatype Script = Script(timeouts: nat, last: Call)

  function CallAt(s: Script, attempt: nat): Call
  {
    if attempt < s.timeouts then Timeout else s.last
  }

  /** The number of calls the loop allows: the first one and `retries` more.
      A budget below zero allows the first call only, since the counter is
      already 1 when it is first compared with `retries`. */
  function Budget(retries: int): nat
  {
    if retries > 0 then retries + 1 else 1
  }

  /** The states of one source.  `Querying(n)` and `Retrying(n)` carry the
      number of timeouts so far (the loop's `_safe_proceed_counter`). */
  datatype Phase =
    | Pending
    | Querying(timeouts: nat)
    | Retrying(timeouts: nat)
    | Succeeded(table: Option<Table>)
    | Failed
    | Raised(kind: string)
  {
    predicate Terminal() {
      Succeeded? || Failed? || Raised?
    }
  }

  /** One transition.  A timeout is retried while the counter, after counting
      it, is at most `retries`; otherwise the source fails.  `None` and a
      table both end the source successfully; any other exception escapes. */
  function Step(p: Phase, s: Script, retries: int): Phase
  {
    match p
    case Pending => Querying(0)
    case Querying(n) =>
      (match CallAt(s, n)
       case Timeout => if n + 1 <= retries then Retrying(n + 1) else Failed
       case NoResult => Succeeded(None)
       case Reply(t) => Succeeded(Some(t))
       case Fault(k) => Raised(k))
    case Retrying(n) => Querying(n)
    case _ => p
  }

  /** Where a source ends, stated without the loop: it fails exactly when the
      budget is spent on timeouts; otherwise the first non-timeout outcome
      decides. */
  function Outcome(s: Script, retries: int): Phase
  {
    if s.timeouts >= Budget(retries) then Failed
    else
      match s.last
      case Timeout => Failed
      case NoResult => Succeeded(None)
      case Reply(t) => Succeeded(Some(t))
      case Fault(k) => Raised(k)
  }

  /** How many calls a source costs, stated without the loop. */
  function CallCount(s: Script, retries: int): nat
  {
    if s.timeouts >= Budget(retries) || s.last.Timeout? then Budget(retries) else s.timeouts + 1
  }

  /** Every call before the `n`-th timed out. */
  predicate TimedOutSoFar(s: Script, n: nat) {
    n <= s.timeouts || s.last.Timeout?
  }

  function Rank(p: Phase, b: nat): nat
  {
    match p
    case Pending => 2 * b + 2
    case Querying(n) => if n < b then 2 * (b - n) + 1 else 0
    case Retrying(n) => if n < b then 2 * (b - n) + 2 else 0
    case _ => 0
  }

  /** The `while _safe_proceed_flag` loop for one source: step the state
      machine from `Pending` until it ends, counting the calls made. */
  method QuerySource(s: Script, retries: int) returns (last: Phase, calls: nat)
    ensures last.Terminal()
    ensures last == Outcome(s, retries)
    ensures calls == CallCount(s, retries) && 1 <= calls <= Budget(retries)
  {
    var b := Budget(retries);
    var p := Step(Pending, s, retries);
    calls := 0;
    while !p.Terminal()
      invariant p.Querying? || p.Retrying? || p.Terminal()
      invariant p.Querying? ==> calls == p.timeouts < b && TimedOutSoFar(s, p.timeouts)
      invariant p.Retrying? ==> calls == p.timeouts && 0 < p.timeouts < b && TimedOutSoFar(s, p.timeouts)
      invariant p.Terminal() ==> p == Outcome(s, retries) && calls == CallCount(s, retries)
      decreases Rank(p, b)
    {
      if p.Querying? {
        calls := calls + 1;
      }
      p := Step(p, s, retries);
    }
    last := p;
  }

  // ---------------------------------------------------------------------------
  // Lemmas

  /** A source that times out at most `retries` times and then answers is not
      an error: it ends with that answer. */
  lemma RetriedThenAnswered(s: Script, retries: int)
    requires s.timeouts <= retries && !s.last.Timeout?
    ensures Outcome(s, retries) != Failed
    ensures s.last.NoResult? ==> Outcome(s, retries) == Succeeded(None)
    ensures s.last.Reply? ==> Outcome(s, retries) == Succeeded(Some(s.last.table))
    ensures CallCount(s, retries) == s.timeouts + 1
  {
  }

  /** A source that times out `retries + 1` times fails, after exactly
      `retries + 1` calls. */
  lemma ExhaustedFails(s: Script, retries: int)
    requires retries >= 0 && TimedOutSoFar(s, retries + 1)
    ensures Outcome(s, retries) == Failed
    ensures CallCount(s, retries) == retries + 1
  {
  }
}
