/**
 The request log of the limiter as a value: a finite map from a millisecond
 timestamp to the number of requests admitted in that millisecond, and the
 two updates the limiter makes to it (admit one request, purge old entries).
 */
module RequestLog {

  type Log = map<int, int>

  /** `getOrDefault(t, 0)`: the number of requests recorded for millisecond `t`. */
  function CountAt(log: Log, t: int): int
  {
    if t in log then log[t] else 0
  }

  /** Every stored count is between 1 and the limit. */
  ghost predicate Bounded(log: Log, limit: int)
  {
    forall t :: t in log ==> 1 <= log[t] <= limit
  }

  /** The outcome of one admission attempt: whether it was granted, and the log afterwards. */
  datatype Decision = Decision(granted: bool, log: Log)

  /**
   One admission attempt at millisecond `now`: granted exactly when fewer than
   `limit` requests are recorded for `now`; a grant adds one to that entry and
   touches no other, a denial changes nothing.
   */
  function Admit(log: Log, now: int, limit: int): (r: Decision)
    ensures r.granted <==> CountAt(log, now) < limit
    ensures r.granted ==> now in r.log && r.log[now] == CountAt(log, now) + 1
    ensures r.granted ==> r.log.Keys == log.Keys + {now}
    ensures r.granted ==> forall t :: t in log && t != now ==> r.log[t] == log[t]
    ensures !r.granted ==> r.log == log
    ensures Bounded(log, limit) ==> Bounded(r.log, limit)
  {
    var count := CountAt(log, now);
    if count < limit then Decision(true, log[now := count + 1]) else Decision(false, log)
  }

  /** `removeIf(key < cutoff)`: drop every entry whose millisecond is before `cutoff`. */
  function Purge(log: Log, cutoff: int): (r: Log)
    ensures forall t :: t in r <==> t in log && cutoff <= t
    ensures forall t :: t in r ==> r[t] == log[t]
  {
    log - (set t | t in log && t < cutoff)
  }

  /** Purging never breaks the bound on stored counts. */
  lemma PurgePreservesBounded(log: Log, cutoff: int, limit: int)
    requires Bounded(log, limit)
    ensures Bounded(Purge(log, cutoff), limit)
  {
  }

  /** Purging twice with the same cutoff is purging once. */
  lemma PurgeIdempotent(log: Log, cutoff: int)
    ensures Purge(Purge(log, cutoff), cutoff) == Purge(log, cutoff)
  {
  }

  /** Two purges in a row are one purge with the later cutoff. */
  lemma PurgeTwice(log: Log, c1: int, c2: int)
    ensures Purge(Purge(log, c1), c2) == Purge(log, if c1 <= c2 then c2 else c1)
  {
  }

  /**
   With a limit of zero or less no count can be stored, so the log is empty and
   every attempt is refused without touching it.
   */
  lemma NonPositiveLimitNeverGrants(log: Log, now: int, limit: int)
    requires limit <= 0
    requires Bounded(log, limit)
    ensures log == map[]
    ensures Admit(log, now, limit) == Decision(false, map[])
  {
    forall t | t in log ensures false {
      assert false;
    }
    assert log.Keys == {};
  }
}
