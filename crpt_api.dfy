/**
 The admission control of `CrptApi`: a request log keyed by millisecond,
 `allowRequest` (at most `requestLimit` grants per millisecond), the periodic
 `clearRequestLog` sweep (forget entries older than `requestLimit` time
 units), and the gate in `createDocument` that drops a refused request.

 The clock is the parameter `now`. Each operation is one atomic step, as the
 `synchronized` methods make it. Each admitted request is recorded as one
 `Submission` appended to the list of requests handed on to be sent.
 */
module Crpt {
  import opened TimeUnits
  import opened RequestLog

  /** The two constructor arguments, kept unchecked as the constructor keeps them. */
  datatype Config = Config(timeUnit: TimeUnit, requestLimit: Int32)

  /**
   One admitted request, handed on to be serialised and posted to the
   document-creation endpoint; the document is its JSON text.
   */
  datatype Submission = Submission(time: int, document: string, signature: string)

  /** Everything the operations change: the request log and the requests admitted so far. */
  datatype State = State(log: Log, sent: seq<Submission>)

  /** A call of `createDocument`, or one firing of the scheduled sweep, at millisecond `time`. */
  datatype Event =
    | CreateDocument(time: int, document: string, signature: string)
    | ClearRequestLog(time: int)

  const Initial: State := State(map[], [])

  /** The log is kept only for `toMillis(requestLimit)` milliseconds before `now`. */
  function Cutoff(cfg: Config, now: int): (c: int)
    ensures cfg.requestLimit >= 0 ==> c <= now
    ensures !cfg.timeUnit.Nanoseconds? && !cfg.timeUnit.Microseconds? ==>
      c == now - cfg.requestLimit * MillisPerUnit(cfg.timeUnit)
  {
    if !cfg.timeUnit.Nanoseconds? && !cfg.timeUnit.Microseconds? then
      ToMillisOfIntIsExact(cfg.timeUnit, cfg.requestLimit);
      now - ToMillis(cfg.timeUnit, cfg.requestLimit)
    else
      now - ToMillis(cfg.timeUnit, cfg.requestLimit)
  }

  /** One operation, atomically. */
  function Step(cfg: Config, s: State, e: Event): (r: State)
    ensures e.CreateDocument? ==>
      (r.sent == s.sent + [Submission(e.time, e.document, e.signature)]
       <==> CountAt(s.log, e.time) < cfg.requestLimit)
    ensures e.CreateDocument? && CountAt(s.log, e.time) >= cfg.requestLimit ==> r == s
    ensures e.CreateDocument? ==> r.log == Admit(s.log, e.time, cfg.requestLimit).log
    ensures e.ClearRequestLog? ==> r.sent == s.sent
    ensures e.ClearRequestLog? ==> r.log == Purge(s.log, Cutoff(cfg, e.time))
  {
    match e
    case CreateDocument(now, document, signature) =>
      var d := Admit(s.log, now, cfg.requestLimit);
      if d.granted then State(d.log, s.sent + [Submission(now, document, signature)])
      else State(d.log, s.sent)
    case ClearRequestLog(now) =>
      State(Purge(s.log, Cutoff(cfg, now)), s.sent)
  }

  /** The state after a sequence of operations on a freshly constructed object. */
  function Replay(cfg: Config, events: seq<Event>): State
  {
    if events == [] then Initial
    else Step(cfg, Replay(cfg, events[..|events| - 1]), events[|events| - 1])
  }

  /** The clock never goes backwards along the sequence. */
  ghost predicate Monotone(events: seq<Event>)
  {
    forall i, j :: 0 <= i <= j < |events| ==> events[i].time <= events[j].time
  }

  /** How many requests were admitted in millisecond `t`. */
  function SentAt(sent: seq<Submission>, t: int): nat
  {
    if sent == [] then 0
    else SentAt(sent[..|sent| - 1], t) + (if sent[|sent| - 1].time == t then 1 else 0)
  }

  /** The most requests one millisecond may see: the limit, or none at all when it is not positive. */
  function MaxPerMillisecond(limit: int): nat
  {
    if limit > 0 then limit else 0
  }

  /**
   What holds after every prefix of a monotone run whose last operation was at
   `clock`: the log bound, the log entry of every millisecond from `clock` on
   still equals the requests sent in it, and no millisecond has seen more
   requests than the limit allows.
   */
  ghost predicate Accounted(cfg: Config, s: State, clock: int)
  {
    && Bounded(s.log, cfg.requestLimit)
    && (forall t :: clock <= t ==> SentAt(s.sent, t) == CountAt(s.log, t))
    && (forall t :: SentAt(s.sent, t) <= MaxPerMillisecond(cfg.requestLimit))
  }

  lemma SentAtAppend(sent: seq<Submission>, x: Submission, t: int)
    ensures SentAt(sent + [x], t) == SentAt(sent, t) + (if x.time == t then 1 else 0)
  {
  }

  /** One operation at a time not before `clock` keeps the accounting, moved on to its own time. */
  lemma StepKeepsAccounted(cfg: Config, s: State, clock: int, e: Event)
    requires Accounted(cfg, s, clock)
    requires clock <= e.time
    ensures Accounted(cfg, Step(cfg, s, e), e.time)
  {
  }

  lemma {:induction false} ReplayAccounted(cfg: Config, events: seq<Event>)
    requires Monotone(events)
    requires events != []
    ensures Accounted(cfg, Replay(cfg, events), events[|events| - 1].time)
  {
    var n := |events| - 1;
    var prefix := events[..n];
    if n == 0 {
      StepKeepsAccounted(cfg, Initial, events[0].time, events[0]);
    } else {
      assert Monotone(prefix) by {
        forall i, j | 0 <= i <= j < |prefix| ensures prefix[i].time <= prefix[j].time {
          assert prefix[i] == events[i] && prefix[j] == events[j];
        }
      }
      ReplayAccounted(cfg, prefix);
      assert prefix[n - 1] == events[n - 1];
      StepKeepsAccounted(cfg, Replay(cfg, prefix), events[n - 1].time, events[n]);
    }
  }

  /**
   The guarantee of the limiter: as long as the clock does not go backwards,
   no millisecond ever sees more requests sent than `requestLimit`, however
   the sweeps interleave with the calls.
   */
  lemma {:induction false} AtMostLimitPerMillisecond(cfg: Config, events: seq<Event>, t: int)
    requires Monotone(events)
    ensures SentAt(Replay(cfg, events).sent, t) <= MaxPerMillisecond(cfg.requestLimit)
  {
    if events != [] {
      ReplayAccounted(cfg, events);
    }
  }

  /** A limit of zero or less (the constructor accepts it) lets no request through, whatever the clock does. */
  lemma {:induction false} NonPositiveLimitSendsNothing(cfg: Config, events: seq<Event>)
    requires cfg.requestLimit <= 0
    ensures Replay(cfg, events) == Initial
  {
    if events != [] {
      var n := |events| - 1;
      NonPositiveLimitSendsNothing(cfg, events[..n]);
      NonPositiveLimitNeverGrants(map[], events[n].time, cfg.requestLimit);
      assert Purge(map[], Cutoff(cfg, events[n].time)) == map[];
    }
  }

  /**
   The limit is per millisecond, not per time unit: with one request per
   second allowed, two calls one millisecond apart are both sent.
   */
  lemma LimitIsPerMillisecond(d: string, sig: string)
    ensures var cfg := Config(Seconds, 1);
      |Replay(cfg, [CreateDocument(0, d, sig), CreateDocument(1, d, sig)]).sent| == 2
  {
    var cfg := Config(Seconds, 1);
    var e0, e1 := CreateDocument(0, d, sig), CreateDocument(1, d, sig);
    assert [e0, e1][..1] == [e0];
    assert [e0][..0] == [];
    var s1 := Step(cfg, Initial, e0);
    assert s1 == State(map[0 := 1], [Submission(0, d, sig)]);
    assert Replay(cfg, [e0]) == s1;
    assert CountAt(s1.log, 1) == 0;
    assert Replay(cfg, [e0, e1]).sent == s1.sent + [Submission(1, d, sig)];
  }

  /**
   The sweep keeps `requestLimit` units of history although it fires once per
   unit: with a limit of 5 per second, an entry two seconds old survives it.
   */
  lemma SweepKeepsLimitUnits(now: int)
    ensures var s := State(map[now - 2_000 := 1], []);
      Step(Config(Seconds, 5), s, ClearRequestLog(now)) == s
  {
  }

  /**
   The bound needs a clock that does not go backwards: if it steps back to a
   millisecond the sweep already forgot, that millisecond is admitted again.
   */
  lemma ClockRegressionExceedsLimit(d: string, sig: string)
    ensures var cfg := Config(Milliseconds, 1);
      var events := [CreateDocument(0, d, sig), ClearRequestLog(2), CreateDocument(0, d, sig)];
      SentAt(Replay(cfg, events).sent, 0) == 2 > cfg.requestLimit
  {
    var cfg := Config(Milliseconds, 1);
    var e0, e1, e2 := CreateDocument(0, d, sig), ClearRequestLog(2), CreateDocument(0, d, sig);
    var events := [e0, e1, e2];
    assert events[..2] == [e0, e1];
    assert [e0, e1][..1] == [e0];
    assert [e0][..0] == [];
    var s1 := Step(cfg, Initial, e0);
    assert s1 == State(map[0 := 1], [Submission(0, d, sig)]);
    assert Replay(cfg, [e0]) == s1;
    var s2 := Step(cfg, s1, e1);
    assert s2.log == map[];
    assert Replay(cfg, [e0, e1]) == s2;
    var s3 := Step(cfg, s2, e2);
    var x := Submission(0, d, sig);
    assert s3.sent == [x] + [x];
    assert Replay(cfg, events) == s3;
    SentAtAppend([], x, 0);
    assert [] + [x] == [x];
    SentAtAppend([x], x, 0);
  }

  /**
   The API client. The request log is updated in place; `history` is the
   ghost record of the operations so far, which ties the object to `Replay`.
   */
  class CrptApi {
    const timeUnit: TimeUnit
    const requestLimit: Int32
    var requestLog: Log
    var sent: seq<Submission>
    ghost var history: seq<Event>

    function Settings(): Config
    {
      Config.Config(timeUnit, requestLimit)
    }

    function Current(): State
      reads this
    {
      State.State(requestLog, sent)
    }

    ghost predicate Valid()
      reads this
    {
      Bounded(requestLog, requestLimit) && Current() == Replay(Settings(), history)
    }

    /** No check of `requestLimit`; the periodic sweep it schedules is `ClearRequestLog`. */
    constructor (timeUnit: TimeUnit, requestLimit: Int32)
      ensures this.timeUnit == timeUnit && this.requestLimit == requestLimit
      ensures requestLog == map[] && sent == [] && history == []
      ensures Valid()
    {
      this.timeUnit := timeUnit;
      this.requestLimit := requestLimit;
      requestLog := map[];
      sent := [];
      history := [];
    }

    /**
     `allowRequest`, with the clock reading `now`. In the client it is private
     and called only from `CreateDocument`, which records the operation in
     `history`; on its own it keeps only the bound on the log, not `Valid()`.
     */
    method AllowRequest(now: int) returns (granted: bool)
      requires Bounded(requestLog, requestLimit)
      modifies this`requestLog
      ensures Bounded(requestLog, requestLimit)
      ensures granted <==> CountAt(old(requestLog), now) < requestLimit
      ensures Decision(granted, requestLog) == Admit(old(requestLog), now, requestLimit)
    {
      var count := if now in requestLog then requestLog[now] else 0;
      if count < requestLimit {
        requestLog := requestLog[now := count + 1];
        return true;
      }
      return false;
    }

    /** `clearRequestLog`, with the clock reading `now`: remove the entries one key at a time. */
    method ClearRequestLog(now: int)
      requires Valid()
      modifies this`requestLog, this`history
      ensures Valid()
      ensures history == old(history) + [Event.ClearRequestLog(now)]
      ensures requestLog == Purge(old(requestLog), Cutoff(Settings(), now)) && sent == old(sent)
    {
      var cutoff := now - ToMillis(timeUnit, requestLimit);
      var pending := requestLog.Keys;
      while pending != {}
        invariant pending <= old(requestLog).Keys
        invariant forall t :: t in requestLog <==> t in old(requestLog) && (t in pending || cutoff <= t)
        invariant forall t :: t in requestLog ==> requestLog[t] == old(requestLog)[t]
        modifies this`requestLog
        decreases pending
      {
        var t :| t in pending;
        if t < cutoff {
          requestLog := requestLog - {t};
        }
        pending := pending - {t};
      }
      assert requestLog == Purge(old(requestLog), cutoff) by {
        var purged := Purge(old(requestLog), cutoff);
        forall t ensures t in requestLog <==> t in purged {
          assert t !in pending;
        }
        assert requestLog.Keys == purged.Keys;
      }
      PurgePreservesBounded(old(requestLog), cutoff, requestLimit);
      history := history + [Event.ClearRequestLog(now)];
      assert history[..|history| - 1] == old(history);
    }

    /**
     `createDocument`, with the clock reading `now`: a refused request is dropped
     before anything is serialised or sent; an admitted one is handed on once.
     */
    method CreateDocument(now: int, document: string, signature: string)
      requires Valid()
      modifies this`requestLog, this`sent, this`history
      ensures Valid()
      ensures history == old(history) + [Event.CreateDocument(now, document, signature)]
      ensures CountAt(old(requestLog), now) < requestLimit ==>
        sent == old(sent) + [Submission(now, document, signature)]
      ensures CountAt(old(requestLog), now) >= requestLimit ==>
        sent == old(sent) && requestLog == old(requestLog)
    {
      var granted := AllowRequest(now);
      if granted {
        sent := sent + [Submission(now, document, signature)];
      }
      history := history + [Event.CreateDocument(now, document, signature)];
      assert history[..|history| - 1] == old(history);
    }
  }
}
