// The paid-request ledger of backend/app/services/ai_creative_generation.py and ai_regeneration.py.
//
// Only the hosted provider's rows are kept: every sum in the source filters on it.
module Budget {
  import opened Wrappers

  type Money = amount: real | amount >= 0.0

  datatype RequestType = ProviderAttempt | PreflightBlocked | Generation

  // `at` is created_at, the start of the transaction that wrote the row (PostgreSQL's now()).
  // `admitted` is the estimate that passed admission; `called` says that the provider was called.
  datatype Row = Row(at: nat, requestType: RequestType, called: bool, admitted: Money, cost: Money)

  datatype Settings = Settings(daily: Money, monthly: Money, perRequest: Money)

  datatype Service = Background | Structured | Copy

  // One service call: its transaction starts at `begin` and its admission test reads the clock at `now`.
  // `usage` is the cost recomputed from the answer; `lost` says that it raised after the provider call.
  datatype Request = Request(
    service: Service, begin: nat, now: nat, estimate: Option<Money>, usage: Option<Money>, lost: bool)

  // Maps an instant to the start of its UTC day or month.
  type Calendar = nat -> nat

  datatype Calendars = Calendars(day: Calendar, month: Calendar)

  datatype Period = Day | Month

  function Start(c: Calendars, p: Period): Calendar { if p == Day then c.day else c.month }

  function Limit(s: Settings, p: Period): Money { if p == Day then s.daily else s.monthly }

  ghost predicate IsCalendar(start: Calendar) {
    && (forall t: nat :: start(t) <= t)
    && (forall t: nat, u: nat :: start(u) <= t <= u ==> start(t) == start(u))
  }

  ghost predicate AreCalendars(c: Calendars) { IsCalendar(c.day) && IsCalendar(c.month) }

  function Total(rows: seq<Row>, keep: Row -> bool): Money {
    if rows == [] then 0.0
    else
      var last := rows[|rows| - 1];
      Total(rows[..|rows| - 1], keep) + (if keep(last) then last.cost else 0.0)
  }

  predicate IsAttempt(r: Row) { r.requestType == ProviderAttempt }

  predicate IsCopyCall(r: Row) { r.requestType == Generation && r.called }

  predicate IsCall(r: Row) { r.called }

  function AttemptsSince(since: nat): Row -> bool { (r: Row) => r.at >= since && IsAttempt(r) }

  function RowsSince(since: nat): Row -> bool { (r: Row) => r.at >= since }

  function CreativeSpend(rows: seq<Row>, since: nat): Money {
    Total(rows, AttemptsSince(since))
  }

  function CopySpend(rows: seq<Row>, since: nat): Money {
    Total(rows, RowsSince(since))
  }

  function Spend(rows: seq<Row>, service: Service, since: nat): Money {
    if service == Copy then CopySpend(rows, since) else CreativeSpend(rows, since)
  }

  predicate UnderCeiling(s: Settings, estimate: Option<Money>) {
    estimate.Some? && 0.0 < s.perRequest && estimate.value <= s.perRequest
  }

  // The admission test on the two sums; only the copy service also refuses a zero budget.
  predicate Passes(s: Settings, req: Request, daily: Money, monthly: Money) {
    && UnderCeiling(s, req.estimate) && (req.service == Copy ==> 0.0 < s.daily && 0.0 < s.monthly)
    && daily + req.estimate.value <= s.daily && monthly + req.estimate.value <= s.monthly
  }

  predicate Admits(s: Settings, c: Calendars, rows: seq<Row>, req: Request) {
    Passes(s, req, Spend(rows, req.service, c.day(req.now)), Spend(rows, req.service, c.month(req.now)))
  }

  // A background's row keeps the estimate; a text row takes the recomputed cost when there is one.
  function Settled(req: Request): Money
    requires req.estimate.Some?
  {
    if req.service != Background && req.usage.Some? then req.usage.value else req.estimate.value
  }

  function CalledRow(req: Request): Row
    requires req.estimate.Some?
  {
    Row(req.begin, if req.service == Copy then Generation else ProviderAttempt, true, req.estimate.value, Settled(req))
  }

  // An unknown price leaves both cost columns NULL, which a SUM ignores.
  function BlockedRow(req: Request): Row {
    Row(req.begin, if req.service == Copy then Generation else PreflightBlocked, false, 0.0,
      if req.estimate.Some? then req.estimate.value else 0.0)
  }

  function Recorded(rows: seq<Row>, req: Request, admitted: bool): seq<Row> {
    if !admitted || req.estimate.None? then rows + [BlockedRow(req)]
    else if req.lost then rows
    else rows + [CalledRow(req)]
  }

  // One request that nothing interrupts.
  function Step(s: Settings, c: Calendars, rows: seq<Row>, req: Request): seq<Row> {
    Recorded(rows, req, Admits(s, c, rows, req))
  }

  // ---------- Requests side by side ----------

  // The two services take different advisory locks, each held to the end of its transaction.
  datatype Lock = CreativeLock | CopyLock

  function LockOf(service: Service): Lock { if service == Copy then CopyLock else CreativeLock }

  // Where the request that holds a lock stands. Each sum is a statement of its own and reads what is committed then.
  datatype Turn =
    | Idle
    | Locked(req: Request)
    | DayRead(req: Request, daily: Money)
    | Tested(req: Request, admitted: bool)

  datatype Ledger = Ledger(rows: seq<Row>, creative: Turn, copy: Turn)

  datatype Act =
    | Arrive(req: Request)
    | SumDay(lock: Lock)
    | SumMonth(lock: Lock)
    | Finish(lock: Lock)
    | Abandon(lock: Lock)

  function TurnOf(l: Ledger, lock: Lock): Turn { if lock == CopyLock then l.copy else l.creative }

  function WithTurn(l: Ledger, lock: Lock, turn: Turn): Ledger {
    if lock == CopyLock then l.(copy := turn) else l.(creative := turn)
  }

  // The creative service blocks a request without a price or above the ceiling before it takes its lock; the copy
  // service takes its lock first. An act that does not fit does nothing: a request waits for its lock.
  function Next(s: Settings, c: Calendars, l: Ledger, act: Act): Ledger {
    match act
    case Arrive(req) =>
      if req.service != Copy && !UnderCeiling(s, req.estimate) then l.(rows := l.rows + [BlockedRow(req)])
      else if TurnOf(l, LockOf(req.service)).Idle? then WithTurn(l, LockOf(req.service), Locked(req)) else l
    case SumDay(lock) =>
      var turn := TurnOf(l, lock);
      if turn.Locked?
      then WithTurn(l, lock, DayRead(turn.req, Spend(l.rows, turn.req.service, c.day(turn.req.now)))) else l
    case SumMonth(lock) =>
      var turn := TurnOf(l, lock);
      if turn.DayRead? then
        var monthly := Spend(l.rows, turn.req.service, c.month(turn.req.now));
        WithTurn(l, lock, Tested(turn.req, Passes(s, turn.req, turn.daily, monthly)))
      else l
    case Finish(lock) =>
      var turn := TurnOf(l, lock);
      if turn.Tested? then WithTurn(l, lock, Idle).(rows := Recorded(l.rows, turn.req, turn.admitted)) else l
    case Abandon(lock) => WithTurn(l, lock, Idle)
  }

  function Run(s: Settings, c: Calendars, l: Ledger, acts: seq<Act>): Ledger {
    if acts == [] then l else Next(s, c, Run(s, c, l, acts[..|acts| - 1]), acts[|acts| - 1])
  }

  lemma RunAppends(s: Settings, c: Calendars, l: Ledger, acts: seq<Act>, act: Act)
    ensures Run(s, c, l, acts + [act]) == Next(s, c, Run(s, c, l, acts), act)
  {
    assert (acts + [act])[..|acts|] == acts;
  }

  lemma ThreeActs(s: Settings, c: Calendars, l: Ledger, acts: seq<Act>, a1: Act, a2: Act, a3: Act)
    ensures Run(s, c, l, acts + [a1, a2, a3]) == Next(s, c, Next(s, c, Next(s, c, Run(s, c, l, acts), a1), a2), a3)
  {
    var one := acts + [a1];
    var two := one + [a2];
    RunAppends(s, c, l, acts, a1);
    RunAppends(s, c, l, one, a2);
    RunAppends(s, c, l, two, a3);
    assert two + [a3] == acts + [a1, a2, a3];
  }

  // All acts of one request, in order.
  function Alone(req: Request): seq<Act> {
    var lock := LockOf(req.service);
    [Arrive(req), SumDay(lock), SumMonth(lock)] + [Finish(lock)]
  }

  lemma ReachesTheTest(s: Settings, c: Calendars, l: Ledger, req: Request)
    requires TurnOf(l, LockOf(req.service)).Idle? && (req.service == Copy || UnderCeiling(s, req.estimate))
    ensures var lock := LockOf(req.service);
      Next(s, c, Next(s, c, Next(s, c, l, Arrive(req)), SumDay(lock)), SumMonth(lock))
        == WithTurn(l, lock, Tested(req, Admits(s, c, l.rows, req)))
  {
  }

  // A request whose acts nothing interrupts takes one step.
  lemma AloneIsStep(s: Settings, c: Calendars, l: Ledger, req: Request)
    requires TurnOf(l, LockOf(req.service)).Idle?
    ensures Run(s, c, l, Alone(req)) == l.(rows := Step(s, c, l.rows, req))
  {
    var lock := LockOf(req.service);
    var three := [Arrive(req), SumDay(lock), SumMonth(lock)];
    ThreeActs(s, c, l, [], Arrive(req), SumDay(lock), SumMonth(lock));
    assert [] + three == three;
    RunAppends(s, c, l, three, Finish(lock));
    if req.service == Copy || UnderCeiling(s, req.estimate) {
      ReachesTheTest(s, c, l, req);
    }
  }

  // ---------- Sums ----------

  function InPeriod(start: Calendar, t: nat, keep: Row -> bool): Row -> bool {
    (r: Row) => keep(r) && start(r.at) == start(t)
  }

  function PeriodTotal(rows: seq<Row>, start: Calendar, t: nat, keep: Row -> bool): Money {
    Total(rows, InPeriod(start, t, keep))
  }

  lemma {:induction false} TotalGrows(rows: seq<Row>, small: Row -> bool, large: Row -> bool)
    requires forall r :: r in rows && small(r) ==> large(r)
    ensures Total(rows, small) <= Total(rows, large)
  {
    if rows != [] {
      assert rows[|rows| - 1] in rows;
      TotalGrows(rows[..|rows| - 1], small, large);
    }
  }

  lemma {:induction false} TotalSplits(rows: seq<Row>, whole: Row -> bool, a: Row -> bool, b: Row -> bool)
    requires forall r :: r in rows && whole(r) ==> a(r) || b(r)
    ensures Total(rows, whole) <= Total(rows, a) + Total(rows, b)
  {
    if rows != [] {
      assert rows[|rows| - 1] in rows;
      TotalSplits(rows[..|rows| - 1], whole, a, b);
    }
  }

  lemma TotalOfAppend(rows: seq<Row>, added: Row, keep: Row -> bool)
    ensures Total(rows + [added], keep) == Total(rows, keep) + (if keep(added) then added.cost else 0.0)
  {
    assert (rows + [added])[..|rows|] == rows;
  }

  lemma PeriodAppend(rows: seq<Row>, added: Row, start: Calendar, t: nat, keep: Row -> bool)
    ensures PeriodTotal(rows + [added], start, t, keep) ==
      PeriodTotal(rows, start, t, keep) + (if keep(added) && start(added.at) == start(t) then added.cost else 0.0)
  {
    TotalOfAppend(rows, added, InPeriod(start, t, keep));
  }

  // The rows that the service behind a lock tests its own calls against.
  function OwnCalls(lock: Lock): Row -> bool {
    if lock == CopyLock then IsCopyCall else IsAttempt
  }

  // What a service reads since the start of a period covers its own calls of the whole period, whatever the clock did
  // before; a copy reads all calls.
  lemma SpendCoversPeriod(rows: seq<Row>, service: Service, start: Calendar, now: nat, keep: Row -> bool)
    requires IsCalendar(start) && (keep == OwnCalls(LockOf(service)) || (service == Copy && keep == IsCall))
    ensures PeriodTotal(rows, start, now, keep) <= Spend(rows, service, start(now))
  {
    var inPeriod := InPeriod(start, now, keep);
    forall r: Row | inPeriod(r) ensures r.at >= start(now) {
      assert start(r.at) <= r.at;
    }
    if service == Copy {
      TotalGrows(rows, inPeriod, RowsSince(start(now)));
    } else {
      TotalGrows(rows, inPeriod, AttemptsSince(start(now)));
    }
  }

  lemma SamePeriodTotal(rows: seq<Row>, start: Calendar, t: nat, u: nat, keep: Row -> bool)
    requires start(t) == start(u)
    ensures PeriodTotal(rows, start, t, keep) == PeriodTotal(rows, start, u, keep)
  {
    TotalGrows(rows, InPeriod(start, t, keep), InPeriod(start, u, keep));
    TotalGrows(rows, InPeriod(start, u, keep), InPeriod(start, t, keep));
  }

  // ---------- What a lock protects ----------

  predicate SamePeriod(start: Calendar, req: Request) { start(req.begin) == start(req.now) }

  // While a request holds its lock, no other call of its own kind is recorded: what it read still covers them.
  ghost predicate TurnFits(s: Settings, c: Calendars, l: Ledger, lock: Lock, p: Period) {
    var turn := TurnOf(l, lock);
    && (!turn.Idle? ==> LockOf(turn.req.service) == lock)
    && (turn.DayRead? && p == Day ==> PeriodTotal(l.rows, c.day, turn.req.now, OwnCalls(lock)) <= turn.daily)
    && (turn.Tested? && turn.admitted ==>
          turn.req.estimate.Some?
          && PeriodTotal(l.rows, Start(c, p), turn.req.now, OwnCalls(lock)) + turn.req.estimate.value <= Limit(s, p))
  }

  // Rows change without a call of the lock's own kind.
  ghost predicate KeepsOwn(rows: seq<Row>, rows': seq<Row>, lock: Lock) {
    rows' == rows || exists r: Row :: rows' == rows + [r] && !OwnCalls(lock)(r)
  }

  lemma KeepsOwnTotal(rows: seq<Row>, rows': seq<Row>, lock: Lock, start: Calendar, t: nat)
    requires KeepsOwn(rows, rows', lock)
    ensures PeriodTotal(rows', start, t, OwnCalls(lock)) == PeriodTotal(rows, start, t, OwnCalls(lock))
  {
    if rows' != rows {
      var r: Row :| rows' == rows + [r] && !OwnCalls(lock)(r);
      PeriodAppend(rows, r, start, t, OwnCalls(lock));
    }
  }

  ghost predicate LocksMatch(l: Ledger) {
    && (!l.creative.Idle? ==> l.creative.req.service != Copy)
    && (!l.copy.Idle? ==> l.copy.req.service == Copy)
  }

  // Only finishing an admitted request under the lock records a call of its kind.
  lemma NextKeepsOwn(s: Settings, c: Calendars, l: Ledger, act: Act, lock: Lock)
    requires LocksMatch(l)
    requires !(act == Finish(lock) && TurnOf(l, lock).Tested? && TurnOf(l, lock).admitted)
    ensures LocksMatch(Next(s, c, l, act)) && KeepsOwn(l.rows, Next(s, c, l, act).rows, lock)
  {
    match act {
      case Arrive(req) => assert !OwnCalls(lock)(BlockedRow(req));
      case Finish(other) =>
        var turn := TurnOf(l, other);
        if turn.Tested? {
          assert !OwnCalls(lock)(BlockedRow(turn.req));
          if turn.admitted && turn.req.estimate.Some? {
            assert other != lock;
            assert !OwnCalls(lock)(CalledRow(turn.req));
          }
        }
      case _ =>
    }
  }

  // An act that leaves this turn as it is.
  lemma OtherActKeepsTurnFits(s: Settings, c: Calendars, l: Ledger, l': Ledger, lock: Lock, p: Period)
    requires TurnFits(s, c, l, lock, p) && KeepsOwn(l.rows, l'.rows, lock) && TurnOf(l', lock) == TurnOf(l, lock)
    ensures TurnFits(s, c, l', lock, p)
  {
    var turn := TurnOf(l, lock);
    if !turn.Idle? {
      KeepsOwnTotal(l.rows, l'.rows, lock, Start(c, p), turn.req.now);
    }
  }

  // The two sums cover the calls of the lock's own kind.
  lemma SumKeepsTurnFits(s: Settings, c: Calendars, l: Ledger, lock: Lock, p: Period)
    requires AreCalendars(c) && TurnFits(s, c, l, lock, p)
    ensures TurnFits(s, c, Next(s, c, l, SumDay(lock)), lock, p)
    ensures TurnFits(s, c, Next(s, c, l, SumMonth(lock)), lock, p)
  {
    var turn := TurnOf(l, lock);
    if turn.Locked? || turn.DayRead? {
      SpendCoversPeriod(l.rows, turn.req.service, Start(c, p), turn.req.now, OwnCalls(lock));
    }
  }

  predicate OnTurn(act: Act, lock: Lock) {
    if act.Arrive? then LockOf(act.req.service) == lock else act.lock == lock
  }

  lemma NextKeepsTurnFits(s: Settings, c: Calendars, l: Ledger, act: Act, lock: Lock, p: Period)
    requires AreCalendars(c) && LocksMatch(l) && TurnFits(s, c, l, lock, p)
    ensures LocksMatch(Next(s, c, l, act)) && TurnFits(s, c, Next(s, c, l, act), lock, p)
  {
    if OnTurn(act, lock) && (act.SumDay? || act.SumMonth?) {
      SumKeepsTurnFits(s, c, l, lock, p);
    } else if !OnTurn(act, lock) || act.Arrive? {
      NextKeepsOwn(s, c, l, act, lock);
      if TurnOf(Next(s, c, l, act), lock) == TurnOf(l, lock) {
        OtherActKeepsTurnFits(s, c, l, Next(s, c, l, act), lock, p);
      }
    }
  }

  lemma {:induction false} RunKeepsTurnFits(s: Settings, c: Calendars, l: Ledger, acts: seq<Act>, lock: Lock, p: Period)
    requires AreCalendars(c) && LocksMatch(l) && TurnFits(s, c, l, lock, p)
    ensures LocksMatch(Run(s, c, l, acts)) && TurnFits(s, c, Run(s, c, l, acts), lock, p)
  {
    if acts != [] {
      RunKeepsTurnFits(s, c, l, acts[..|acts| - 1], lock, p);
      NextKeepsTurnFits(s, c, Run(s, c, l, acts[..|acts| - 1]), acts[|acts| - 1], lock, p);
    }
  }

  predicate Unlocked(l: Ledger) { l.creative.Idle? && l.copy.Idle? }

  // Whatever is on file and whatever else runs beside it: an admitted request whose transaction began in the tested
  // period leaves that period's calls of its own kind within the limit, but for what its cost exceeds its estimate by.
  lemma AdmittedKeepsOwnLimit(s: Settings, c: Calendars, l: Ledger, acts: seq<Act>, lock: Lock, p: Period)
    requires AreCalendars(c) && Unlocked(l)
    requires var turn := TurnOf(Run(s, c, l, acts), lock);
      turn.Tested? && turn.admitted && !turn.req.lost && SamePeriod(Start(c, p), turn.req)
    ensures var before := Run(s, c, l, acts);
      var req := TurnOf(before, lock).req;
      && req.estimate.Some?
      && PeriodTotal(Next(s, c, before, Finish(lock)).rows, Start(c, p), req.begin, OwnCalls(lock))
           <= Limit(s, p) - req.estimate.value + Settled(req)
      && (req.service == Background ==> Settled(req) == req.estimate.value)
  {
    var before := Run(s, c, l, acts);
    var req := TurnOf(before, lock).req;
    RunKeepsTurnFits(s, c, l, acts, lock, p);
    PeriodAppend(before.rows, CalledRow(req), Start(c, p), req.begin, OwnCalls(lock));
    SamePeriodTotal(before.rows, Start(c, p), req.begin, req.now, OwnCalls(lock));
  }

  // ---------- Whole runs ----------

  // No period's total of these rows passes the limit by more than the overshoot.
  ghost predicate Within(rows: seq<Row>, start: Calendar, limit: Money, overshoot: Money, keep: Row -> bool) {
    forall t: nat :: PeriodTotal(rows, start, t, keep) <= limit + overshoot
  }

  // The row lands in the period that is tested, and costs no more than the overshoot above its estimate.
  predicate Fair(req: Request, start: Calendar, overshoot: Money) {
    SamePeriod(start, req) && (req.estimate.Some? ==> Settled(req) <= req.estimate.value + overshoot)
  }

  // The requests that one of the locks is for.
  ghost predicate FairArrivals(acts: seq<Act>, lock: Lock, start: Calendar, overshoot: Money) {
    forall i :: 0 <= i < |acts| && acts[i].Arrive? && LockOf(acts[i].req.service) == lock ==>
      Fair(acts[i].req, start, overshoot)
  }

  predicate FairTurn(l: Ledger, lock: Lock, start: Calendar, overshoot: Money) {
    TurnOf(l, lock).Idle? || Fair(TurnOf(l, lock).req, start, overshoot)
  }

  lemma NextKeepsFairTurn(s: Settings, c: Calendars, l: Ledger, act: Act, lock: Lock, start: Calendar, overshoot: Money)
    requires FairTurn(l, lock, start, overshoot)
    requires act.Arrive? && LockOf(act.req.service) == lock ==> Fair(act.req, start, overshoot)
    ensures FairTurn(Next(s, c, l, act), lock, start, overshoot)
  {
  }

  lemma FinishStaysWithin(s: Settings, c: Calendars, l: Ledger, lock: Lock, p: Period, overshoot: Money)
    requires TurnFits(s, c, l, lock, p) && FairTurn(l, lock, Start(c, p), overshoot)
    requires TurnOf(l, lock).Tested? && TurnOf(l, lock).admitted
    requires Within(l.rows, Start(c, p), Limit(s, p), overshoot, OwnCalls(lock))
    ensures Within(Next(s, c, l, Finish(lock)).rows, Start(c, p), Limit(s, p), overshoot, OwnCalls(lock))
  {
    var req, start, own := TurnOf(l, lock).req, Start(c, p), OwnCalls(lock);
    if !req.lost {
      forall t: nat ensures PeriodTotal(l.rows + [CalledRow(req)], start, t, own) <= Limit(s, p) + overshoot {
        PeriodAppend(l.rows, CalledRow(req), start, t, own);
        assert PeriodTotal(l.rows, start, t, own) <= Limit(s, p) + overshoot;
        if start(req.begin) == start(t) {
          SamePeriodTotal(l.rows, start, t, req.now, own);
        }
      }
    }
  }

  lemma NextStaysWithin(s: Settings, c: Calendars, l: Ledger, act: Act, lock: Lock, p: Period, overshoot: Money)
    requires LocksMatch(l) && TurnFits(s, c, l, lock, p) && FairTurn(l, lock, Start(c, p), overshoot)
    requires Within(l.rows, Start(c, p), Limit(s, p), overshoot, OwnCalls(lock))
    ensures Within(Next(s, c, l, act).rows, Start(c, p), Limit(s, p), overshoot, OwnCalls(lock))
  {
    if act == Finish(lock) && TurnOf(l, lock).Tested? && TurnOf(l, lock).admitted {
      FinishStaysWithin(s, c, l, lock, p, overshoot);
    } else {
      NextKeepsOwn(s, c, l, act, lock);
      forall t: nat
        ensures PeriodTotal(Next(s, c, l, act).rows, Start(c, p), t, OwnCalls(lock)) <= Limit(s, p) + overshoot
      {
        KeepsOwnTotal(l.rows, Next(s, c, l, act).rows, lock, Start(c, p), t);
        assert PeriodTotal(l.rows, Start(c, p), t, OwnCalls(lock)) <= Limit(s, p) + overshoot;
      }
    }
  }

  // Overshoot never adds up: over any interleaving of both services' requests, with any clock and any crashes, the
  // recorded calls of a service whose own requests are fair pass a limit by no more than one call's overshoot.
  lemma {:induction false} RunStaysWithin(s: Settings, c: Calendars, l: Ledger, acts: seq<Act>, lock: Lock, p: Period,
                                          overshoot: Money)
    requires AreCalendars(c) && Unlocked(l) && FairArrivals(acts, lock, Start(c, p), overshoot)
    requires Within(l.rows, Start(c, p), Limit(s, p), overshoot, OwnCalls(lock))
    ensures Within(Run(s, c, l, acts).rows, Start(c, p), Limit(s, p), overshoot, OwnCalls(lock))
    ensures FairTurn(Run(s, c, l, acts), lock, Start(c, p), overshoot)
  {
    if acts != [] {
      var most := acts[..|acts| - 1];
      RunStaysWithin(s, c, l, most, lock, p, overshoot);
      RunKeepsTurnFits(s, c, l, most, lock, p);
      NextStaysWithin(s, c, Run(s, c, l, most), acts[|acts| - 1], lock, p, overshoot);
      NextKeepsFairTurn(s, c, Run(s, c, l, most), acts[|acts| - 1], lock, Start(c, p), overshoot);
    }
  }

  ghost predicate TypesValid(rows: seq<Row>) {
    forall r :: r in rows && r.called ==> IsAttempt(r) || IsCopyCall(r)
  }

  lemma {:induction false} RunKeepsTypes(s: Settings, c: Calendars, l: Ledger, acts: seq<Act>)
    requires TypesValid(l.rows)
    ensures TypesValid(Run(s, c, l, acts).rows)
  {
    if acts != [] {
      RunKeepsTypes(s, c, l, acts[..|acts| - 1]);
    }
  }

  lemma UnionSplits(rows: seq<Row>, start: Calendar, t: nat)
    requires TypesValid(rows)
    ensures PeriodTotal(rows, start, t, IsCall) <=
            PeriodTotal(rows, start, t, IsAttempt) + PeriodTotal(rows, start, t, IsCopyCall)
  {
    var whole := InPeriod(start, t, IsCall);
    var attempts, copies := InPeriod(start, t, IsAttempt), InPeriod(start, t, IsCopyCall);
    forall r | r in rows && whole(r) ensures attempts(r) || copies(r) {
      assert IsCall.requires(r) && r.called;
    }
    TotalSplits(rows, whole, attempts, copies);
  }

  lemma UnionWithinTwice(rows: seq<Row>, start: Calendar, limit: Money)
    requires TypesValid(rows)
    requires Within(rows, start, limit, 0.0, IsAttempt) && Within(rows, start, limit, 0.0, IsCopyCall)
    ensures Within(rows, start, limit, limit, IsCall)
  {
    forall t: nat ensures PeriodTotal(rows, start, t, IsCall) <= limit + limit {
      UnionSplits(rows, start, t);
      assert PeriodTotal(rows, start, t, IsAttempt) <= limit;
      assert PeriodTotal(rows, start, t, IsCopyCall) <= limit;
    }
  }

  const EMPTY := Ledger([], Idle, Idle)

  // From an empty ledger, when no answer costs more than its estimate: both services keep their own limits, and
  // together they keep twice the limits.
  lemma FreshRunKeepsLimits(s: Settings, c: Calendars, acts: seq<Act>, p: Period)
    requires AreCalendars(c)
    requires FairArrivals(acts, CreativeLock, Start(c, p), 0.0) && FairArrivals(acts, CopyLock, Start(c, p), 0.0)
    ensures var rows := Run(s, c, EMPTY, acts).rows;
      && Within(rows, Start(c, p), Limit(s, p), 0.0, IsAttempt)
      && Within(rows, Start(c, p), Limit(s, p), 0.0, IsCopyCall)
      && Within(rows, Start(c, p), Limit(s, p), Limit(s, p), IsCall)
  {
    RunStaysWithin(s, c, EMPTY, acts, CreativeLock, p, 0.0);
    RunStaysWithin(s, c, EMPTY, acts, CopyLock, p, 0.0);
    RunKeepsTypes(s, c, EMPTY, acts);
    UnionWithinTwice(Run(s, c, EMPTY, acts).rows, Start(c, p), Limit(s, p));
  }

  // ---------- What a copy sees ----------

  lemma {:induction false} PeriodTotalJoins(rows: seq<Row>, more: seq<Row>, start: Calendar, t: nat, keep: Row -> bool)
    ensures PeriodTotal(rows + more, start, t, keep) ==
            PeriodTotal(rows, start, t, keep) + PeriodTotal(more, start, t, keep)
  {
    if more == [] {
      assert rows + more == rows;
    } else {
      var most, last := more[..|more| - 1], more[|more| - 1];
      PeriodTotalJoins(rows, most, start, t, keep);
      PeriodAppend(rows + most, last, start, t, keep);
      assert rows + most + [last] == rows + more;
    }
  }

  lemma {:induction false} RowsOnlyGrow(s: Settings, c: Calendars, l: Ledger, acts: seq<Act>)
    ensures l.rows <= Run(s, c, l, acts).rows
  {
    if acts != [] {
      RowsOnlyGrow(s, c, l, acts[..|acts| - 1]);
    }
  }

  function SumOf(p: Period): Act { if p == Day then SumDay(CopyLock) else SumMonth(CopyLock) }

  predicate AboutToSum(l: Ledger, p: Period) {
    (if p == Day then l.copy.Locked? else l.copy.DayRead?) && l.copy.req.service == Copy
  }

  predicate CopyHolds(acts: seq<Act>) { Finish(CopyLock) !in acts && Abandon(CopyLock) !in acts }

  // The copy still goes by the sum it read for this period.
  predicate GoesBy(s: Settings, l: Ledger, req: Request, sum: Money, p: Period) {
    || (p == Day && l.copy == DayRead(req, sum))
    || (l.copy.Tested? && l.copy.req == req
        && (l.copy.admitted ==> req.estimate.Some? && sum + req.estimate.value <= Limit(s, p)))
  }

  lemma {:induction false} HeldSum(
    s: Settings, c: Calendars, l: Ledger, since: seq<Act>, req: Request, sum: Money, p: Period)
    requires CopyHolds(since) && GoesBy(s, l, req, sum, p)
    ensures GoesBy(s, Run(s, c, l, since), req, sum, p)
  {
    if since != [] {
      var most, last := since[..|since| - 1], since[|since| - 1];
      assert last in since;
      HeldSum(s, c, l, most, req, sum, p);
    }
  }

  // After an admitted copy, the calls of both services together are within the limit, but for its own overshoot and
  // for the calls that were recorded between its sum and its row.
  lemma CopySeesEarlierCalls(s: Settings, c: Calendars, l: Ledger, since: seq<Act>, p: Period)
    requires AreCalendars(c) && AboutToSum(l, p) && CopyHolds(since)
    requires var before := Run(s, c, Next(s, c, l, SumOf(p)), since);
      before.copy.Tested? && before.copy.admitted && !before.copy.req.lost && SamePeriod(Start(c, p), before.copy.req)
    ensures var before := Run(s, c, Next(s, c, l, SumOf(p)), since);
      var req, start := before.copy.req, Start(c, p);
      && req.estimate.Some? && |l.rows| <= |before.rows|
      && PeriodTotal(Next(s, c, before, Finish(CopyLock)).rows, start, req.begin, IsCall)
           <= Limit(s, p) - req.estimate.value + Settled(req)
              + PeriodTotal(before.rows[|l.rows|..], start, req.begin, IsCall)
  {
    var read, req, start := Next(s, c, l, SumOf(p)), l.copy.req, Start(c, p);
    var before, sum := Run(s, c, read, since), Spend(l.rows, Copy, start(req.now));
    HeldSum(s, c, read, since, req, sum, p);
    RowsOnlyGrow(s, c, read, since);
    assert before.rows == l.rows + before.rows[|l.rows|..];
    PeriodTotalJoins(l.rows, before.rows[|l.rows|..], start, req.begin, IsCall);
    SpendCoversPeriod(l.rows, Copy, start, req.now, IsCall);
    SamePeriodTotal(l.rows, start, req.begin, req.now, IsCall);
    PeriodAppend(before.rows, CalledRow(req), start, req.begin, IsCall);
  }

  lemma CopyAfter(s: Settings, c: Calendars, p: Period, rows: seq<Row>, between: seq<Row>, req: Request)
    requires AreCalendars(c) && SamePeriod(Start(c, p), req) && req.service == Copy && Admits(s, c, rows, req)
    requires req.usage.None? && PeriodTotal(between, Start(c, p), req.begin, IsCall) == 0.0
    ensures PeriodTotal(rows + between + [CalledRow(req)], Start(c, p), req.begin, IsCall) <= Limit(s, p)
  {
    var start := Start(c, p);
    PeriodAppend(rows + between, CalledRow(req), start, req.begin, IsCall);
    PeriodTotalJoins(rows, between, start, req.begin, IsCall);
    SpendCoversPeriod(rows, Copy, start, req.now, IsCall);
    SamePeriodTotal(rows, start, req.begin, req.now, IsCall);
  }

  // Whatever the settings and the ledger, an admitted copy leaves the period of its row within the limit although
  // these rows were added between its sums and its own row.
  ghost predicate AlwaysKeepsUnion(c: Calendars, p: Period, begin: nat, now: nat, between: seq<Row>) {
    forall s: Settings, rows: seq<Row>, estimate: Money ::
      var req := Request(Copy, begin, now, Some(estimate), None, false);
      Admits(s, c, rows, req) ==>
        PeriodTotal(rows + between + [CalledRow(req)], Start(c, p), begin, IsCall) <= Limit(s, p)
  }

  // The union of both services is safe after an admitted copy exactly when no call of that period, or only free ones,
  // was recorded between.
  lemma UnionKeptIffNothingBetween(c: Calendars, p: Period, begin: nat, now: nat, between: seq<Row>)
    requires AreCalendars(c) && Start(c, p)(begin) == Start(c, p)(now)
    ensures AlwaysKeepsUnion(c, p, begin, now, between) <==> PeriodTotal(between, Start(c, p), begin, IsCall) == 0.0
  {
    var start := Start(c, p);
    if PeriodTotal(between, start, begin, IsCall) == 0.0 {
      forall s: Settings, rows: seq<Row>, estimate: Money
        | Admits(s, c, rows, Request(Copy, begin, now, Some(estimate), None, false))
        ensures var req := Request(Copy, begin, now, Some(estimate), None, false);
          PeriodTotal(rows + between + [CalledRow(req)], start, begin, IsCall) <= Limit(s, p)
      {
        CopyAfter(s, c, p, rows, between, Request(Copy, begin, now, Some(estimate), None, false));
      }
    } else {
      var s, req := Settings(1.0, 1.0, 1.0), Request(Copy, begin, now, Some(1.0), None, false);
      assert Admits(s, c, [], req);
      PeriodAppend([] + between, CalledRow(req), start, begin, IsCall);
      assert [] + between == between;
      assert PeriodTotal([] + between + [CalledRow(req)], start, begin, IsCall) > Limit(s, p);
    }
  }

  // ---------- What a background does not see ----------

  lemma CreativeRowSplits(rows: seq<Row>, req: Request, start: Calendar)
    requires TypesValid(rows) && req.service != Copy && req.estimate.Some?
    ensures PeriodTotal(rows + [CalledRow(req)], start, req.begin, IsCall) <=
            PeriodTotal(rows + [CalledRow(req)], start, req.begin, IsAttempt)
            + PeriodTotal(rows, start, req.begin, IsCopyCall)
  {
    var row := CalledRow(req);
    assert TypesValid(rows + [row]);
    UnionSplits(rows + [row], start, req.begin);
    PeriodAppend(rows, row, start, req.begin, IsCopyCall);
  }

  // In any interleaving, after an admitted background or text request the calls of both services together are within
  // the limit, but for its own overshoot and for the copy calls of that period on file.
  lemma CreativeMissesCopyCalls(s: Settings, c: Calendars, l: Ledger, acts: seq<Act>, p: Period)
    requires AreCalendars(c) && Unlocked(l) && TypesValid(l.rows)
    requires var turn := Run(s, c, l, acts).creative;
      turn.Tested? && turn.admitted && !turn.req.lost && SamePeriod(Start(c, p), turn.req)
    ensures var before := Run(s, c, l, acts);
      var req, after := before.creative.req, Next(s, c, before, Finish(CreativeLock));
      && req.estimate.Some?
      && PeriodTotal(after.rows, Start(c, p), req.begin, IsCall)
           <= Limit(s, p) - req.estimate.value + Settled(req)
              + PeriodTotal(before.rows, Start(c, p), req.begin, IsCopyCall)
  {
    var before := Run(s, c, l, acts);
    var req := before.creative.req;
    AdmittedKeepsOwnLimit(s, c, l, acts, CreativeLock, p);
    RunKeepsTurnFits(s, c, l, acts, CreativeLock, p);
    RunKeepsTypes(s, c, l, acts);
    CreativeRowSplits(before.rows, req, Start(c, p));
  }

  lemma {:induction false} TotalOfNone(rows: seq<Row>, keep: Row -> bool)
    requires forall r :: r in rows ==> !keep(r)
    ensures Total(rows, keep) == 0.0
  {
    if rows != [] {
      assert rows[|rows| - 1] in rows;
      TotalOfNone(rows[..|rows| - 1], keep);
    }
  }

  ghost predicate NoCopyCalls(rows: seq<Row>) { forall r :: r in rows && IsCall(r) ==> IsAttempt(r) }

  ghost predicate OnlyCopyCalls(rows: seq<Row>) { forall r :: r in rows ==> IsCopyCall(r) }

  lemma CopiesAreNotSeen(copies: seq<Row>, since: nat)
    requires OnlyCopyCalls(copies)
    ensures CreativeSpend(copies, since) == 0.0
  {
    TotalOfNone(copies, AttemptsSince(since));
  }

  lemma CreativeAfter(
    s: Settings, c: Calendars, p: Period, rows: seq<Row>, earlier: seq<Row>, between: seq<Row>, req: Request)
    requires AreCalendars(c) && SamePeriod(Start(c, p), req) && req.service != Copy && req.usage.None?
    requires NoCopyCalls(rows) && Admits(s, c, rows + earlier, req)
    requires PeriodTotal(earlier + between, Start(c, p), req.begin, IsCall) == 0.0
    ensures PeriodTotal(rows + earlier + between + [CalledRow(req)], Start(c, p), req.begin, IsCall) <= Limit(s, p)
  {
    var start, t := Start(c, p), req.begin;
    PeriodAppend(rows + earlier + between, CalledRow(req), start, t, IsCall);
    assert rows + earlier + between == rows + (earlier + between);
    PeriodTotalJoins(rows, earlier + between, start, t, IsCall);
    TotalGrows(rows, InPeriod(start, t, IsCall), InPeriod(start, t, IsAttempt));
    PeriodTotalJoins(rows, earlier, start, t, IsAttempt);
    SpendCoversPeriod(rows + earlier, req.service, start, req.now, IsAttempt);
    SamePeriodTotal(rows + earlier, start, t, req.now, IsAttempt);
  }

  // Whatever the settings and the creative rows on file, an admitted request of the creative service leaves the union
  // of its row's period within the limit although these copy calls are on file, recorded before its sums or after.
  ghost predicate AlwaysKeepsUnionWith(
    c: Calendars, p: Period, service: Service, begin: nat, now: nat, earlier: seq<Row>, between: seq<Row>)
  {
    forall s: Settings, rows: seq<Row>, estimate: Money ::
      var req := Request(service, begin, now, Some(estimate), None, false);
      NoCopyCalls(rows) && Admits(s, c, rows + earlier, req) ==>
        PeriodTotal(rows + earlier + between + [CalledRow(req)], Start(c, p), begin, IsCall) <= Limit(s, p)
  }

  // The union is safe after an admitted creative request exactly when the copy calls of that period were free.
  lemma UnionKeptIffCopiesFree(
    c: Calendars, p: Period, service: Service, begin: nat, now: nat, earlier: seq<Row>, between: seq<Row>)
    requires AreCalendars(c) && service != Copy && Start(c, p)(begin) == Start(c, p)(now)
    requires OnlyCopyCalls(earlier) && OnlyCopyCalls(between)
    ensures AlwaysKeepsUnionWith(c, p, service, begin, now, earlier, between) <==>
            PeriodTotal(earlier + between, Start(c, p), begin, IsCall) == 0.0
  {
    var start := Start(c, p);
    if PeriodTotal(earlier + between, start, begin, IsCall) == 0.0 {
      forall s: Settings, rows: seq<Row>, estimate: Money
        | NoCopyCalls(rows) && Admits(s, c, rows + earlier, Request(service, begin, now, Some(estimate), None, false))
        ensures var req := Request(service, begin, now, Some(estimate), None, false);
          PeriodTotal(rows + earlier + between + [CalledRow(req)], start, begin, IsCall) <= Limit(s, p)
      {
        CreativeAfter(s, c, p, rows, earlier, between, Request(service, begin, now, Some(estimate), None, false));
      }
    } else {
      var s, req := Settings(1.0, 1.0, 1.0), Request(service, begin, now, Some(1.0), None, false);
      CopiesAreNotSeen(earlier, c.day(now));
      CopiesAreNotSeen(earlier, c.month(now));
      assert [] + earlier == earlier;
      assert Admits(s, c, [] + earlier, req);
      PeriodAppend([] + earlier + between, CalledRow(req), start, begin, IsCall);
      assert PeriodTotal([] + earlier + between + [CalledRow(req)], start, begin, IsCall) > Limit(s, p);
    }
  }

  // ---------- Where the budget is exceeded ----------

  lemma SpendOfOne(r: Row, service: Service, since: nat)
    ensures Spend([r], service, since) == if r.at >= since && (service == Copy || IsAttempt(r)) then r.cost else 0.0
  {
    assert [] + [r] == [r];
    TotalOfAppend([], r, AttemptsSince(since));
    TotalOfAppend([], r, RowsSince(since));
  }

  lemma PeriodOfOne(r: Row, start: Calendar, t: nat, keep: Row -> bool)
    ensures PeriodTotal([r], start, t, keep) == if keep(r) && start(r.at) == start(t) then r.cost else 0.0
  {
    assert [] + [r] == [r];
    PeriodAppend([], r, start, t, keep);
  }

  lemma BothAdmitted(s: Settings, c: Calendars, copy: Request, background: Request)
    requires copy.service == Copy && copy.estimate == Some(s.perRequest) && !copy.lost
    requires background.service == Background && background.estimate == Some(s.perRequest) && !background.lost
    requires s.daily == s.monthly == s.perRequest > 0.0
    ensures Step(s, c, [], copy) == [CalledRow(copy)]
    ensures Step(s, c, [CalledRow(copy)], background) == [CalledRow(copy), CalledRow(background)]
  {
    assert [] + [CalledRow(copy)] == [CalledRow(copy)];
    SpendOfOne(CalledRow(copy), Background, c.day(background.now));
    SpendOfOne(CalledRow(copy), Background, c.month(background.now));
    assert [CalledRow(copy)] + [CalledRow(background)] == [CalledRow(copy), CalledRow(background)];
  }

  lemma PeriodOfTwo(a: Row, b: Row, start: Calendar, t: nat, keep: Row -> bool)
    requires keep(a) && keep(b) && start(a.at) == start(t) == start(b.at)
    ensures PeriodTotal([a, b], start, t, keep) == a.cost + b.cost
  {
    assert [a] + [b] == [a, b];
    PeriodOfOne(a, start, t, keep);
    PeriodAppend([a], b, start, t, keep);
  }

  // Background admission does not see copy calls: for every positive limit two admitted requests, one after the
  // other, reach twice it.
  lemma UnionReachesTwiceTheLimit(c: Calendars, p: Period, t: nat, limit: Money)
    requires AreCalendars(c) && limit > 0.0
    ensures var s := Settings(limit, limit, limit);
      var copy := Request(Copy, t, t, Some(limit), None, false);
      var after := Run(s, c, Run(s, c, EMPTY, Alone(copy)), Alone(copy.(service := Background)));
      PeriodTotal(after.rows, Start(c, p), t, IsCall) == limit + limit
  {
    var s := Settings(limit, limit, limit);
    var copy := Request(Copy, t, t, Some(limit), None, false);
    var background := copy.(service := Background);
    AloneIsStep(s, c, EMPTY, copy);
    BothAdmitted(s, c, copy, background);
    AloneIsStep(s, c, EMPTY.(rows := [CalledRow(copy)]), background);
    PeriodOfTwo(CalledRow(copy), CalledRow(background), Start(c, p), t, IsCall);
  }

  // And a copy does not see a background that is still running: it is admitted, the background's row is recorded, and
  // right after its own row the union is twice the limit.
  lemma RaceReachesTwiceTheLimit(c: Calendars, p: Period, t: nat, limit: Money) returns (acts: seq<Act>)
    requires AreCalendars(c) && limit > 0.0
    ensures var s := Settings(limit, limit, limit);
      var before := Run(s, c, EMPTY, acts);
      && before.copy == Tested(Request(Copy, t, t, Some(limit), None, false), true)
      && PeriodTotal(Next(s, c, before, Finish(CopyLock)).rows, Start(c, p), t, IsCall) == limit + limit
  {
    var s := Settings(limit, limit, limit);
    var copy := Request(Copy, t, t, Some(limit), None, false);
    var background := copy.(service := Background);
    var arrived := [Arrive(background), SumDay(CreativeLock), SumMonth(CreativeLock)];
    var tested := arrived + [Arrive(copy), SumDay(CopyLock), SumMonth(CopyLock)];
    acts := tested + [Finish(CreativeLock)];
    ThreeActs(s, c, EMPTY, [], Arrive(background), SumDay(CreativeLock), SumMonth(CreativeLock));
    assert [] + arrived == arrived;
    assert Run(s, c, EMPTY, arrived) == Ledger([], Tested(background, true), Idle);
    ThreeActs(s, c, EMPTY, arrived, Arrive(copy), SumDay(CopyLock), SumMonth(CopyLock));
    assert Run(s, c, EMPTY, tested) == Ledger([], Tested(background, true), Tested(copy, true));
    RunAppends(s, c, EMPTY, tested, Finish(CreativeLock));
    assert [] + [CalledRow(background)] == [CalledRow(background)];
    assert [CalledRow(background)] + [CalledRow(copy)] == [CalledRow(background), CalledRow(copy)];
    PeriodOfTwo(CalledRow(background), CalledRow(copy), Start(c, p), t, IsCall);
  }

  // Whatever the settings and the ledger, an admitted request of this service keeps the calls of its kind, in the
  // period its row lands in, within the limit.
  ghost predicate AlwaysKeeps(c: Calendars, p: Period, service: Service, begin: nat, now: nat) {
    forall s: Settings, rows: seq<Row>, estimate: Money ::
      PeriodTotal(rows, Start(c, p), begin, OwnCalls(LockOf(service))) <= Limit(s, p) ==>
        PeriodTotal(Step(s, c, rows, Request(service, begin, now, Some(estimate), None, false)), Start(c, p), begin,
                    OwnCalls(LockOf(service))) <= Limit(s, p)
  }

  lemma PunctualKeeps(s: Settings, c: Calendars, p: Period, rows: seq<Row>, req: Request)
    requires AreCalendars(c) && SamePeriod(Start(c, p), req) && req.usage.None?
    requires PeriodTotal(rows, Start(c, p), req.begin, OwnCalls(LockOf(req.service))) <= Limit(s, p)
    ensures PeriodTotal(Step(s, c, rows, req), Start(c, p), req.begin, OwnCalls(LockOf(req.service))) <= Limit(s, p)
  {
    var start, own := Start(c, p), OwnCalls(LockOf(req.service));
    if Admits(s, c, rows, req) {
      SpendCoversPeriod(rows, req.service, start, req.now, own);
      SamePeriodTotal(rows, start, req.begin, req.now, own);
      PeriodAppend(rows, CalledRow(req), start, req.begin, own);
    } else {
      PeriodAppend(rows, BlockedRow(req), start, req.begin, own);
    }
  }

  lemma StraddleExceeds(c: Calendars, p: Period, service: Service, begin: nat, now: nat)
    requires AreCalendars(c) && begin <= now && Start(c, p)(begin) != Start(c, p)(now)
    ensures !AlwaysKeeps(c, p, service, begin, now)
  {
    var start, own := Start(c, p), OwnCalls(LockOf(service));
    var s := if p == Day then Settings(1.0, 2.0, 1.0) else Settings(2.0, 1.0, 1.0);
    var earlier := CalledRow(Request(service, begin, begin, Some(1.0), None, false));
    var req := Request(service, begin, now, Some(1.0), None, false);
    assert begin < start(now);
    SpendOfOne(earlier, service, c.day(now));
    SpendOfOne(earlier, service, c.month(now));
    assert Admits(s, c, [earlier], req);
    PeriodOfOne(earlier, start, begin, own);
    PeriodAppend([earlier], CalledRow(req), start, begin, own);
    assert PeriodTotal([earlier], start, begin, own) <= Limit(s, p);
    assert PeriodTotal(Step(s, c, [earlier], req), start, begin, own) == 2.0;
  }

  // The row is dated by the start of its transaction and tested at the time of admission: a limit is safe exactly
  // when the two fall into one period.
  lemma LimitIsKeptIffNotStraddled(c: Calendars, p: Period, service: Service, begin: nat, now: nat)
    requires AreCalendars(c) && begin <= now
    ensures AlwaysKeeps(c, p, service, begin, now) <==> Start(c, p)(begin) == Start(c, p)(now)
  {
    var start, own := Start(c, p), OwnCalls(LockOf(service));
    if start(begin) == start(now) {
      forall s: Settings, rows: seq<Row>, estimate: Money | PeriodTotal(rows, start, begin, own) <= Limit(s, p)
        ensures
          PeriodTotal(Step(s, c, rows, Request(service, begin, now, Some(estimate), None, false)), start, begin, own)
            <= Limit(s, p)
      {
        PunctualKeeps(s, c, p, rows, Request(service, begin, now, Some(estimate), None, false));
      }
    } else {
      StraddleExceeds(c, p, service, begin, now);
    }
  }

  // ---------- Provider calls and their rows ----------

  // The provider is called between an admission and the end of its transaction.
  predicate CallsProvider(l: Ledger, act: Act, lostOnly: bool) {
    && act.Finish? && TurnOf(l, act.lock).Tested? && TurnOf(l, act.lock).admitted
    && TurnOf(l, act.lock).req.estimate.Some? && (lostOnly ==> TurnOf(l, act.lock).req.lost)
  }

  function Calls(s: Settings, c: Calendars, l: Ledger, acts: seq<Act>, lostOnly: bool): nat {
    if acts == [] then 0
    else
      var most := acts[..|acts| - 1];
      Calls(s, c, l, most, lostOnly) + (if CallsProvider(Run(s, c, l, most), acts[|acts| - 1], lostOnly) then 1 else 0)
  }

  function CallRows(rows: seq<Row>): nat {
    if rows == [] then 0 else CallRows(rows[..|rows| - 1]) + (if rows[|rows| - 1].called then 1 else 0)
  }

  lemma CallRowsAppends(rows: seq<Row>, r: Row)
    ensures CallRows(rows + [r]) == CallRows(rows) + (if r.called then 1 else 0)
  {
    assert (rows + [r])[..|rows|] == rows;
  }

  lemma RecordMissesLostCall(rows: seq<Row>, req: Request, admitted: bool)
    ensures var called := admitted && req.estimate.Some?;
      CallRows(Recorded(rows, req, admitted)) + (if called && req.lost then 1 else 0) ==
      CallRows(rows) + (if called then 1 else 0)
  {
    if !admitted || req.estimate.None? {
      CallRowsAppends(rows, BlockedRow(req));
    } else if !req.lost {
      CallRowsAppends(rows, CalledRow(req));
    }
  }

  lemma ActMissesLostCall(s: Settings, c: Calendars, l: Ledger, act: Act)
    ensures CallRows(Next(s, c, l, act).rows) + (if CallsProvider(l, act, true) then 1 else 0)
      == CallRows(l.rows) + (if CallsProvider(l, act, false) then 1 else 0)
  {
    if act.Arrive? {
      CallRowsAppends(l.rows, BlockedRow(act.req));
    } else if act.Finish? && TurnOf(l, act.lock).Tested? {
      RecordMissesLostCall(l.rows, TurnOf(l, act.lock).req, TurnOf(l, act.lock).admitted);
    }
  }

  // The ledger misses exactly the calls whose transaction was rolled back after the provider answered.
  lemma {:induction false} LedgerMissesExactlyLostCalls(s: Settings, c: Calendars, l: Ledger, acts: seq<Act>)
    ensures CallRows(Run(s, c, l, acts).rows) + Calls(s, c, l, acts, true) ==
            CallRows(l.rows) + Calls(s, c, l, acts, false)
  {
    if acts != [] {
      var most, last := acts[..|acts| - 1], acts[|acts| - 1];
      LedgerMissesExactlyLostCalls(s, c, l, most);
      ActMissesLostCall(s, c, Run(s, c, l, most), last);
    }
  }

  function Repeated(n: nat, req: Request): seq<Act> {
    if n == 0 then [] else Repeated(n - 1, req) + Alone(req)
  }

  lemma CallsAppends(s: Settings, c: Calendars, l: Ledger, acts: seq<Act>, act: Act)
    ensures Calls(s, c, l, acts + [act], false) ==
            Calls(s, c, l, acts, false) + (if CallsProvider(Run(s, c, l, acts), act, false) then 1 else 0)
  {
    assert (acts + [act])[..|acts|] == acts;
  }

  lemma LostCallLeavesNoRow(s: Settings, c: Calendars, l: Ledger, acts: seq<Act>, req: Request)
    requires req.lost && Unlocked(Run(s, c, l, acts)) && Admits(s, c, Run(s, c, l, acts).rows, req)
    ensures Run(s, c, l, acts + Alone(req)) == Run(s, c, l, acts)
    ensures Calls(s, c, l, acts + Alone(req), false) == Calls(s, c, l, acts, false) + 1
  {
    var lock, v := LockOf(req.service), Run(s, c, l, acts);
    var a1 := acts + [Arrive(req)];
    var a2 := a1 + [SumDay(lock)];
    var a3 := a2 + [SumMonth(lock)];
    CallsAppends(s, c, l, acts, Arrive(req));
    CallsAppends(s, c, l, a1, SumDay(lock));
    CallsAppends(s, c, l, a2, SumMonth(lock));
    CallsAppends(s, c, l, a3, Finish(lock));
    assert acts + Alone(req) == a3 + [Finish(lock)];
    assert a3 == acts + [Arrive(req), SumDay(lock), SumMonth(lock)];
    ThreeActs(s, c, l, acts, Arrive(req), SumDay(lock), SumMonth(lock));
    ReachesTheTest(s, c, v, req);
    RunAppends(s, c, l, a3, Finish(lock));
    assert Run(s, c, l, a3) == WithTurn(v, lock, Tested(req, true));
  }

  // So recorded spend is all that the limits bound: any number of lost calls is admitted and leaves no row.
  lemma {:induction false} LostCallsEscapeTheLimit(s: Settings, c: Calendars, l: Ledger, req: Request, n: nat)
    requires req.lost && Unlocked(l) && Admits(s, c, l.rows, req)
    ensures Run(s, c, l, Repeated(n, req)) == l && Calls(s, c, l, Repeated(n, req), false) == n
  {
    if n > 0 {
      LostCallsEscapeTheLimit(s, c, l, req, n - 1);
      LostCallLeavesNoRow(s, c, l, Repeated(n - 1, req), req);
    }
  }

  // ---------- One request in columns ----------

  // A sum takes the rows since an instant; a background or text request only those of its own kind.
  lemma SpendIs(rows: seq<Row>, r: Row, service: Service, since: nat)
    ensures Spend([], service, since) == 0.0
    ensures Spend(rows + [r], service, since) == Spend(rows, service, since)
      + (if since <= r.at && (service == Copy || r.requestType == ProviderAttempt) then r.cost else 0.0)
  {
    TotalOfAppend(rows, r, AttemptsSince(since));
    TotalOfAppend(rows, r, RowsSince(since));
  }

  // A known price within the positive ceiling, for a copy two positive budgets, and room in both periods.
  predicate Affordable(s: Settings, req: Request, daily: Money, monthly: Money) {
    && req.estimate.Some? && req.estimate.value <= s.perRequest && s.perRequest > 0.0
    && (req.service == Copy ==> s.daily > 0.0 && s.monthly > 0.0)
    && s.daily >= daily + req.estimate.value && s.monthly >= monthly + req.estimate.value
  }

  // One request's row: dated by its start; blocked ones keep the estimate as cost and are no calls.
  ghost predicate Files(rows: seq<Row>, rows': seq<Row>, req: Request, affordable: bool)
    requires affordable ==> req.estimate.Some?
  {
    if affordable && req.lost then rows' == rows
    else
      && |rows'| == |rows| + 1 && rows'[..|rows|] == rows
      && var r := rows'[|rows|];
        && r.at == req.begin && r.called == affordable
        && (r.requestType == Generation <==> req.service == Copy)
        && (r.requestType == ProviderAttempt <==> req.service != Copy && affordable)
        && r.admitted == (if affordable then req.estimate.value else 0.0)
        && r.cost == if affordable && req.service != Background && req.usage.Some? then req.usage.value
                     else if req.estimate.Some? then req.estimate.value else 0.0
  }

  lemma StepExactly(s: Settings, c: Calendars, rows: seq<Row>, req: Request)
    ensures Files(rows, Step(s, c, rows, req), req,
      Affordable(s, req, Spend(rows, req.service, c.day(req.now)), Spend(rows, req.service, c.month(req.now))))
  {
  }

  // ---------- The acts in columns ----------

  // A lock stays with its request until that request finishes or is given up, and nothing else touches its turn.
  lemma HolderKeepsLock(s: Settings, c: Calendars, l: Ledger, act: Act, lock: Lock)
    ensures var before, after := TurnOf(l, lock), TurnOf(Next(s, c, l, act), lock);
      && (!before.Idle? && after.Idle? ==> act == Finish(lock) || act == Abandon(lock))
      && (!before.Idle? && !after.Idle? ==> after.req == before.req)
      && (before.Idle? && !after.Idle? ==>
            act.Arrive? && after == Locked(act.req) && (act.req.service == Copy <==> lock == CopyLock))
  {
  }

  // The row of a request appears when it finishes after its test, or, for the creative service, at once when its
  // price is unknown or above the ceiling.
  lemma RowsAppearAtTheEnd(s: Settings, c: Calendars, l: Ledger, act: Act)
    ensures var l' := Next(s, c, l, act);
      || l'.rows == l.rows
      || (act.Finish? && TurnOf(l, act.lock).Tested? && TurnOf(l', act.lock).Idle?
          && var turn := TurnOf(l, act.lock);
             Files(l.rows, l'.rows, turn.req, turn.admitted && turn.req.estimate.Some?))
      || (act.Arrive? && act.req.service != Copy && Files(l.rows, l'.rows, act.req, false)
          && !(act.req.estimate.Some? && act.req.estimate.value <= s.perRequest && s.perRequest > 0.0))
  {
  }

  // Both sums are read one after the other, each from what is on file then, and the test is on those two.
  lemma SumsAreTested(s: Settings, c: Calendars, l: Ledger, lock: Lock)
    ensures var before, after := TurnOf(l, lock), TurnOf(Next(s, c, l, SumDay(lock)), lock);
      before.Locked? ==> after == DayRead(before.req, Spend(l.rows, before.req.service, c.day(before.req.now)))
    ensures var before, after := TurnOf(l, lock), TurnOf(Next(s, c, l, SumMonth(lock)), lock);
      before.DayRead? ==> after == Tested(before.req,
        Affordable(s, before.req, before.daily, Spend(l.rows, before.req.service, c.month(before.req.now))))
    ensures TurnOf(l, lock).Tested? ==> TurnOf(Next(s, c, l, Finish(lock)), lock).Idle?
    ensures Next(s, c, l, Abandon(lock)).rows == l.rows && TurnOf(Next(s, c, l, Abandon(lock)), lock).Idle?
  {
  }

  // ---------- The ceiling ----------

  // No limit that the estimate alone passes, and for a copy no budget of zero.
  predicate WithinSettings(s: Settings, estimate: Money, copy: bool) {
    && estimate <= s.perRequest && 0.0 < s.perRequest && estimate <= s.daily && estimate <= s.monthly
    && (copy ==> 0.0 < s.daily && 0.0 < s.monthly)
  }

  ghost predicate TurnAllowed(s: Settings, turn: Turn) {
    turn.Tested? && turn.admitted ==>
      turn.req.estimate.Some? && WithinSettings(s, turn.req.estimate.value, turn.req.service == Copy)
  }

  ghost predicate CallsAllowed(s: Settings, rows: seq<Row>) {
    forall r :: r in rows && r.called ==> WithinSettings(s, r.admitted, r.requestType == Generation)
  }

  // Over every run no call is on file whose estimate was above the ceiling or above a whole limit, and no copy that
  // was called on a zero budget.
  lemma {:induction false} CallsKeepCeiling(s: Settings, c: Calendars, l: Ledger, acts: seq<Act>)
    requires Unlocked(l) && CallsAllowed(s, l.rows)
    ensures CallsAllowed(s, Run(s, c, l, acts).rows)
    ensures TurnAllowed(s, Run(s, c, l, acts).creative) && TurnAllowed(s, Run(s, c, l, acts).copy)
  {
    if acts != [] {
      CallsKeepCeiling(s, c, l, acts[..|acts| - 1]);
      NextKeepsCeiling(s, c, Run(s, c, l, acts[..|acts| - 1]), acts[|acts| - 1]);
    }
  }

  lemma NextKeepsCeiling(s: Settings, c: Calendars, l: Ledger, act: Act)
    requires CallsAllowed(s, l.rows) && TurnAllowed(s, l.creative) && TurnAllowed(s, l.copy)
    ensures CallsAllowed(s, Next(s, c, l, act).rows)
    ensures TurnAllowed(s, Next(s, c, l, act).creative) && TurnAllowed(s, Next(s, c, l, act).copy)
  {
  }

  // ---------- The services ----------

  class TelemetryLedger {
    var rows: seq<Row>

    method SpendSince(since: nat, attemptsOnly: bool) returns (spend: Money)
      ensures spend == if attemptsOnly then CreativeSpend(rows, since) else CopySpend(rows, since)
    {
      spend := 0.0;
      var keep := if attemptsOnly then AttemptsSince(since) else RowsSince(since);
      for i := 0 to |rows|
        invariant spend == Total(rows[..i], keep)
      {
        assert rows[..i + 1][..i] == rows[..i];
        if keep(rows[i]) {
          spend := spend + rows[i].cost;
        }
      }
      assert rows[..|rows|] == rows;
    }

    // generate_background and generate_structured, with nothing else between their statements.
    method Generate(s: Settings, c: Calendars, req: Request)
      requires req.service != Copy
      modifies this
      ensures rows == Step(s, c, old(rows), req)
    {
      var blocked := req.estimate.None? || s.perRequest <= 0.0 || req.estimate.value > s.perRequest;
      if !blocked {
        var daily := SpendSince(c.day(req.now), true);
        var monthly := SpendSince(c.month(req.now), true);
        blocked := daily + req.estimate.value > s.daily || monthly + req.estimate.value > s.monthly;
      }
      if blocked {
        rows := rows + [BlockedRow(req)];
        return;
      }
      if !req.lost {
        rows := rows + [CalledRow(req)];
      }
    }

    method CopyFromProvider(s: Settings, c: Calendars, req: Request)
      requires req.service == Copy
      modifies this
      ensures rows == Step(s, c, old(rows), req)
    {
      var daily := SpendSince(c.day(req.now), false);
      var monthly := SpendSince(c.month(req.now), false);
      if req.estimate.None? || s.daily <= 0.0 || s.monthly <= 0.0
        || s.perRequest <= 0.0 || req.estimate.value > s.perRequest
        || daily + req.estimate.value > s.daily || monthly + req.estimate.value > s.monthly
      {
        rows := rows + [BlockedRow(req)];
        return;
      }
      if !req.lost {
        rows := rows + [CalledRow(req)];
      }
    }
  }
}
