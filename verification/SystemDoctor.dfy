/** The system doctor: three latched checks, the published domain and Wi-Fi reports, the
    bounded event log and the aggregate status, over every interleaving of its operations. */
module SystemDoctor {
  import opened Text
  import opened DoctorLatch

  const MAX_EVENTS := 32

  datatype Event = Event(rule: Rule, from: Status, to: Status, at: int)

  datatype DatabaseReading = DatabaseReading(configured: bool, reachable: bool)
  datatype RuntimeReading = RuntimeReading(
    memoryTotalMb: int, memoryPercent: int, diskTotalMb: int, diskAvailableMb: int)
  datatype DomainReport = DomainReport(status: Status, critical: bool, failures: nat, successes: nat, checkedAt: int)
  datatype WifiReport = WifiReport(status: Status, checkedAt: int)

  datatype Report = Report(
    status: Status, isProtected: bool, checkedAt: int, checks: seq<Check>, events: seq<Event>,
    wifi: WifiReport, domain: DomainReport)

  // ---- Samples ----

  function DatabaseSample(d: DatabaseReading): Sample {
    if !d.configured then Sample.Unknown else if d.reachable then Good(1) else Failed(0)
  }

  function MemorySample(r: RuntimeReading, p: Policy): Sample {
    if r.memoryTotalMb <= 0 || !(0 <= r.memoryPercent <= 100) then Sample.Unknown
    else if r.memoryPercent >= p.memoryCriticalPercent then Failed(r.memoryPercent)
    else if r.memoryPercent <= p.memoryRecoveryPercent then Good(r.memoryPercent)
    else Neutral(r.memoryPercent)
  }

  function DiskSample(r: RuntimeReading, p: Policy): Sample {
    if r.diskTotalMb <= 0 || r.diskAvailableMb < 0 || r.diskAvailableMb > r.diskTotalMb then Sample.Unknown
    else if r.diskAvailableMb <= p.diskCriticalAvailableMb then Failed(r.diskAvailableMb)
    else if r.diskAvailableMb >= p.diskRecoveryAvailableMb then Good(r.diskAvailableMb)
    else Neutral(r.diskAvailableMb)
  }

  function Samples(d: DatabaseReading, r: RuntimeReading, p: Policy): (s: seq<Sample>)
    ensures |s| == 3
  {
    [DatabaseSample(d), MemorySample(r, p), DiskSample(r, p)]
  }

  // ---- Aggregates ----

  predicate ProtectedBy(checks: seq<Check>) {
    exists i :: 0 <= i < |checks| && checks[i].critical && (checks[i].rule == Memory || checks[i].rule == Disk)
  }

  predicate AnyStatus(checks: seq<Check>, status: Status) {
    exists i :: 0 <= i < |checks| && checks[i].status == status
  }

  function AggregateStatus(checks: seq<Check>): Status {
    if exists i :: 0 <= i < |checks| && checks[i].critical && checks[i].status != Status.Recovering then Status.Critical
    else if exists i :: 0 <= i < |checks| && checks[i].critical then Status.Recovering
    else if AnyStatus(checks, Status.Warning) then Status.Warning
    else if AnyStatus(checks, Status.Unknown) then Status.Unknown
    else if AnyStatus(checks, Status.Starting) then Status.Starting
    else Status.Healthy
  }

  // ---- One step ----

  /** The last events that fit the log. */
  function Recent(events: seq<Event>): seq<Event> {
    if |events| > MAX_EVENTS then events[|events| - MAX_EVENTS..] else events
  }

  function Transition(before: Check, after: Check, at: int): seq<Event> {
    if before.status != after.status then [Event(after.rule, before.status, after.status, at)] else []
  }

  const INITIAL := Report(Status.Starting, false, 0, [Fresh(Database), Fresh(Memory), Fresh(Disk)], [],
                          WifiReport(NO_STATUS, 0), DomainReport(NO_STATUS, false, 0, 0, 0))

  datatype Command =
    | Observe(database: DatabaseReading, runtime: RuntimeReading, now: int)
    | PublishDomain(domain: DomainReport)
    | PublishWifi(wifi: WifiReport, clock: int)

  const FRESH_DOMAIN := Check(Domain, NO_STATUS, None, 0, 0, false)

  predicate Shaped(checks: seq<Check>) {
    && (|checks| == 3 || (|checks| == 4 && checks[3].rule == Domain))
    && checks[0].rule == Database && checks[1].rule == Memory && checks[2].rule == Disk
  }

  function DomainCheck(d: DomainReport): Check {
    Check(Domain, d.status, Some(if d.status == Status.Healthy then 1 else 0), d.failures, d.successes, d.critical)
  }

  /** The checks after a command. */
  function NextChecks(checks: seq<Check>, p: Policy, c: Command): (r: seq<Check>)
    requires Shaped(checks)
    ensures Shaped(r)
  {
    match c
    case Observe(d, m, _) =>
      var s := Samples(d, m, p);
      [UpdateCheck(checks[0], s[0], p), UpdateCheck(checks[1], s[1], p), UpdateCheck(checks[2], s[2], p)] + checks[3..]
    case PublishDomain(d) => checks[..3] + [DomainCheck(d)]
    case PublishWifi(_, _) => checks
  }

  function DomainBefore(checks: seq<Check>): Check
    requires Shaped(checks)
  {
    if |checks| == 4 then checks[3] else FRESH_DOMAIN
  }

  /** The transitions a command logs. */
  function NewEvents(r: Report, p: Policy, c: Command): seq<Event>
    requires Shaped(r.checks)
  {
    match c
    case Observe(_, _, now) =>
      var after := NextChecks(r.checks, p, c);
      Transition(r.checks[0], after[0], now) + Transition(r.checks[1], after[1], now)
      + Transition(r.checks[2], after[2], now)
    case PublishDomain(d) => Transition(DomainBefore(r.checks), DomainCheck(d), d.checkedAt)
    case PublishWifi(w, clock) =>
      if r.wifi.status != w.status
      then [Event(Wifi, r.wifi.status, w.status, if w.checkedAt > 0 then w.checkedAt else clock)] else []
  }

  function Step(r: Report, p: Policy, c: Command): Report
    requires Shaped(r.checks)
  {
    var checks, events := NextChecks(r.checks, p, c), Recent(r.events + NewEvents(r, p, c));
    match c
    case Observe(_, _, now) =>
      r.(checks := checks, events := events, isProtected := ProtectedBy(checks), status := AggregateStatus(checks),
         checkedAt := now)
    case PublishDomain(d) => r.(checks := checks, events := events, status := AggregateStatus(checks), domain := d)
    case PublishWifi(w, _) => r.(events := events, wifi := w)
  }

  // ---- Every run ----

  function Run(p: Policy, cs: seq<Command>): (r: Report)
    ensures Shaped(r.checks)
  {
    if cs == [] then INITIAL else Step(Run(p, cs[..|cs| - 1]), p, cs[|cs| - 1])
  }

  /** Every transition ever, the ones the bounded log dropped included. */
  function Log(p: Policy, cs: seq<Command>): seq<Event> {
    if cs == [] then []
    else Log(p, cs[..|cs| - 1]) + NewEvents(Run(p, cs[..|cs| - 1]), p, cs[|cs| - 1])
  }

  /** The samples a run fed to one of the three checks. */
  function History(p: Policy, cs: seq<Command>, k: nat): seq<Sample>
    requires k < 3
  {
    if cs == [] then []
    else
      var front, last := History(p, cs[..|cs| - 1], k), cs[|cs| - 1];
      if last.Observe? then front + [Samples(last.database, last.runtime, p)[k]] else front
  }

  lemma NextCheck(checks: seq<Check>, p: Policy, c: Command, k: nat)
    requires Shaped(checks) && k < 3
    ensures NextChecks(checks, p, c)[k] ==
            if c.Observe? then UpdateCheck(checks[k], Samples(c.database, c.runtime, p)[k], p) else checks[k]
  {
  }

  lemma LatchStep(rule: Rule, h: seq<Sample>, s: Sample, p: Policy)
    ensures Latch(rule, h + [s], p) == UpdateCheck(Latch(rule, h, p), s, p)
  {
    assert (h + [s])[..|h|] == h;
  }

  /** Whatever is published in between, the three checks are the latches of their samples. */
  lemma {:induction false} RunChecks(p: Policy, cs: seq<Command>, k: nat)
    requires k < 3
    ensures Run(p, cs).checks[k] == Latch(INITIAL.checks[k].rule, History(p, cs, k), p)
  {
    if cs != [] {
      var front, last := cs[..|cs| - 1], cs[|cs| - 1];
      RunChecks(p, front, k);
      NextCheck(Run(p, front).checks, p, last, k);
      if last.Observe? {
        LatchStep(INITIAL.checks[k].rule, History(p, front, k), Samples(last.database, last.runtime, p)[k], p);
      }
    }
  }

  /** The report agrees with its checks. */
  predicate Consistent(r: Report) {
    && Shaped(r.checks)
    && r.isProtected == (r.checks[1].critical || r.checks[2].critical)
    && r.status == AggregateStatus(r.checks)
  }

  lemma ProtectedByShape(checks: seq<Check>)
    requires Shaped(checks)
    ensures ProtectedBy(checks) == (checks[1].critical || checks[2].critical)
  {
  }

  lemma InitialConsistent()
    ensures Consistent(INITIAL)
  {
    assert !AnyStatus(INITIAL.checks, Status.Warning) && !AnyStatus(INITIAL.checks, Status.Unknown);
    assert INITIAL.checks[0].status == Status.Starting;
  }

  /** Every operation keeps the report consistent, though publications recompute only part of it. */
  lemma StepConsistent(r: Report, p: Policy, c: Command)
    requires Consistent(r)
    ensures Consistent(Step(r, p, c))
  {
    ProtectedByShape(NextChecks(r.checks, p, c));
  }

  /** In every reachable state the report is consistent with its checks. */
  lemma {:induction false} RunConsistent(p: Policy, cs: seq<Command>)
    ensures Consistent(Run(p, cs))
  {
    if cs == [] {
      InitialConsistent();
    } else {
      RunConsistent(p, cs[..|cs| - 1]);
      StepConsistent(Run(p, cs[..|cs| - 1]), p, cs[|cs| - 1]);
    }
  }

  lemma StepEvents(r: Report, p: Policy, c: Command)
    requires Shaped(r.checks)
    ensures Step(r, p, c).events == Recent(r.events + NewEvents(r, p, c))
  {
  }

  /** In every reachable state the event list holds the last transitions of the full log. */
  lemma {:induction false} RunEvents(p: Policy, cs: seq<Command>)
    ensures Run(p, cs).events == Recent(Log(p, cs))
  {
    if cs != [] {
      var front, last := cs[..|cs| - 1], cs[|cs| - 1];
      RunEvents(p, front);
      StepEvents(Run(p, front), p, last);
      RecentOfRecent(Log(p, front), NewEvents(Run(p, front), p, last));
    }
  }

  lemma RecentOfRecent(a: seq<Event>, b: seq<Event>)
    ensures Recent(Recent(a) + b) == Recent(a + b)
  {
  }

  /** The end-to-end reading: backups are paused exactly while a memory or disk incident is open in
      the history of samples, whatever else was published in between. */
  lemma ProtectedMeansIncident(p: Policy, cs: seq<Command>)
    requires p.Sound()
    ensures Run(p, cs).isProtected <==> Incident(History(p, cs, 1), p) || Incident(History(p, cs, 2), p)
  {
    RunConsistent(p, cs);
    RunChecks(p, cs, 1);
    RunChecks(p, cs, 2);
    LatchIsIncident(Memory, History(p, cs, 1), p);
    LatchIsIncident(Disk, History(p, cs, 2), p);
  }

  // ---- The event log ----

  function StatusOf(r: Report, rule: Rule): Status
    requires Shaped(r.checks)
  {
    match rule
    case Database => r.checks[0].status
    case Memory => r.checks[1].status
    case Disk => r.checks[2].status
    case Domain => DomainBefore(r.checks).status
    case Wifi => r.wifi.status
  }

  /** Replaying the events of a rule from a status: each must start where the last one ended. */
  function Replay(log: seq<Event>, rule: Rule, start: Status): Option<Status> {
    if log == [] then Some(start)
    else
      var s, e := Replay(log[..|log| - 1], rule, start), log[|log| - 1];
      if s.None? || e.rule != rule then s
      else if e.from == s.value && e.from != e.to then Some(e.to) else None
  }

  lemma {:induction false} ReplayConcat(a: seq<Event>, b: seq<Event>, rule: Rule, start: Status)
    ensures Replay(a + b, rule, start) ==
            if Replay(a, rule, start).None? then None else Replay(b, rule, Replay(a, rule, start).value)
  {
    if b == [] {
      assert a + b == a;
    } else {
      assert (a + b)[..|a + b| - 1] == a + b[..|b| - 1];
      ReplayConcat(a, b[..|b| - 1], rule, start);
    }
  }

  lemma ReplayTransition(before: Check, after: Check, at: int, rule: Rule)
    requires before.rule == after.rule
    ensures forall start :: after.rule != rule ==> Replay(Transition(before, after, at), rule, start) == Some(start)
    ensures after.rule == rule ==> Replay(Transition(before, after, at), rule, before.status) == Some(after.status)
  {
    if before.status != after.status {
      assert [Event(after.rule, before.status, after.status, at)][..0] == [];
    }
  }

  lemma ReplayStep(r: Report, p: Policy, c: Command, rule: Rule)
    requires Shaped(r.checks)
    ensures Replay(NewEvents(r, p, c), rule, StatusOf(r, rule)) == Some(StatusOf(Step(r, p, c), rule))
  {
    match c
    case Observe(d, m, now) =>
      var after := NextChecks(r.checks, p, c);
      var a := Transition(r.checks[0], after[0], now);
      var b := Transition(r.checks[1], after[1], now);
      var e := Transition(r.checks[2], after[2], now);
      ReplayTransition(r.checks[0], after[0], now, rule);
      ReplayTransition(r.checks[1], after[1], now, rule);
      ReplayTransition(r.checks[2], after[2], now, rule);
      ReplayConcat(a + b, e, rule, StatusOf(r, rule));
      ReplayConcat(a, b, rule, StatusOf(r, rule));
    case PublishDomain(d) =>
      ReplayTransition(DomainBefore(r.checks), DomainCheck(d), d.checkedAt, rule);
    case PublishWifi(w, clock) =>
      if r.wifi.status != w.status {
        assert NewEvents(r, p, c)[..0] == [];
      }
  }

  /** The log explains every status: replayed from the initial status, the transitions of each
      rule chain without a gap and end in the rule's current status. */
  lemma {:induction false} LogReplays(p: Policy, cs: seq<Command>, rule: Rule)
    ensures Replay(Log(p, cs), rule, StatusOf(INITIAL, rule)) == Some(StatusOf(Run(p, cs), rule))
  {
    if cs != [] {
      var front, last := cs[..|cs| - 1], cs[|cs| - 1];
      LogReplays(p, front, rule);
      ReplayStep(Run(p, front), p, last, rule);
      ReplayConcat(Log(p, front), NewEvents(Run(p, front), p, last), rule, StatusOf(INITIAL, rule));
    }
  }

  /** A suffix of a replayable log replays from the status it starts in. */
  lemma ReplaySuffix(log: seq<Event>, n: nat, rule: Rule, start: Status)
    requires n <= |log| && Replay(log, rule, start).Some?
    ensures exists s :: Replay(log[n..], rule, s) == Replay(log, rule, start)
  {
    ReplayConcat(log[..n], log[n..], rule, start);
    assert log == log[..n] + log[n..];
  }

  /** So the bounded log, too, chains per rule up to the current status. */
  lemma EventsReplay(p: Policy, cs: seq<Command>, rule: Rule)
    ensures |Run(p, cs).events| <= MAX_EVENTS
    ensures exists s :: Replay(Run(p, cs).events, rule, s) == Some(StatusOf(Run(p, cs), rule))
  {
    RunEvents(p, cs);
    LogReplays(p, cs, rule);
    var log := Log(p, cs);
    var n := if |log| > MAX_EVENTS then |log| - MAX_EVENTS else 0;
    ReplaySuffix(log, n, rule, StatusOf(INITIAL, rule));
    assert Run(p, cs).events == log[n..];
  }

  // ---- The shared object ----

  function Transitions(before: seq<Check>, after: seq<Check>, k: nat, at: int): seq<Event>
    requires k <= |before| && k <= |after|
  {
    if k == 0 then [] else Transitions(before, after, k - 1, at) + Transition(before[k - 1], after[k - 1], at)
  }

  lemma ObserveTransitions(r: Report, p: Policy, c: Command)
    requires Shaped(r.checks) && c.Observe?
    ensures NewEvents(r, p, c) == Transitions(r.checks, NextChecks(r.checks, p, c), 3, c.now)
  {
    var before, after := r.checks, NextChecks(r.checks, p, c);
    assert Transitions(before, after, 1, c.now) == Transition(before[0], after[0], c.now);
    assert Transitions(before, after, 2, c.now)
        == Transition(before[0], after[0], c.now) + Transition(before[1], after[1], c.now);
  }

  /** The loop of `observe`: update the three checks in turn and log their transitions. */
  method UpdateChecks(start: seq<Check>, log: seq<Event>, samples: seq<Sample>, p: Policy, now: int,
                      ghost after: seq<Check>)
    returns (checks: seq<Check>, events: seq<Event>)
    requires |samples| == 3 <= |start| == |after| && after[3..] == start[3..]
    requires forall k :: 0 <= k < 3 ==> after[k] == UpdateCheck(start[k], samples[k], p)
    ensures checks == after && events == log + Transitions(start, after, 3, now)
  {
    checks, events := start, log;
    for index := 0 to 3
      invariant checks == after[..index] + start[index..]
      invariant events == log + Transitions(start, after, index, now)
    {
      var check := checks[index];
      var updated := UpdateCheck(check, samples[index], p);
      assert check == start[index] && updated == after[index];
      assert checks[index := updated] == after[..index + 1] + start[index + 1..];
      if check.status != updated.status {
        events := events + [Event(check.rule, check.status, updated.status, now)];
      }
      checks := checks[index := updated];
    }
    assert after == after[..3] + after[3..];
  }

  /** `position`: where the domain check is or will be. */
  method DomainPosition(checks: seq<Check>) returns (index: nat)
    requires Shaped(checks)
    ensures index == 3
  {
    index := 0;
    while index < |checks| && checks[index].rule != Domain
      invariant index <= |checks| && index <= 3
    {
      index := index + 1;
    }
  }

  /** The domain check is appended the first time and replaced from then on. */
  method ReplaceDomain(start: seq<Check>, ghost p: Policy, domain: DomainReport)
    returns (checks: seq<Check>, previousStatus: Status)
    requires Shaped(start)
    ensures checks == NextChecks(start, p, PublishDomain(domain)) && previousStatus == DomainBefore(start).status
  {
    checks := start;
    var index := DomainPosition(checks);
    if index == |checks| { checks := checks + [FRESH_DOMAIN]; }
    previousStatus := checks[index].status;
    checks := checks[index := DomainCheck(domain)];
  }

  /** The doctor behind its mutex: each method is one locked section. */
  class Doctor {
    const policy: Policy
    var status: Status
    var isProtected: bool
    var checkedAt: int
    var checks: seq<Check>
    var events: seq<Event>
    var wifi: WifiReport
    var domain: DomainReport

    function Snapshot(): Report
      reads this
    {
      Report(status, isProtected, checkedAt, checks, events, wifi, domain)
    }

    ghost predicate Valid()
      reads this
    {
      Shaped(checks) && |events| <= MAX_EVENTS
    }

    constructor (policy: Policy)
      ensures Valid() && Snapshot() == INITIAL && this.policy == policy.Normalized()
    {
      this.policy := policy.Normalized();
      status, isProtected, checkedAt := INITIAL.status, INITIAL.isProtected, INITIAL.checkedAt;
      checks, events, wifi, domain := INITIAL.checks, INITIAL.events, INITIAL.wifi, INITIAL.domain;
    }

    method Observe(database: DatabaseReading, runtime: RuntimeReading, now: int) returns (report: Report)
      requires Valid()
      modifies this
      ensures Valid()
      ensures report == Snapshot() == Step(old(Snapshot()), policy, Command.Observe(database, runtime, now))
    {
      ghost var c := Command.Observe(database, runtime, now);
      ObserveTransitions(Snapshot(), policy, c);
      checks, events := UpdateChecks(checks, events, Samples(database, runtime, policy), policy, now,
                                     NextChecks(checks, policy, c));
      if |events| > MAX_EVENTS { events := events[|events| - MAX_EVENTS..]; }
      isProtected := ProtectedBy(checks);
      status := AggregateStatus(checks);
      checkedAt := now;
      report := Snapshot();
    }

    method Publish(domain: DomainReport)
      requires Valid()
      modifies this
      ensures Valid()
      ensures Snapshot() == Step(old(Snapshot()), policy, PublishDomain(domain))
    {
      var previousStatus: Status;
      checks, previousStatus := ReplaceDomain(checks, policy, domain);
      if previousStatus != domain.status {
        events := events + [Event(Domain, previousStatus, domain.status, domain.checkedAt)];
      }
      if |events| > MAX_EVENTS { events := events[|events| - MAX_EVENTS..]; }
      status := AggregateStatus(checks);
      this.domain := domain;
    }

    method PublishWifiReport(wifi: WifiReport, clock: int)
      requires Valid()
      modifies this
      ensures Valid()
      ensures Snapshot() == Step(old(Snapshot()), policy, PublishWifi(wifi, clock))
    {
      if this.wifi.status != wifi.status {
        var at := if wifi.checkedAt > 0 then wifi.checkedAt else clock;
        events := events + [Event(Wifi, this.wifi.status, wifi.status, at)];
        if |events| > MAX_EVENTS { events := events[1..]; }
      }
      this.wifi := wifi;
    }

    /** `protected`, in terms of every command the doctor has run. */
    method Protected(ghost past: seq<Command>) returns (r: bool)
      requires policy.Sound() && Snapshot() == Run(policy, past)
      ensures r <==> Incident(History(policy, past, 1), policy) || Incident(History(policy, past, 2), policy)
    {
      ProtectedMeansIncident(policy, past);
      r := isProtected;
    }
  }
}
