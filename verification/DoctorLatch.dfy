/** The health policy of one check: a latch that a run of failed samples closes and a run of
    good samples opens, and its declarative meaning over the whole sample history. */
module DoctorLatch {
  import opened Text

  const U32_MAX: nat := 0xFFFF_FFFF
  const I64_MAX: int := 0x7FFF_FFFF_FFFF_FFFF

  datatype Sample = Failed(value: int) | Good(value: int) | Neutral(value: int) | Unknown

  function Clamp(v: int, low: int, high: int): int {
    if v < low then low else if v > high then high else v
  }

  datatype Policy = Policy(
    failureSamples: nat, recoverySamples: nat, memoryCriticalPercent: int, memoryRecoveryPercent: int,
    diskCriticalAvailableMb: int, diskRecoveryAvailableMb: int)
  {
    /** `normalized`: the environment may configure anything. */
    function Normalized(): (p: Policy)
      ensures p.Sound()
      ensures Sound() ==> p == this
    {
      var memoryCritical := Clamp(memoryCriticalPercent, 1, 100);
      var diskCritical := Clamp(diskCriticalAvailableMb, 0, I64_MAX - 1);
      Policy(Clamp(failureSamples, 1, 60), Clamp(recoverySamples, 1, 60),
             memoryCritical, Clamp(memoryRecoveryPercent, 0, memoryCritical - 1),
             diskCritical,
             if diskRecoveryAvailableMb > diskCritical + 1 then diskRecoveryAvailableMb else diskCritical + 1)
    }

    /** Windows are not empty, and recovery thresholds lie strictly beyond incident thresholds. */
    predicate Sound() {
      && 1 <= failureSamples <= 60 && 1 <= recoverySamples <= 60
      && 0 <= memoryRecoveryPercent < memoryCriticalPercent <= 100
      && 0 <= diskCriticalAvailableMb < I64_MAX && diskCriticalAvailableMb < diskRecoveryAvailableMb
    }
  }

  /** The status words of checks; `Named` is any other word a recovery agent may publish. */
  datatype Status = Starting | Unknown | Warning | Critical | Recovering | Healthy | Named(text: string)
  const NO_STATUS := Named("")

  datatype Rule = Database | Memory | Disk | Domain | Wifi

  /** A check as reported; its message text is not modelled. */
  datatype Check = Check(rule: Rule, status: Status, value: Option<int>, failures: nat, successes: nat, critical: bool)

  function SaturatingIncrement(n: nat): nat {
    if n < U32_MAX then n + 1 else n
  }

  /** `update_check`. */
  function UpdateCheck(check: Check, sample: Sample, policy: Policy): (r: Check)
    ensures r.rule == check.rule
  {
    match sample
    case Unknown => check.(value := None, failures := 0, successes := 0, status := Status.Unknown)
    case Failed(v) =>
      var failures := SaturatingIncrement(check.failures);
      var critical := check.critical || failures >= policy.failureSamples;
      check.(value := Some(v), successes := 0, failures := failures, critical := critical,
             status := if critical then Status.Critical else Status.Warning)
    case Good(v) =>
      if check.critical then
        var successes := SaturatingIncrement(check.successes);
        var recovered := successes >= policy.recoverySamples;
        check.(value := Some(v), failures := 0, successes := successes, critical := !recovered,
               status := if recovered then Status.Healthy else Status.Recovering)
      else
        check.(value := Some(v), failures := 0, successes := 0, status := Status.Healthy)
    case Neutral(v) =>
      check.(value := Some(v), failures := 0, successes := 0,
             status := if check.critical then Status.Critical else Status.Healthy)
  }

  function Fresh(rule: Rule): Check {
    Check(rule, Status.Starting, None, 0, 0, false)
  }

  /** A check after a history of samples. */
  function Latch(rule: Rule, history: seq<Sample>, policy: Policy): (c: Check)
    ensures c.rule == rule
  {
    if history == [] then Fresh(rule)
    else UpdateCheck(Latch(rule, history[..|history| - 1], policy), history[|history| - 1], policy)
  }

  // ---- The declarative meaning ----

  predicate FailedWindow(h: seq<Sample>, i: int, n: nat) {
    0 <= i <= i + n <= |h| && forall k :: i <= k < i + n ==> h[k].Failed?
  }

  predicate GoodWindow(h: seq<Sample>, i: int, n: nat) {
    0 <= i <= i + n <= |h| && forall k :: i <= k < i + n ==> h[k].Good?
  }

  /** An incident was confirmed at i and no recovery was confirmed since. */
  ghost predicate OpenIncident(h: seq<Sample>, i: int, policy: Policy) {
    && FailedWindow(h, i, policy.failureSamples)
    && forall j :: i + policy.failureSamples <= j ==> !GoodWindow(h, j, policy.recoverySamples)
  }

  ghost predicate Incident(h: seq<Sample>, policy: Policy) {
    exists i :: OpenIncident(h, i, policy)
  }

  /** The lengths of the runs of failed and of good samples that end the history. */
  function FailedRun(h: seq<Sample>): (n: nat)
    ensures n <= |h| && FailedWindow(h, |h| - n, n)
    ensures n < |h| ==> !h[|h| - n - 1].Failed?
  {
    if h == [] || !h[|h| - 1].Failed? then 0
    else
      assert forall k :: 0 <= k < |h| - 1 ==> h[..|h| - 1][k] == h[k];
      FailedRun(h[..|h| - 1]) + 1
  }

  function GoodRun(h: seq<Sample>): (n: nat)
    ensures n <= |h| && GoodWindow(h, |h| - n, n)
    ensures n < |h| ==> !h[|h| - n - 1].Good?
  {
    if h == [] || !h[|h| - 1].Good? then 0
    else
      assert forall k :: 0 <= k < |h| - 1 ==> h[..|h| - 1][k] == h[k];
      GoodRun(h[..|h| - 1]) + 1
  }

  function Saturated(n: nat): nat { if n <= U32_MAX then n else U32_MAX }

  /** A window that ends with the history is no longer than the run that ends it. */
  lemma WindowAtEnd(h: seq<Sample>, n: nat)
    requires 1 <= n <= |h|
    ensures FailedWindow(h, |h| - n, n) <==> FailedRun(h) >= n
    ensures GoodWindow(h, |h| - n, n) <==> GoodRun(h) >= n
  {
    if FailedRun(h) < n { assert !h[|h| - FailedRun(h) - 1].Failed?; }
    if GoodRun(h) < n { assert !h[|h| - GoodRun(h) - 1].Good?; }
  }

  /** Windows inside a history are windows of its front, unless they end it. */
  lemma WindowInFront(h: seq<Sample>, i: int, n: nat)
    requires h != [] && n >= 1
    ensures var front := h[..|h| - 1];
            && (FailedWindow(h, i, n) <==> FailedWindow(front, i, n) || (i == |h| - n && FailedWindow(h, i, n)))
            && (GoodWindow(h, i, n) <==> GoodWindow(front, i, n) || (i == |h| - n && GoodWindow(h, i, n)))
  {
    var front := h[..|h| - 1];
    assert forall k :: 0 <= k < |front| ==> front[k] == h[k];
  }

  /** A good window at the end comes after every failed window. */
  lemma GoodWindowIsLater(h: seq<Sample>, i: int, j: int, f: nat, g: nat)
    requires f >= 1 && g >= 1 && FailedWindow(h, i, f) && GoodWindow(h, j, g) && j + g == |h|
    ensures i + f <= j
  {
    var k := if i > j then i else j;
    var sample := h[k];
    assert !(sample.Failed? && sample.Good?);
  }

  /** Adding a sample opens an incident by completing a failed window, closes it by completing a
      good one, and otherwise leaves it. */
  lemma IncidentStep(h: seq<Sample>, policy: Policy)
    requires h != [] && policy.Sound()
    ensures var before := Incident(h[..|h| - 1], policy);
            Incident(h, policy) <==>
            if FailedRun(h) >= policy.failureSamples then true
            else if GoodRun(h) >= policy.recoverySamples then false
            else before
  {
    var front, f, g := h[..|h| - 1], policy.failureSamples, policy.recoverySamples;
    forall i, n: nat | n >= 1 ensures
        && (FailedWindow(h, i, n) <==> FailedWindow(front, i, n) || (i == |h| - n && FailedWindow(h, i, n)))
        && (GoodWindow(h, i, n) <==> GoodWindow(front, i, n) || (i == |h| - n && GoodWindow(h, i, n)))
    {
      WindowInFront(h, i, n);
    }
    if FailedRun(h) >= f {
      WindowAtEnd(h, f);
      assert OpenIncident(h, |h| - f, policy);
    } else if GoodRun(h) >= g {
      WindowAtEnd(h, g);
      forall i ensures !OpenIncident(h, i, policy) {
        if FailedWindow(h, i, f) { GoodWindowIsLater(h, i, |h| - g, f, g); }
      }
    } else {
      if f <= |h| { WindowAtEnd(h, f); }
      if g <= |h| { WindowAtEnd(h, g); }
      forall i ensures OpenIncident(h, i, policy) <==> OpenIncident(front, i, policy) {}
    }
  }

  lemma RunsExclude(h: seq<Sample>)
    requires h != []
    ensures h[|h| - 1].Failed? ==> GoodRun(h) == 0 && FailedRun(h) == FailedRun(h[..|h| - 1]) + 1
    ensures h[|h| - 1].Good? ==> FailedRun(h) == 0 && GoodRun(h) == GoodRun(h[..|h| - 1]) + 1
    ensures h[|h| - 1].Neutral? || h[|h| - 1].Unknown? ==> FailedRun(h) == 0 && GoodRun(h) == 0
  {
  }

  /** The latch refines the history: a check is critical exactly while an incident is open, its
      failure counter is the run of failures, and while critical its success counter is the run
      of good samples. */
  lemma {:induction false} LatchIsIncident(rule: Rule, h: seq<Sample>, policy: Policy)
    requires policy.Sound()
    ensures var c := Latch(rule, h, policy);
            && (c.critical <==> Incident(h, policy))
            && c.failures == Saturated(FailedRun(h))
            && (c.critical ==> c.successes == GoodRun(h) < policy.recoverySamples)
  {
    if h == [] {
      assert forall i :: !FailedWindow(h, i, policy.failureSamples);
    } else {
      LatchIsIncident(rule, h[..|h| - 1], policy);
      RunsExclude(h);
      IncidentStep(h, policy);
    }
  }

  /** Missing and neutral samples never change an incident, and break both windows. */
  lemma NeutralKeepsIncident(h: seq<Sample>, s: Sample, policy: Policy)
    requires policy.Sound() && (s.Neutral? || s.Unknown?)
    ensures Incident(h + [s], policy) <==> Incident(h, policy)
    ensures FailedRun(h + [s]) == 0 && GoodRun(h + [s]) == 0
  {
    assert (h + [s])[..|h|] == h;
    RunsExclude(h + [s]);
    IncidentStep(h + [s], policy);
  }
}
