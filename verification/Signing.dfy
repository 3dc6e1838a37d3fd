/**
 Signing under the policy: validate, sign, record. Over every run the limits hold of the
 full history of signatures, and forgetting old entries never changes a decision.
 */
module Signing {
  import opened Prelude
  import opened Policy

  type Signature = seq<byte>

  /**
   One signing request with what the world supplied along the way: clock readings at the
   check, at the push and at the pruning of the record, and the keystore's answer.
   */
  datatype Attempt = Attempt(
    request: Request, checkAt: int, checkHour: nat, keystore: Result<Signature>,
    pushAt: int, pruneAt: int, recordHour: nat)

  function Signed(c: Config, g: Guard, a: Attempt): (Guard, Result<Signature>) {
    var v := Validated(c, g, a.request, a.checkAt, a.checkHour);
    if v.Err? then (g, Err(v.error))
    else if a.keystore.Err? then (g, a.keystore)
    else (Recorded(g, a.request, a.pushAt, a.pruneAt, a.recordHour), a.keystore)
  }

  function SignAll(c: Config, g: Guard, attempts: seq<Attempt>): (Guard, seq<Result<Signature>>)
    decreases |attempts|
  {
    if attempts == [] then (g, [])
    else
      var (g1, r) := Signed(c, g, attempts[0]);
      var (end, rs) := SignAll(c, g1, attempts[1..]);
      (end, [r] + rs)
  }

  // ---------- the full history ----------

  /** A signature given: when it was recorded, the hour it was charged to, and its request. */
  datatype Entry = Entry(at: int, hour: nat, request: Request)

  function Times(log: seq<Entry>): seq<int> {
    if log == [] then [] else Times(log[..|log| - 1]) + [log[|log| - 1].at]
  }

  function SatsOf(request: Request): nat {
    if request.operation.Monetary() then request.operation.amount else 0
  }

  function HourTotal(log: seq<Entry>, hour: nat): nat {
    if log == [] then 0
    else
      var last := log[|log| - 1];
      HourTotal(log[..|log| - 1], hour) + if last.hour == hour then SatsOf(last.request) else 0
  }

  /** Signing with a memory that never forgets. */
  function LoggedSign(c: Config, log: seq<Entry>, a: Attempt): (seq<Entry>, Result<Signature>) {
    var v := Verdict(c, a.request, CountAfter(Times(log), a.checkAt - WINDOW), HourTotal(log, a.checkHour));
    if v.Err? then (log, Err(v.error))
    else if a.keystore.Err? then (log, a.keystore)
    else (log + [Entry(a.pushAt, a.recordHour, a.request)], a.keystore)
  }

  function LoggedSignAll(c: Config, log: seq<Entry>, attempts: seq<Attempt>): (seq<Entry>, seq<Result<Signature>>)
    decreases |attempts|
  {
    if attempts == [] then (log, [])
    else
      var (log1, r) := LoggedSign(c, log, attempts[0]);
      var (end, rs) := LoggedSignAll(c, log1, attempts[1..]);
      (end, [r] + rs)
  }

  /** Attempts made one after the other under clocks that never run backwards. */
  predicate Clocked(attempts: seq<Attempt>, now: int, hour: nat) {
    attempts == [] ||
    var a := attempts[0];
    && now <= a.checkAt <= a.pushAt <= a.pruneAt
    && hour <= a.checkHour <= a.recordHour
    && Clocked(attempts[1..], a.pruneAt, a.recordHour)
  }

  // ---------- forgetting is harmless ----------

  /** At no later cutoff does the pruned list count differently from the full history. */
  ghost predicate RemembersTimes(recent: seq<int>, log: seq<Entry>, from: int) {
    forall cutoff :: from <= cutoff ==> CountAfter(recent, cutoff) == CountAfter(Times(log), cutoff)
  }

  ghost predicate RemembersHours(hourly: map<nat, nat>, log: seq<Entry>, hour: nat) {
    forall h :: hour <= h ==> SignedIn(hourly, h) == HourTotal(log, h)
  }

  /** From this moment on the pruned memory counts what the full history counts. */
  ghost predicate Remembers(g: Guard, log: seq<Entry>, now: int, hour: nat) {
    RemembersTimes(g.recent, log, now - WINDOW) && RemembersHours(g.hourly, log, hour)
  }

  lemma CountAppend(times: seq<int>, t: int, cutoff: int)
    ensures CountAfter(times + [t], cutoff) == CountAfter(times, cutoff) + if t > cutoff then 1 else 0
  {
    assert (times + [t])[..|times|] == times;
  }

  lemma TimesAppend(log: seq<Entry>, e: Entry)
    ensures Times(log + [e]) == Times(log) + [e.at]
  {
    assert (log + [e])[..|log|] == log;
  }

  lemma HourAppend(log: seq<Entry>, e: Entry, hour: nat)
    ensures HourTotal(log + [e], hour) == HourTotal(log, hour) + if e.hour == hour then SatsOf(e.request) else 0
  {
    assert (log + [e])[..|log|] == log;
  }

  /** Dropping what is older than one cutoff does not show at any later cutoff. */
  lemma {:induction false} RetainedCounts(times: seq<int>, dropped: int, cutoff: int)
    requires dropped <= cutoff
    ensures CountAfter(Retained(times, dropped), cutoff) == CountAfter(times, cutoff)
  {
    if times != [] {
      var last := times[|times| - 1];
      RetainedCounts(times[..|times| - 1], dropped, cutoff);
      CountAppend(Retained(times[..|times| - 1], dropped), last, cutoff);
      assert Retained(times[..|times| - 1], dropped) + [] == Retained(times[..|times| - 1], dropped);
    }
  }

  lemma RecordedCounts(times: seq<int>, pushAt: int, dropped: int, cutoff: int)
    requires dropped <= cutoff
    ensures CountAfter(Retained(times + [pushAt], dropped), cutoff)
         == CountAfter(times, cutoff) + if pushAt > cutoff then 1 else 0
  {
    RetainedCounts(times + [pushAt], dropped, cutoff);
    CountAppend(times, pushAt, cutoff);
  }

  lemma LoggedCounts(log: seq<Entry>, e: Entry, cutoff: int)
    ensures CountAfter(Times(log + [e]), cutoff) == CountAfter(Times(log), cutoff) + if e.at > cutoff then 1 else 0
  {
    TimesAppend(log, e);
    CountAppend(Times(log), e.at, cutoff);
  }

  lemma RecordRemembersTimes(recent: seq<int>, log: seq<Entry>, e: Entry, from: int, dropped: int)
    requires RemembersTimes(recent, log, from) && from <= dropped
    ensures RemembersTimes(Retained(recent + [e.at], dropped), log + [e], dropped)
  {
    forall cutoff | dropped <= cutoff
      ensures CountAfter(Retained(recent + [e.at], dropped), cutoff) == CountAfter(Times(log + [e]), cutoff)
    {
      assert CountAfter(recent, cutoff) == CountAfter(Times(log), cutoff);
      RecordedCounts(recent, e.at, dropped, cutoff);
      LoggedCounts(log, e, cutoff);
    }
  }

  lemma RecordedHours(g: Guard, e: Entry, pruneAt: int, h: nat)
    requires 1 <= e.hour <= h
    ensures SignedIn(Recorded(g, e.request, e.at, pruneAt, e.hour).hourly, h)
         == SignedIn(g.hourly, h) + if h == e.hour then SatsOf(e.request) else 0
  {}

  /** Pruning keeps the current hour and all later ones, once the first hour of the epoch is over. */
  lemma RecordRemembersHours(g: Guard, log: seq<Entry>, e: Entry, pruneAt: int, hour: nat)
    requires RemembersHours(g.hourly, log, hour) && hour <= e.hour && 1 <= e.hour
    ensures RemembersHours(Recorded(g, e.request, e.at, pruneAt, e.hour).hourly, log + [e], e.hour)
  {
    var hourly := Recorded(g, e.request, e.at, pruneAt, e.hour).hourly;
    forall h | e.hour <= h
      ensures SignedIn(hourly, h) == HourTotal(log + [e], h)
    {
      assert SignedIn(g.hourly, h) == HourTotal(log, h);
      RecordedHours(g, e, pruneAt, h);
      HourAppend(log, e, h);
    }
  }

  /** The two memories agree on the counts a check reads. */
  lemma CheckReadsAlike(g: Guard, log: seq<Entry>, a: Attempt, now: int, hour: nat)
    requires Remembers(g, log, now, hour) && now <= a.checkAt && hour <= a.checkHour
    ensures CountAfter(g.recent, a.checkAt - WINDOW) == CountAfter(Times(log), a.checkAt - WINDOW)
    ensures SignedIn(g.hourly, a.checkHour) == HourTotal(log, a.checkHour)
  {}

  lemma LaterStillRemembers(g: Guard, log: seq<Entry>, now: int, hour: nat, now': int, hour': nat)
    requires Remembers(g, log, now, hour) && now <= now' && hour <= hour'
    ensures Remembers(g, log, now', hour')
  {}

  lemma RecordRemembers(g: Guard, log: seq<Entry>, a: Attempt, now: int, hour: nat)
    requires Remembers(g, log, now, hour) && now <= a.pruneAt && hour <= a.recordHour && 1 <= a.recordHour
    ensures Remembers(
      Recorded(g, a.request, a.pushAt, a.pruneAt, a.recordHour),
      log + [Entry(a.pushAt, a.recordHour, a.request)], a.pruneAt, a.recordHour)
  {
    var e := Entry(a.pushAt, a.recordHour, a.request);
    RecordRemembersTimes(g.recent, log, e, now - WINDOW, a.pruneAt - WINDOW);
    RecordRemembersHours(g, log, e, a.pruneAt, hour);
  }

  lemma AnswersAlike(c: Config, g: Guard, log: seq<Entry>, a: Attempt)
    requires CountAfter(g.recent, a.checkAt - WINDOW) == CountAfter(Times(log), a.checkAt - WINDOW)
    requires SignedIn(g.hourly, a.checkHour) == HourTotal(log, a.checkHour)
    ensures Signed(c, g, a).1 == LoggedSign(c, log, a).1
    ensures Signed(c, g, a).1.Ok? ==>
      && Signed(c, g, a).0 == Recorded(g, a.request, a.pushAt, a.pruneAt, a.recordHour)
      && LoggedSign(c, log, a).0 == log + [Entry(a.pushAt, a.recordHour, a.request)]
    ensures Signed(c, g, a).1.Err? ==> Signed(c, g, a).0 == g && LoggedSign(c, log, a).0 == log
  {}

  /** One request is answered alike with either memory, and afterwards they still agree. */
  lemma StepDecidesAlike(c: Config, g: Guard, log: seq<Entry>, a: Attempt, now: int, hour: nat)
    requires Remembers(g, log, now, hour) && 1 <= hour
    requires now <= a.checkAt <= a.pushAt <= a.pruneAt && hour <= a.checkHour <= a.recordHour
    ensures Signed(c, g, a).1 == LoggedSign(c, log, a).1
    ensures Remembers(Signed(c, g, a).0, LoggedSign(c, log, a).0, a.pruneAt, a.recordHour)
  {
    CheckReadsAlike(g, log, a, now, hour);
    AnswersAlike(c, g, log, a);
    RecordRemembers(g, log, a, now, hour);
    LaterStillRemembers(g, log, now, hour, a.pruneAt, a.recordHour);
  }

  /** Over every run the pruned policy answers every request as the full history would. */
  lemma {:induction false} PruningNeverShows(c: Config, g: Guard, log: seq<Entry>, attempts: seq<Attempt>, now: int, hour: nat)
    requires Remembers(g, log, now, hour) && 1 <= hour && Clocked(attempts, now, hour)
    ensures SignAll(c, g, attempts).1 == LoggedSignAll(c, log, attempts).1
    decreases |attempts|
  {
    if attempts != [] {
      var a := attempts[0];
      StepDecidesAlike(c, g, log, a, now, hour);
      PruningNeverShows(c, Signed(c, g, a).0, LoggedSign(c, log, a).0, attempts[1..], a.pruneAt, a.recordHour);
    }
  }

  /** A fresh policy answers like the full history from the second hour of the epoch on. */
  lemma FreshPolicyDecidesAlike(c: Config, attempts: seq<Attempt>, now: int, hour: nat)
    requires 1 <= hour && Clocked(attempts, now, hour)
    ensures SignAll(c, NEW_GUARD, attempts).1 == LoggedSignAll(c, [], attempts).1
  {
    assert Times([]) == [];
    PruningNeverShows(c, NEW_GUARD, [], attempts, now, hour);
  }

  /**
   The one hour in which pruning forgets too much: an hour's charge is remembered after
   recording exactly when the hour is not the first of the epoch, where the predecessor wraps.
   */
  lemma FirstHourIsForgotten(g: Guard, request: Request, pushAt: int, pruneAt: int, hour: nat)
    requires request.operation.Monetary() && hour < U64 - 1
    ensures var hourly := Recorded(g, request, pushAt, pruneAt, hour).hourly;
      hour in hourly && hourly[hour] == SignedIn(g.hourly, hour) + SatsOf(request) <==> 1 <= hour
  {
    assert hour in WithoutOldHours(g.hourly[hour := SignedIn(g.hourly, hour) + SatsOf(request)], hour) <==> 1 <= hour;
  }

  // ---------- the limits hold ----------

  /** How many signatures fall in the window of sixty seconds of nanoseconds that ends at `end`. */
  function CountWithin(log: seq<Entry>, end: int): nat {
    if log == [] then 0
    else
      var last := log[|log| - 1];
      CountWithin(log[..|log| - 1], end) + if end - 60_000_000_000 < last.at <= end then 1 else 0
  }

  lemma WithinAppend(log: seq<Entry>, e: Entry, end: int)
    ensures CountWithin(log + [e], end) == CountWithin(log, end) + if end - WINDOW < e.at <= end then 1 else 0
  {
    assert (log + [e])[..|log|] == log;
  }

  lemma {:induction false} WithinCounted(log: seq<Entry>, end: int, cutoff: int)
    requires cutoff <= end - WINDOW
    ensures CountWithin(log, end) <= CountAfter(Times(log), cutoff)
  {
    if log != [] {
      var front, last := log[..|log| - 1], log[|log| - 1];
      WithinCounted(front, end, cutoff);
      assert log == front + [last];
      TimesAppend(front, last);
      CountAppend(Times(front), last.at, cutoff);
    }
  }

  lemma {:induction false} UnchargedHour(log: seq<Entry>, hour: nat)
    requires forall e :: e in log ==> e.hour < hour
    ensures HourTotal(log, hour) == 0
  {
    if log != [] {
      UnchargedHour(log[..|log| - 1], hour);
    }
  }

  /** The limits, read off the full history. */
  ghost predicate WithinLimits(c: Config, log: seq<Entry>) {
    && (forall end :: CountWithin(log, end) <= c.maxSignsPerMinute)
    && (forall hour :: HourTotal(log, hour) <= c.maxAmountPerHour)
    && (forall e :: e in log ==>
          && Permitted(c, e.request)
          && (e.request.operation.Monetary() ==> e.request.operation.amount <= c.maxAmountPerSign))
  }

  lemma WindowHolds(c: Config, log: seq<Entry>, a: Attempt, end: int)
    requires WithinLimits(c, log) && a.checkAt <= a.pushAt && LoggedSign(c, log, a).0 != log
    ensures CountWithin(LoggedSign(c, log, a).0, end) <= c.maxSignsPerMinute
  {
    WithinAppend(log, Entry(a.pushAt, a.recordHour, a.request), end);
    if a.pushAt <= end {
      WithinCounted(log, end, a.checkAt - WINDOW);
    }
  }

  lemma HourHolds(c: Config, log: seq<Entry>, a: Attempt, hour: nat)
    requires WithinLimits(c, log) && LoggedSign(c, log, a).0 != log
    requires a.checkHour <= a.recordHour && forall e :: e in log ==> e.hour <= a.checkHour
    ensures HourTotal(LoggedSign(c, log, a).0, hour) <= c.maxAmountPerHour
  {
    HourAppend(log, Entry(a.pushAt, a.recordHour, a.request), hour);
    if a.checkHour < a.recordHour {
      UnchargedHour(log, a.recordHour);
    }
  }

  lemma StepStaysWithinLimits(c: Config, log: seq<Entry>, a: Attempt)
    requires WithinLimits(c, log) && a.checkAt <= a.pushAt && a.checkHour <= a.recordHour
    requires forall e :: e in log ==> e.hour <= a.checkHour
    ensures WithinLimits(c, LoggedSign(c, log, a).0)
    ensures forall e :: e in LoggedSign(c, log, a).0 ==> e.hour <= a.recordHour
  {
    var log' := LoggedSign(c, log, a).0;
    if log' != log {
      forall end ensures CountWithin(log', end) <= c.maxSignsPerMinute {
        WindowHolds(c, log, a, end);
      }
      forall hour ensures HourTotal(log', hour) <= c.maxAmountPerHour {
        HourHolds(c, log, a, hour);
      }
    }
  }

  lemma {:induction false} RunStaysWithinLimits(c: Config, log: seq<Entry>, attempts: seq<Attempt>, now: int, hour: nat)
    requires WithinLimits(c, log) && Clocked(attempts, now, hour)
    requires forall e :: e in log ==> e.hour <= hour
    ensures WithinLimits(c, LoggedSignAll(c, log, attempts).0)
    decreases |attempts|
  {
    if attempts != [] {
      var a := attempts[0];
      StepStaysWithinLimits(c, log, a);
      RunStaysWithinLimits(c, LoggedSign(c, log, a).0, attempts[1..], a.pruneAt, a.recordHour);
    }
  }

  /** The entries the pruned policy's own answers give rise to. */
  function Given(attempts: seq<Attempt>, answers: seq<Result<Signature>>): seq<Entry>
    requires |attempts| == |answers|
  {
    if attempts == [] then []
    else
      var a := attempts[0];
      (if answers[0].Ok? then [Entry(a.pushAt, a.recordHour, a.request)] else []) + Given(attempts[1..], answers[1..])
  }

  lemma {:induction false} LogIsWhatWasGiven(c: Config, log: seq<Entry>, attempts: seq<Attempt>)
    ensures var (end, answers) := LoggedSignAll(c, log, attempts);
      |answers| == |attempts| && end == log + Given(attempts, answers)
    decreases |attempts|
  {
    if attempts != [] {
      LogIsWhatWasGiven(c, LoggedSign(c, log, attempts[0]).0, attempts[1..]);
    }
  }

  lemma {:induction false} OneAnswerEach(c: Config, g: Guard, attempts: seq<Attempt>)
    ensures |SignAll(c, g, attempts).1| == |attempts|
    decreases |attempts|
  {
    if attempts != [] {
      OneAnswerEach(c, Signed(c, g, attempts[0]).0, attempts[1..]);
    }
  }

  /**
   The policy does its job: of the signatures a fresh policy lets through in any run, no
   minute-long window holds more than the rate limit, no hour is charged more than its
   cap even when it turns between check and record, and each is permitted on its own.
   */
  lemma LimitsHoldOverEveryRun(c: Config, attempts: seq<Attempt>, now: int, hour: nat)
    requires 1 <= hour && Clocked(attempts, now, hour)
    ensures |SignAll(c, NEW_GUARD, attempts).1| == |attempts|
    ensures WithinLimits(c, Given(attempts, SignAll(c, NEW_GUARD, attempts).1))
  {
    OneAnswerEach(c, NEW_GUARD, attempts);
    FreshPolicyDecidesAlike(c, attempts, now, hour);
    RunStaysWithinLimits(c, [], attempts, now, hour);
    LogIsWhatWasGiven(c, [], attempts);
    var (end, answers) := LoggedSignAll(c, [], attempts);
    assert end == Given(attempts, answers);
  }

  // ---------- machine widths ----------

  /** The count of recent signatures fits its u32, and the hourly sum, if computed, its u64. */
  predicate CheckFits(c: Config, g: Guard, a: Attempt) {
    && CountAfter(g.recent, a.checkAt - WINDOW) < U32
    && (SatsOf(a.request) <= c.maxAmountPerSign ==>
          SignedIn(g.hourly, a.checkHour) + SatsOf(a.request) < U64)
  }

  predicate ChecksFit(c: Config, g: Guard, attempts: seq<Attempt>)
    decreases |attempts|
  {
    attempts == []
    || (CheckFits(c, g, attempts[0]) && ChecksFit(c, Signed(c, g, attempts[0]).0, attempts[1..]))
  }

  /** What was signed within a minute of a moment no earlier than the whole log counts within its window. */
  lemma {:induction false} RecentIsWithin(log: seq<Entry>, now: int)
    requires forall e :: e in log ==> e.at <= now
    ensures CountAfter(Times(log), now - WINDOW) == CountWithin(log, now)
  {
    if log != [] {
      var front, last := log[..|log| - 1], log[|log| - 1];
      RecentIsWithin(front, now);
      assert log == front + [last];
      TimesAppend(front, last);
      CountAppend(Times(front), last.at, now - WINDOW);
      WithinAppend(front, last, now);
    }
  }

  lemma OneCheckFits(c: Config, g: Guard, log: seq<Entry>, a: Attempt, now: int, hour: nat)
    requires c.maxSignsPerMinute < U32 && c.maxAmountPerSign + c.maxAmountPerHour < U64
    requires Remembers(g, log, now, hour) && WithinLimits(c, log)
    requires now <= a.checkAt && hour <= a.checkHour
    requires forall e :: e in log ==> e.at <= now
    ensures CheckFits(c, g, a)
  {
    CheckReadsAlike(g, log, a, now, hour);
    RecentIsWithin(log, a.checkAt);
    assert CountWithin(log, a.checkAt) <= c.maxSignsPerMinute;
    assert HourTotal(log, a.checkHour) <= c.maxAmountPerHour;
  }

  lemma {:induction false} RunChecksFit(c: Config, g: Guard, log: seq<Entry>, attempts: seq<Attempt>, now: int, hour: nat)
    requires c.maxSignsPerMinute < U32 && c.maxAmountPerSign + c.maxAmountPerHour < U64
    requires Remembers(g, log, now, hour) && WithinLimits(c, log) && 1 <= hour && Clocked(attempts, now, hour)
    requires forall e :: e in log ==> e.at <= now && e.hour <= hour
    ensures ChecksFit(c, g, attempts)
    decreases |attempts|
  {
    if attempts != [] {
      var a := attempts[0];
      OneCheckFits(c, g, log, a, now, hour);
      StepDecidesAlike(c, g, log, a, now, hour);
      StepStaysWithinLimits(c, log, a);
      RunChecksFit(c, Signed(c, g, a).0, LoggedSign(c, log, a).0, attempts[1..], a.pruneAt, a.recordHour);
    }
  }

  /** In every run of a fresh policy whose limits fit their types together, no check overflows. */
  lemma NoCheckOverflows(c: Config, attempts: seq<Attempt>, now: int, hour: nat)
    requires c.maxSignsPerMinute < U32 && c.maxAmountPerSign + c.maxAmountPerHour < U64
    requires 1 <= hour && Clocked(attempts, now, hour)
    ensures ChecksFit(c, NEW_GUARD, attempts)
  {
    assert Times([]) == [];
    RunChecksFit(c, NEW_GUARD, [], attempts, now, hour);
  }

  // ---------- the signer object ----------

  class Signer {
    const policy: SigningPolicy

    constructor (policy: SigningPolicy)
      ensures this.policy == policy
    {
      this.policy := policy;
    }

    /** Both signing entry points, plain and Schnorr; they differ in the keystore call alone. */
    method Sign(a: Attempt) returns (r: Result<Signature>)
      modifies policy
      ensures (policy.View(), r) == Signed(policy.config, old(policy.View()), a)
    {
      var verdict := policy.Validate(a.request, a.checkAt, a.checkHour);
      if verdict.Err? {
        return Err(verdict.error);
      }
      var signature := a.keystore;
      if signature.Err? {
        return signature;
      }
      policy.RecordSign(a.request, a.pushAt, a.pruneAt, a.recordHour);
      r := signature;
    }

    /** Whether a request would be allowed, without signing it. */
    method WouldAllow(request: Request, now: int, hour: nat) returns (allowed: bool)
      ensures allowed <==> Validated(policy.config, policy.View(), request, now, hour).Ok?
    {
      var verdict := policy.Validate(request, now, hour);
      allowed := verdict.Ok?;
    }
  }
}
