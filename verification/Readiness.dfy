/**
 The readiness poller.  Every cycle runs all probes at once, each under a
 timeout, and stamps the successes; the ready check accepts stamps up to a
 staleness window.  The embedding probe makes a real upstream call only when its
 last recorded outcome is old enough, and otherwise replays that outcome.
 */
module Readiness {
  import opened Basics

  type Time = int  // nanoseconds

  const SECOND: int := 1_000_000_000
  const EMBEDDING := "embedding"

  datatype Config = Config(timeout: int, minInterval: int) {
    predicate Valid() { timeout >= 0 && minInterval >= 0 }
  }

  datatype ProbeOutcome = ProbeOutcome(lastOkAt: Option<Time>, lastCheckAt: Time, failed: bool)

  // ---- The ready check ----

  function Secs(d: int): nat { if d < 0 then 0 else d / SECOND }

  predicate Fresh(o: ProbeOutcome, now: Time, staleAfter: int) {
    o.lastOkAt.Some? && Secs(now - o.lastOkAt.value) <= Secs(staleAfter)
  }

  datatype Status = Ready | NotReady | ShuttingDown

  method CheckReady(probes: map<string, ProbeOutcome>, shutdown: bool, now: Time, staleAfter: int)
    returns (status: Status, oks: map<string, bool>)
    ensures status == ShuttingDown <==> shutdown
    ensures status == Ready <==>
      !shutdown && probes != map[] && forall n :: n in probes ==> Fresh(probes[n], now, staleAfter)
    ensures !shutdown ==>
      oks.Keys == probes.Keys && forall n :: n in probes ==> oks[n] == Fresh(probes[n], now, staleAfter)
  {
    if shutdown { return ShuttingDown, map[]; }
    oks := map[];
    var allOk := probes != map[];
    var todo := probes.Keys;
    while todo != {}
      invariant todo <= probes.Keys && oks.Keys == probes.Keys - todo
      invariant forall n :: n in oks ==> oks[n] == Fresh(probes[n], now, staleAfter)
      invariant allOk <==> probes != map[] && forall n :: n in oks ==> oks[n]
      decreases todo
    {
      var name :| name in todo;
      todo := todo - {name};
      var outcome := probes[name];
      var ok := match outcome.lastOkAt
        case None => false
        case Some(t) => Secs(now - t) <= Secs(staleAfter);
      if !ok { allOk := false; }
      oks := oks[name := ok];
    }
    status := if allOk then Ready else NotReady;
  }

  // ---- One polling cycle ----

  // What the upstream does if it is called: it answers, or the timeout drops the call.
  datatype Upstream = Answer(ok: bool, at: Time) | NoAnswer

  // The embedding probe looks at its last outcome at `checkedAt`.
  datatype Cycle = Cycle(start: Time, checkedAt: Time, upstream: Upstream, others: seq<(string, bool)>, end: Time)

  datatype Attempt = Attempt(at: Time, ok: bool)
  datatype UpstreamCall = UpstreamCall(startedAt: Time, answer: Upstream)

  // `calls` is the history of real upstream calls.
  datatype State = State(probes: map<string, ProbeOutcome>, last: Option<Attempt>, calls: seq<UpstreamCall>)

  predicate Replays(cfg: Config, last: Option<Attempt>, now: Time) {
    last.Some? && now - last.value.at < cfg.minInterval
  }

  function EmbeddingOk(cfg: Config, s: State, c: Cycle): bool {
    if Replays(cfg, s.last, c.checkedAt) then s.last.value.ok else c.upstream.Answer? && c.upstream.ok
  }

  function Outcomes(cfg: Config, s: State, c: Cycle): seq<(string, bool)> {
    c.others + [(EMBEDDING, EmbeddingOk(cfg, s, c))]
  }

  function Record(probes: map<string, ProbeOutcome>, name: string, ok: bool, now: Time): map<string, ProbeOutcome> {
    var before := if name in probes then probes[name].lastOkAt else None;
    probes[name := ProbeOutcome(if ok then Some(now) else before, now, !ok)]
  }

  function RecordAll(probes: map<string, ProbeOutcome>, outcomes: seq<(string, bool)>, now: Time):
      map<string, ProbeOutcome> {
    if outcomes == [] then probes else
    var n := |outcomes| - 1;
    Record(RecordAll(probes, outcomes[..n], now), outcomes[n].0, outcomes[n].1, now)
  }

  lemma RecordNone(probes: map<string, ProbeOutcome>, outcomes: seq<(string, bool)>, now: Time)
    ensures RecordAll(probes, outcomes[..0], now) == probes
  {
  }

  lemma RecordNext(probes: map<string, ProbeOutcome>, outcomes: seq<(string, bool)>, now: Time, i: nat)
    requires i < |outcomes|
    ensures RecordAll(probes, outcomes[..i + 1], now) ==
      Record(RecordAll(probes, outcomes[..i], now), outcomes[i].0, outcomes[i].1, now)
  {
    assert outcomes[..i + 1][..i] == outcomes[..i];
  }

  predicate Named(outcomes: seq<(string, bool)>, name: string) {
    exists i :: 0 <= i < |outcomes| && outcomes[i].0 == name
  }

  // The last outcome of the probe is at i.
  ghost predicate LastNamed(outcomes: seq<(string, bool)>, name: string, i: nat) {
    i < |outcomes| && outcomes[i].0 == name && forall j :: i < j < |outcomes| ==> outcomes[j].0 != name
  }

  /** The entry of every probe after stamping: a success moves its stamp to now, a failure
      alone keeps the earlier one, and a probe that was not polled keeps its entry. */
  ghost predicate Stamped(before: map<string, ProbeOutcome>, after: map<string, ProbeOutcome>,
      outcomes: seq<(string, bool)>, now: Time)
  {
    && (forall name :: name in after <==> name in before || Named(outcomes, name))
    && (forall name :: name in after && !Named(outcomes, name) ==> after[name] == before[name])
    && (forall name :: name in after && (name, true) in outcomes ==> after[name].lastOkAt == Some(now))
    && (forall name :: name in after && (name, true) !in outcomes ==>
         after[name].lastOkAt == if name in before then before[name].lastOkAt else None)
    && (forall name, i: nat :: name in after && LastNamed(outcomes, name, i) ==>
         after[name].lastCheckAt == now && after[name].failed == !outcomes[i].1)
  }

  lemma {:induction false} RecordAllStamps(probes: map<string, ProbeOutcome>, outcomes: seq<(string, bool)>, now: Time)
    ensures Stamped(probes, RecordAll(probes, outcomes, now), outcomes, now)
  {
    if outcomes != [] {
      var n := |outcomes| - 1;
      RecordAllStamps(probes, outcomes[..n], now);
      assert outcomes == outcomes[..n] + [outcomes[n]];
      StampsOneMore(probes, RecordAll(probes, outcomes[..n], now), outcomes[..n], outcomes[n], now);
    }
  }

  lemma StampsOneMore(before: map<string, ProbeOutcome>, mid: map<string, ProbeOutcome>, outcomes: seq<(string, bool)>,
                      o: (string, bool), now: Time)
    requires Stamped(before, mid, outcomes, now)
    ensures Stamped(before, Record(mid, o.0, o.1, now), outcomes + [o], now)
  {
    var all, after := outcomes + [o], Record(mid, o.0, o.1, now);
    assert forall name :: (name, true) in all <==> (name, true) in outcomes || (name, true) == o;
    assert all[|outcomes|] == o;
    forall name ensures Named(all, name) <==> Named(outcomes, name) || name == o.0 {
      if Named(outcomes, name) {
        var i :| 0 <= i < |outcomes| && outcomes[i].0 == name;
        assert all[i].0 == name;
      }
    }
    forall name, i: nat | name in after && LastNamed(all, name, i)
      ensures after[name].lastCheckAt == now && after[name].failed == !all[i].1
    {
      if name != o.0 {
        assert i < |outcomes|;
        assert forall j :: 0 <= j < |outcomes| ==> all[j] == outcomes[j];
        assert LastNamed(outcomes, name, i);
      }
    }
    forall name | name in after && (name, true) !in all
      ensures after[name].lastOkAt == if name in before then before[name].lastOkAt else None
    {
      if name == o.0 && name !in mid { assert name !in before; }
    }
  }

  function AfterCycle(cfg: Config, s: State, c: Cycle): State {
    var replays := Replays(cfg, s.last, c.checkedAt);
    State(
      RecordAll(s.probes, Outcomes(cfg, s, c), c.end),
      if !replays && c.upstream.Answer? then Some(Attempt(c.upstream.at, c.upstream.ok)) else s.last,
      if replays then s.calls else s.calls + [UpstreamCall(c.checkedAt, c.upstream)])
  }

  class Poller {
    const cfg: Config
    var probes: map<string, ProbeOutcome>
    var last: Option<Attempt>
    ghost var calls: seq<UpstreamCall>

    ghost function View(): State
      reads this
    {
      State(probes, last, calls)
    }

    constructor (cfg: Config, names: seq<string>, now: Time)
      ensures this.cfg == cfg && last.None? && calls == []
      ensures forall n :: n in probes <==> n in names
      ensures forall n :: n in probes ==> probes[n].lastOkAt.None?
    {
      this.cfg := cfg;
      probes := map n | n in names :: ProbeOutcome(None, now, false);
      last, calls := None, [];
    }

    // EmbeddingProbe::probe under the poller's timeout.
    method ProbeEmbedding(checkedAt: Time, upstream: Upstream) returns (ok: bool)
      modifies this`last, this`calls
      ensures ok == EmbeddingOk(cfg, old(View()), Cycle(checkedAt, checkedAt, upstream, [], checkedAt))
      ensures last == AfterCycle(cfg, old(View()), Cycle(checkedAt, checkedAt, upstream, [], checkedAt)).last
      ensures calls == AfterCycle(cfg, old(View()), Cycle(checkedAt, checkedAt, upstream, [], checkedAt)).calls
      ensures
        if old(last).Some? && checkedAt - old(last).value.at < cfg.minInterval
        then ok == old(last).value.ok && last == old(last) && calls == old(calls)
        else
          && ok == (upstream.Answer? && upstream.ok) && calls == old(calls) + [UpstreamCall(checkedAt, upstream)]
          && last == if upstream.Answer? then Some(Attempt(upstream.at, upstream.ok)) else old(last)
    {
      if last.Some? && checkedAt - last.value.at < cfg.minInterval { return last.value.ok; }
      calls := calls + [UpstreamCall(checkedAt, upstream)];
      if upstream.NoAnswer? { return false; }
      last := Some(Attempt(upstream.at, upstream.ok));
      return upstream.ok;
    }

    // The loop that stamps every probe's outcome.
    method StampAll(outcomes: seq<(string, bool)>, now: Time)
      modifies this`probes
      ensures probes == RecordAll(old(probes), outcomes, now) && Stamped(old(probes), probes, outcomes, now)
    {
      hide RecordAll, Stamped;
      ghost var before := probes;
      RecordNone(before, outcomes, now);
      for i := 0 to |outcomes|
        invariant probes == RecordAll(before, outcomes[..i], now)
      {
        var name, result := outcomes[i].0, outcomes[i].1;
        RecordNext(before, outcomes, now, i);
        var entry := if name in probes then probes[name] else ProbeOutcome(None, now, false);
        entry := entry.(lastCheckAt := now);
        if result {
          entry := entry.(lastOkAt := Some(now), failed := false);
        } else {
          entry := entry.(failed := true);
        }
        probes := probes[name := entry];
      }
      assert outcomes[..|outcomes|] == outcomes;
      RecordAllStamps(before, outcomes, now);
    }

    method RunCycle(c: Cycle)
      modifies this
      ensures View() == AfterCycle(cfg, old(View()), c)
      ensures Stamped(old(probes), probes, Outcomes(cfg, old(View()), c), c.end)
    {
      hide RecordAll, Stamped;
      var ok := ProbeEmbedding(c.checkedAt, c.upstream);
      StampAll(c.others + [(EMBEDDING, ok)], c.end);
    }
  }

  // ---- Runs ----

  // The embedding probe is polled last, so at `checkedAt` every probe's timer runs.
  predicate WellTimed(cfg: Config, c: Cycle, earliest: Time) {
    && earliest <= c.start <= c.checkedAt <= c.end <= c.checkedAt + cfg.timeout
    && (c.upstream.Answer? ==> c.checkedAt <= c.upstream.at <= c.end)
    && forall i :: 0 <= i < |c.others| ==> c.others[i].0 != EMBEDDING
  }

  // A real upstream call that gets no answer lasts until the timeout.
  predicate CutOff(cfg: Config, last: Option<Attempt>, c: Cycle) {
    !Replays(cfg, last, c.checkedAt) && c.upstream.NoAnswer?
  }

  // Cycles follow one another, from a state where nothing has succeeded yet.
  ghost predicate IsRun(cfg: Config, trace: seq<State>, cycles: seq<Cycle>) {
    && |trace| == |cycles| + 1
    && trace[0].last.None? && trace[0].calls == []
    && (forall n :: n in trace[0].probes ==> trace[0].probes[n].lastOkAt.None?)
    && forall i :: 0 <= i < |cycles| ==> CycleOk(cfg, trace, cycles, i)
  }

  ghost predicate CycleOk(cfg: Config, trace: seq<State>, cycles: seq<Cycle>, i: nat)
    requires i < |cycles| && |trace| == |cycles| + 1
  {
    && WellTimed(cfg, cycles[i], if i == 0 then cycles[i].start else cycles[i - 1].end)
    && (CutOff(cfg, trace[i].last, cycles[i]) ==> cycles[i].end == cycles[i].checkedAt + cfg.timeout)
    && trace[i + 1] == AfterCycle(cfg, trace[i], cycles[i])
  }

  // ---- Stamps are successes ----

  // A stamp after a cycle is the cycle's own success or an earlier stamp.
  lemma {:induction false} StampOrigin(probes: map<string, ProbeOutcome>, outcomes: seq<(string, bool)>, now: Time,
      name: string)
    requires name in RecordAll(probes, outcomes, now)
    ensures var at := RecordAll(probes, outcomes, now)[name].lastOkAt;
      at.Some? ==> (at == Some(now) && (name, true) in outcomes) || (name in probes && at == probes[name].lastOkAt)
  {
    if outcomes != [] {
      var n := |outcomes| - 1;
      assert outcomes[n] in outcomes;
      if name in RecordAll(probes, outcomes[..n], now) { StampOrigin(probes, outcomes[..n], now, name); }
    }
  }

  // Probe `name` succeeded in cycle j, which ended at `at`.
  ghost predicate Succeeded(cfg: Config, trace: seq<State>, cycles: seq<Cycle>, j: nat, name: string, at: Time)
    requires |trace| == |cycles| + 1
  {
    j < |cycles| && cycles[j].end == at && (name, true) in Outcomes(cfg, trace[j], cycles[j])
  }

  lemma {:induction false} StampsAreSuccesses(cfg: Config, trace: seq<State>, cycles: seq<Cycle>, i: nat, name: string)
    returns (j: nat)
    requires IsRun(cfg, trace, cycles) && i < |trace|
    requires name in trace[i].probes && trace[i].probes[name].lastOkAt.Some?
    ensures j < i && Succeeded(cfg, trace, cycles, j, name, trace[i].probes[name].lastOkAt.value)
  {
    var s, c := trace[i - 1], cycles[i - 1];
    assert CycleOk(cfg, trace, cycles, i - 1);
    StampOrigin(s.probes, Outcomes(cfg, s, c), c.end, name);
    if trace[i].probes[name].lastOkAt == Some(c.end) && (name, true) in Outcomes(cfg, s, c) {
      j := i - 1;
    } else {
      j := StampsAreSuccesses(cfg, trace, cycles, i - 1, name);
    }
  }

  // The upstream confirmed at instant `at`.
  ghost predicate Confirmed(s: State, at: Time) {
    exists k :: 0 <= k < |s.calls| && s.calls[k].answer == Answer(true, at)
  }

  ghost predicate LastIsReal(s: State) {
    s.last.Some? && s.last.value.ok ==> Confirmed(s, s.last.value.at)
  }

  lemma CallsGrow(cfg: Config, s: State, c: Cycle, at: Time)
    requires Confirmed(s, at)
    ensures Confirmed(AfterCycle(cfg, s, c), at)
  {
    var k :| 0 <= k < |s.calls| && s.calls[k].answer == Answer(true, at);
    assert AfterCycle(cfg, s, c).calls[k] == s.calls[k];
  }

  lemma {:induction false} RunKeepsLast(cfg: Config, trace: seq<State>, cycles: seq<Cycle>, i: nat)
    requires IsRun(cfg, trace, cycles) && i < |trace|
    ensures LastIsReal(trace[i])
    ensures trace[i].last.Some? ==> i > 0 && trace[i].last.value.at <= cycles[i - 1].end
  {
    if i > 0 {
      RunKeepsLast(cfg, trace, cycles, i - 1);
      var s, c, s' := trace[i - 1], cycles[i - 1], trace[i];
      assert CycleOk(cfg, trace, cycles, i - 1);
      if s'.last != s.last {
        assert s'.calls[|s.calls|].answer == c.upstream;
      } else if s'.last.Some? && s'.last.value.ok {
        CallsGrow(cfg, s, c, s.last.value.at);
      }
    }
  }

  // The greatest age at which an outcome is still replayed.
  function Replayable(cfg: Config): int { if cfg.minInterval <= 0 then 0 else cfg.minInterval - 1 }

  // A successful embedding probe rests on a confirmation this recent.
  lemma EmbeddingSuccessIsReal(cfg: Config, trace: seq<State>, cycles: seq<Cycle>, j: nat) returns (at: Time)
    requires cfg.Valid() && IsRun(cfg, trace, cycles) && j < |cycles|
    requires (EMBEDDING, true) in Outcomes(cfg, trace[j], cycles[j])
    ensures Confirmed(trace[j + 1], at) && at <= cycles[j].end <= at + cfg.timeout + Replayable(cfg)
  {
    var s, c := trace[j], cycles[j];
    assert CycleOk(cfg, trace, cycles, j);
    RunKeepsLast(cfg, trace, cycles, j);
    assert EmbeddingOk(cfg, s, c);
    if Replays(cfg, s.last, c.checkedAt) {
      at := s.last.value.at;
      CallsGrow(cfg, s, c, at);
    } else {
      at := c.upstream.at;
      assert AfterCycle(cfg, s, c).calls[|s.calls|].answer == c.upstream;
    }
  }

  lemma {:induction false} ConfirmedStays(cfg: Config, trace: seq<State>, cycles: seq<Cycle>, j: nat, i: nat, at: Time)
    requires IsRun(cfg, trace, cycles) && j <= i < |trace| && Confirmed(trace[j], at)
    ensures Confirmed(trace[i], at)
  {
    if j < i {
      ConfirmedStays(cfg, trace, cycles, j, i - 1, at);
      assert CycleOk(cfg, trace, cycles, i - 1);
      CallsGrow(cfg, trace[i - 1], cycles[i - 1], at);
    }
  }

  // Stamps younger than this are fresh: the check compares whole seconds.
  function Window(staleAfter: int): int { (Secs(staleAfter) + 1) * SECOND }

  lemma WholeSeconds(d: int, staleAfter: int)
    requires staleAfter >= 0
    ensures Secs(d) <= Secs(staleAfter) <==> d < Window(staleAfter)
    ensures staleAfter < Window(staleAfter) <= staleAfter + SECOND
  {
  }

  // ---- Main results ----

  /** When the check says ready, every probe succeeded in a cycle that ended less
      than the staleness window, rounded up to the next whole second, before. */
  lemma ReadyMeansRecentSuccess(cfg: Config, trace: seq<State>, cycles: seq<Cycle>, i: nat, t: Time, staleAfter: int,
      name: string)
    returns (j: nat)
    requires IsRun(cfg, trace, cycles) && i < |trace| && staleAfter >= 0
    requires name in trace[i].probes && Fresh(trace[i].probes[name], t, staleAfter)
    ensures j < i && (name, true) in Outcomes(cfg, trace[j], cycles[j])
    ensures t - cycles[j].end < Window(staleAfter) <= staleAfter + SECOND
  {
    j := StampsAreSuccesses(cfg, trace, cycles, i, name);
    WholeSeconds(t - trace[i].probes[name].lastOkAt.value, staleAfter);
  }

  lemma {:induction false} EndsGrow(cfg: Config, trace: seq<State>, cycles: seq<Cycle>, j: nat, i: nat)
    requires IsRun(cfg, trace, cycles) && j <= i < |cycles|
    ensures cycles[j].end <= cycles[i].end
  {
    if j < i {
      EndsGrow(cfg, trace, cycles, j, i - 1);
      assert CycleOk(cfg, trace, cycles, i);
    }
  }

  // A success is never stamped over by a failure.
  lemma {:induction false} SuccessStays(cfg: Config, trace: seq<State>, cycles: seq<Cycle>, j: nat, i: nat,
      name: string)
    requires IsRun(cfg, trace, cycles) && j < i < |trace| && (name, true) in Outcomes(cfg, trace[j], cycles[j])
    ensures name in trace[i].probes && trace[i].probes[name].lastOkAt.Some?
    ensures cycles[j].end <= trace[i].probes[name].lastOkAt.value
  {
    hide RecordAll, Outcomes;
    var h := i - 1;
    var outcomes := Outcomes(cfg, trace[h], cycles[h]);
    assert CycleOk(cfg, trace, cycles, h);
    RecordAllStamps(trace[h].probes, outcomes, cycles[h].end);
    EndsGrow(cfg, trace, cycles, j, h);
    if j < h {
      SuccessStays(cfg, trace, cycles, j, h, name);
    } else {
      var k :| 0 <= k < |outcomes| && outcomes[k] == (name, true);
      assert Named(outcomes, name);
    }
  }

  // The probe succeeded in cycle j, which ended less than the window before t.
  ghost predicate SucceededWithin(cfg: Config, trace: seq<State>, cycles: seq<Cycle>, j: nat, name: string, t: Time,
      staleAfter: int)
    requires |trace| == |cycles| + 1
  {
    && j < |cycles| && (name, true) in Outcomes(cfg, trace[j], cycles[j])
    && t - cycles[j].end < (staleAfter / SECOND + 1) * SECOND
  }

  /** A probe is fresh exactly when it succeeded in a cycle that ended within the window,
      counted up to the next whole second; a failure since then changes nothing. */
  lemma FreshExactly(cfg: Config, trace: seq<State>, cycles: seq<Cycle>, i: nat, t: Time, staleAfter: int, name: string)
    requires IsRun(cfg, trace, cycles) && i < |trace| && staleAfter >= 0
    ensures name in trace[i].probes && Fresh(trace[i].probes[name], t, staleAfter) <==>
      exists j: nat :: j < i && SucceededWithin(cfg, trace, cycles, j, name, t, staleAfter)
  {
    hide Outcomes, RecordAll;
    if name in trace[i].probes && Fresh(trace[i].probes[name], t, staleAfter) {
      var j := ReadyMeansRecentSuccess(cfg, trace, cycles, i, t, staleAfter, name);
      assert SucceededWithin(cfg, trace, cycles, j, name, t, staleAfter);
    }
    if j: nat :| j < i && SucceededWithin(cfg, trace, cycles, j, name, t, staleAfter) {
      SuccessStays(cfg, trace, cycles, j, i, name);
      WholeSeconds(t - trace[i].probes[name].lastOkAt.value, staleAfter);
    }
  }

  // The greatest age of the confirmation behind a fresh embedding stamp.
  function MaxAge(cfg: Config, staleAfter: int): int { Window(staleAfter) - 1 + cfg.timeout + Replayable(cfg) }

  /** And the upstream really answered an embedding call within the window plus one
      second, the probe timeout and the replay interval before the check. */
  lemma ReadyMeansRealEmbedding(cfg: Config, trace: seq<State>, cycles: seq<Cycle>, i: nat, t: Time, staleAfter: int)
    returns (at: Time)
    requires cfg.Valid() && IsRun(cfg, trace, cycles) && i < |trace| && staleAfter >= 0
    requires EMBEDDING in trace[i].probes && Fresh(trace[i].probes[EMBEDDING], t, staleAfter)
    ensures Confirmed(trace[i], at) &&
      t - at <= MaxAge(cfg, staleAfter) < staleAfter + SECOND + cfg.timeout + cfg.minInterval
  {
    var j := ReadyMeansRecentSuccess(cfg, trace, cycles, i, t, staleAfter, EMBEDDING);
    at := EmbeddingSuccessIsReal(cfg, trace, cycles, j);
    ConfirmedStays(cfg, trace, cycles, j + 1, i, at);
  }

  /** That age is attained for every configuration: the only upstream answer is
      exactly that old and the check still says fresh. */
  lemma RealEmbeddingBoundIsTight(cfg: Config, staleAfter: int)
    returns (trace: seq<State>, cycles: seq<Cycle>, t: Time)
    requires cfg.Valid() && staleAfter >= 0
    ensures IsRun(cfg, trace, cycles)
    ensures var s := trace[|trace| - 1];
      && EMBEDDING in s.probes && Fresh(s.probes[EMBEDDING], t, staleAfter)
      && s.calls == [UpstreamCall(0, Answer(true, 0))]
      && t - 0 == MaxAge(cfg, staleAfter)
  {
    var s0 := State(map[], None, []);
    var end := cfg.timeout + Replayable(cfg);
    t := MaxAge(cfg, staleAfter);
    WholeSeconds(t - end, staleAfter);
    if cfg.minInterval == 0 {
      cycles := [Cycle(0, 0, Answer(true, 0), [], end)];
      trace := [s0, AfterCycle(cfg, s0, cycles[0])];
      OnlyEmbedding(cfg, s0, cycles[0]);
      assert CycleOk(cfg, trace, cycles, 0);
    } else {
      var again := cfg.minInterval - 1;
      cycles := [Cycle(0, 0, Answer(true, 0), [], 0), Cycle(again, again, NoAnswer, [], end)];
      var s1 := AfterCycle(cfg, s0, cycles[0]);
      trace := [s0, s1, AfterCycle(cfg, s1, cycles[1])];
      OnlyEmbedding(cfg, s1, cycles[1]);
      assert forall i :: 0 <= i < 2 ==> CycleOk(cfg, trace, cycles, i);
    }
  }

  lemma OnlyEmbedding(cfg: Config, s: State, c: Cycle)
    requires c.others == []
    ensures AfterCycle(cfg, s, c).probes == Record(s.probes, EMBEDDING, EmbeddingOk(cfg, s, c), c.end)
  {
    var ok := EmbeddingOk(cfg, s, c);
    var outcomes := [(EMBEDDING, ok)];
    assert Outcomes(cfg, s, c) == outcomes;
    assert RecordAll(s.probes, outcomes[..0], c.end) == s.probes;
    assert RecordAll(s.probes, outcomes, c.end) == Record(s.probes, EMBEDDING, ok, c.end);
  }

  // Answered calls are no later than the recorded attempt.
  ghost predicate AnswersRecorded(s: State) {
    forall k :: 0 <= k < |s.calls| && s.calls[k].answer.Answer? ==>
      s.last.Some? && s.calls[k].answer.at <= s.last.value.at
  }

  ghost predicate Throttled(cfg: Config, s: State) {
    forall k, m :: 0 <= k < m < |s.calls| && s.calls[k].answer.Answer? ==>
      s.calls[k].answer.at + cfg.minInterval <= s.calls[m].startedAt
  }

  /** The throttle holds after every call that was answered: the next call starts
      at least the minimum interval later. */
  lemma {:induction false} AnsweredCallsAreThrottled(cfg: Config, trace: seq<State>, cycles: seq<Cycle>, i: nat)
    requires IsRun(cfg, trace, cycles) && i < |trace|
    ensures AnswersRecorded(trace[i]) && Throttled(cfg, trace[i])
  {
    if i > 0 {
      AnsweredCallsAreThrottled(cfg, trace, cycles, i - 1);
      RunKeepsLast(cfg, trace, cycles, i - 1);
      var s, c, s' := trace[i - 1], cycles[i - 1], trace[i];
      assert CycleOk(cfg, trace, cycles, i - 1);
      hide RecordAll, Outcomes;
      if s'.calls != s.calls {
        assert forall k :: 0 <= k < |s.calls| ==> s'.calls[k] == s.calls[k];
      }
    }
  }

  // Unanswered calls were cut off by `end`, and answered ones started before their answer.
  ghost predicate CallsTimed(cfg: Config, calls: seq<UpstreamCall>, end: Time) {
    forall k :: 0 <= k < |calls| ==>
      match calls[k].answer
      case NoAnswer => calls[k].startedAt + cfg.timeout <= end
      case Answer(_, at) => calls[k].startedAt <= at
  }

  function Spacing(cfg: Config, call: UpstreamCall): int {
    if call.answer.NoAnswer? then cfg.timeout else cfg.minInterval
  }

  // Two upstream calls start at least the timeout or the interval apart.
  ghost predicate Spaced(cfg: Config, calls: seq<UpstreamCall>) {
    forall k, m :: 0 <= k < m < |calls| ==> calls[m].startedAt - calls[k].startedAt >= Spacing(cfg, calls[k])
  }

  lemma CallsAfter(cfg: Config, s: State, c: Cycle)
    ensures AfterCycle(cfg, s, c).calls ==
      if Replays(cfg, s.last, c.checkedAt) then s.calls else s.calls + [UpstreamCall(c.checkedAt, c.upstream)]
  {
  }

  lemma NextCallSpaced(cfg: Config, calls: seq<UpstreamCall>, x: UpstreamCall, end: Time, end': Time)
    requires Spaced(cfg, calls) && CallsTimed(cfg, calls, end) && end <= x.startedAt && end <= end'
    requires CallsTimed(cfg, [x], end')
    requires forall k :: 0 <= k < |calls| && calls[k].answer.Answer? ==>
      calls[k].answer.at + cfg.minInterval <= x.startedAt
    ensures Spaced(cfg, calls + [x]) && CallsTimed(cfg, calls + [x], end')
  {
    var calls' := calls + [x];
    assert [x][0] == x;
    forall k, m | 0 <= k < m < |calls'| ensures calls'[m].startedAt - calls'[k].startedAt >= Spacing(cfg, calls'[k]) {
      if m < |calls| { assert calls[m].startedAt - calls[k].startedAt >= Spacing(cfg, calls[k]); }
    }
  }

  /** A call starts at least the minimum interval after an earlier answered one and
      at least the timeout after an unanswered one: never closer than the smaller. */
  lemma {:induction false} UpstreamCallsAreSpaced(cfg: Config, trace: seq<State>, cycles: seq<Cycle>, i: nat)
    requires IsRun(cfg, trace, cycles) && i < |trace|
    ensures Spaced(cfg, trace[i].calls)
    ensures forall k, m :: 0 <= k < m < |trace[i].calls| ==>
      trace[i].calls[m].startedAt - trace[i].calls[k].startedAt >= Min(cfg.timeout, cfg.minInterval)
    ensures i > 0 ==> CallsTimed(cfg, trace[i].calls, cycles[i - 1].end)
  {
    if i > 0 {
      hide AfterCycle, Throttled, AnswersRecorded, Spaced, CallsTimed;
      UpstreamCallsAreSpaced(cfg, trace, cycles, i - 1);
      SpacedStep(cfg, trace, cycles, i - 1);
    }
    SpacedApart(cfg, trace[i].calls);
  }

  lemma SpacedApart(cfg: Config, calls: seq<UpstreamCall>)
    requires Spaced(cfg, calls)
    ensures forall k, m :: 0 <= k < m < |calls| ==>
      calls[m].startedAt - calls[k].startedAt >= Min(cfg.timeout, cfg.minInterval)
  {
    assert forall k :: 0 <= k < |calls| ==> Spacing(cfg, calls[k]) >= Min(cfg.timeout, cfg.minInterval);
  }

  lemma CallsTimedLater(cfg: Config, calls: seq<UpstreamCall>, end: Time, end': Time)
    requires CallsTimed(cfg, calls, end) && end <= end'
    ensures CallsTimed(cfg, calls, end')
  {
  }

  lemma ThrottledNext(cfg: Config, s: State, calls: seq<UpstreamCall>, x: UpstreamCall)
    requires Throttled(cfg, s) && s.calls == calls + [x]
    ensures forall k :: 0 <= k < |calls| && calls[k].answer.Answer? ==>
      calls[k].answer.at + cfg.minInterval <= x.startedAt
  {
    forall k | 0 <= k < |calls| && calls[k].answer.Answer?
      ensures calls[k].answer.at + cfg.minInterval <= x.startedAt
    {
      assert s.calls[k] == calls[k] && s.calls[|calls|] == x;
    }
  }

  // What a cycle does to the calls, and when.
  lemma CycleCalls(cfg: Config, trace: seq<State>, cycles: seq<Cycle>, i: nat)
    requires IsRun(cfg, trace, cycles) && i < |cycles|
    ensures var s, c, x := trace[i], cycles[i], UpstreamCall(cycles[i].checkedAt, cycles[i].upstream);
      && (i > 0 ==> cycles[i - 1].end <= c.checkedAt) && c.checkedAt <= c.end
      && (trace[i + 1].calls == s.calls || (trace[i + 1].calls == s.calls + [x] && CallsTimed(cfg, [x], c.end)))
  {
    assert CycleOk(cfg, trace, cycles, i);
    CallsAfter(cfg, trace[i], cycles[i]);
    hide AfterCycle, IsRun, Replays;
  }

  lemma SpacedStep(cfg: Config, trace: seq<State>, cycles: seq<Cycle>, i: nat)
    requires IsRun(cfg, trace, cycles) && i < |cycles| && Spaced(cfg, trace[i].calls)
    requires i > 0 ==> CallsTimed(cfg, trace[i].calls, cycles[i - 1].end)
    ensures Spaced(cfg, trace[i + 1].calls) && CallsTimed(cfg, trace[i + 1].calls, cycles[i].end)
  {
    var s, s', c := trace[i], trace[i + 1], cycles[i];
    AnsweredCallsAreThrottled(cfg, trace, cycles, i + 1);
    CycleCalls(cfg, trace, cycles, i);
    var x, earliest := UpstreamCall(c.checkedAt, c.upstream), if i == 0 then c.checkedAt else cycles[i - 1].end;
    assert CallsTimed(cfg, s.calls, earliest);
    hide IsRun, AnswersRecorded, Throttled, Spaced, CallsTimed;
    if s'.calls == s.calls {
      CallsTimedLater(cfg, s.calls, earliest, c.end);
    } else {
      ThrottledNext(cfg, s', s.calls, x);
      NextCallSpaced(cfg, s.calls, x, earliest, c.end);
    }
  }

  // Two cycles that both call upstream, the second `gap` after the first.
  lemma TwoCalls(cfg: Config, first: Upstream, gap: int) returns (trace: seq<State>, cycles: seq<Cycle>)
    requires cfg.Valid() && gap >= 0
    requires match first
      case Answer(_, at) => at == 0 && gap >= cfg.minInterval
      case NoAnswer => gap >= cfg.timeout
    ensures IsRun(cfg, trace, cycles)
    ensures var s := trace[|trace| - 1];
      |s.calls| == 2 && s.calls[0].answer == first && s.calls[1].startedAt - s.calls[0].startedAt == gap
  {
    cycles := [Cycle(0, 0, first, [], if first.Answer? then 0 else cfg.timeout),
      Cycle(gap, gap, NoAnswer, [], gap + cfg.timeout)];
    var s0 := State(map[], None, []);
    var s1 := AfterCycle(cfg, s0, cycles[0]);
    trace := [s0, s1, AfterCycle(cfg, s1, cycles[1])];
    assert forall i :: 0 <= i < 2 ==> CycleOk(cfg, trace, cycles, i);
  }

  /** A call the timeout cuts off is not recorded, so "at most one call per minimum
      interval" fails: after it the next call comes at any gap from the timeout on. */
  lemma TimedOutCallsAreNotThrottled(cfg: Config, gap: int) returns (trace: seq<State>, cycles: seq<Cycle>)
    requires cfg.Valid() && cfg.timeout <= gap < cfg.minInterval
    ensures IsRun(cfg, trace, cycles)
    ensures var s := trace[|trace| - 1];
      |s.calls| == 2 && s.calls[1].startedAt - s.calls[0].startedAt == gap < cfg.minInterval
  {
    trace, cycles := TwoCalls(cfg, NoAnswer, gap);
  }

  /** The spacing is attained for every configuration. */
  lemma SpacingIsTight(cfg: Config) returns (trace: seq<State>, cycles: seq<Cycle>)
    requires cfg.Valid()
    ensures IsRun(cfg, trace, cycles)
    ensures var s := trace[|trace| - 1];
      |s.calls| == 2 && s.calls[1].startedAt - s.calls[0].startedAt == Min(cfg.timeout, cfg.minInterval)
  {
    trace, cycles := TwoCalls(cfg,
      if cfg.timeout < cfg.minInterval then NoAnswer else Answer(true, 0), Min(cfg.timeout, cfg.minInterval));
  }
}
