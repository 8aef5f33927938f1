/**
 The rolling-window token quota.  A call is checked against the usage log, then
 runs, and only after it answered a detached task appends its usage.  Calls of
 the same actor overlap freely, so several may pass the check before any of
 them is recorded.
 */
module Quota {
  import opened Basics

  type Actor = int
  type CallId = nat
  type Time = int

  const U32_MAX: nat := 0xFFFF_FFFF
  const I32_MAX: nat := 0x7FFF_FFFF

  datatype Usage = Usage(actor: Actor, at: Time, tokens: nat)

  datatype Config = Config(cap: nat, window: int, enabled: bool) {
    predicate Valid() { cap <= U32_MAX }
  }

  datatype QuotaCheck = Ok | Exceeded(used: nat, cap: nat, window: int)

  // Tokens of `actor` recorded strictly after `since`.
  function Used(log: seq<Usage>, actor: Actor, since: Time): nat {
    if log == [] then 0 else
    var last := log[|log| - 1];
    Used(log[..|log| - 1], actor, since) + if last.actor == actor && last.at > since then last.tokens else 0
  }

  // Tokens of `actor` recorded in the window (lo, hi].
  function UsedIn(log: seq<Usage>, actor: Actor, lo: Time, hi: Time): nat {
    if log == [] then 0 else
    var last := log[|log| - 1];
    UsedIn(log[..|log| - 1], actor, lo, hi) + if last.actor == actor && lo < last.at <= hi then last.tokens else 0
  }

  // The rolling window that ends at t.
  function WindowUse(log: seq<Usage>, actor: Actor, window: int, t: Time): nat {
    UsedIn(log, actor, t - window, t)
  }

  lemma {:induction false} UsedAppend(log: seq<Usage>, u: Usage, actor: Actor, since: Time)
    ensures Used(log + [u], actor, since) == Used(log, actor, since) +
      if u.actor == actor && u.at > since then u.tokens else 0
  {
    assert (log + [u])[..|log|] == log;
  }

  lemma {:induction false} UsedInAppend(log: seq<Usage>, u: Usage, actor: Actor, lo: Time, hi: Time)
    ensures UsedIn(log + [u], actor, lo, hi) == UsedIn(log, actor, lo, hi) +
      if u.actor == actor && lo < u.at <= hi then u.tokens else 0
  {
    assert (log + [u])[..|log|] == log;
  }

  // A later start sees no more, and a bounded window no more than an open one.
  lemma {:induction false} WindowMonotone(log: seq<Usage>, actor: Actor, since: Time, lo: Time, hi: Time)
    requires since <= lo
    ensures UsedIn(log, actor, lo, hi) <= Used(log, actor, lo) <= Used(log, actor, since)
  {
    if log != [] { WindowMonotone(log[..|log| - 1], actor, since, lo, hi); }
  }

  // ---- The engine over the usage table ----

  function EstimateSum(lengths: seq<nat>): nat {
    if lengths == [] then 0 else EstimateSum(lengths[..|lengths| - 1]) + lengths[|lengths| - 1] / 4 + 1
  }

  class Engine {
    const config: Config
    var rows: seq<Usage>

    constructor (config: Config)
      ensures this.config == config && rows == []
    {
      this.config := config;
      rows := [];
    }

    /** Fails open: a check whose query errored lets the call through. */
    method Check(actor: Actor, now: Time, dbError: bool) returns (r: QuotaCheck)
      requires config.Valid()
      ensures r.Exceeded? <==> config.enabled && !dbError && Used(rows, actor, now - config.window) >= config.cap
      ensures r.Exceeded? ==>
        r == Exceeded(Min(Used(rows, actor, now - config.window), U32_MAX), config.cap, config.window)
    {
      if !config.enabled || dbError { return Ok; }
      var used := 0;
      for i := 0 to |rows|
        invariant used == Used(rows[..i], actor, now - config.window)
      {
        assert rows[..i + 1][..i] == rows[..i];
        if rows[i].actor == actor && rows[i].at > now - config.window { used := used + rows[i].tokens; }
      }
      assert rows[..|rows|] == rows;
      var clamped := Min(used, U32_MAX);
      if clamped >= config.cap { return Exceeded(clamped, config.cap, config.window); }
      return Ok;
    }

    /** Every window that is still open counts the clamped tokens against this actor
        and nobody else; an append that errored is lost. */
    method Consume(actor: Actor, now: Time, tokens: nat, dbError: bool)
      modifies this
      ensures rows == if dbError then old(rows) else old(rows) + [Usage(actor, now, Min(tokens, 0x7FFF_FFFF))]
      ensures forall a, since ::
        Used(rows, a, since) == Used(old(rows), a, since) +
          if !dbError && a == actor && now > since then Min(tokens, I32_MAX) else 0
      ensures forall a, lo, hi ::
        UsedIn(rows, a, lo, hi) ==
          UsedIn(old(rows), a, lo, hi) + if !dbError && a == actor && lo < now <= hi then Min(tokens, I32_MAX) else 0
    {
      if dbError { return; }
      var u := Usage(actor, now, if tokens <= I32_MAX then tokens else I32_MAX);
      forall a, since
        ensures Used(rows + [u], a, since) == Used(rows, a, since) + if a == actor && now > since then u.tokens else 0
      {
        UsedAppend(rows, u, a, since);
      }
      forall a, lo, hi
        ensures UsedIn(rows + [u], a, lo, hi) == UsedIn(rows, a, lo, hi) +
          if a == actor && lo < now <= hi then u.tokens else 0
      {
        UsedInAppend(rows, u, a, lo, hi);
      }
      rows := rows + [u];
    }
  }

  /** The estimate is one token per four bytes of each text, rounded down, and one more
      for every text: texts add up, and nothing is counted as free. */
  lemma {:induction false} EstimateLaws(a: seq<nat>, b: seq<nat>, n: nat)
    ensures EstimateSum([n]) == n / 4 + 1
    ensures EstimateSum(a + b) == EstimateSum(a) + EstimateSum(b)
    ensures TotalLength(a) < 4 * EstimateSum(a) || a == []
    ensures 4 * EstimateSum(a) <= TotalLength(a) + 4 * |a|
  {
    assert [n][..0] == [];
    EstimateConcat(a, b);
    EstimateBounds(a);
  }

  function TotalLength(lengths: seq<nat>): nat {
    if lengths == [] then 0 else TotalLength(lengths[..|lengths| - 1]) + lengths[|lengths| - 1]
  }

  lemma {:induction false} EstimateConcat(a: seq<nat>, b: seq<nat>)
    ensures EstimateSum(a + b) == EstimateSum(a) + EstimateSum(b)
    decreases |b|
  {
    if b == [] {
      assert a + b == a;
    } else {
      var n := |b| - 1;
      EstimateConcat(a, b[..n]);
      assert (a + b)[..|a + b| - 1] == a + b[..n];
    }
  }

  lemma {:induction false} EstimateBounds(a: seq<nat>)
    ensures TotalLength(a) < 4 * EstimateSum(a) || a == []
    ensures 4 * EstimateSum(a) <= TotalLength(a) + 4 * |a|
  {
    if a != [] { EstimateBounds(a[..|a| - 1]); }
  }

  // The batch path's estimate from the byte lengths of its texts.
  method EstimateTokens(lengths: seq<nat>) returns (tokens: nat)
    ensures tokens == Min(EstimateSum(lengths), 0xFFFF_FFFF)
  {
    var sum := 0;
    for i := 0 to |lengths|
      invariant sum == EstimateSum(lengths[..i])
    {
      assert lengths[..i + 1][..i] == lengths[..i];
      sum := sum + lengths[i] / 4 + 1;
    }
    assert lengths[..|lengths|] == lengths;
    tokens := if sum <= U32_MAX then sum else U32_MAX;
  }

  // ---- Overlapping calls ----

  datatype Phase = Admitted | Answered(tokens: nat)
  datatype Call = Call(actor: Actor, vetted: bool, phase: Phase)

  // History: whether a call passed a check that was answered, or was let through by
  // one that errored, and the log's rows sorted by the two kinds of call.
  datatype State =
    State(now: Time, log: seq<Usage>, calls: map<CallId, Call>, vetted: seq<Usage>, free: seq<Usage>)

  datatype Label =
    | Tick(now: Time)
    | Check(call: CallId, actor: Actor, dbError: bool)
    | Answer(call: CallId, tokens: nat)  // the provider replied, the record is spawned
    | Fail(call: CallId)                 // the provider failed, nothing is recorded
    | Record(call: CallId)
    | RecordLost(call: CallId)           // the append failed and was only logged

  predicate Admits(cfg: Config, s: State, actor: Actor, dbError: bool) {
    !cfg.enabled || dbError || Min(Used(s.log, actor, s.now - cfg.window), U32_MAX) < cfg.cap
  }

  predicate Enabled(s: State, l: Label) {
    match l
    case Tick(now) => s.now <= now
    case Check(c, _, _) => c !in s.calls
    case Answer(c, _) => c in s.calls && s.calls[c].phase.Admitted?
    case Fail(c) => c in s.calls && s.calls[c].phase.Admitted?
    case Record(c) => c in s.calls && s.calls[c].phase.Answered?
    case RecordLost(c) => c in s.calls && s.calls[c].phase.Answered?
  }

  function RowOf(s: State, c: CallId): Usage
    requires c in s.calls && s.calls[c].phase.Answered?
  {
    Usage(s.calls[c].actor, s.now, Min(s.calls[c].phase.tokens, I32_MAX))
  }

  function Apply(cfg: Config, s: State, l: Label): State
    requires Enabled(s, l)
  {
    match l
    case Tick(now) => s.(now := now)
    case Check(c, actor, dbError) =>
      if Admits(cfg, s, actor, dbError) then s.(calls := s.calls[c := Call(actor, !dbError, Admitted)]) else s
    case Answer(c, tokens) => s.(calls := s.calls[c := s.calls[c].(phase := Answered(tokens))])
    case Fail(c) => s.(calls := s.calls - {c})
    case Record(c) =>
      var u := RowOf(s, c);
      State(s.now, s.log + [u], s.calls - {c}, if s.calls[c].vetted then s.vetted + [u] else s.vetted,
            if s.calls[c].vetted then s.free else s.free + [u])
    case RecordLost(c) => s.(calls := s.calls - {c})
  }

  ghost predicate IsRun(cfg: Config, trace: seq<State>, labels: seq<Label>) {
    && |trace| == |labels| + 1
    && trace[0].log == trace[0].vetted == trace[0].free == [] && trace[0].calls == map[]
    && forall i :: 0 <= i < |labels| ==> Enabled(trace[i], labels[i]) && trace[i + 1] == Apply(cfg, trace[i], labels[i])
  }

  // The calls of `actor` that passed their check and are not recorded.
  ghost function Unrecorded(s: State, actor: Actor): set<CallId> {
    set c | c in s.calls && s.calls[c].actor == actor && s.calls[c].vetted
  }

  // The worst those calls can still record.
  ghost function Reserved(s: State, actor: Actor, m: nat): nat { |Unrecorded(s, actor)| * m }

  predicate AnswersFor(s: State, l: Label, actor: Actor) {
    l.Answer? && l.call in s.calls && s.calls[l.call].actor == actor
  }

  // No call of `actor` records more than m tokens.
  ghost predicate RecordsAtMost(trace: seq<State>, labels: seq<Label>, actor: Actor, m: nat)
    requires |trace| == |labels| + 1
  {
    forall i :: 0 <= i < |labels| && AnswersFor(trace[i], labels[i], actor) ==> Min(labels[i].tokens, I32_MAX) <= m
  }

  ghost predicate OverlapAtMost(trace: seq<State>, actor: Actor, k: nat) {
    forall i :: 0 <= i < |trace| ==> |Unrecorded(trace[i], actor)| <= k
  }

  // How many rows of `actor` lie in the window (lo, hi].
  function Rows(log: seq<Usage>, actor: Actor, lo: Time, hi: Time): nat {
    if log == [] then 0 else
    var last := log[|log| - 1];
    Rows(log[..|log| - 1], actor, lo, hi) + if last.actor == actor && lo < last.at <= hi then 1 else 0
  }

  // What the calls that passed their check can put into one window.
  function Bound(cfg: Config, k: nat, m: nat): nat {
    if cfg.cap == 0 || k == 0 then 0 else cfg.cap - 1 + k * m
  }

  // The log's rows are those of the two kinds of call.
  ghost predicate Split(s: State) {
    && (forall a, since :: Used(s.log, a, since) == Used(s.vetted, a, since) + Used(s.free, a, since))
    && forall a, lo, hi :: UsedIn(s.log, a, lo, hi) == UsedIn(s.vetted, a, lo, hi) + UsedIn(s.free, a, lo, hi)
  }

  ghost predicate SmallRecords(s: State, actor: Actor, m: nat) {
    && (forall c :: c in s.calls && s.calls[c].actor == actor && s.calls[c].phase.Answered? ==>
      Min(s.calls[c].phase.tokens, I32_MAX) <= m)
    && forall u :: u in s.free && u.actor == actor ==> u.tokens <= m
  }

  // What calls that passed their check have used since the window opened, plus the
  // worst their unrecorded ones can still add, stays within b; so does every window.
  ghost predicate Inv(cfg: Config, s: State, actor: Actor, m: nat, b: nat) {
    && Split(s) && SmallRecords(s, actor, m)
    && Used(s.vetted, actor, s.now - cfg.window) + Reserved(s, actor, m) <= b
    && forall t :: WindowUse(s.vetted, actor, cfg.window, t) <= b
  }

  lemma Scale(a: nat, b: nat, m: nat)
    requires a <= b
    ensures a * m <= b * m
    ensures (a + 1) * m == a * m + m
  {
  }

  // Dropping a call frees its share of the bound.
  lemma DropCall(s: State, s': State, c: CallId, actor: Actor, m: nat)
    requires c in s.calls && s'.calls == s.calls - {c}
    ensures Reserved(s', actor, m) + (if c in Unrecorded(s, actor) then m else 0) == Reserved(s, actor, m)
  {
    if c in Unrecorded(s, actor) {
      assert Unrecorded(s', actor) == Unrecorded(s, actor) - {c};
      Scale(|Unrecorded(s', actor)|, |Unrecorded(s, actor)|, m);
    } else {
      assert Unrecorded(s', actor) == Unrecorded(s, actor);
    }
  }

  lemma AdmitCall(s: State, s': State, c: CallId, actor: Actor, m: nat)
    requires c !in s.calls && s'.calls == s.calls[c := Call(actor, true, Admitted)]
    ensures Reserved(s', actor, m) == Reserved(s, actor, m) + m
  {
    assert Unrecorded(s', actor) == Unrecorded(s, actor) + {c};
    Scale(|Unrecorded(s, actor)|, |Unrecorded(s', actor)|, m);
  }

  lemma CheckKeeps(cfg: Config, s: State, l: Label, actor: Actor, k: nat, m: nat)
    requires cfg.Valid() && cfg.enabled && l.Check? && Enabled(s, l) && Inv(cfg, s, actor, m, Bound(cfg, k, m))
    requires |Unrecorded(Apply(cfg, s, l), actor)| <= k
    ensures Inv(cfg, Apply(cfg, s, l), actor, m, Bound(cfg, k, m))
  {
    hide Used, UsedIn, WindowUse;
    var s', since := Apply(cfg, s, l), s.now - cfg.window;
    if s' == s || l.actor != actor || l.dbError {
      assert Unrecorded(s', actor) == Unrecorded(s, actor);
    } else {
      AdmitCall(s, s', l.call, actor, m);
      assert Used(s.log, actor, since) == Used(s.vetted, actor, since) + Used(s.free, actor, since);
      hide Split, SmallRecords, Unrecorded;
      Scale(|Unrecorded(s', actor)|, k, m);
    }
  }

  // The record moves the call's share of the bound into the log.
  lemma RecordMovesShare(cfg: Config, s: State, l: Label, actor: Actor, m: nat, b: nat)
    requires l.Record? && Enabled(s, l) && Inv(cfg, s, actor, m, b)
    ensures var s' := Apply(cfg, s, l);
      Used(s'.vetted, actor, s.now - cfg.window) + Reserved(s', actor, m) <= b
  {
    var s' := Apply(cfg, s, l);
    UsedAppend(s.vetted, RowOf(s, l.call), actor, s.now - cfg.window);
    DropCall(s, s', l.call, actor, m);
    assert l.call in Unrecorded(s, actor) <==> s.calls[l.call].actor == actor && s.calls[l.call].vetted;
    hide Used, Unrecorded, WindowUse, Split;
  }

  lemma RecordFrame(cfg: Config, s: State, l: Label)
    requires l.Record? && Enabled(s, l)
    ensures var s', u, vetted := Apply(cfg, s, l), RowOf(s, l.call), s.calls[l.call].vetted;
      && s'.now == s.now && s'.calls == s.calls - {l.call} && s'.log == s.log + [u]
      && s'.vetted == (if vetted then s.vetted + [u] else s.vetted)
      && s'.free == (if vetted then s.free else s.free + [u])
  {
  }

  lemma SplitKeeps(s: State, s': State, u: Usage, vetted: bool)
    requires Split(s) && s'.log == s.log + [u]
    requires s'.vetted == if vetted then s.vetted + [u] else s.vetted
    requires s'.free == if vetted then s.free else s.free + [u]
    ensures Split(s')
  {
    forall a, since ensures Used(s'.log, a, since) == Used(s'.vetted, a, since) + Used(s'.free, a, since) {
      assert Used(s.log, a, since) == Used(s.vetted, a, since) + Used(s.free, a, since);
      SplitUsed(s.log, s.vetted, s.free, u, a, since);
    }
    forall a, lo, hi
      ensures UsedIn(s'.log, a, lo, hi) == UsedIn(s'.vetted, a, lo, hi) + UsedIn(s'.free, a, lo, hi)
    {
      assert UsedIn(s.log, a, lo, hi) == UsedIn(s.vetted, a, lo, hi) + UsedIn(s.free, a, lo, hi);
      SplitUsedIn(s.log, s.vetted, s.free, u, a, lo, hi);
    }
    hide Used, UsedIn;
  }

  // A row added to the log and to one of its two parts.
  lemma SplitUsed(log: seq<Usage>, vetted: seq<Usage>, free: seq<Usage>, u: Usage, a: Actor, since: Time)
    requires Used(log, a, since) == Used(vetted, a, since) + Used(free, a, since)
    ensures Used(log + [u], a, since) == Used(vetted + [u], a, since) + Used(free, a, since)
    ensures Used(log + [u], a, since) == Used(vetted, a, since) + Used(free + [u], a, since)
  {
    UsedAppend(log, u, a, since);
    UsedAppend(vetted, u, a, since);
    UsedAppend(free, u, a, since);
    hide Used;
  }

  lemma SplitUsedIn(log: seq<Usage>, vetted: seq<Usage>, free: seq<Usage>, u: Usage, a: Actor, lo: Time, hi: Time)
    requires UsedIn(log, a, lo, hi) == UsedIn(vetted, a, lo, hi) + UsedIn(free, a, lo, hi)
    ensures UsedIn(log + [u], a, lo, hi) == UsedIn(vetted + [u], a, lo, hi) + UsedIn(free, a, lo, hi)
    ensures UsedIn(log + [u], a, lo, hi) == UsedIn(vetted, a, lo, hi) + UsedIn(free + [u], a, lo, hi)
  {
    UsedInAppend(log, u, a, lo, hi);
    UsedInAppend(vetted, u, a, lo, hi);
    UsedInAppend(free, u, a, lo, hi);
    hide UsedIn;
  }

  // A window that is open now holds no more than the open-ended one; others do not change.
  lemma RecordKeepsWindow(log: seq<Usage>, u: Usage, actor: Actor, window: int, t: Time, b: nat)
    requires WindowUse(log, actor, window, t) <= b && Used(log + [u], actor, u.at - window) <= b
    ensures WindowUse(log + [u], actor, window, t) <= b
  {
    UsedInAppend(log, u, actor, t - window, t);
    if t - window < u.at <= t { WindowMonotone(log + [u], actor, u.at - window, t - window, t); }
    hide Used, UsedIn;
  }

  lemma SmallKeeps(cfg: Config, s: State, l: Label, actor: Actor, m: nat)
    requires l.Record? && Enabled(s, l) && SmallRecords(s, actor, m)
    ensures SmallRecords(Apply(cfg, s, l), actor, m)
  {
    RecordFrame(cfg, s, l);
    assert s.calls[l.call].actor == actor ==> RowOf(s, l.call).tokens <= m;
    hide Apply, RowOf;
  }

  lemma WindowsKeep(log: seq<Usage>, u: Usage, actor: Actor, window: int, b: nat)
    requires (forall t :: WindowUse(log, actor, window, t) <= b) && Used(log + [u], actor, u.at - window) <= b
    ensures forall t :: WindowUse(log + [u], actor, window, t) <= b
  {
    hide Used, WindowUse;
    forall t ensures WindowUse(log + [u], actor, window, t) <= b { RecordKeepsWindow(log, u, actor, window, t, b); }
  }

  lemma RecordWindows(cfg: Config, s: State, l: Label, actor: Actor, m: nat, b: nat)
    requires l.Record? && Enabled(s, l) && Inv(cfg, s, actor, m, b)
    ensures forall t :: WindowUse(Apply(cfg, s, l).vetted, actor, cfg.window, t) <= b
  {
    hide Used, WindowUse, Reserved, Split, SmallRecords;
    RecordMovesShare(cfg, s, l, actor, m, b);
    RecordFrame(cfg, s, l);
    var u := RowOf(s, l.call);
    assert u.at == s.now;
    hide Apply, RowOf;
    if s.calls[l.call].vetted { WindowsKeep(s.vetted, u, actor, cfg.window, b); }
  }

  lemma RecordSplits(cfg: Config, s: State, l: Label)
    requires l.Record? && Enabled(s, l) && Split(s)
    ensures Split(Apply(cfg, s, l))
  {
    RecordFrame(cfg, s, l);
    SplitKeeps(s, Apply(cfg, s, l), RowOf(s, l.call), s.calls[l.call].vetted);
    hide Split, RowOf;
  }

  lemma RecordKeeps(cfg: Config, s: State, l: Label, actor: Actor, m: nat, b: nat)
    requires l.Record? && Enabled(s, l) && Inv(cfg, s, actor, m, b)
    ensures Inv(cfg, Apply(cfg, s, l), actor, m, b)
  {
    hide Used, WindowUse, Reserved, Split, SmallRecords;
    RecordMovesShare(cfg, s, l, actor, m, b);
    RecordWindows(cfg, s, l, actor, m, b);
    RecordSplits(cfg, s, l);
    SmallKeeps(cfg, s, l, actor, m);
    RecordFrame(cfg, s, l);
    hide Apply, Enabled, RowOf;
  }

  lemma NonNegative(a: nat, b: nat)
    ensures a * b >= 0
  {
  }

  lemma OtherShares(cfg: Config, s: State, l: Label, actor: Actor, m: nat)
    requires !l.Check? && !l.Record? && Enabled(s, l)
    ensures Reserved(Apply(cfg, s, l), actor, m) <= Reserved(s, actor, m)
  {
    var s' := Apply(cfg, s, l);
    if l.Fail? || l.RecordLost? {
      DropCall(s, s', l.call, actor, m);
    } else {
      assert Unrecorded(s', actor) == Unrecorded(s, actor);
    }
    hide Unrecorded;
  }

  lemma OtherSmall(cfg: Config, s: State, l: Label, actor: Actor, m: nat)
    requires !l.Check? && !l.Record? && Enabled(s, l) && SmallRecords(s, actor, m)
    requires l.Answer? && s.calls[l.call].actor == actor ==> Min(l.tokens, I32_MAX) <= m
    ensures SmallRecords(Apply(cfg, s, l), actor, m)
  {
  }

  lemma OtherKeeps(cfg: Config, s: State, l: Label, actor: Actor, m: nat, b: nat)
    requires !l.Check? && !l.Record? && Enabled(s, l) && Inv(cfg, s, actor, m, b)
    requires l.Answer? && s.calls[l.call].actor == actor ==> Min(l.tokens, I32_MAX) <= m
    ensures Inv(cfg, Apply(cfg, s, l), actor, m, b)
  {
    hide Used, UsedIn, WindowUse, Reserved, SmallRecords;
    var s' := Apply(cfg, s, l);
    OtherShares(cfg, s, l, actor, m);
    OtherSmall(cfg, s, l, actor, m);
    WindowMonotone(s.vetted, actor, s.now - cfg.window, s'.now - cfg.window, 0);
    assert Split(s');
    hide Split;
  }

  lemma Begins(cfg: Config, trace: seq<State>, labels: seq<Label>, actor: Actor, k: nat, m: nat)
    requires IsRun(cfg, trace, labels)
    ensures Inv(cfg, trace[0], actor, m, Bound(cfg, k, m))
  {
    assert Unrecorded(trace[0], actor) == {};
    NonNegative(k, m);
  }

  lemma StepKeeps(cfg: Config, trace: seq<State>, labels: seq<Label>, actor: Actor, k: nat, m: nat, i: nat)
    requires cfg.Valid() && cfg.enabled && IsRun(cfg, trace, labels) && i < |labels|
    requires OverlapAtMost(trace, actor, k) && RecordsAtMost(trace, labels, actor, m)
    requires Inv(cfg, trace[i], actor, m, Bound(cfg, k, m))
    ensures Inv(cfg, trace[i + 1], actor, m, Bound(cfg, k, m))
  {
    hide Inv, Bound, Unrecorded;
    var s, l := trace[i], labels[i];
    assert Enabled(s, l) && trace[i + 1] == Apply(cfg, s, l);
    assert l.Answer? && s.calls[l.call].actor == actor ==> AnswersFor(s, l, actor);
    hide Apply;
    if l.Check? { CheckKeeps(cfg, s, l, actor, k, m); }
    else if l.Record? { RecordKeeps(cfg, s, l, actor, m, Bound(cfg, k, m)); }
    else { OtherKeeps(cfg, s, l, actor, m, Bound(cfg, k, m)); }
  }

  lemma {:induction false} RunKeeps(cfg: Config, trace: seq<State>, labels: seq<Label>, actor: Actor, k: nat, m: nat,
      i: nat)
    requires cfg.Valid() && cfg.enabled && IsRun(cfg, trace, labels) && i < |trace|
    requires OverlapAtMost(trace, actor, k) && RecordsAtMost(trace, labels, actor, m)
    ensures Inv(cfg, trace[i], actor, m, Bound(cfg, k, m))
  {
    hide Inv, Bound;
    if i == 0 {
      Begins(cfg, trace, labels, actor, k, m);
    } else {
      RunKeeps(cfg, trace, labels, actor, k, m, i - 1);
      StepKeeps(cfg, trace, labels, actor, k, m, i - 1);
    }
  }

  lemma {:induction false} RowsBound(log: seq<Usage>, actor: Actor, lo: Time, hi: Time, m: nat)
    requires forall u :: u in log && u.actor == actor ==> u.tokens <= m
    ensures UsedIn(log, actor, lo, hi) <= Rows(log, actor, lo, hi) * m
  {
    if log == [] {
      MulZero(m);
    } else {
      var rest := log[..|log| - 1];
      assert log[|log| - 1] in log && forall u :: u in rest ==> u in log;
      RowsBound(rest, actor, lo, hi, m);
      Scale(Rows(rest, actor, lo, hi), Rows(log, actor, lo, hi), m);
    }
  }

  /** With at most k calls at a time that passed their check and are not recorded,
      each recording at most m tokens, no rolling window of any run holds more than
      cap - 1 + k * m tokens (none, for cap or k 0) beside those of calls whose check
      errored and that were recorded within that very window, m at most for each. */
  lemma OvershootBound(cfg: Config, trace: seq<State>, labels: seq<Label>, actor: Actor, k: nat, m: nat, i: nat,
      t: Time)
    requires cfg.Valid() && cfg.enabled && IsRun(cfg, trace, labels) && i < |trace|
    requires OverlapAtMost(trace, actor, k) && RecordsAtMost(trace, labels, actor, m)
    ensures var lo, free := t - cfg.window, trace[i].free;
      && WindowUse(trace[i].log, actor, cfg.window, t) <= Bound(cfg, k, m) + UsedIn(free, actor, lo, t)
      && UsedIn(free, actor, lo, t) <= Rows(free, actor, lo, t) * m
  {
    RunKeeps(cfg, trace, labels, actor, k, m, i);
    hide Used, UsedIn, Rows, Bound, Unrecorded;
    RowsBound(trace[i].free, actor, t - cfg.window, t, m);
    assert WindowUse(trace[i].vetted, actor, cfg.window, t) <= Bound(cfg, k, m);
  }

  /** The table's column type bounds every record, whatever the provider says. */
  lemma OvershootBoundUnconditional(cfg: Config, trace: seq<State>, labels: seq<Label>, actor: Actor, k: nat, i: nat,
      t: Time)
    requires cfg.Valid() && cfg.enabled && IsRun(cfg, trace, labels) && i < |trace|
    requires OverlapAtMost(trace, actor, k)
    ensures WindowUse(trace[i].log, actor, cfg.window, t) <=
      Bound(cfg, k, I32_MAX) + Rows(trace[i].free, actor, t - cfg.window, t) * I32_MAX
  {
    OvershootBound(cfg, trace, labels, actor, k, I32_MAX, i, t);
  }

  // ---- The bound is attained ----

  // A run of one actor at instant 0, within the overlap and record limits.
  ghost predicate Witness(cfg: Config, trace: seq<State>, labels: seq<Label>, actor: Actor, k: nat, m: nat) {
    && IsRun(cfg, trace, labels) && OverlapAtMost(trace, actor, k) && RecordsAtMost(trace, labels, actor, m)
    && Last(trace).now == 0
    && forall u :: u in Last(trace).log ==> u.at == 0
  }

  ghost function Last(trace: seq<State>): State
    requires |trace| > 0
  {
    trace[|trace| - 1]
  }

  lemma Push(cfg: Config, trace: seq<State>, labels: seq<Label>, actor: Actor, k: nat, m: nat, l: Label)
    returns (trace': seq<State>, labels': seq<Label>)
    requires Witness(cfg, trace, labels, actor, k, m) && Enabled(Last(trace), l) && !l.Tick?
    requires l.Answer? ==> l.tokens <= m
    requires |Unrecorded(Apply(cfg, Last(trace), l), actor)| <= k
    ensures Witness(cfg, trace', labels', actor, k, m)
    ensures Last(trace') == Apply(cfg, Last(trace), l)
  {
    trace', labels' := trace + [Apply(cfg, Last(trace), l)], labels + [l];
    forall i | 0 <= i < |labels'| && AnswersFor(trace'[i], labels'[i], actor)
      ensures Min(labels'[i].tokens, I32_MAX) <= m {
      if i < |labels| { assert AnswersFor(trace[i], labels[i], actor); }
    }
  }

  // One call alone, from its check to its record.
  lemma CallAlone(cfg: Config, trace: seq<State>, labels: seq<Label>, actor: Actor, k: nat, m: nat, x: nat, free: bool)
    returns (trace': seq<State>, labels': seq<Label>)
    requires cfg.Valid() && cfg.enabled && x <= m <= I32_MAX
    requires Witness(cfg, trace, labels, actor, k, m) && Last(trace).calls == map[]
    requires free || (k > 0 && Used(Last(trace).log, actor, -cfg.window) < cfg.cap)
    ensures Witness(cfg, trace', labels', actor, k, m)
    ensures var s, u := Last(trace), Usage(actor, 0, x);
      Last(trace') == State(0, s.log + [u], map[], if free then s.vetted else s.vetted + [u],
                            if free then s.free + [u] else s.free)
  {
    var s, call := Last(trace), Call(actor, !free, Admitted);
    assert s.now == 0;
    hide Witness, Used, Last;
    OnlyCall(s.(calls := map[0 := call]), actor);
    OnlyCall(s.(calls := map[0 := call.(phase := Answered(x))]), actor);
    trace', labels' := Push(cfg, trace, labels, actor, k, m, Check(0, actor, free));
    assert Last(trace') == s.(calls := map[0 := call]);
    assert map[0 := call][0 := call.(phase := Answered(x))] == map[0 := call.(phase := Answered(x))];
    trace', labels' := Push(cfg, trace', labels', actor, k, m, Answer(0, x));
    var last := Last(trace');
    assert last == s.(calls := map[0 := call.(phase := Answered(x))]);
    assert last.calls - {0} == map[];
    NoCall(Apply(cfg, last, Record(0)), actor);
    trace', labels' := Push(cfg, trace', labels', actor, k, m, Record(0));
  }

  lemma OnlyCall(s: State, actor: Actor)
    requires s.calls.Keys == {0} && s.calls[0].actor == actor
    ensures |Unrecorded(s, actor)| == if s.calls[0].vetted then 1 else 0
  {
    assert Unrecorded(s, actor) == if s.calls[0].vetted then {0} else {};
  }

  lemma NoCall(s: State, actor: Actor)
    requires s.calls == map[]
    ensures |Unrecorded(s, actor)| == 0
  {
    assert Unrecorded(s, actor) == {};
  }

  lemma NothingYet(cfg: Config, actor: Actor, k: nat, m: nat) returns (trace: seq<State>, labels: seq<Label>)
    ensures Witness(cfg, trace, labels, actor, k, m) && Last(trace) == State(0, [], map[], [], [])
  {
    trace, labels := [State(0, [], map[], [], [])], [];
    NoCall(trace[0], actor);
  }

  // One call at a time records n more tokens while the log is under the cap.
  lemma {:induction false} Fill(cfg: Config, actor: Actor, k: nat, m: nat, n: nat)
    returns (trace: seq<State>, labels: seq<Label>)
    requires cfg.Valid() && cfg.enabled && n < cfg.cap && cfg.window > 0 && k > 0 && 0 < m <= I32_MAX
    ensures Witness(cfg, trace, labels, actor, k, m)
    ensures Last(trace).calls == map[] && Last(trace).free == [] && Used(Last(trace).log, actor, -cfg.window) == n
  {
    if n == 0 {
      trace, labels := NothingYet(cfg, actor, k, m);
      return;
    }
    hide Witness, Used;
    var x := Min(m, n);
    trace, labels := Fill(cfg, actor, k, m, n - x);
    UsedAppend(Last(trace).log, Usage(actor, 0, x), actor, -cfg.window);
    trace, labels := CallAlone(cfg, trace, labels, actor, k, m, x, false);
  }

  // Calls 0 to j - 1, admitted and not yet answered.
  ghost function Waiting(actor: Actor, j: nat): (calls: map<CallId, Call>)
    ensures forall c :: c in calls ==> c < j && calls[c].actor == actor && calls[c].vetted
  {
    if j == 0 then map[] else Waiting(actor, j - 1)[j - 1 := Call(actor, true, Admitted)]
  }

  lemma {:induction false} WaitingCount(s: State, actor: Actor, j: nat)
    requires s.calls == Waiting(actor, j)
    ensures |Unrecorded(s, actor)| == j
    decreases j
  {
    if j == 0 {
      assert Unrecorded(s, actor) == {};
    } else {
      var fewer := s.(calls := Waiting(actor, j - 1));
      WaitingCount(fewer, actor, j - 1);
      assert Unrecorded(s, actor) == Unrecorded(fewer, actor) + {j - 1};
    }
  }

  // j calls pass the check before any of them is recorded.
  lemma {:induction false} AdmitAll(cfg: Config, actor: Actor, k: nat, m: nat, j: nat)
    returns (trace: seq<State>, labels: seq<Label>)
    requires cfg.Valid() && cfg.enabled && 0 < cfg.cap && cfg.window > 0 && 0 < k && j <= k && 0 < m <= I32_MAX
    ensures Witness(cfg, trace, labels, actor, k, m)
    ensures Last(trace).calls == Waiting(actor, j) && Last(trace).free == []
    ensures Used(Last(trace).log, actor, -cfg.window) == cfg.cap - 1
  {
    if j == 0 {
      trace, labels := Fill(cfg, actor, k, m, cfg.cap - 1);
    } else {
      trace, labels := AdmitAll(cfg, actor, k, m, j - 1);
      var l := Check(j - 1, actor, false);
      assert Apply(cfg, Last(trace), l).calls == Waiting(actor, j);
      WaitingCount(Apply(cfg, Last(trace), l), actor, j);
      trace, labels := Push(cfg, trace, labels, actor, k, m, l);
    }
  }

  lemma {:induction false} RecordAll(cfg: Config, trace: seq<State>, labels: seq<Label>, actor: Actor, k: nat,
      m: nat, j: nat)
    returns (trace': seq<State>, labels': seq<Label>)
    requires Witness(cfg, trace, labels, actor, k, m) && cfg.window > 0 && j <= k && m <= I32_MAX
    requires Last(trace).calls == Waiting(actor, j)
    ensures Witness(cfg, trace', labels', actor, k, m)
    ensures Last(trace').calls == map[] && Last(trace').free == Last(trace).free
    ensures Used(Last(trace').log, actor, -cfg.window) == Used(Last(trace).log, actor, -cfg.window) + j * m
    decreases j
  {
    if j == 0 {
      MulZero(m);
      return trace, labels;
    }
    hide Witness, Used, Waiting;
    trace', labels' := RecordOne(cfg, trace, labels, actor, k, m, j);
    trace', labels' := RecordAll(cfg, trace', labels', actor, k, m, j - 1);
    Scale(j - 1, j, m);
  }

  lemma MulZero(m: nat)
    ensures 0 * m == 0
  {
  }

  // The last of j waiting calls is answered and recorded.
  lemma RecordOne(cfg: Config, trace: seq<State>, labels: seq<Label>, actor: Actor, k: nat, m: nat, j: nat)
    returns (trace': seq<State>, labels': seq<Label>)
    requires Witness(cfg, trace, labels, actor, k, m) && cfg.window > 0 && 0 < j <= k && m <= I32_MAX
    requires Last(trace).calls == Waiting(actor, j)
    ensures Witness(cfg, trace', labels', actor, k, m)
    ensures Last(trace').calls == Waiting(actor, j - 1) && Last(trace').free == Last(trace).free
    ensures Used(Last(trace').log, actor, -cfg.window) == Used(Last(trace).log, actor, -cfg.window) + m
  {
    var s := Last(trace);
    assert s.now == 0;
    hide Witness, Used;
    var answered := Apply(cfg, s, Answer(j - 1, m));
    var recorded := Apply(cfg, answered, Record(j - 1));
    WaitingCount(s, actor, j);
    assert Unrecorded(answered, actor) == Unrecorded(s, actor);
    trace', labels' := Push(cfg, trace, labels, actor, k, m, Answer(j - 1, m));
    assert recorded.calls == Waiting(actor, j - 1);
    WaitingCount(recorded, actor, j - 1);
    trace', labels' := Push(cfg, trace', labels', actor, k, m, Record(j - 1));
    UsedAppend(s.log, Usage(actor, 0, m), actor, -cfg.window);
  }

  // f more calls whose checks error, one at a time.
  lemma {:induction false} FreeAll(cfg: Config, trace: seq<State>, labels: seq<Label>, actor: Actor, k: nat, m: nat,
      f: nat)
    returns (trace': seq<State>, labels': seq<Label>)
    requires cfg.Valid() && cfg.enabled && cfg.window > 0 && m <= I32_MAX
    requires Witness(cfg, trace, labels, actor, k, m) && Last(trace).calls == map[] && Last(trace).free == []
    ensures Witness(cfg, trace', labels', actor, k, m) && Last(trace').calls == map[]
    ensures Rows(Last(trace').free, actor, -cfg.window, 0) == f
    ensures Used(Last(trace').log, actor, -cfg.window) == Used(Last(trace).log, actor, -cfg.window) + f * m
  {
    if f == 0 {
      MulZero(m);
      return trace, labels;
    }
    hide Witness, Used;
    trace', labels' := FreeAll(cfg, trace, labels, actor, k, m, f - 1);
    UsedAppend(Last(trace').log, Usage(actor, 0, m), actor, -cfg.window);
    assert (Last(trace').free + [Usage(actor, 0, m)])[..|Last(trace').free|] == Last(trace').free;
    trace', labels' := CallAlone(cfg, trace', labels', actor, k, m, m, true);
    Scale(f - 1, f, m);
  }

  lemma {:induction false} ClosedWindow(log: seq<Usage>, actor: Actor, lo: Time, hi: Time)
    requires forall u :: u in log ==> u.at <= hi
    ensures UsedIn(log, actor, lo, hi) == Used(log, actor, lo)
  {
    if log != [] {
      assert log[|log| - 1] in log;
      ClosedWindow(log[..|log| - 1], actor, lo, hi);
    }
  }

  /** No smaller bound holds: for every cap, overlap, record size and number f of
      calls whose check errored, some run fills a window to exactly the bound. */
  lemma OvershootIsTight(cfg: Config, actor: Actor, k: nat, m: nat, f: nat)
    returns (trace: seq<State>, labels: seq<Label>)
    requires cfg.Valid() && cfg.enabled && cfg.window > 0 && 0 < m <= I32_MAX
    ensures IsRun(cfg, trace, labels) && OverlapAtMost(trace, actor, k) && RecordsAtMost(trace, labels, actor, m)
    ensures Rows(Last(trace).free, actor, -cfg.window, 0) == f
    ensures WindowUse(Last(trace).log, actor, cfg.window, 0) == Bound(cfg, k, m) + f * m
  {
    trace, labels := NothingYet(cfg, actor, k, m);
    hide Used, UsedIn, Rows, Waiting, OverlapAtMost, RecordsAtMost;
    if cfg.cap > 0 && k > 0 {
      trace, labels := AdmitAll(cfg, actor, k, m, k);
      trace, labels := RecordAll(cfg, trace, labels, actor, k, m, k);
    } else {
      EmptyUse(actor, -cfg.window);
    }
    trace, labels := FreeAll(cfg, trace, labels, actor, k, m, f);
    ClosedWindow(Last(trace).log, actor, -cfg.window, 0);
  }

  lemma EmptyUse(actor: Actor, since: Time)
    ensures Used([], actor, since) == 0
  {
  }
}
