/**
 Validation of GitLab personal access tokens: a tombstone read, a bounded
 least-recently-used cache with a time to live, and GitLab itself behind it.
 Calls overlap; each database read, cache access and GitLab call is one step.
 */
module Passthrough {
  import opened Basics

  type Time = int
  type CallId = nat
  datatype User = User(id: int, login: string)

  // ---- The cache: most recently used entry first ----

  datatype Entry = Entry(key: string, user: User, at: Time)

  // Position of the entry for `key`, or the length when there is none.
  function IndexOf(entries: seq<Entry>, key: string): (i: nat)
    ensures i <= |entries|
    ensures i < |entries| ==> entries[i].key == key
    ensures forall j :: 0 <= j < i ==> entries[j].key != key
  {
    if entries == [] then 0
    else if entries[0].key == key then 0
    else 1 + IndexOf(entries[1..], key)
  }

  function Lookup(entries: seq<Entry>, key: string): Option<Entry> {
    var i := IndexOf(entries, key);
    if i < |entries| then Some(entries[i]) else None
  }

  function Drop(entries: seq<Entry>, key: string): seq<Entry> {
    var i := IndexOf(entries, key);
    if i < |entries| then entries[..i] + entries[i + 1..] else entries
  }

  // A read moves the entry to the front, expired or not.
  function Touch(entries: seq<Entry>, key: string): seq<Entry> {
    match Lookup(entries, key)
    case None => entries
    case Some(e) => [e] + Drop(entries, key)
  }

  // A write replaces the entry and evicts from the back.
  function Store(entries: seq<Entry>, e: Entry, cap: nat): seq<Entry> {
    var all := [e] + Drop(entries, e.key);
    if |all| <= cap then all else all[..cap]
  }

  // The first entry for `key` is at i; i is the length when there is none.
  ghost predicate FirstAt(entries: seq<Entry>, key: string, i: nat) {
    && i <= |entries| && (i < |entries| ==> entries[i].key == key)
    && forall j :: 0 <= j < i ==> entries[j].key != key
  }

  // The entries without the one at i, in the same order.
  ghost function Others(entries: seq<Entry>, i: nat): (rest: seq<Entry>)
    requires i <= |entries|
    ensures |rest| == if i < |entries| then |entries| - 1 else |entries|
    ensures forall j :: 0 <= j < |rest| ==> rest[j] == entries[if j < i then j else j + 1]
  {
    if i < |entries| then entries[..i] + entries[i + 1..] else entries
  }

  class LruCache {
    const cap: nat
    var entries: seq<Entry>

    constructor (cap: nat)
      ensures this.cap == cap && entries == []
    {
      this.cap := cap;
      entries := [];
    }

    method Find(key: string) returns (i: nat)
      ensures FirstAt(entries, key, i) && i == IndexOf(entries, key)
    {
      i := 0;
      while i < |entries| && entries[i].key != key
        invariant i <= |entries|
        invariant IndexOf(entries, key) == i + IndexOf(entries[i..], key)
      {
        assert entries[i..][1..] == entries[i + 1..];
        i := i + 1;
      }
    }

    method Get(key: string) returns (hit: Option<Entry>)
      modifies this
      ensures hit == Lookup(old(entries), key) && entries == Touch(old(entries), key)
      ensures forall i: nat :: FirstAt(old(entries), key, i) ==>
        if i < |old(entries)|
        then hit == Some(old(entries)[i]) && entries == [old(entries)[i]] + Others(old(entries), i)
        else hit == None && entries == old(entries)
    {
      var i := Find(key);
      if i == |entries| { return None; }
      hit := Some(entries[i]);
      entries := [entries[i]] + (entries[..i] + entries[i + 1..]);
    }

    method Put(key: string, user: User, at: Time)
      modifies this
      ensures entries == Store(old(entries), Entry(key, user, at), cap)
      ensures forall i: nat :: FirstAt(old(entries), key, i) ==>
        var all := [Entry(key, user, at)] + Others(old(entries), i);
        entries == if |all| <= cap then all else all[..cap]
    {
      var i := Find(key);
      if i < |entries| { entries := entries[..i] + entries[i + 1..]; }
      entries := [Entry(key, user, at)] + entries;
      if |entries| > cap { entries := entries[..cap]; }
    }
  }

  // ---- The cache against an unbounded map ----

  ghost predicate DistinctKeys(entries: seq<Entry>) {
    forall i, j :: 0 <= i < j < |entries| ==> entries[i].key != entries[j].key
  }

  ghost function Keys(entries: seq<Entry>): set<string> {
    set i | 0 <= i < |entries| :: entries[i].key
  }

  // `ideal` maps every key ever stored to its last entry.
  ghost predicate Mirrors(entries: seq<Entry>, ideal: map<string, Entry>, cap: nat) {
    && DistinctKeys(entries)
    && |entries| <= cap
    && (forall k :: k in ideal ==> ideal[k].key == k)
    && (forall e :: e in entries ==> e.key in ideal && ideal[e.key] == e)
    && (|ideal| <= cap ==> forall k :: k in ideal ==> ideal[k] in entries)
  }

  lemma {:induction false} KeyCount(entries: seq<Entry>)
    requires DistinctKeys(entries)
    ensures |Keys(entries)| == |entries|
  {
    if entries != [] {
      var n := |entries| - 1;
      KeyCount(entries[..n]);
      assert Keys(entries) == Keys(entries[..n]) + {entries[n].key};
      assert entries[n].key !in Keys(entries[..n]);
    }
  }

  lemma DropFacts(entries: seq<Entry>, key: string)
    requires DistinctKeys(entries)
    ensures DistinctKeys(Drop(entries, key)) && |Drop(entries, key)| <= |entries|
    ensures forall e :: e in Drop(entries, key) <==> e in entries && e.key != key
  {
    var i := IndexOf(entries, key);
    if i < |entries| {
      var d := Drop(entries, key);
      assert forall j :: 0 <= j < |d| ==> d[j] == entries[if j < i then j else j + 1];
      forall e | e in entries && e.key != key ensures e in d {
        var j :| 0 <= j < |entries| && entries[j] == e;
        assert d[if j < i then j else j - 1] == e;
      }
    }
  }

  lemma LookupFacts(entries: seq<Entry>, key: string)
    requires DistinctKeys(entries)
    ensures forall e :: e in entries && e.key == key ==> Lookup(entries, key) == Some(e)
    ensures Lookup(entries, key).Some? ==>
      Lookup(entries, key).value in entries && Lookup(entries, key).value.key == key
  {
  }

  lemma TouchMirrors(entries: seq<Entry>, ideal: map<string, Entry>, cap: nat, key: string)
    requires Mirrors(entries, ideal, cap)
    ensures Mirrors(Touch(entries, key), ideal, cap)
    ensures forall e :: e in Touch(entries, key) <==> e in entries
  {
    DropFacts(entries, key);
    LookupFacts(entries, key);
    var hit, rest := Lookup(entries, key), Drop(entries, key);
    if hit.Some? {
      assert |rest| == |entries| - 1;
      hide IndexOf, Lookup, Drop, Mirrors, DistinctKeys;
      var e := hit.value;
      FrontDistinct(e, rest);
      assert forall x :: x in [e] + rest <==> x == e || x in rest;
      SameEntriesMirror(entries, [e] + rest, ideal, cap);
    }
  }

  lemma SameEntriesMirror(entries: seq<Entry>, entries': seq<Entry>, ideal: map<string, Entry>, cap: nat)
    requires Mirrors(entries, ideal, cap) && DistinctKeys(entries') && |entries'| == |entries|
    requires forall e :: e in entries' <==> e in entries
    ensures Mirrors(entries', ideal, cap)
  {
  }

  // Putting an entry in front of the others, which do not have its key.
  lemma FrontDistinct(e: Entry, rest: seq<Entry>)
    requires DistinctKeys(rest) && forall x :: x in rest ==> x.key != e.key
    ensures DistinctKeys([e] + rest)
  {
  }

  // Keys of entries that all are in the map: no more than it has.
  lemma NoMoreThanIdeal(all: seq<Entry>, ideal: map<string, Entry>)
    requires DistinctKeys(all) && forall x :: x in all ==> x.key in ideal
    ensures |all| <= |ideal|
  {
    KeyCount(all);
    assert Keys(all) <= ideal.Keys;
    SubsetSize(Keys(all), ideal.Keys);
  }

  lemma StoreMirrors(entries: seq<Entry>, ideal: map<string, Entry>, cap: nat, e: Entry)
    requires Mirrors(entries, ideal, cap) && cap > 0
    ensures Mirrors(Store(entries, e, cap), ideal[e.key := e], cap)
  {
    var rest := Drop(entries, e.key);
    DropFacts(entries, e.key);
    hide Drop, IndexOf, Keys;
    var all, ideal' := [e] + rest, ideal[e.key := e];
    assert forall x :: x in all <==> x == e || x in rest;
    FrontDistinct(e, rest);
    NoMoreThanIdeal(all, ideal');
    assert |ideal| <= |ideal'| by { SubsetSize(ideal.Keys, ideal'.Keys); }
    StoredMirrors(all, ideal', cap);
  }

  // Evicting from the back keeps the mirror.
  lemma StoredMirrors(all: seq<Entry>, ideal: map<string, Entry>, cap: nat)
    requires DistinctKeys(all) && |all| <= |ideal| && (forall k :: k in ideal ==> ideal[k].key == k)
    requires forall x :: x in all ==> x.key in ideal && ideal[x.key] == x
    requires |ideal| <= cap ==> forall k :: k in ideal ==> ideal[k] in all
    ensures Mirrors(if |all| <= cap then all else all[..cap], ideal, cap)
  {
    if |all| > cap { assert forall x :: x in all[..cap] ==> x in all; }
  }

  // ---- Overlapping validations ----

  datatype Config = Config(ttl: Time, cap: nat, digest: string -> string) {
    predicate Valid() { ttl >= 0 && cap > 0 }

    // The tombstone key is shorter than the cache key, so tokens may share one.
    function Prefix(raw: string): string {
      var d := digest(raw);
      if |d| <= 16 then d else d[..16]
    }

    ghost predicate Injective() {
      forall x, y :: digest(x) == digest(y) ==> x == y
    }
  }

  const TOKEN_PREFIX := "glpat-"

  function StripPrefix(presented: string): Option<string> {
    if |presented| >= 6 && presented[..6] == TOKEN_PREFIX then Some(presented[6..]) else None
  }

  datatype Source = Fresh | Cached(at: Time)

  datatype Phase =
    | Starting
    | NotRevoked
    | Probing
    | Storing(user: User)
    | Done(result: Option<User>, source: Source, at: Time)

  // `revokedAtStart` and `readFailed` are history.
  datatype Call = Call(raw: string, began: Time, revokedAtStart: bool, readFailed: bool, phase: Phase)

  datatype ProbeOutcome = GitLabUser(id: Option<int>, login: string) | GitLabRejects | GitLabFails

  // A positive answer GitLab gave.
  datatype Answer = Answer(token: string, user: User, at: Time)

  datatype State = State(
    now: Time, tombs: set<string>, cache: seq<Entry>, calls: map<CallId, Call>,
    answers: seq<Answer>, ideal: map<string, Entry>)

  datatype Label =
    | Tick(now: Time)
    | Tombstone(prefix: string)
    | Begin(call: CallId, presented: string)
    | ReadTombstone(call: CallId, dbError: bool)
    | LookUp(call: CallId)
    | Probe(call: CallId, outcome: ProbeOutcome)
    | Finish(call: CallId)

  predicate Enabled(s: State, l: Label) {
    match l
    case Tick(now) => s.now <= now
    case Tombstone(_) => true
    case Begin(c, _) => c !in s.calls
    case ReadTombstone(c, _) => c in s.calls && s.calls[c].phase.Starting?
    case LookUp(c) => c in s.calls && s.calls[c].phase.NotRevoked?
    case Probe(c, _) => c in s.calls && s.calls[c].phase.Probing?
    case Finish(c) => c in s.calls && s.calls[c].phase.Storing?
  }

  function BeginCall(cfg: Config, s: State, presented: string): Call {
    match StripPrefix(presented)
    case None => Call("", s.now, false, false, Done(None, Fresh, s.now))
    case Some(raw) =>
      if raw == "" then Call("", s.now, false, false, Done(None, Fresh, s.now))
      else Call(raw, s.now, cfg.Prefix(raw) in s.tombs, false, Starting)
  }

  // What a lookup does with the entry it found.
  function AfterLookup(cfg: Config, hit: Option<Entry>, now: Time): Phase {
    if hit.Some? && now - hit.value.at < cfg.ttl
    then Done(Some(hit.value.user), Cached(hit.value.at), now)
    else Probing
  }

  function Apply(cfg: Config, s: State, l: Label): State
    requires Enabled(s, l)
  {
    match l
    case Tick(now) => s.(now := now)
    case Tombstone(prefix) => s.(tombs := s.tombs + {prefix})
    case Begin(c, presented) => s.(calls := s.calls[c := BeginCall(cfg, s, presented)])
    case ReadTombstone(c, dbError) =>
      var call := s.calls[c];
      var revoked := !dbError && cfg.Prefix(call.raw) in s.tombs;
      s.(calls := s.calls[c := call.(readFailed := dbError,
        phase := if revoked then Done(None, Fresh, s.now) else NotRevoked)])
    case LookUp(c) =>
      var key := cfg.digest(s.calls[c].raw);
      s.(cache := Touch(s.cache, key),
         calls := s.calls[c := s.calls[c].(phase := AfterLookup(cfg, Lookup(s.cache, key), s.now))])
    case Probe(c, o) =>
      var call := s.calls[c];
      if o.GitLabUser? && o.id.Some? then
        var user := User(o.id.value, o.login);
        s.(answers := s.answers + [Answer(call.raw, user, s.now)],
           calls := s.calls[c := call.(phase := Storing(user))])
      else
        s.(calls := s.calls[c := call.(phase := Done(None, Fresh, s.now))])
    case Finish(c) =>
      var call := s.calls[c];
      var e := Entry(cfg.digest(call.raw), call.phase.user, s.now);
      s.(cache := Store(s.cache, e, cfg.cap),
         ideal := s.ideal[e.key := e],
         calls := s.calls[c := call.(phase := Done(Some(call.phase.user), Fresh, s.now))])
  }

  ghost predicate IsRun(cfg: Config, trace: seq<State>, labels: seq<Label>) {
    && |trace| == |labels| + 1
    && trace[0].tombs == {} && trace[0].cache == [] && trace[0].calls == map[]
    && trace[0].answers == [] && trace[0].ideal == map[]
    && forall i :: 0 <= i < |labels| ==> Enabled(trace[i], labels[i]) && trace[i + 1] == Apply(cfg, trace[i], labels[i])
  }

  // GitLab named `user` for a token with this digest, between the two instants.
  ghost predicate Vouched(cfg: Config, answers: seq<Answer>, key: string, user: User, from: Option<Time>, to: Time) {
    exists j :: 0 <= j < |answers| && Vouches(cfg, answers[j], key, user, from, to)
  }

  ghost predicate Vouches(cfg: Config, a: Answer, key: string, user: User, from: Option<Time>, to: Time) {
    cfg.digest(a.token) == key && a.user == user && a.at <= to && (from.Some? ==> from.value <= a.at)
  }

  lemma VouchedGrows(cfg: Config, answers: seq<Answer>, a: Answer, key: string, user: User, from: Option<Time>,
      to: Time)
    requires Vouched(cfg, answers, key, user, from, to)
    ensures Vouched(cfg, answers + [a], key, user, from, to)
  {
    var j :| 0 <= j < |answers| && Vouches(cfg, answers[j], key, user, from, to);
    assert (answers + [a])[j] == answers[j];
  }

  ghost predicate CallOk(cfg: Config, s: State, call: Call) {
    var key := cfg.digest(call.raw);
    && call.began <= s.now
    && (call.raw == "" ==> call.phase.Done? && call.phase.result.None?)
    && (call.revokedAtStart ==> cfg.Prefix(call.raw) in s.tombs)
    && (call.revokedAtStart && !call.readFailed ==>
      call.phase.Starting? || (call.phase.Done? && call.phase.result.None?))
    && (call.phase.Storing? ==> Vouched(cfg, s.answers, key, call.phase.user, Some(call.began), s.now))
    && (call.phase.Done? && call.phase.result.Some? ==>
          match call.phase.source
          case Fresh => Vouched(cfg, s.answers, key, call.phase.result.value, Some(call.began), call.phase.at)
          case Cached(t) =>
            t <= call.phase.at < t + cfg.ttl && Vouched(cfg, s.answers, key, call.phase.result.value, None, t))
  }

  ghost predicate Inv(cfg: Config, s: State) {
    && Mirrors(s.cache, s.ideal, cfg.cap)
    && (forall k :: k in s.ideal ==>
      s.ideal[k].at <= s.now && Vouched(cfg, s.answers, k, s.ideal[k].user, None, s.ideal[k].at))
    && (forall c :: c in s.calls ==> CallOk(cfg, s, s.calls[c]))
  }

  lemma VouchedLater(cfg: Config, answers: seq<Answer>, key: string, user: User, from: Option<Time>, to: Time,
      from': Option<Time>, to': Time)
    requires Vouched(cfg, answers, key, user, from, to)
    requires to <= to' && (from'.None? || from' == from)
    ensures Vouched(cfg, answers, key, user, from', to')
  {
    var j :| 0 <= j < |answers| && Vouches(cfg, answers[j], key, user, from, to);
    assert Vouches(cfg, answers[j], key, user, from', to');
  }

  // A call that does not move stays in order while the rest of the state grows.
  lemma CallFrame(cfg: Config, s: State, s': State, call: Call)
    requires CallOk(cfg, s, call) && s.now <= s'.now && s.tombs <= s'.tombs
    requires s'.answers == s.answers || (|s'.answers| == |s.answers| + 1 && s'.answers[..|s.answers|] == s.answers)
    ensures CallOk(cfg, s', call)
  {
    var key := cfg.digest(call.raw);
    if s'.answers != s.answers {
      var a := s'.answers[|s.answers|];
      assert s'.answers == s.answers + [a];
      if call.phase.Storing? { VouchedGrows(cfg, s.answers, a, key, call.phase.user, Some(call.began), s.now); }
      if call.phase.Done? && call.phase.result.Some? {
        match call.phase.source
        case Fresh => VouchedGrows(cfg, s.answers, a, key, call.phase.result.value, Some(call.began), call.phase.at);
        case Cached(t) => VouchedGrows(cfg, s.answers, a, key, call.phase.result.value, None, t);
      }
    }
    if call.phase.Storing? {
      VouchedLater(cfg, s'.answers, key, call.phase.user, Some(call.began), s.now, Some(call.began), s'.now);
    }
  }

  lemma MovedCall(cfg: Config, s: State, l: Label)
    requires cfg.Valid() && Inv(cfg, s) && Enabled(s, l)
    requires l.Begin? || l.ReadTombstone? || l.LookUp? || l.Probe? || l.Finish?
    ensures l.call in Apply(cfg, s, l).calls && CallOk(cfg, Apply(cfg, s, l), Apply(cfg, s, l).calls[l.call])
  {
    var s' := Apply(cfg, s, l);
    var call' := s'.calls[l.call];
    if l.call in s.calls { assert CallOk(cfg, s, s.calls[l.call]); }
    var key := cfg.digest(call'.raw);
    if l.LookUp? {
      LookupFacts(s.cache, key);
    } else if l.Probe? && call'.phase.Storing? {
      assert Vouches(cfg, s'.answers[|s.answers|], key, call'.phase.user, Some(call'.began), s'.now);
    }
  }

  lemma CacheKeeps(cfg: Config, s: State, l: Label)
    requires cfg.Valid() && Inv(cfg, s) && Enabled(s, l)
    ensures Mirrors(Apply(cfg, s, l).cache, Apply(cfg, s, l).ideal, cfg.cap)
  {
    hide Mirrors, Store, Touch, CallOk, Vouched;
    if l.LookUp? {
      TouchMirrors(s.cache, s.ideal, cfg.cap, cfg.digest(s.calls[l.call].raw));
    } else if l.Finish? {
      var call := s.calls[l.call];
      StoreMirrors(s.cache, s.ideal, cfg.cap, Entry(cfg.digest(call.raw), call.phase.user, s.now));
    }
  }

  // Entries already stored stay vouched for.
  lemma OldEntryVouched(cfg: Config, s: State, l: Label, k: string)
    requires Enabled(s, l) && k in s.ideal && s.ideal[k].at <= s.now
    requires Vouched(cfg, s.answers, k, s.ideal[k].user, None, s.ideal[k].at)
    ensures s.now <= Apply(cfg, s, l).now
    ensures Vouched(cfg, Apply(cfg, s, l).answers, k, s.ideal[k].user, None, s.ideal[k].at)
  {
    hide Vouched;
    var s' := Apply(cfg, s, l);
    if s'.answers != s.answers {
      VouchedGrows(cfg, s.answers, s'.answers[|s.answers|], k, s.ideal[k].user, None, s.ideal[k].at);
    }
  }

  // The entry a finishing call stores was vouched for during the call.
  lemma NewEntryVouched(cfg: Config, s: State, l: Label)
    requires Inv(cfg, s) && Enabled(s, l) && l.Finish?
    ensures var call := s.calls[l.call];
      Vouched(cfg, s.answers, cfg.digest(call.raw), call.phase.user, None, s.now)
  {
    var call := s.calls[l.call];
    assert CallOk(cfg, s, call);
    VouchedLater(cfg, s.answers, cfg.digest(call.raw), call.phase.user, Some(call.began), s.now, None, s.now);
  }

  lemma IdealKeeps(cfg: Config, s: State, l: Label)
    requires cfg.Valid() && Inv(cfg, s) && Enabled(s, l)
    ensures var s' := Apply(cfg, s, l);
      && Mirrors(s'.cache, s'.ideal, cfg.cap)
      && forall k :: k in s'.ideal ==>
           s'.ideal[k].at <= s'.now && Vouched(cfg, s'.answers, k, s'.ideal[k].user, None, s'.ideal[k].at)
  {
    CacheKeeps(cfg, s, l);
    hide Mirrors, Vouched, CallOk;
    var s' := Apply(cfg, s, l);
    if l.Finish? { NewEntryVouched(cfg, s, l); }
    forall k | k in s'.ideal
      ensures s'.ideal[k].at <= s'.now && Vouched(cfg, s'.answers, k, s'.ideal[k].user, None, s'.ideal[k].at)
    {
      if k in s.ideal { OldEntryVouched(cfg, s, l, k); }
    }
  }

  lemma StepKeeps(cfg: Config, s: State, l: Label)
    requires cfg.Valid() && Inv(cfg, s) && Enabled(s, l)
    ensures Inv(cfg, Apply(cfg, s, l))
  {
    var s' := Apply(cfg, s, l);
    IdealKeeps(cfg, s, l);
    forall c | c in s'.calls ensures CallOk(cfg, s', s'.calls[c]) {
      if !l.Tick? && !l.Tombstone? && c == l.call {
        MovedCall(cfg, s, l);
      } else {
        assert s'.calls[c] == s.calls[c];
        CallFrame(cfg, s, s', s.calls[c]);
      }
    }
  }

  lemma {:induction false} RunKeeps(cfg: Config, trace: seq<State>, labels: seq<Label>, i: nat)
    requires cfg.Valid() && IsRun(cfg, trace, labels) && i < |trace|
    ensures Inv(cfg, trace[i])
  {
    if i > 0 {
      RunKeeps(cfg, trace, labels, i - 1);
      StepKeeps(cfg, trace[i - 1], labels[i - 1]);
    }
  }

  // ---- Main results ----

  // GitLab gave this answer for this very token: during the call, or before the
  // entry was cached, less than the time to live before the reply.
  ghost predicate Genuine(cfg: Config, s: State, call: Call, user: User) {
    exists j :: 0 <= j < |s.answers| && JustifiedBy(cfg, s.answers[j], call, user)
  }

  ghost predicate JustifiedBy(cfg: Config, a: Answer, call: Call, user: User) {
    && call.phase.Done? && a.token == call.raw && a.user == user
    && match call.phase.source
       case Fresh => call.began <= a.at <= call.phase.at
       case Cached(t) => a.at <= t <= call.phase.at < t + cfg.ttl
  }

  /** Every accepted token was accepted by GitLab for that same token, no staler
      than the time to live; with a zero time to live, by a probe of this call. */
  lemma AcceptedIsGenuine(cfg: Config, trace: seq<State>, labels: seq<Label>, i: nat, c: CallId)
    requires cfg.Valid() && cfg.Injective() && IsRun(cfg, trace, labels) && i < |trace|
    requires c in trace[i].calls && trace[i].calls[c].phase.Done? && trace[i].calls[c].phase.result.Some?
    ensures Genuine(cfg, trace[i], trace[i].calls[c], trace[i].calls[c].phase.result.value)
    ensures cfg.ttl == 0 ==> trace[i].calls[c].phase.source == Fresh
  {
    RunKeeps(cfg, trace, labels, i);
    var s, call := trace[i], trace[i].calls[c];
    var key, user := cfg.digest(call.raw), call.phase.result.value;
    assert CallOk(cfg, s, call);
    var from := if call.phase.source.Fresh? then Some(call.began) else None;
    var to := if call.phase.source.Fresh? then call.phase.at else call.phase.source.at;
    var j :| 0 <= j < |s.answers| && Vouches(cfg, s.answers[j], key, user, from, to);
    assert JustifiedBy(cfg, s.answers[j], call, user);
  }

  // "glpat-" and a secret after it.
  predicate WellFormed(presented: string) { |presented| > 6 && presented[..6] == "glpat-" }

  // The first sixteen characters of the token's digest have been tombstoned.
  predicate Tombstoned(cfg: Config, tombs: set<string>, raw: string) {
    cfg.digest(raw)[..Min(|cfg.digest(raw)|, 16)] in tombs
  }

  lemma TokenForms(cfg: Config, tombs: set<string>, presented: string, raw: string)
    ensures WellFormed(presented) <==> StripPrefix(presented).Some? && StripPrefix(presented).value != ""
    ensures WellFormed(presented) ==> StripPrefix(presented) == Some(presented[6..])
    ensures Tombstoned(cfg, tombs, raw) <==> cfg.Prefix(raw) in tombs
  {
    var d := cfg.digest(raw);
    assert |d| <= 16 ==> d[..|d|] == d;
  }

  // This step refuses call c: its token is malformed, a tombstone is found, or GitLab
  // rejects the token, fails, or names no id.
  predicate Refuses(cfg: Config, s: State, l: Label, c: CallId)
    requires Enabled(s, l)
  {
    match l
    case Begin(d, presented) => d == c && !WellFormed(presented)
    case ReadTombstone(d, dbError) => d == c && !dbError && Tombstoned(cfg, s.tombs, s.calls[c].raw)
    case Probe(d, o) => d == c && !(o.GitLabUser? && o.id.Some?)
    case _ => false
  }

  ghost predicate RefusedAt(cfg: Config, trace: seq<State>, labels: seq<Label>, k: nat, i: nat, c: CallId)
    requires IsRun(cfg, trace, labels) && i < |trace|
  {
    k < i && Refuses(cfg, trace[k], labels[k], c)
  }

  // Only a refusal ends a call without a user, and nothing undoes it.
  lemma RefusalStep(cfg: Config, s: State, l: Label, c: CallId)
    requires Enabled(s, l) && c in Apply(cfg, s, l).calls
    ensures var phase := Apply(cfg, s, l).calls[c].phase;
      phase.Done? && phase.result.None? <==>
        Refuses(cfg, s, l, c) || (c in s.calls && s.calls[c].phase.Done? && s.calls[c].phase.result.None?)
  {
    TokenForms(cfg, s.tombs, if l.Begin? then l.presented else "", if c in s.calls then s.calls[c].raw else "");
    hide StripPrefix, WellFormed, Tombstoned, Config.Prefix, Touch, Store;
  }

  /** The other half: a call ends without a user exactly when one of its own steps
      met a malformed token, a tombstone, or a refusal or failure of GitLab. */
  lemma {:induction false} RejectedExactly(cfg: Config, trace: seq<State>, labels: seq<Label>, i: nat, c: CallId)
    requires IsRun(cfg, trace, labels) && i < |trace| && c in trace[i].calls
    ensures trace[i].calls[c].phase.Done? && trace[i].calls[c].phase.result.None? <==>
      exists k: nat :: RefusedAt(cfg, trace, labels, k, i, c)
  {
    var h := i - 1;
    RefusalStep(cfg, trace[h], labels[h], c);
    if c in trace[h].calls {
      RejectedExactly(cfg, trace, labels, h, c);
      if k: nat :| RefusedAt(cfg, trace, labels, k, h, c) { assert RefusedAt(cfg, trace, labels, k, i, c); }
    } else {
      NotBegun(cfg, trace, labels, h, c);
    }
    if Refuses(cfg, trace[h], labels[h], c) { assert RefusedAt(cfg, trace, labels, h, i, c); }
    if k: nat :| RefusedAt(cfg, trace, labels, k, i, c) { assert k == h || RefusedAt(cfg, trace, labels, k, h, c); }
  }

  lemma {:induction false} NotBegun(cfg: Config, trace: seq<State>, labels: seq<Label>, i: nat, c: CallId)
    requires IsRun(cfg, trace, labels) && i < |trace| && c !in trace[i].calls
    ensures forall k: nat :: !RefusedAt(cfg, trace, labels, k, i, c)
  {
    if i > 0 {
      var h := i - 1;
      assert Enabled(trace[h], labels[h]) && trace[i] == Apply(cfg, trace[h], labels[h]);
      NotBegun(cfg, trace, labels, h, c);
      assert forall k: nat :: RefusedAt(cfg, trace, labels, k, i, c) ==>
        k == h || RefusedAt(cfg, trace, labels, k, h, c);
    }
  }

  // ---- What ends a call with a user ----

  lemma BeginStep(cfg: Config, s: State, l: Label)
    requires l.Begin? && Enabled(s, l)
    ensures l.call in Apply(cfg, s, l).calls
    ensures var call := Apply(cfg, s, l).calls[l.call];
      if WellFormed(l.presented)
      then "glpat-" + call.raw == l.presented && call.raw != "" && call.began == s.now && call.phase == Starting
      else call.phase == Done(None, Fresh, s.now) && call.raw == ""
  {
  }

  /** A lookup that finds the token's entry younger than the time to live ends the
      call with that entry's user; every other lookup sends it on to GitLab. */
  lemma CacheDecides(cfg: Config, trace: seq<State>, labels: seq<Label>, i: nat, c: CallId)
    requires cfg.Valid() && IsRun(cfg, trace, labels) && i < |labels| && labels[i] == LookUp(c)
    ensures c in trace[i].calls && c in trace[i + 1].calls
    ensures var s, next := trace[i], trace[i + 1].calls[c].phase;
      var key := cfg.digest(s.calls[c].raw);
      && (forall e :: e in s.cache && e.key == key && s.now - e.at < cfg.ttl ==>
            next == Done(Some(e.user), Cached(e.at), s.now))
      && ((forall e :: e in s.cache && e.key == key ==> s.now - e.at >= cfg.ttl) ==> next == Probing)
  {
    RunKeeps(cfg, trace, labels, i);
    assert Enabled(trace[i], labels[i]) && trace[i + 1] == Apply(cfg, trace[i], labels[i]);
    LookupFacts(trace[i].cache, cfg.digest(trace[i].calls[c].raw));
    hide CallOk, Vouched, Touch;
  }

  // The phase of a call after one step, by what the step found.
  lemma PhaseStep(cfg: Config, s: State, l: Label, c: CallId)
    requires Enabled(s, l) && c in Apply(cfg, s, l).calls
    ensures var phase := Apply(cfg, s, l).calls[c].phase;
      && (phase.Storing? ==>
            if l.Probe? && l.call == c
            then
              && l.outcome == GitLabUser(Some(phase.user.id), phase.user.login)
              && c in s.calls && s.calls[c].phase.Probing?
            else c in s.calls && s.calls[c].phase == phase)
      && (phase.Done? && phase.result.Some? && !(c in s.calls && s.calls[c].phase == phase) ==>
            c in s.calls &&
            phase.at == s.now &&
            if phase.source.Fresh? then l == Finish(c) && s.calls[c].phase == Storing(phase.result.value)
            else l == LookUp(c))
  {
  }

  // Step k was GitLab naming this user for this call's token.
  ghost predicate NamedAt(trace: seq<State>, labels: seq<Label>, k: nat, d: CallId, raw: string, user: User)
    requires |trace| == |labels| + 1
  {
    && k < |labels| && labels[k] == Probe(d, GitLabUser(Some(user.id), user.login))
    && d in trace[k].calls && trace[k].calls[d].raw == raw
  }

  lemma AnswerStep(cfg: Config, s: State, l: Label)
    requires Enabled(s, l)
    ensures var answers := Apply(cfg, s, l).answers;
      if answers == s.answers then true else
      && l.Probe? && l.outcome.GitLabUser? && l.outcome.id.Some?
      && answers == s.answers + [Answer(s.calls[l.call].raw, User(l.outcome.id.value, l.outcome.login), s.now)]
  {
  }

  /** Every recorded answer is a step in which GitLab named that user, by id and
      login, for that token at that instant. */
  lemma {:induction false} AnswersAreProbes(cfg: Config, trace: seq<State>, labels: seq<Label>, i: nat, j: nat)
    returns (k: nat, d: CallId)
    requires IsRun(cfg, trace, labels) && i < |trace| && j < |trace[i].answers|
    ensures k < i && NamedAt(trace, labels, k, d, trace[i].answers[j].token, trace[i].answers[j].user)
    ensures trace[k].now == trace[i].answers[j].at
  {
    hide Apply, Enabled;
    assert i > 0;
    var h := i - 1;
    assert Enabled(trace[h], labels[h]) && trace[i] == Apply(cfg, trace[h], labels[h]);
    AnswerStep(cfg, trace[h], labels[h]);
    if j < |trace[h].answers| {
      k, d := AnswersAreProbes(cfg, trace, labels, h, j);
    } else {
      k, d := h, labels[h].call;
      ProbesOwn(trace[h], labels[h]);
    }
  }

  lemma ProbesOwn(s: State, l: Label)
    requires l.Probe? && Enabled(s, l)
    ensures l.call in s.calls
  {
  }

  /** An accepted token names the user GitLab named for this very token, in the call's
      own probe or in one whose answer was cached within the time to live. */
  lemma AcceptedWasNamed(cfg: Config, trace: seq<State>, labels: seq<Label>, i: nat, c: CallId)
    returns (k: nat, d: CallId)
    requires cfg.Valid() && cfg.Injective() && IsRun(cfg, trace, labels) && i < |trace|
    requires c in trace[i].calls && trace[i].calls[c].phase.Done? && trace[i].calls[c].phase.result.Some?
    ensures var call := trace[i].calls[c];
      && k < i && NamedAt(trace, labels, k, d, call.raw, call.phase.result.value)
      && trace[k].now <= call.phase.at
      && (call.phase.source.Fresh? ==> call.began <= trace[k].now)
      && (call.phase.source.Cached? ==>
           trace[k].now <= call.phase.source.at <= call.phase.at < call.phase.source.at + cfg.ttl)
  {
    AcceptedIsGenuine(cfg, trace, labels, i, c);
    var call := trace[i].calls[c];
    var j :| 0 <= j < |trace[i].answers| && JustifiedBy(cfg, trace[i].answers[j], call, call.phase.result.value);
    k, d := AnswersAreProbes(cfg, trace, labels, i, j);
  }

  // The last store under this key before step i was that of call d at step j.
  ghost predicate LastStore(cfg: Config, trace: seq<State>, labels: seq<Label>, i: nat, key: string, j: nat, d: CallId)
    requires IsRun(cfg, trace, labels) && i < |trace|
  {
    && j < i && labels[j] == Finish(d) && d in trace[j].calls && cfg.digest(trace[j].calls[d].raw) == key
    && forall h :: j < h < i && labels[h].Finish? && labels[h].call in trace[h].calls ==>
         cfg.digest(trace[h].calls[labels[h].call].raw) != key
  }

  lemma IdealStep(cfg: Config, s: State, l: Label, key: string)
    requires Enabled(s, l)
    ensures var ideal := Apply(cfg, s, l).ideal;
      if l.Finish? && l.call in s.calls && cfg.digest(s.calls[l.call].raw) == key
      then s.calls[l.call].phase.Storing? && key in ideal && ideal[key] == Entry(key, s.calls[l.call].phase.user, s.now)
      else (key in ideal <==> key in s.ideal) && (key in ideal ==> ideal[key] == s.ideal[key])
  {
  }

  /** The unbounded map holds what the last completed probe of each token stored. */
  lemma {:induction false} IdealIsLastStore(cfg: Config, trace: seq<State>, labels: seq<Label>, i: nat, key: string)
    requires IsRun(cfg, trace, labels) && i < |trace|
    ensures key in trace[i].ideal <==> exists j: nat, d :: LastStore(cfg, trace, labels, i, key, j, d)
    ensures forall j: nat, d :: LastStore(cfg, trace, labels, i, key, j, d) ==>
      && trace[j].calls[d].phase.Storing? && key in trace[i].ideal
      && trace[i].ideal[key] == Entry(key, trace[j].calls[d].phase.user, trace[j].now)
  {
    hide Apply, Enabled;
    if i > 0 {
      var h := i - 1;
      assert Enabled(trace[h], labels[h]) && trace[i] == Apply(cfg, trace[h], labels[h]);
      IdealIsLastStore(cfg, trace, labels, h, key);
      IdealStep(cfg, trace[h], labels[h], key);
      var here := labels[h].Finish? && labels[h].call in trace[h].calls
        && cfg.digest(trace[h].calls[labels[h].call].raw) == key;
      if here { assert LastStore(cfg, trace, labels, i, key, h, labels[h].call); }
      forall j: nat, d | LastStore(cfg, trace, labels, i, key, j, d)
        ensures if here then j == h && d == labels[h].call else LastStore(cfg, trace, labels, h, key, j, d)
      {
      }
      if !here && key in trace[h].ideal {
        var j: nat, d :| LastStore(cfg, trace, labels, h, key, j, d);
        assert LastStore(cfg, trace, labels, i, key, j, d);
      }
    }
  }

  // What a call was born with never changes.
  lemma StepKeepsBirth(cfg: Config, s: State, l: Label, c: CallId)
    requires Enabled(s, l) && c in Apply(cfg, s, l).calls
    ensures var call := Apply(cfg, s, l).calls[c];
      if c in s.calls then call.raw == s.calls[c].raw && call.revokedAtStart == s.calls[c].revokedAtStart
      else call.raw != "" ==> call.revokedAtStart == (cfg.Prefix(call.raw) in s.tombs)
  {
  }

  lemma {:induction false} BornRevoked(cfg: Config, trace: seq<State>, labels: seq<Label>, i: nat, j: nat, c: CallId)
    requires IsRun(cfg, trace, labels) && i <= j < |trace|
    requires c !in trace[i].calls && c in trace[j].calls && trace[j].calls[c].raw != ""
    requires cfg.Prefix(trace[j].calls[c].raw) in trace[i].tombs
    ensures trace[j].calls[c].revokedAtStart
    decreases j
  {
    hide Apply, Enabled;
    StepKeepsBirth(cfg, trace[j - 1], labels[j - 1], c);
    if c in trace[j - 1].calls {
      BornRevoked(cfg, trace, labels, i, j - 1, c);
    } else {
      TombsGrow(cfg, trace, labels, i, j - 1);
    }
  }

  lemma StepKeepsTombs(cfg: Config, s: State, l: Label)
    requires Enabled(s, l)
    ensures s.tombs <= Apply(cfg, s, l).tombs
  {
  }

  lemma {:induction false} TombsGrow(cfg: Config, trace: seq<State>, labels: seq<Label>, i: nat, j: nat)
    requires IsRun(cfg, trace, labels) && i <= j < |trace|
    ensures trace[i].tombs <= trace[j].tombs
  {
    hide Apply, Enabled;
    if i < j {
      TombsGrow(cfg, trace, labels, i, j - 1);
      StepKeepsTombs(cfg, trace[j - 1], labels[j - 1]);
    }
  }

  /** A call that begins after its token was tombstoned never accepts it, cache or
      no cache, unless its tombstone read errored. */
  lemma TombstoneIsFinal(cfg: Config, trace: seq<State>, labels: seq<Label>, i: nat, j: nat, c: CallId)
    requires cfg.Valid() && IsRun(cfg, trace, labels) && i <= j < |trace|
    requires c !in trace[i].calls && c in trace[j].calls && cfg.Prefix(trace[j].calls[c].raw) in trace[i].tombs
    requires !trace[j].calls[c].readFailed
    ensures !(trace[j].calls[c].phase.Done? && trace[j].calls[c].phase.result.Some?)
  {
    RunKeeps(cfg, trace, labels, j);
    assert CallOk(cfg, trace[j], trace[j].calls[c]);
    if trace[j].calls[c].phase.Done? && trace[j].calls[c].phase.result.Some? {
      BornRevoked(cfg, trace, labels, i, j, c);
    }
  }

  /** The bounded cache accepts what an unbounded one would, with the same user, or
      sends the call to GitLab; it misses nothing while no more than `cap` tokens were
      stored. */
  lemma EvictionOnlyProbes(cfg: Config, trace: seq<State>, labels: seq<Label>, i: nat, c: CallId)
    requires cfg.Valid() && IsRun(cfg, trace, labels) && i < |trace| && Enabled(trace[i], LookUp(c))
    ensures var s := trace[i];
      var key := cfg.digest(s.calls[c].raw);
      var next := Apply(cfg, s, LookUp(c)).calls[c].phase;
      var held := key in s.ideal && s.now - s.ideal[key].at < cfg.ttl;
      && (next == Probing || (held && next == Done(Some(s.ideal[key].user), Cached(s.ideal[key].at), s.now)))
      && (|s.ideal| <= cfg.cap ==> (next == Probing <==> !held))
  {
    RunKeeps(cfg, trace, labels, i);
    var s := trace[i];
    LookupFacts(s.cache, cfg.digest(s.calls[c].raw));
  }

  /** The exception is real for every configuration: an errored tombstone read
      counts as "not revoked", and the revoked token is accepted. */
  lemma ErroredReadDefeatsTombstone(cfg: Config) returns (trace: seq<State>, labels: seq<Label>)
    requires cfg.Valid()
    ensures IsRun(cfg, trace, labels) && |trace| > 1
    ensures cfg.Prefix("s") in trace[1].tombs && 0 !in trace[1].calls
    ensures var s := trace[|trace| - 1];
      0 in s.calls && s.calls[0].raw == "s" && s.calls[0].readFailed &&
        s.calls[0].phase == Done(Some(User(1, "ann")), Fresh, 0)
  {
    var user, key := User(1, "ann"), cfg.digest("s");
    var tombs, e := {cfg.Prefix("s")}, Entry(key, user, 0);
    labels := [Tombstone(cfg.Prefix("s")), Begin(0, "glpat-s"), ReadTombstone(0, true), LookUp(0),
               Probe(0, GitLabUser(Some(1), "ann")), Finish(0)];
    trace := [
      State(0, {}, [], map[], [], map[]),
      State(0, tombs, [], map[], [], map[]),
      State(0, tombs, [], map[0 := Call("s", 0, true, false, Starting)], [], map[]),
      State(0, tombs, [], map[0 := Call("s", 0, true, true, NotRevoked)], [], map[]),
      State(0, tombs, [], map[0 := Call("s", 0, true, true, Probing)], [], map[]),
      State(0, tombs, [], map[0 := Call("s", 0, true, true, Storing(user))], [Answer("s", user, 0)], map[]),
      State(0, tombs, [e], map[0 := Call("s", 0, true, true, Done(Some(user), Fresh, 0))], [Answer("s", user, 0)],
        map[key := e])];
    assert StripPrefix("glpat-s") == Some("s");
    hide StripPrefix;
    forall i | 0 <= i < 6 ensures Enabled(trace[i], labels[i]) && trace[i + 1] == Apply(cfg, trace[i], labels[i]) {
      assert trace[i + 1].calls == Apply(cfg, trace[i], labels[i]).calls;
    }
  }

  // ---- One validation, start to finish ----

  // The next step of call c; a finished call stays put.
  function Advance(cfg: Config, s: State, c: CallId, dbError: bool, outcome: ProbeOutcome): State
    requires c in s.calls
  {
    match s.calls[c].phase
    case Starting => Apply(cfg, s, ReadTombstone(c, dbError))
    case NotRevoked => Apply(cfg, s, LookUp(c))
    case Probing => Apply(cfg, s, Probe(c, outcome))
    case Storing(_) => Apply(cfg, s, Finish(c))
    case Done(_, _, _) => s
  }

  ghost function Advances(cfg: Config, s: State, c: CallId, dbError: bool, outcome: ProbeOutcome, n: nat): (s': State)
    requires c in s.calls
    ensures c in s'.calls
    decreases n
  {
    if n == 0 then s else Advances(cfg, Advance(cfg, s, c, dbError, outcome), c, dbError, outcome, n - 1)
  }

  ghost predicate Ends(cfg: Config, s: State, c: CallId, dbError: bool, outcome: ProbeOutcome, n: nat,
      result: Option<User>, cache: seq<Entry>)
    requires c in s.calls
  {
    var t := Advances(cfg, s, c, dbError, outcome, n);
    t.calls[c].phase.Done? && t.calls[c].phase.result == result && t.cache == cache && t.tombs == s.tombs
  }

  lemma {:induction false} DoneStays(cfg: Config, s: State, c: CallId, dbError: bool, outcome: ProbeOutcome, n: nat)
    requires c in s.calls && s.calls[c].phase.Done?
    ensures Ends(cfg, s, c, dbError, outcome, n, s.calls[c].phase.result, s.cache)
  {
    if n > 0 { DoneStays(cfg, s, c, dbError, outcome, n - 1); }
  }

  lemma OneMoreStep(cfg: Config, s: State, c: CallId, dbError: bool, outcome: ProbeOutcome, n: nat,
      result: Option<User>, cache: seq<Entry>)
    requires c in s.calls && Ends(cfg, Advance(cfg, s, c, dbError, outcome), c, dbError, outcome, n, result, cache)
    ensures Ends(cfg, s, c, dbError, outcome, n + 1, result, cache)
  {
    assert Advance(cfg, s, c, dbError, outcome).tombs == s.tombs;
  }

  ghost function Upto(cap: nat, entries: seq<Entry>): seq<Entry> {
    if |entries| <= cap then entries else entries[..cap]
  }

  /** The reply for a token that may pass: the user of its entry while younger than the
      time to live, whatever GitLab would say, and otherwise the user GitLab names with
      an id.  The entry found moves to the front; GitLab's answer replaces it there and
      the last entries beyond the capacity go. */
  ghost predicate Answered(cfg: Config, before: seq<Entry>, key: string, outcome: ProbeOutcome, now: Time,
      user: Option<User>, after: seq<Entry>)
  {
    forall i: nat :: FirstAt(before, key, i) ==>
      if i < |before| && now - before[i].at < cfg.ttl
      then user == Some(before[i].user) && after == [before[i]] + Others(before, i)
      else if outcome.GitLabUser? && outcome.id.Some?
      then user == Some(User(outcome.id.value, outcome.login))
        && after == Upto(cfg.cap, [Entry(key, User(outcome.id.value, outcome.login), now)] + Others(before, i))
      else user == None && after == if i < |before| then [before[i]] + Others(before, i) else before
  }

  // The service's own fields: the tombstone table and the cache.
  class PassthroughStore {
    const cfg: Config
    const cache: LruCache
    var tombs: set<string>

    constructor (cfg: Config)
      ensures this.cfg == cfg && tombs == {} && fresh(cache) && cache.cap == cfg.cap && cache.entries == []
    {
      this.cfg := cfg;
      cache := new LruCache(cfg.cap);
      tombs := {};
    }

    ghost function View(now: Time, call: Call): State
      reads this, cache
    {
      State(now, tombs, cache.entries, map[0 := call], [], map[])
    }

    /** Run alone, the whole call is the machine's steps one after the other.  It accepts
        a well-formed token with no tombstone read, from the cache while its entry is
        younger than the time to live, and otherwise exactly as GitLab answers. */
    method Validate(presented: string, dbError: bool, outcome: ProbeOutcome, now: Time) returns (user: Option<User>)
      requires cache.cap == cfg.cap
      modifies cache
      ensures var s := old(View(now, BeginCall(cfg, State(now, tombs, cache.entries, map[], [], map[]), presented)));
        Ends(cfg, s, 0, dbError, outcome, 4, user, cache.entries)
      ensures
        if WellFormed(presented) && (dbError || !Tombstoned(cfg, tombs, presented[6..]))
        then Answered(cfg, old(cache.entries), cfg.digest(presented[6..]), outcome, now, user, cache.entries)
        else user == None && cache.entries == old(cache.entries)
    {
      ghost var s := View(now, BeginCall(cfg, State(now, tombs, cache.entries, map[], [], map[]), presented));
      var stripped := StripPrefix(presented);
      TokenForms(cfg, tombs, presented, if stripped.Some? then stripped.value else "");
      hide Ends, Answered, Tombstoned, WellFormed;
      if stripped.None? || stripped.value == "" {
        DoneStays(cfg, s, 0, dbError, outcome, 4);
        return None;
      }
      var raw := stripped.value;
      ghost var s1 := Advance(cfg, s, 0, dbError, outcome);
      var tombstoned := !dbError && cfg.Prefix(raw) in tombs;
      if tombstoned {
        user := None;
        DoneStays(cfg, s1, 0, dbError, outcome, 3);
      } else {
        user := LookUpOrAsk(raw, s1, dbError, outcome, now);
      }
      OneMoreStep(cfg, s, 0, dbError, outcome, 3, user, cache.entries);
    }

    // From the cache lookup on.
    method LookUpOrAsk(raw: string, ghost s: State, dbError: bool, outcome: ProbeOutcome, now: Time)
      returns (user: Option<User>)
      requires cache.cap == cfg.cap && 0 in s.calls && s.calls[0].raw == raw && s.calls[0].phase == NotRevoked
      requires s.now == now && s.tombs == tombs && s.cache == cache.entries
      modifies cache
      ensures Ends(cfg, s, 0, dbError, outcome, 3, user, cache.entries)
      ensures Answered(cfg, old(cache.entries), cfg.digest(raw), outcome, now, user, cache.entries)
    {
      ghost var s2 := Advance(cfg, s, 0, dbError, outcome);
      ghost var before, key := cache.entries, cfg.digest(raw);
      var hit := cache.Get(cfg.digest(raw));
      if hit.Some? && now - hit.value.at < cfg.ttl {
        user := Some(hit.value.user);
        DoneStays(cfg, s2, 0, dbError, outcome, 2);
      } else {
        ghost var touched := cache.entries;
        user := Ask(raw, s2, dbError, outcome, now);
        forall i: nat | FirstAt(before, key, i)
          ensures FirstAt(touched, key, if i < |before| then 0 else i)
          ensures Others(touched, if i < |before| then 0 else i) == Others(before, i)
        {
          if i < |before| { assert touched[1..] == Others(before, i); }
        }
      }
      OneMoreStep(cfg, s, 0, dbError, outcome, 2, user, cache.entries);
    }

    // The probe of GitLab, and the cache write after a positive answer.
    method Ask(raw: string, ghost s: State, dbError: bool, outcome: ProbeOutcome, now: Time)
      returns (user: Option<User>)
      requires cache.cap == cfg.cap && 0 in s.calls && s.calls[0].raw == raw && s.calls[0].phase == Probing
      requires s.now == now && s.tombs == tombs && s.cache == cache.entries
      modifies cache
      ensures Ends(cfg, s, 0, dbError, outcome, 2, user, cache.entries)
      ensures user ==
        if outcome.GitLabUser? && outcome.id.Some? then Some(User(outcome.id.value, outcome.login)) else None
      ensures user.None? ==> cache.entries == old(cache.entries)
      ensures user.Some? ==> forall i: nat :: FirstAt(old(cache.entries), cfg.digest(raw), i) ==>
        cache.entries == Upto(cfg.cap, [Entry(cfg.digest(raw), user.value, now)] + Others(old(cache.entries), i))
    {
      ghost var s3 := Advance(cfg, s, 0, dbError, outcome);
      if !outcome.GitLabUser? || outcome.id.None? {
        user := None;
        DoneStays(cfg, s3, 0, dbError, outcome, 1);
      } else {
        user := Some(User(outcome.id.value, outcome.login));
        cache.Put(cfg.digest(raw), user.value, now);
        DoneStays(cfg, Advance(cfg, s3, 0, dbError, outcome), 0, dbError, outcome, 0);
        OneMoreStep(cfg, s3, 0, dbError, outcome, 0, user, cache.entries);
      }
      OneMoreStep(cfg, s, 0, dbError, outcome, 1, user, cache.entries);
    }
  }
}
