/**
 One-time login artifacts held in memory: CSRF states and CLI verification
 codes.  Redeeming removes the entry and then looks at its expiry; a background
 sweep drops expired entries at any moment.
 */
module AuthArtifacts {
  import opened Basics

  type Time = int

  datatype Entry<V> = Entry(expires: Time, value: V)
  type Shelf<V> = map<string, Entry<V>>

  // ---- The shelf ----

  datatype Redeemed<V> = Accepted(value: V) | Expired | Missing

  function Put<V>(shelf: Shelf<V>, key: string, expires: Time, value: V): Shelf<V> {
    shelf[key := Entry(expires, value)]
  }

  // The entry goes whether or not it is still good.
  function Take<V>(shelf: Shelf<V>, key: string): Shelf<V> { shelf - {key} }

  function Verdict<V>(shelf: Shelf<V>, key: string, now: Time): Redeemed<V> {
    if key !in shelf then Missing
    else if now > shelf[key].expires then Expired
    else Accepted(shelf[key].value)
  }

  function Sweep<V>(shelf: Shelf<V>, now: Time): Shelf<V> {
    map k | k in shelf && shelf[k].expires > now :: shelf[k]
  }

  // The caller learns the value or that there is none.
  function Outcome<V>(r: Redeemed<V>): Option<V> {
    if r.Accepted? then Some(r.value) else None
  }

  /** A sweep changes what a redemption at or after it sees exactly when both fall
      on the very instant the entry expires. */
  lemma SweepShowsOnlyAtExpiry<V>(shelf: Shelf<V>, key: string, swept: Time, now: Time)
    requires swept <= now
    ensures Outcome(Verdict(Sweep(shelf, swept), key, now)) != Outcome(Verdict(shelf, key, now)) <==>
      key in shelf && shelf[key].expires == swept == now
  {
  }

  datatype Op<V> =
    | Store(at: Time, key: string, expires: Time, value: V)
    | Redeem(at: Time, key: string)
    | Clean(at: Time)

  function After<V>(shelf: Shelf<V>, op: Op<V>): Shelf<V> {
    match op
    case Store(_, key, expires, value) => Put(shelf, key, expires, value)
    case Redeem(_, key) => Take(shelf, key)
    case Clean(now) => Sweep(shelf, now)
  }

  // What the redemptions of a run of operations return, in order.
  function Results<V>(shelf: Shelf<V>, ops: seq<Op<V>>): seq<Option<V>>
    decreases |ops|
  {
    if ops == [] then []
    else (if ops[0].Redeem? then [Outcome(Verdict(shelf, ops[0].key, ops[0].at))] else [])
         + Results(After(shelf, ops[0]), ops[1..])
  }

  function WithoutCleaning<V>(ops: seq<Op<V>>): seq<Op<V>>
    decreases |ops|
  {
    if ops == [] then []
    else if ops[0].Clean? then WithoutCleaning(ops[1..])
    else [ops[0]] + WithoutCleaning(ops[1..])
  }

  // Redemptions come at a later instant than every sweep before them.
  ghost predicate RedeemsAfterSweeps<V>(ops: seq<Op<V>>) {
    forall i, j :: 0 <= i < j < |ops| && ops[i].Clean? && ops[j].Redeem? ==> ops[i].at < ops[j].at
  }

  // The swept shelf lacks only entries that expired by instant t.
  ghost predicate SweptTo<V>(swept: Shelf<V>, full: Shelf<V>, t: Time) {
    && (forall k :: k in swept ==> k in full && full[k] == swept[k])
    && (forall k :: k in full && k !in swept ==> full[k].expires <= t)
  }

  lemma {:induction false} SweptRunAgrees<V>(swept: Shelf<V>, full: Shelf<V>, ops: seq<Op<V>>, t: Time)
    requires SweptTo(swept, full, t) && RedeemsAfterSweeps(ops)
    requires forall j :: 0 <= j < |ops| && ops[j].Redeem? ==> t < ops[j].at
    ensures Results(swept, ops) == Results(full, WithoutCleaning(ops))
    decreases |ops|
  {
    if ops != [] {
      var op := ops[0];
      var t' := if op.Clean? && op.at > t then op.at else t;
      var full' := if op.Clean? then full else After(full, op);
      assert SweptTo(After(swept, op), full', t');
      forall j | 0 <= j < |ops[1..]| && ops[1..][j].Redeem? ensures t' < ops[1..][j].at {
        assert ops[1..][j] == ops[j + 1];
      }
      SweptRunAgrees(After(swept, op), full', ops[1..], t');
      if !op.Clean? {
        assert WithoutCleaning(ops)[0] == op && WithoutCleaning(ops)[1..] == WithoutCleaning(ops[1..]);
      }
    }
  }

  /** In every run, redemptions return the same with the sweeps as without them,
      provided each comes at a later instant than the sweeps before it. */
  lemma SweepsAreInvisible<V>(ops: seq<Op<V>>)
    requires RedeemsAfterSweeps(ops)
    ensures Results(map[], ops) == Results(map[], WithoutCleaning(ops))
  {
    var t: Time := Earliest(ops);
    SweptRunAgrees(map[], map[], ops, t);
  }

  // An instant before all operations.
  function Earliest<V>(ops: seq<Op<V>>): (t: Time)
    ensures forall i :: 0 <= i < |ops| ==> t < ops[i].at
    decreases |ops|
  {
    if ops == [] then 0
    else
      var rest := Earliest(ops[1..]);
      assert forall i :: 1 <= i < |ops| ==> ops[i] == ops[1..][i - 1];
      if rest < ops[0].at then rest else ops[0].at - 1
  }

  // ---- The login flows ----

  type CallId = nat
  type SessionId = nat
  type User = int

  const STATE_TTL: Time := 300  // seconds

  datatype Phase = Upstream | Known(user: User) | Issued(code: string) | LoggedIn(session: SessionId) | Failed
  // A callback; `takenAt` is when it redeemed its state.
  datatype Callback = Callback(web: bool, state: string, takenAt: Time, phase: Phase)
  datatype CodeInfo = CodeInfo(user: User, call: CallId, expires: Time)
  // A session and whether its row has reached the table; `at` is when its code was
  // redeemed, or the web callback ended.
  datatype Insert = Inserting | Stored | Lost
  datatype Session = Session(user: User, code: Option<string>, call: CallId, at: Time, row: Insert)

  // `issuedStates` and `issuedCodes` are history.
  datatype State = State(
    now: Time, states: Shelf<()>, codes: Shelf<(User, CallId)>, calls: map<CallId, Callback>,
    sessions: map<SessionId, Session>,
    issuedStates: map<string, Time>, issuedCodes: map<string, CodeInfo>)

  datatype Label =
    | Tick(now: Time)
    | Clean
    | Login(state: string)
    | Return(call: CallId, web: bool, state: string)
    | Reply(call: CallId, user: Option<User>)          // GitLab's answer, or an error
    | IssueCode(call: CallId, code: string, ttl: nat)  // end of the CLI callback
    | WebSession(call: CallId, session: SessionId, stored: bool)
    | Exchange(code: string, session: SessionId)       // takes the code, about to insert
    | Store(session: SessionId, stored: bool)          // end of the exchange's insert

  predicate Enabled(s: State, l: Label) {
    match l
    case Tick(now) => s.now <= now
    case Clean => true
    case Login(state) => state !in s.issuedStates
    case Return(c, _, _) => c !in s.calls
    case Reply(c, _) => c in s.calls && s.calls[c].phase.Upstream?
    case IssueCode(c, code, _) => c in s.calls && s.calls[c].phase.Known? && !s.calls[c].web && code !in s.issuedCodes
    case WebSession(c, x, _) => c in s.calls && s.calls[c].phase.Known? && s.calls[c].web && x !in s.sessions
    case Exchange(_, x) => x !in s.sessions
    case Store(x, _) => x in s.sessions && s.sessions[x].row.Inserting?
  }

  function NextStates(s: State, l: Label): Shelf<()> {
    match l
    case Clean => Sweep(s.states, s.now)
    case Login(state) => Put(s.states, state, s.now + STATE_TTL, ())
    case Return(_, _, state) => Take(s.states, state)
    case _ => s.states
  }

  function NextCodes(s: State, l: Label): Shelf<(User, CallId)>
    requires Enabled(s, l)
  {
    match l
    case Clean => Sweep(s.codes, s.now)
    case IssueCode(c, code, ttl) => Put(s.codes, code, s.now + ttl, (s.calls[c].phase.user, c))
    case Exchange(code, _) => Take(s.codes, code)
    case _ => s.codes
  }

  function NextPhase(s: State, l: Label, phase: Phase): Phase {
    match l
    case Reply(_, user) => if user.Some? then Known(user.value) else Failed
    case IssueCode(_, code, _) => Issued(code)
    case WebSession(_, x, stored) => if stored then LoggedIn(x) else Failed
    case _ => phase
  }

  function NextCalls(s: State, l: Label): map<CallId, Callback>
    requires Enabled(s, l)
  {
    match l
    case Return(c, web, state) =>
      var good := Verdict(s.states, state, s.now).Accepted?;
      s.calls[c := Callback(web, state, s.now, if good then Upstream else Failed)]
    case Reply(c, _) => s.calls[c := s.calls[c].(phase := NextPhase(s, l, s.calls[c].phase))]
    case IssueCode(c, _, _) => s.calls[c := s.calls[c].(phase := NextPhase(s, l, s.calls[c].phase))]
    case WebSession(c, _, _) => s.calls[c := s.calls[c].(phase := NextPhase(s, l, s.calls[c].phase))]
    case _ => s.calls
  }

  function NextSessions(s: State, l: Label): map<SessionId, Session>
    requires Enabled(s, l)
  {
    match l
    case WebSession(c, x, stored) =>
      if stored then s.sessions[x := Session(s.calls[c].phase.user, None, c, s.now, Stored)] else s.sessions
    case Exchange(code, x) =>
      var v := Verdict(s.codes, code, s.now);
      if v.Accepted? then s.sessions[x := Session(v.value.0, Some(code), v.value.1, s.now, Inserting)] else s.sessions
    case Store(x, stored) => s.sessions[x := s.sessions[x].(row := if stored then Stored else Lost)]
    case _ => s.sessions
  }

  function NextIssuedStates(s: State, l: Label): map<string, Time> {
    if l.Login? then s.issuedStates[l.state := s.now + STATE_TTL] else s.issuedStates
  }

  function NextIssuedCodes(s: State, l: Label): map<string, CodeInfo>
    requires Enabled(s, l)
  {
    if l.IssueCode? then s.issuedCodes[l.code := CodeInfo(s.calls[l.call].phase.user, l.call, s.now + l.ttl)]
    else s.issuedCodes
  }

  function Apply(s: State, l: Label): State
    requires Enabled(s, l)
  {
    State(if l.Tick? then l.now else s.now, NextStates(s, l), NextCodes(s, l), NextCalls(s, l), NextSessions(s, l),
          NextIssuedStates(s, l), NextIssuedCodes(s, l))
  }

  ghost predicate IsRun(trace: seq<State>, labels: seq<Label>) {
    && |trace| == |labels| + 1
    && trace[0].states == map[] && trace[0].codes == map[] && trace[0].calls == map[] && trace[0].sessions == map[]
    && trace[0].issuedStates == map[] && trace[0].issuedCodes == map[]
    && forall i :: 0 <= i < |labels| ==> Enabled(trace[i], labels[i]) && trace[i + 1] == Apply(trace[i], labels[i])
  }

  // The call redeemed an unexpired state that no longer exists.
  ghost predicate CallOk(s: State, call: Callback) {
    !call.phase.Failed? ==>
      call.state in s.issuedStates && call.takenAt <= s.issuedStates[call.state] && call.state !in s.states
  }

  ghost predicate CodeOk(s: State, code: string)
    requires code in s.issuedCodes
  {
    var info := s.issuedCodes[code];
    && info.call in s.calls && !s.calls[info.call].web && s.calls[info.call].phase == Issued(code)
    && (code in s.codes ==> s.codes[code] == Entry(info.expires, (info.user, info.call)))
  }

  ghost predicate SessionOk(s: State, x: SessionId)
    requires x in s.sessions
  {
    var session := s.sessions[x];
    && session.call in s.calls
    && match session.code
       case None => s.calls[session.call].phase == LoggedIn(x)
       case Some(code) =>
         && code in s.issuedCodes && code !in s.codes
         && s.issuedCodes[code].call == session.call && s.issuedCodes[code].user == session.user
         && session.at <= s.issuedCodes[code].expires
  }

  ghost predicate OneSessionPerCode(s: State) {
    forall x, y ::
      x in s.sessions && y in s.sessions && s.sessions[x].code.Some? && s.sessions[x].code == s.sessions[y].code ==>
      x == y
  }

  ghost predicate OneCallPerState(s: State) {
    forall c, d :: Live(s.calls, c) && Live(s.calls, d) && s.calls[c].state == s.calls[d].state ==> c == d
  }

  ghost predicate Inv(s: State) {
    && ShelvesOk(s)
    && (forall c :: c in s.calls ==> CallOk(s, s.calls[c]))
    && (forall k :: k in s.issuedCodes ==> CodeOk(s, k))
    && (forall x :: x in s.sessions ==> SessionOk(s, x))
    && OneSessionPerCode(s) && OneCallPerState(s)
  }

  ghost predicate ShelvesOk(s: State) {
    && (forall k :: k in s.states ==> k in s.issuedStates && s.states[k].expires == s.issuedStates[k])
    && s.codes.Keys <= s.issuedCodes.Keys
  }

  lemma ShelvesKeep(s: State, l: Label)
    requires ShelvesOk(s) && Enabled(s, l)
    ensures ShelvesOk(Apply(s, l))
  {
  }

  // States are stored by Login only, and once taken stay gone.
  lemma StatesGrow(s: State, l: Label, k: string)
    requires Enabled(s, l) && k in s.issuedStates
    ensures k in Apply(s, l).issuedStates && Apply(s, l).issuedStates[k] == s.issuedStates[k]
    ensures k !in s.states ==> k !in Apply(s, l).states
  {
    hide NextCodes, NextCalls, NextSessions, NextIssuedCodes;
  }

  // A call keeps its state and redemption instant; one that failed stays failed.
  lemma CallStays(s: State, l: Label, c: CallId)
    requires Enabled(s, l) && c in s.calls
    ensures c in Apply(s, l).calls
    ensures var was, is' := s.calls[c], Apply(s, l).calls[c];
      is'.state == was.state && is'.takenAt == was.takenAt && (was.phase.Failed? ==> is'.phase.Failed?)
  {
    hide NextStates, NextCodes, NextSessions, NextIssuedStates, NextIssuedCodes;
  }

  lemma NewCall(s: State, l: Label, c: CallId)
    requires ShelvesOk(s) && Enabled(s, l) && c !in s.calls && c in Apply(s, l).calls
    ensures l.Return? && CallOk(Apply(s, l), Apply(s, l).calls[c])
  {
    hide NextCodes, NextSessions, NextIssuedCodes;
  }

  lemma CallKeeps(s: State, l: Label, c: CallId)
    requires Inv(s) && Enabled(s, l) && c in Apply(s, l).calls
    ensures CallOk(Apply(s, l), Apply(s, l).calls[c])
  {
    hide Apply, Enabled, ShelvesOk;
    if c in s.calls {
      assert CallOk(s, s.calls[c]);
      CallStays(s, l, c);
      if s.calls[c].state in s.issuedStates { StatesGrow(s, l, s.calls[c].state); }
    } else {
      NewCall(s, l, c);
    }
  }

  // The call that issued a code is done, and a code on the shelf is not stored again.
  lemma CodeStays(s: State, l: Label, k: string)
    requires Enabled(s, l) && k in s.issuedCodes
    ensures k in Apply(s, l).issuedCodes && Apply(s, l).issuedCodes[k] == s.issuedCodes[k]
    ensures k in Apply(s, l).codes ==> k in s.codes && Apply(s, l).codes[k] == s.codes[k]
  {
    hide NextStates, NextCalls, NextSessions, NextIssuedStates;
  }

  lemma IssuedCallStays(s: State, l: Label, c: CallId)
    requires Enabled(s, l) && c in s.calls && s.calls[c].phase.Issued?
    ensures c in Apply(s, l).calls && Apply(s, l).calls[c] == s.calls[c]
  {
    hide NextStates, NextCodes, NextSessions, NextIssuedStates, NextIssuedCodes;
  }

  lemma NewCode(s: State, l: Label, k: string)
    requires Enabled(s, l) && k !in s.issuedCodes && k in Apply(s, l).issuedCodes
    ensures CodeOk(Apply(s, l), k)
  {
    hide NextStates, NextSessions, NextIssuedStates;
  }

  lemma CodeKeeps(s: State, l: Label, k: string)
    requires Inv(s) && Enabled(s, l) && k in Apply(s, l).issuedCodes
    ensures CodeOk(Apply(s, l), k)
  {
    hide Apply, Enabled;
    if k in s.issuedCodes {
      assert CodeOk(s, k);
      CodeStays(s, l, k);
      IssuedCallStays(s, l, s.issuedCodes[k].call);
    } else {
      NewCode(s, l, k);
    }
  }

  // A step never drops a call, and leaves one that has logged in alone.
  lemma CallsGrow(s: State, l: Label, c: CallId)
    requires Enabled(s, l) && c in s.calls
    ensures c in Apply(s, l).calls
    ensures s.calls[c].phase.LoggedIn? ==> Apply(s, l).calls[c] == s.calls[c]
  {
    hide NextStates, NextCodes, NextSessions, NextIssuedStates, NextIssuedCodes;
  }

  // Codes, once issued, keep their record, and once taken stay gone.
  lemma CodesGrow(s: State, l: Label, k: string)
    requires Enabled(s, l) && k in s.issuedCodes
    ensures k in Apply(s, l).issuedCodes && Apply(s, l).issuedCodes[k] == s.issuedCodes[k]
    ensures k !in s.codes ==> k !in Apply(s, l).codes
  {
    hide NextStates, NextCalls, NextSessions, NextIssuedStates;
  }

  lemma OldSession(s: State, l: Label, x: SessionId)
    requires Enabled(s, l) && x in s.sessions
    ensures x in Apply(s, l).sessions && Apply(s, l).sessions[x] == s.sessions[x].(row := Apply(s, l).sessions[x].row)
  {
    hide NextStates, NextCodes, NextCalls, NextIssuedStates, NextIssuedCodes;
  }

  lemma OldSessionKeeps(s: State, l: Label, x: SessionId)
    requires Inv(s) && Enabled(s, l) && x in s.sessions
    ensures x in Apply(s, l).sessions && SessionOk(Apply(s, l), x)
  {
    assert SessionOk(s, x);
    hide Apply, Enabled, Inv;
    var session := s.sessions[x];
    OldSession(s, l, x);
    CallsGrow(s, l, session.call);
    if session.code.Some? { CodesGrow(s, l, session.code.value); }
  }

  lemma NewWebSession(s: State, l: Label, x: SessionId)
    requires Enabled(s, l) && x in Apply(s, l).sessions && x !in s.sessions && Apply(s, l).sessions[x].code.None?
    ensures SessionOk(Apply(s, l), x)
  {
    hide NextStates, NextCodes, NextIssuedStates, NextIssuedCodes;
  }

  lemma NewSession(s: State, l: Label, x: SessionId)
    requires Enabled(s, l) && x in Apply(s, l).sessions && x !in s.sessions && Apply(s, l).sessions[x].code.Some?
    ensures l.Exchange? && l.session == x && l.code in s.codes && s.now <= s.codes[l.code].expires
    ensures Apply(s, l).sessions[x] ==
      Session(s.codes[l.code].value.0, Some(l.code), s.codes[l.code].value.1, s.now, Inserting)
    ensures l.code !in Apply(s, l).codes
    ensures Apply(s, l).calls == s.calls && Apply(s, l).issuedCodes == s.issuedCodes
  {
    hide NextStates, NextIssuedStates;
  }

  lemma SessionKeeps(s: State, l: Label, x: SessionId)
    requires Inv(s) && Enabled(s, l) && x in Apply(s, l).sessions
    ensures SessionOk(Apply(s, l), x)
  {
    hide Apply, Enabled, OneSessionPerCode, OneCallPerState;
    if x in s.sessions {
      OldSessionKeeps(s, l, x);
    } else if Apply(s, l).sessions[x].code.None? {
      NewWebSession(s, l, x);
    } else {
      NewSession(s, l, x);
      assert CodeOk(s, l.code);
    }
  }

  lemma SessionsDistinct(s: State, l: Label, x: SessionId, y: SessionId)
    requires Inv(s) && Enabled(s, l)
    requires var t := Apply(s, l).sessions; x in t && y in t && t[x].code.Some? && t[x].code == t[y].code
    ensures x == y
  {
    hide Apply, Enabled;
    if x in s.sessions { assert SessionOk(s, x); OldSession(s, l, x); } else { NewSession(s, l, x); }
    if y in s.sessions { assert SessionOk(s, y); OldSession(s, l, y); } else { NewSession(s, l, y); }
  }

  predicate Live(calls: map<CallId, Callback>, c: CallId) { c in calls && !calls[c].phase.Failed? }

  lemma LiveBefore(s: State, l: Label, c: CallId)
    requires Enabled(s, l) && Live(Apply(s, l).calls, c)
    ensures c in s.calls ==> Live(s.calls, c) && Apply(s, l).calls[c].state == s.calls[c].state
    ensures c !in s.calls ==> l.Return? && l.call == c && Apply(s, l).calls[c].state == l.state && l.state in s.states
  {
    hide NextStates, NextCodes, NextSessions, NextIssuedStates, NextIssuedCodes;
  }

  lemma CallsDistinct(s: State, l: Label, c: CallId, d: CallId)
    requires Inv(s) && Enabled(s, l)
    requires var t := Apply(s, l).calls; Live(t, c) && Live(t, d) && t[c].state == t[d].state
    ensures c == d
  {
    hide Apply, Enabled;
    LiveBefore(s, l, c);
    LiveBefore(s, l, d);
    if c in s.calls { assert CallOk(s, s.calls[c]); }
    if d in s.calls { assert CallOk(s, s.calls[d]); }
  }

  lemma StepKeeps(s: State, l: Label)
    requires Inv(s) && Enabled(s, l)
    ensures Inv(Apply(s, l))
  {
    hide Apply, Enabled, CallOk, CodeOk, SessionOk, ShelvesOk;
    var s' := Apply(s, l);
    ShelvesKeep(s, l);
    forall x, y | x in s'.sessions && y in s'.sessions && s'.sessions[x].code.Some? &&
      s'.sessions[x].code == s'.sessions[y].code
      ensures x == y
    {
      SessionsDistinct(s, l, x, y);
    }
    forall c, d | Live(s'.calls, c) && Live(s'.calls, d) && s'.calls[c].state == s'.calls[d].state ensures c == d {
      CallsDistinct(s, l, c, d);
    }
    forall c | c in s'.calls ensures CallOk(s', s'.calls[c]) { CallKeeps(s, l, c); }
    forall k | k in s'.issuedCodes ensures CodeOk(s', k) { CodeKeeps(s, l, k); }
    forall x | x in s'.sessions ensures SessionOk(s', x) { SessionKeeps(s, l, x); }
  }

  lemma {:induction false} RunKeeps(trace: seq<State>, labels: seq<Label>, i: nat)
    requires IsRun(trace, labels) && i < |trace|
    ensures Inv(trace[i])
  {
    if i > 0 {
      RunKeeps(trace, labels, i - 1);
      StepKeeps(trace[i - 1], labels[i - 1]);
    }
  }

  // The callback a session came from redeemed `state` before it expired, and the
  // session was made directly or from the one code that callback issued.
  ghost predicate TracesTo(s: State, x: SessionId, c: CallId, state: string) {
    && x in s.sessions && s.sessions[x].call == c
    && c in s.calls && s.calls[c].state == state
    && state in s.issuedStates && s.calls[c].takenAt <= s.issuedStates[state]
    && (s.sessions[x].code.Some? ==>
          var code := s.sessions[x].code.value;
          && s.calls[c].phase == Issued(code) && code in s.issuedCodes
          && s.issuedCodes[code].user == s.sessions[x].user && s.sessions[x].at <= s.issuedCodes[code].expires)
  }

  /** Every session traces to one unexpired state, through one unexpired code when
      it was exchanged for one, and no two sessions share a state or a code. */
  lemma SessionsTraceToDistinctLogins(trace: seq<State>, labels: seq<Label>, i: nat, x: SessionId, y: SessionId)
    requires IsRun(trace, labels) && i < |trace| && x in trace[i].sessions && y in trace[i].sessions
    ensures var s := trace[i];
      && s.sessions[x].call in s.calls && TracesTo(s, x, s.sessions[x].call, s.calls[s.sessions[x].call].state)
      && s.sessions[y].call in s.calls
      && (x != y ==>
            && s.calls[s.sessions[x].call].state != s.calls[s.sessions[y].call].state
            && (s.sessions[x].code.Some? ==> s.sessions[x].code != s.sessions[y].code))
  {
    RunKeeps(trace, labels, i);
    var s := trace[i];
    assert SessionOk(s, x) && SessionOk(s, y);
    var c, d := s.sessions[x].call, s.sessions[y].call;
    if s.sessions[x].code.Some? { assert CodeOk(s, s.sessions[x].code.value); }
    if s.sessions[y].code.Some? { assert CodeOk(s, s.sessions[y].code.value); }
    assert CallOk(s, s.calls[c]) && CallOk(s, s.calls[d]);
  }

  // ---- What is on the shelves ----

  // Issued at step a, and neither redeemed nor swept since.
  ghost predicate StateKept(trace: seq<State>, labels: seq<Label>, a: nat, i: nat, state: string)
    requires i < |trace| == |labels| + 1
  {
    && a < i && labels[a] == Login(state)
    && forall h :: a < h < i ==>
         && !(labels[h].Return? && labels[h].state == state)
         && !(labels[h].Clean? && trace[a].now + 300 <= trace[h].now)
  }

  /** A state is there to be redeemed exactly from its login until a callback takes it
      or a sweep finds it five minutes old. */
  lemma {:induction false} StatesKeptExactly(trace: seq<State>, labels: seq<Label>, i: nat, state: string)
    requires IsRun(trace, labels) && i < |trace|
    ensures state in trace[i].states <==> exists a: nat :: StateKept(trace, labels, a, i, state)
    ensures forall a: nat :: StateKept(trace, labels, a, i, state) ==>
      state in trace[i].states && trace[i].states[state].expires == trace[a].now + 300
  {
    if i > 0 {
      var h := i - 1;
      StatesKeptExactly(trace, labels, h, state);
      RunKeeps(trace, labels, h);
      assert ShelvesOk(trace[h]);
      hide Inv, NextCodes, NextCalls, NextSessions, NextIssuedStates, NextIssuedCodes;
      assert Enabled(trace[h], labels[h]) && trace[i] == Apply(trace[h], labels[h]);
      forall a: nat | StateKept(trace, labels, a, i, state)
        ensures state in trace[i].states && trace[i].states[state].expires == trace[a].now + 300
      {
        if a < h { assert StateKept(trace, labels, a, h, state); }
      }
      if state in trace[i].states {
        if labels[h] == Login(state) {
          assert StateKept(trace, labels, h, i, state);
        } else {
          var a: nat :| StateKept(trace, labels, a, h, state);
          assert StateKept(trace, labels, a, i, state);
        }
      }
    }
  }

  ghost predicate CodeKept(trace: seq<State>, labels: seq<Label>, d: nat, i: nat, code: string)
    requires i < |trace| == |labels| + 1
  {
    && d < i && labels[d].IssueCode? && labels[d].code == code
    && forall h :: d < h < i ==>
         && !(labels[h].Exchange? && labels[h].code == code)
         && !(labels[h].Clean? && trace[d].now + labels[d].ttl <= trace[h].now)
  }

  lemma CodeShelfStep(s: State, l: Label, k: string)
    requires ShelvesOk(s) && Enabled(s, l)
    ensures var codes := Apply(s, l).codes;
      if l.IssueCode? && l.code == k then k !in s.codes && k in codes && codes[k].expires == s.now + l.ttl
      else
        && (k in codes ==> k in s.codes && codes[k] == s.codes[k])
        && (k in codes <==>
             k in s.codes && !(l.Exchange? && l.code == k) && !(l.Clean? && s.codes[k].expires <= s.now))
  {
    hide NextStates, NextCalls, NextSessions, NextIssuedStates, NextIssuedCodes;
  }

  lemma {:induction false} CodeStillThere(trace: seq<State>, labels: seq<Label>, d: nat, i: nat, code: string)
    requires IsRun(trace, labels) && i < |trace| && CodeKept(trace, labels, d, i, code)
    ensures code in trace[i].codes && trace[i].codes[code].expires == trace[d].now + labels[d].ttl
  {
    hide Inv, Apply, Enabled;
    var h := i - 1;
    RunKeeps(trace, labels, h);
    assert ShelvesOk(trace[h]);
    assert Enabled(trace[h], labels[h]) && trace[i] == Apply(trace[h], labels[h]);
    CodeShelfStep(trace[h], labels[h], code);
    if d < h { CodeStillThere(trace, labels, d, h, code); }
  }

  lemma {:induction false} CodeComesFrom(trace: seq<State>, labels: seq<Label>, i: nat, code: string) returns (d: nat)
    requires IsRun(trace, labels) && i < |trace| && code in trace[i].codes
    ensures CodeKept(trace, labels, d, i, code)
  {
    hide Inv, Apply, Enabled;
    var h := i - 1;
    RunKeeps(trace, labels, h);
    assert ShelvesOk(trace[h]);
    assert Enabled(trace[h], labels[h]) && trace[i] == Apply(trace[h], labels[h]);
    CodeShelfStep(trace[h], labels[h], code);
    if labels[h].IssueCode? && labels[h].code == code {
      d := h;
    } else {
      d := CodeComesFrom(trace, labels, h, code);
      CodeStillThere(trace, labels, d, h, code);
    }
  }

  /** Likewise a code, from the callback that issued it until an exchange takes it or a
      sweep finds it expired. */
  lemma CodesKeptExactly(trace: seq<State>, labels: seq<Label>, i: nat, code: string)
    requires IsRun(trace, labels) && i < |trace|
    ensures code in trace[i].codes <==> exists d: nat :: CodeKept(trace, labels, d, i, code)
    ensures forall d: nat :: CodeKept(trace, labels, d, i, code) ==>
      code in trace[i].codes && trace[i].codes[code].expires == trace[d].now + labels[d].ttl
  {
    forall d: nat | CodeKept(trace, labels, d, i, code)
      ensures code in trace[i].codes && trace[i].codes[code].expires == trace[d].now + labels[d].ttl
    {
      CodeStillThere(trace, labels, d, i, code);
    }
    if code in trace[i].codes { var d := CodeComesFrom(trace, labels, i, code); }
  }

  /** A callback goes on to GitLab exactly when its state is kept and at most five
      minutes old, and otherwise fails. */
  lemma ReturnAcceptedExactly(trace: seq<State>, labels: seq<Label>, i: nat)
    requires IsRun(trace, labels) && i < |labels| && labels[i].Return?
    ensures labels[i].call in trace[i + 1].calls
    ensures trace[i + 1].calls[labels[i].call] == Callback(labels[i].web, labels[i].state, trace[i].now,
      if exists a: nat :: StateKept(trace, labels, a, i, labels[i].state) && trace[i].now <= trace[a].now + 300
      then Upstream else Failed)
  {
    StatesKeptExactly(trace, labels, i, labels[i].state);
    ReturnStep(trace[i], labels[i]);
  }

  lemma ReturnStep(s: State, l: Label)
    requires l.Return? && Enabled(s, l)
    ensures l.call in Apply(s, l).calls && Apply(s, l).calls[l.call] == Callback(l.web, l.state, s.now,
      if l.state in s.states && s.now <= s.states[l.state].expires then Upstream else Failed)
  {
    hide NextStates, NextCodes, NextSessions, NextIssuedStates, NextIssuedCodes;
  }

  /** An exchange makes a session exactly when its code is kept and not expired. */
  lemma ExchangeAcceptedExactly(trace: seq<State>, labels: seq<Label>, i: nat)
    requires IsRun(trace, labels) && i < |labels| && labels[i].Exchange?
    ensures labels[i].session in trace[i + 1].sessions <==>
      exists d: nat :: CodeKept(trace, labels, d, i, labels[i].code) && trace[i].now <= trace[d].now + labels[d].ttl
  {
    CodesKeptExactly(trace, labels, i, labels[i].code);
    ExchangeStep(trace[i], labels[i]);
  }

  lemma ExchangeStep(s: State, l: Label)
    requires l.Exchange? && Enabled(s, l)
    ensures l.session in Apply(s, l).sessions <==> l.code in s.codes && s.now <= s.codes[l.code].expires
  {
    hide NextStates, NextCodes, NextCalls, NextIssuedStates, NextIssuedCodes;
  }

  lemma RowStep(s: State, l: Label, x: SessionId)
    requires Enabled(s, l) && x in Apply(s, l).sessions
    ensures Apply(s, l).sessions[x].row.Stored? <==>
      || l == Label.Store(x, true) || (l.WebSession? && l.session == x && l.stored)
      || (x in s.sessions && s.sessions[x].row.Stored?)
    ensures l == Label.Store(x, true) || l == Label.Store(x, false) ==>
      x in s.sessions && s.sessions[x].row.Inserting?
    ensures l.WebSession? && l.session == x ==> x !in s.sessions
    ensures x in s.sessions && !s.sessions[x].row.Inserting? ==> Apply(s, l).sessions[x].row == s.sessions[x].row
  {
    hide NextStates, NextCodes, NextCalls, NextIssuedStates, NextIssuedCodes;
  }

  /** The row of a session is in the table exactly when its own insert succeeded. */
  lemma {:induction false} StoredExactly(trace: seq<State>, labels: seq<Label>, i: nat, x: SessionId)
    requires IsRun(trace, labels) && i < |trace| && x in trace[i].sessions
    ensures trace[i].sessions[x].row.Stored? <==>
      exists k :: 0 <= k < i &&
        (labels[k] == Label.Store(x, true) || (labels[k].WebSession? && labels[k].session == x && labels[k].stored))
  {
    hide Apply, Enabled;
    assert i > 0;
    var h := i - 1;
    assert Enabled(trace[h], labels[h]) && trace[i] == Apply(trace[h], labels[h]);
    RowStep(trace[h], labels[h], x);
    if x in trace[h].sessions {
      StoredExactly(trace, labels, h, x);
    } else {
      forall k | 0 <= k < h
        ensures labels[k] != Label.Store(x, true)
        ensures !(labels[k].WebSession? && labels[k].session == x && labels[k].stored)
      {
        SessionsStay(trace, labels, k, h, x);
      }
    }
  }

  lemma {:induction false} SessionsStay(trace: seq<State>, labels: seq<Label>, k: nat, i: nat, x: SessionId)
    requires IsRun(trace, labels) && k < i < |trace| && x !in trace[i].sessions
    ensures labels[k] != Label.Store(x, true) && !(labels[k].WebSession? && labels[k].session == x && labels[k].stored)
    ensures x !in trace[k].sessions
  {
    hide Apply, Enabled;
    var h := i - 1;
    assert Enabled(trace[h], labels[h]) && trace[i] == Apply(trace[h], labels[h]);
    SessionAppears(trace[h], labels[h], x);
    if k < h { SessionsStay(trace, labels, k, h, x); }
  }

  lemma SessionAppears(s: State, l: Label, x: SessionId)
    requires Enabled(s, l) && x !in Apply(s, l).sessions
    ensures l != Label.Store(x, true) && !(l.WebSession? && l.session == x && l.stored) && x !in s.sessions
  {
    hide NextStates, NextCodes, NextCalls, NextIssuedStates, NextIssuedCodes;
  }

  // ---- Whose session it is ----

  // Callback c, opened at step b, redeemed the state issued at step a at most five minutes before.
  ghost predicate StateRedeemed(trace: seq<State>, labels: seq<Label>, a: nat, b: nat, c: CallId, call: Callback)
    requires |trace| == |labels| + 1
  {
    && a < b < |labels| && labels[a] == Login(call.state) && labels[b] == Return(c, call.web, call.state)
    && trace[a].now <= trace[b].now <= trace[a].now + 300
  }

  lemma CallStep(s: State, l: Label, c: CallId)
    requires Enabled(s, l) && c in Apply(s, l).calls
    ensures var is' := Apply(s, l).calls[c];
      if c in s.calls then
        var was := s.calls[c];
        && is'.web == was.web && is'.state == was.state
        && (is'.phase != was.phase ==>
             && !l.Return? && (l.Reply? || l.IssueCode? || l.WebSession?) && l.call == c && !is'.phase.Upstream?
             && (l.Reply? ==> is'.phase == if l.user.Some? then Known(l.user.value) else Failed)
             && (is'.phase.Known? ==> l.Reply?))
        && (is'.phase.Failed? || !was.phase.Failed?)
      else l.Return? && l.call == c && is'.web == l.web && is'.state == l.state && !is'.phase.Known?
    ensures l.Reply? && l.call == c ==>
      Apply(s, l).calls[c].phase == if l.user.Some? then Known(l.user.value) else Failed
  {
    hide NextStates, NextCodes, NextSessions, NextIssuedStates, NextIssuedCodes;
  }

  lemma {:induction false} CallbackRedeemed(trace: seq<State>, labels: seq<Label>, i: nat, c: CallId)
    returns (a: nat, b: nat)
    requires IsRun(trace, labels) && i < |trace| && c in trace[i].calls && !trace[i].calls[c].phase.Failed?
    ensures b < i && StateRedeemed(trace, labels, a, b, c, trace[i].calls[c])
  {
    hide Apply, Enabled;
    assert i > 0;
    var h := i - 1;
    assert Enabled(trace[h], labels[h]) && trace[i] == Apply(trace[h], labels[h]);
    CallStep(trace[h], labels[h], c);
    if c in trace[h].calls {
      a, b := CallbackRedeemed(trace, labels, h, c);
    } else {
      b := h;
      ReturnAcceptedExactly(trace, labels, b);
      var state := labels[b].state;
      a :| StateKept(trace, labels, a, b, state) && trace[b].now <= trace[a].now + 300;
      KeptSince(trace, labels, a, b, state);
      NowGrows(trace, labels, a, b);
    }
  }

  lemma KeptSince(trace: seq<State>, labels: seq<Label>, a: nat, i: nat, state: string)
    requires i < |trace| == |labels| + 1 && StateKept(trace, labels, a, i, state)
    ensures a < i && labels[a] == Login(state)
  {
  }

  // GitLab named the user of a callback that knows one.
  lemma {:induction false} UserNamed(trace: seq<State>, labels: seq<Label>, i: nat, c: CallId) returns (r: nat)
    requires IsRun(trace, labels) && i < |trace| && c in trace[i].calls && trace[i].calls[c].phase.Known?
    ensures r < i && labels[r] == Reply(c, Some(trace[i].calls[c].phase.user))
    ensures c in trace[r].calls && !trace[r].calls[c].phase.Failed?
    ensures trace[r].calls[c].web == trace[i].calls[c].web && trace[r].calls[c].state == trace[i].calls[c].state
  {
    hide Apply, Enabled;
    assert i > 0;
    var h := i - 1;
    assert Enabled(trace[h], labels[h]) && trace[i] == Apply(trace[h], labels[h]);
    CallStep(trace[h], labels[h], c);
    if trace[h].calls[c].phase == trace[i].calls[c].phase {
      r := UserNamed(trace, labels, h, c);
    } else {
      r := h;
      ReplyFromUpstream(trace[h], labels[h]);
    }
  }

  lemma ReplyFromUpstream(s: State, l: Label)
    requires l.Reply? && Enabled(s, l)
    ensures l.call in s.calls && s.calls[l.call].phase.Upstream?
  {
  }

  lemma CodeStep(s: State, l: Label, k: string)
    requires Enabled(s, l) && k in Apply(s, l).issuedCodes
    ensures k in s.issuedCodes ==> Apply(s, l).issuedCodes[k] == s.issuedCodes[k]
    ensures k !in s.issuedCodes ==>
      && l.IssueCode? && l.code == k && l.call in s.calls && !s.calls[l.call].web && s.calls[l.call].phase.Known?
      && Apply(s, l).issuedCodes[k] == CodeInfo(s.calls[l.call].phase.user, l.call, s.now + l.ttl)
  {
    hide NextStates, NextCodes, NextCalls, NextSessions, NextIssuedStates;
  }

  // Step d issued the code, for a callback that then knew the code's user.
  ghost predicate IssuedAt(trace: seq<State>, labels: seq<Label>, d: nat, k: string, info: CodeInfo)
    requires |trace| == |labels| + 1
  {
    && d < |labels| && labels[d].IssueCode? && labels[d].code == k && labels[d].call == info.call
    && info.expires == trace[d].now + labels[d].ttl
    && info.call in trace[d].calls && !trace[d].calls[info.call].web
    && trace[d].calls[info.call].phase == Known(info.user)
  }

  lemma {:induction false} CodeIssued(trace: seq<State>, labels: seq<Label>, i: nat, k: string) returns (d: nat)
    requires IsRun(trace, labels) && i < |trace| && k in trace[i].issuedCodes
    ensures d < i && IssuedAt(trace, labels, d, k, trace[i].issuedCodes[k])
  {
    hide Apply, Enabled;
    assert i > 0;
    var h := i - 1;
    assert Enabled(trace[h], labels[h]) && trace[i] == Apply(trace[h], labels[h]);
    CodeStep(trace[h], labels[h], k);
    if k in trace[h].issuedCodes { d := CodeIssued(trace, labels, h, k); } else { d := h; }
  }

  lemma SessionStep(s: State, l: Label, x: SessionId)
    requires Enabled(s, l) && x in Apply(s, l).sessions
    ensures var is' := Apply(s, l).sessions[x];
      if x in s.sessions then is' == s.sessions[x].(row := is'.row) else
      is'.at == s.now &&
      match is'.code
      case None =>
        && l == WebSession(is'.call, x, true) && is'.call in s.calls && s.calls[is'.call].web
        && s.calls[is'.call].phase == Known(is'.user) && is'.row == Stored
      case Some(k) => l == Exchange(k, x) && k in s.codes && s.codes[k].value == (is'.user, is'.call)
  {
    hide NextStates, NextCodes, NextCalls, NextIssuedStates, NextIssuedCodes;
  }

  // Step e made the session: a web callback that knew its user, or the exchange of a code.
  ghost predicate MadeAt(trace: seq<State>, labels: seq<Label>, e: nat, x: SessionId, session: Session)
    requires |trace| == |labels| + 1
  {
    e < |labels| && session.at == trace[e].now &&
    match session.code
    case None =>
      && labels[e] == WebSession(session.call, x, true) && session.call in trace[e].calls
      && trace[e].calls[session.call].web && trace[e].calls[session.call].phase == Known(session.user)
    case Some(k) =>
      && labels[e] == Exchange(k, x) && k in trace[e].issuedCodes
      && trace[e].issuedCodes[k].user == session.user && trace[e].issuedCodes[k].call == session.call
      && trace[e].now <= trace[e].issuedCodes[k].expires
  }

  lemma {:induction false} SessionMade(trace: seq<State>, labels: seq<Label>, i: nat, x: SessionId) returns (e: nat)
    requires IsRun(trace, labels) && i < |trace| && x in trace[i].sessions
    ensures e < i && MadeAt(trace, labels, e, x, trace[i].sessions[x])
  {
    hide Apply, Enabled;
    assert i > 0;
    var h := i - 1;
    assert Enabled(trace[h], labels[h]) && trace[i] == Apply(trace[h], labels[h]);
    SessionStep(trace[h], labels[h], x);
    if x in trace[h].sessions {
      e := SessionMade(trace, labels, h, x);
    } else {
      e := h;
      RunKeeps(trace, labels, h);
      RunKeeps(trace, labels, i);
      assert SessionOk(trace[i], x);
      if labels[h].Exchange? {
        assert CodeOk(trace[h], labels[h].code);
        ExchangeStep(trace[h], labels[h]);
      }
    }
  }

  /** Every code carries the user GitLab named to the callback that issued it, which had
      redeemed an unexpired state before. */
  lemma CodesNameTheirUser(trace: seq<State>, labels: seq<Label>, i: nat, k: string)
    returns (a: nat, b: nat, r: nat, d: nat)
    requires IsRun(trace, labels) && i < |trace| && k in trace[i].issuedCodes
    ensures b < r < d < i
    ensures var info := trace[i].issuedCodes[k];
      && IssuedAt(trace, labels, d, k, info)
      && labels[r] == Reply(info.call, Some(info.user))
      && StateRedeemed(trace, labels, a, b, info.call, trace[d].calls[info.call])
  {
    hide Apply, Enabled;
    d := CodeIssued(trace, labels, i, k);
    var c := trace[i].issuedCodes[k].call;
    r := UserNamed(trace, labels, d, c);
    a, b := CallbackRedeemed(trace, labels, r, c);
  }

  /** Every session belongs to the user GitLab named to its own callback, after that
      callback had redeemed an unexpired state and before the session was made: directly
      by a web callback, or from the unexpired code a CLI callback issued to that user. */
  lemma SessionsNameTheirUser(trace: seq<State>, labels: seq<Label>, i: nat, x: SessionId)
    returns (a: nat, b: nat, r: nat, e: nat)
    requires IsRun(trace, labels) && i < |trace| && x in trace[i].sessions
    ensures b < r < e < i
    ensures var session := trace[i].sessions[x];
      && MadeAt(trace, labels, e, x, session)
      && labels[r] == Reply(session.call, Some(session.user))
      && session.call in trace[e].calls
      && StateRedeemed(trace, labels, a, b, session.call, trace[e].calls[session.call])
      && (session.code.Some? <==> !trace[e].calls[session.call].web)
  {
    hide Apply, Enabled;
    e := SessionMade(trace, labels, i, x);
    var session := trace[i].sessions[x];
    if session.code.Some? {
      var k := session.code.value;
      var d;
      a, b, r, d := CodesNameTheirUser(trace, labels, e, k);
      CallKept(trace, labels, d, e, session.call);
    } else {
      r := UserNamed(trace, labels, e, session.call);
      a, b := CallbackRedeemed(trace, labels, r, session.call);
    }
  }

  lemma {:induction false} CallKept(trace: seq<State>, labels: seq<Label>, i: nat, j: nat, c: CallId)
    requires IsRun(trace, labels) && i <= j < |trace| && c in trace[i].calls
    ensures c in trace[j].calls
    ensures trace[j].calls[c].web == trace[i].calls[c].web && trace[j].calls[c].state == trace[i].calls[c].state
    ensures trace[i].calls[c].phase.Failed? ==> trace[j].calls[c].phase.Failed?
  {
    hide Apply, Enabled;
    if i < j {
      CallKept(trace, labels, i, j - 1, c);
      assert Enabled(trace[j - 1], labels[j - 1]) && trace[j] == Apply(trace[j - 1], labels[j - 1]);
      CallsGrow(trace[j - 1], labels[j - 1], c);
      CallStep(trace[j - 1], labels[j - 1], c);
    }
  }

  /** A callback GitLab failed stays failed and never has a code or a session. */
  lemma FailedReplyIsFinal(trace: seq<State>, labels: seq<Label>, k: nat, i: nat, c: CallId)
    requires IsRun(trace, labels) && k < i < |trace| && labels[k] == Reply(c, None)
    ensures c in trace[i].calls && trace[i].calls[c].phase.Failed?
    ensures forall code :: code in trace[i].issuedCodes ==> trace[i].issuedCodes[code].call != c
    ensures forall x :: x in trace[i].sessions ==> trace[i].sessions[x].call != c
  {
    hide Apply, Enabled;
    assert Enabled(trace[k], labels[k]) && trace[k + 1] == Apply(trace[k], labels[k]);
    ReplyFromUpstream(trace[k], labels[k]);
    CallsGrow(trace[k], labels[k], c);
    CallStep(trace[k], labels[k], c);
    CallKept(trace, labels, k + 1, i, c);
    RunKeeps(trace, labels, i);
    forall code | code in trace[i].issuedCodes ensures trace[i].issuedCodes[code].call != c {
      assert CodeOk(trace[i], code);
    }
    forall x | x in trace[i].sessions ensures trace[i].sessions[x].call != c {
      assert SessionOk(trace[i], x);
      if trace[i].sessions[x].code.Some? { assert CodeOk(trace[i], trace[i].sessions[x].code.value); }
    }
  }

  // ---- Sweeps leave the login flows alone ----

  function WithoutSweeps(labels: seq<Label>): seq<Label> {
    if labels == [] then [] else
    var n := |labels| - 1;
    WithoutSweeps(labels[..n]) + if labels[n].Clean? then [] else [labels[n]]
  }

  // The step redeems an artifact at the very instant it expires.
  predicate RedeemsAtExpiry(s: State, l: Label) {
    || (l.Return? && l.state in s.issuedStates && s.issuedStates[l.state] == s.now)
    || (l.Exchange? && l.code in s.issuedCodes && s.issuedCodes[l.code].expires == s.now)
  }

  // A sweep comes before a redemption, both at the redeemed artifact's expiry.
  ghost predicate Collides(trace: seq<State>, labels: seq<Label>, i: nat, j: nat)
    requires |trace| == |labels| + 1
  {
    i < j < |labels| && labels[i].Clean? && trace[i].now == trace[j].now && RedeemsAtExpiry(trace[j], labels[j])
  }

  // What `swept` lacks had expired at some sweep among the first i steps.
  ghost predicate SweptAway<V>(swept: Shelf<V>, full: Shelf<V>, trace: seq<State>, labels: seq<Label>, i: nat)
    requires i < |trace| == |labels| + 1
  {
    && (forall k :: k in swept ==> k in full && full[k] == swept[k])
    && (forall k :: k in full && k !in swept ==> SweptBefore(full[k].expires, trace, labels, i))
  }

  ghost predicate SweptBefore(expires: Time, trace: seq<State>, labels: seq<Label>, i: nat)
    requires i < |trace| == |labels| + 1
  {
    exists h: nat :: h < i && labels[h].Clean? && expires <= trace[h].now
  }

  // The states agree on all but what the sweeps took.
  ghost predicate AgreesWith(full: State, trace: seq<State>, labels: seq<Label>, i: nat)
    requires i < |trace| == |labels| + 1
  {
    && full == trace[i].(states := full.states, codes := full.codes)
    && SweptAway(trace[i].states, full.states, trace, labels, i)
    && SweptAway(trace[i].codes, full.codes, trace, labels, i)
  }

  lemma StepNow(s: State, l: Label)
    requires Enabled(s, l)
    ensures s.now <= Apply(s, l).now
  {
    hide NextStates, NextCodes, NextCalls, NextSessions, NextIssuedStates, NextIssuedCodes;
  }

  lemma {:induction false} NowGrows(trace: seq<State>, labels: seq<Label>, i: nat, j: nat)
    requires IsRun(trace, labels) && i <= j < |trace|
    ensures trace[i].now <= trace[j].now
  {
    hide Apply, Enabled;
    if i < j {
      NowGrows(trace, labels, i, j - 1);
      StepNow(trace[j - 1], labels[j - 1]);
    }
  }

  // What a sweep took was beyond redemption.
  lemma SweptIsExpired(expires: Time, trace: seq<State>, labels: seq<Label>, i: nat)
    requires IsRun(trace, labels) && i < |labels| && SweptBefore(expires, trace, labels, i)
    ensures expires < trace[i].now ||
      (expires == trace[i].now && exists h: nat :: h < i && labels[h].Clean? && trace[h].now == trace[i].now)
  {
    var h: nat :| h < i && labels[h].Clean? && expires <= trace[h].now;
    NowGrows(trace, labels, h, i);
  }

  lemma SweptAwayStep<V>(swept: Shelf<V>, full: Shelf<V>, swept': Shelf<V>, full': Shelf<V>,
                         trace: seq<State>, labels: seq<Label>, i: nat)
    requires i < |labels| && |trace| == |labels| + 1 && SweptAway(swept, full, trace, labels, i)
    requires forall k :: k in swept' ==> k in full' && full'[k] == swept'[k]
    requires forall k :: k in full' && k !in swept' ==>
      k in full && full[k] == full'[k] && (k in swept ==> labels[i].Clean? && full[k].expires <= trace[i].now)
    ensures SweptAway(swept', full', trace, labels, i + 1)
  {
    forall k | k in full' && k !in swept' ensures SweptBefore(full'[k].expires, trace, labels, i + 1) {
      if k in swept {
        assert labels[i].Clean? && full'[k].expires <= trace[i].now;
      } else {
        var h: nat :| h < i && labels[h].Clean? && full[k].expires <= trace[h].now;
        assert h < i + 1;
      }
    }
  }

  // An entry a sweep took is expired at step i, or step i redeems it at its expiry.
  lemma SweptOrAtExpiry(expires: Time, trace: seq<State>, labels: seq<Label>, i: nat)
    requires IsRun(trace, labels) && i < |labels| && SweptBefore(expires, trace, labels, i)
    requires forall h: nat :: !Collides(trace, labels, h, i)
    ensures expires < trace[i].now || !RedeemsAtExpiry(trace[i], labels[i])
    ensures expires <= trace[i].now
  {
    hide RedeemsAtExpiry, Apply, Enabled;
    SweptIsExpired(expires, trace, labels, i);
    if h: nat :| h < i && labels[h].Clean? && trace[h].now == trace[i].now { assert !Collides(trace, labels, h, i); }
  }

  // Both states see the same redemption.
  lemma SameVerdict(full: State, trace: seq<State>, labels: seq<Label>, i: nat)
    requires IsRun(trace, labels) && i < |labels| && Inv(full) && AgreesWith(full, trace, labels, i)
    requires forall h: nat :: !Collides(trace, labels, h, i)
    ensures labels[i].Return? ==>
      Outcome(Verdict(full.states, labels[i].state, full.now)) ==
        Outcome(Verdict(trace[i].states, labels[i].state, full.now))
    ensures labels[i].Exchange? ==>
      Outcome(Verdict(full.codes, labels[i].code, full.now)) ==
        Outcome(Verdict(trace[i].codes, labels[i].code, full.now))
  {
    hide Apply, Enabled, Collides, SweptBefore, CallOk, SessionOk, OneSessionPerCode, OneCallPerState;
    var s, l := trace[i], labels[i];
    if l.Return? && l.state in full.states && l.state !in s.states {
      SweptOrAtExpiry(full.states[l.state].expires, trace, labels, i);
    }
    if l.Exchange? && l.code in full.codes && l.code !in s.codes {
      assert CodeOk(full, l.code);
      SweptOrAtExpiry(full.codes[l.code].expires, trace, labels, i);
    }
  }

  // A step looks at the shelves only to redeem.
  lemma StepIgnoresShelves(s: State, full: State, l: Label)
    requires Enabled(s, l) && !l.Clean? && full == s.(states := full.states, codes := full.codes)
    requires l.Return? ==> Outcome(Verdict(full.states, l.state, s.now)) == Outcome(Verdict(s.states, l.state, s.now))
    requires l.Exchange? ==> Outcome(Verdict(full.codes, l.code, s.now)) == Outcome(Verdict(s.codes, l.code, s.now))
    ensures Enabled(full, l)
    ensures Apply(full, l) == Apply(s, l).(states := Apply(full, l).states, codes := Apply(full, l).codes)
  {
  }

  // A step stores and takes the same entries on both sides.
  lemma StepOnStates(s: State, full: State, l: Label)
    requires Enabled(s, l) && Enabled(full, l) && !l.Clean? && full == s.(states := full.states, codes := full.codes)
    ensures var a, b := Apply(s, l).states, Apply(full, l).states;
      || (a == s.states && b == full.states)
      || (l.Return? && a == Take(s.states, l.state) && b == Take(full.states, l.state))
      || (l.Login? && a == Put(s.states, l.state, s.now + STATE_TTL, ()) &&
        b == Put(full.states, l.state, s.now + STATE_TTL, ()))
  {
    hide NextCodes, NextCalls, NextSessions, NextIssuedStates, NextIssuedCodes;
  }

  lemma StepOnCodes(s: State, full: State, l: Label)
    requires Enabled(s, l) && Enabled(full, l) && !l.Clean? && full == s.(states := full.states, codes := full.codes)
    ensures var a, b := Apply(s, l).codes, Apply(full, l).codes;
      || (a == s.codes && b == full.codes)
      || (l.Exchange? && a == Take(s.codes, l.code) && b == Take(full.codes, l.code))
      || (l.IssueCode? && l.code in a && a == s.codes[l.code := a[l.code]] && b == full.codes[l.code := a[l.code]])
  {
    hide NextStates, NextCalls, NextSessions, NextIssuedStates, NextIssuedCodes;
  }

  // The step of the swept run, taken or skipped by the other.
  lemma AgreesStep(full: State, trace: seq<State>, labels: seq<Label>, i: nat)
    requires IsRun(trace, labels) && i < |labels| && Inv(full) && AgreesWith(full, trace, labels, i)
    requires forall h: nat :: !Collides(trace, labels, h, i)
    ensures labels[i].Clean? ==> AgreesWith(full, trace, labels, i + 1)
    ensures !labels[i].Clean? ==> Enabled(full, labels[i]) && AgreesWith(Apply(full, labels[i]), trace, labels, i + 1)
  {
    var s, l, s' := trace[i], labels[i], trace[i + 1];
    assert Enabled(s, l) && s' == Apply(s, l);
    SameVerdict(full, trace, labels, i);
    if l.Clean? {
      SweptAwayStep(s.states, full.states, s'.states, full.states, trace, labels, i);
      SweptAwayStep(s.codes, full.codes, s'.codes, full.codes, trace, labels, i);
    } else {
      StepIgnoresShelves(s, full, l);
      AgreesShelves(full, trace, labels, i);
    }
  }

  lemma AgreesShelves(full: State, trace: seq<State>, labels: seq<Label>, i: nat)
    requires IsRun(trace, labels) && i < |labels| && AgreesWith(full, trace, labels, i)
    requires !labels[i].Clean? && Enabled(full, labels[i])
    ensures SweptAway(trace[i + 1].states, Apply(full, labels[i]).states, trace, labels, i + 1)
    ensures SweptAway(trace[i + 1].codes, Apply(full, labels[i]).codes, trace, labels, i + 1)
  {
    hide Apply, Enabled;
    var s, l, s', full' := trace[i], labels[i], trace[i + 1], Apply(full, labels[i]);
    assert Enabled(s, l) && s' == Apply(s, l);
    StepOnStates(s, full, l);
    StepOnCodes(s, full, l);
    SweptAwayStep(s.states, full.states, s'.states, full'.states, trace, labels, i);
    SweptAwayStep(s.codes, full.codes, s'.codes, full'.codes, trace, labels, i);
  }

  lemma AgreesAtFirst(trace: seq<State>, labels: seq<Label>)
    requires IsRun(trace, labels)
    ensures AgreesWith(trace[0], trace, labels, 0)
  {
  }

  lemma {:induction false} UnsweptRun(trace: seq<State>, labels: seq<Label>, i: nat) returns (trace': seq<State>)
    requires IsRun(trace, labels) && i < |trace| && forall h: nat, j: nat :: !Collides(trace, labels, h, j)
    ensures IsRun(trace', WithoutSweeps(labels[..i])) && AgreesWith(trace'[|trace'| - 1], trace, labels, i)
  {
    hide Apply, Enabled, AgreesWith, Collides, Inv;
    if i == 0 {
      trace' := [trace[0]];
      AgreesAtFirst(trace, labels);
    } else {
      var h := i - 1;
      trace' := UnsweptRun(trace, labels, h);
      var full, before := trace'[|trace'| - 1], WithoutSweeps(labels[..h]);
      RunKeeps(trace', before, |before|);
      AgreesStep(full, trace, labels, h);
      assert labels[..i][..h] == labels[..h];
      if labels[h].Clean? {
        assert before + [] == before;
      } else {
        trace' := trace' + [Apply(full, labels[h])];
      }
    }
  }

  /** Every run makes the same sessions, callbacks and artifacts as the same run
      without its sweeps, provided no artifact is redeemed at the instant of its
      expiry after a sweep at that same instant. */
  lemma SweepsChangeNoSession(trace: seq<State>, labels: seq<Label>) returns (trace': seq<State>)
    requires IsRun(trace, labels) && forall i: nat, j: nat :: !Collides(trace, labels, i, j)
    ensures IsRun(trace', WithoutSweeps(labels))
    ensures var s, s' := trace[|labels|], trace'[|trace'| - 1];
      && s'.sessions == s.sessions && s'.calls == s.calls && s'.now == s.now
      && s'.issuedStates == s.issuedStates && s'.issuedCodes == s.issuedCodes
  {
    trace' := UnsweptRun(trace, labels, |labels|);
    assert labels[..|labels|] == labels;
  }

  // ---- The store ----

  class AuthStore {
    var pendingStates: Shelf<()>
    var pendingCodes: Shelf<User>

    constructor ()
      ensures pendingStates == map[] && pendingCodes == map[]
    {
      pendingStates, pendingCodes := map[], map[];
    }

    /** The state can be redeemed for five minutes, and no other state is affected. */
    method LoginInitiate(state: string, now: Time)
      modifies this`pendingStates
      ensures pendingStates == old(pendingStates)[state := Entry(now + 300, ())]
      ensures forall later :: Verdict(pendingStates, state, later).Accepted? <==> later <= now + 300
      ensures forall k, later :: k != state ==>
        Verdict(pendingStates, k, later) == Verdict(old(pendingStates), k, later)
    {
      pendingStates := pendingStates[state := Entry(now + STATE_TTL, ())];
    }

    // Removal comes first, so a second redemption of the state finds nothing.
    method RedeemState(state: string, now: Time) returns (ok: bool)
      modifies this`pendingStates
      ensures ok <==> state in old(pendingStates) && now <= old(pendingStates)[state].expires
      ensures pendingStates == old(pendingStates) - {state}
      ensures forall later :: Verdict(pendingStates, state, later) == Missing
    {
      if state !in pendingStates {
        ok := false;
      } else {
        var entry := pendingStates[state];
        ok := !(now > entry.expires);
      }
      pendingStates := pendingStates - {state};
    }

    /** The code can be exchanged by its user until its time to live is over. */
    method IssueCode(code: string, user: User, ttl: nat, now: Time)
      modifies this`pendingCodes
      ensures pendingCodes == old(pendingCodes)[code := Entry(now + ttl, user)]
      ensures forall later ::
        Verdict(pendingCodes, code, later) == if later <= now + ttl then Accepted(user) else Expired
      ensures forall k, later :: k != code ==>
        Verdict(pendingCodes, k, later) == Verdict(old(pendingCodes), k, later)
    {
      pendingCodes := pendingCodes[code := Entry(now + ttl, user)];
    }

    method ExchangeCode(code: string, now: Time) returns (user: Option<User>)
      modifies this`pendingCodes
      ensures user.Some? <==> code in old(pendingCodes) && now <= old(pendingCodes)[code].expires
      ensures user.Some? ==> user.value == old(pendingCodes)[code].value
      ensures pendingCodes == old(pendingCodes) - {code}
      ensures forall later :: Verdict(pendingCodes, code, later) == Missing
    {
      user := None;
      if code in pendingCodes {
        var entry := pendingCodes[code];
        pendingCodes := pendingCodes - {code};
        if now <= entry.expires { user := Some(entry.value); }
      } else {
        assert pendingCodes == pendingCodes - {code};
      }
    }

    /** Nothing that expired by now is kept, every later redemption answers as before,
        and one at this instant does so unless its entry expires right now. */
    method CleanupExpired(now: Time)
      modifies this
      ensures forall k :: k in pendingCodes <==> k in old(pendingCodes) && old(pendingCodes)[k].expires > now
      ensures forall k :: k in pendingCodes ==> pendingCodes[k] == old(pendingCodes)[k]
      ensures forall k :: k in pendingStates <==> k in old(pendingStates) && old(pendingStates)[k].expires > now
      ensures forall k :: k in pendingStates ==> pendingStates[k] == old(pendingStates)[k]
      ensures forall k, later ::
        later > now || (later == now && !(k in old(pendingCodes) && old(pendingCodes)[k].expires == now)) ==>
        Outcome(Verdict(pendingCodes, k, later)) == Outcome(Verdict(old(pendingCodes), k, later))
      ensures forall k, later ::
        later > now || (later == now && !(k in old(pendingStates) && old(pendingStates)[k].expires == now)) ==>
        Outcome(Verdict(pendingStates, k, later)) == Outcome(Verdict(old(pendingStates), k, later))
    {
      var keep := map k | k in pendingCodes && pendingCodes[k].expires > now :: pendingCodes[k];
      pendingCodes := keep;
      pendingStates := map k | k in pendingStates && pendingStates[k].expires > now :: pendingStates[k];
    }
  }
}
