/**
 The device-code grant (sections 3.4 and 3.5 of RFC 8628).

 Any number of `device_token` calls run concurrently.  Every database call is
 one atomic step, and between two steps of one call any other call may move.
 A label carries everything the step does not decide itself: clock readings,
 fresh identifiers and whether the call errored.  An errored write may or may
 not have reached the table, so both outcomes are labels.
 */
module DeviceFlow {
  import opened Basics

  type DeviceCode = string
  type UserCode = string
  type UserId = int
  type TokenId = nat
  type PollId = nat
  type Time = int  // microseconds

  const SECOND: int := 1_000_000

  datatype Status = Pending | PreApproved | Approved | Exchanged | Denied | Unknown

  datatype Row = Row(
    userCode: UserCode, status: Status, expiresAt: Time,
    intervalSecs: int, lastPolledAt: Option<Time>,
    user: Option<UserId>, login: Option<string>, tokenId: Option<TokenId>)

  datatype Token = Token(user: UserId, login: string, revoked: bool)

  datatype Db = Db(rows: map<DeviceCode, Row>, tokens: map<TokenId, Token>)

  // ---- The statements the repositories run, each atomic ----

  predicate CanInsertPending(db: Db, code: DeviceCode, userCode: UserCode) {
    code !in db.rows && forall c :: c in db.rows ==> db.rows[c].userCode != userCode
  }

  function InsertPending(db: Db, code: DeviceCode, userCode: UserCode, now: Time): Db {
    db.(rows := db.rows[code := Row(userCode, Pending, now + 600 * SECOND, 5, None, None, None, None)])
  }

  predicate CanPreApprove(r: Row, userCode: UserCode, now: Time) {
    r.userCode == userCode && r.status == Pending && r.expiresAt > now
  }

  function SetPreApproved(db: Db, userCode: UserCode, user: UserId, login: string, now: Time): Db {
    db.(rows := map c | c in db.rows ::
      if CanPreApprove(db.rows[c], userCode, now)
      then db.rows[c].(status := PreApproved, user := Some(user), login := Some(login))
      else db.rows[c])
  }

  predicate CanApprove(r: Row, userCode: UserCode, user: UserId, now: Time) {
    r.userCode == userCode && r.status == PreApproved && r.user == Some(user) && r.expiresAt > now
  }

  function SetApproved(db: Db, userCode: UserCode, user: UserId, now: Time): Db {
    db.(rows := map c | c in db.rows ::
      if CanApprove(db.rows[c], userCode, user, now) then db.rows[c].(status := Approved) else db.rows[c])
  }

  predicate CanExchange(db: Db, code: DeviceCode) {
    code in db.rows && db.rows[code].status == Approved
  }

  function MarkExchanged(db: Db, code: DeviceCode, token: TokenId): Db {
    if CanExchange(db, code)
    then db.(rows := db.rows[code := db.rows[code].(status := Exchanged, tokenId := Some(token))])
    else db
  }

  function IssueToken(db: Db, token: TokenId, user: UserId, login: string): Db {
    db.(tokens := db.tokens[token := Token(user, login, false)])
  }

  function RevokeToken(db: Db, token: TokenId): Db {
    if token in db.tokens
    then db.(tokens := db.tokens[token := db.tokens[token].(revoked := true)])
    else db
  }

  predicate TooFast(r: Row, now: Time) {
    r.lastPolledAt.Some? && now - r.lastPolledAt.value < r.intervalSecs * SECOND
  }

  // The polling transaction's UPDATE; it is lost when the commit fails.
  function TouchPolled(db: Db, code: DeviceCode, appNow: Time, dbNow: Time): Db
    requires code in db.rows
  {
    var r := db.rows[code];
    var interval := if TooFast(r, appNow) then r.intervalSecs + 5 else r.intervalSecs;
    db.(rows := db.rows[code := r.(lastPolledAt := Some(dbNow), intervalSecs := interval)])
  }

  // ---- One device_token call ----

  datatype Reply = AccessToken(token: TokenId) | Error(name: string)

  datatype Phase =
    | Issuing(user: UserId, login: string)  // about to mint
    | Minted(token: TokenId)                // about to compare-and-set the row
    | Orphaned(token: TokenId)              // lost the race, about to revoke
    | Replied(reply: Reply)

  // What a call's own database errors did: the reply to `issue` (Mint),
  // mark_exchanged (Mark) or revoke was an error, and the statement had either not
  // run (Errored) or run (Unanswered); `applied` tells whether the row took the mark.
  datatype Fault =
    | Clean
    | MintErrored | MintUnanswered
    | MarkErrored | MarkUnanswered(applied: bool)
    | RevokeErrored | RevokeUnanswered

  // `minted` is the token this call put in the table; `minted` and `fault` are history.
  datatype Poll = Poll(code: DeviceCode, phase: Phase, minted: Option<TokenId>, fault: Fault)

  // What a poll does with the row it read, up to its next database call.
  function AfterPoll(r: Row, slowDown: bool, now: Time): Phase {
    if r.expiresAt < now then Replied(Error("expired_token"))
    else if slowDown then Replied(Error("slow_down"))
    else match r.status
      case Pending => Replied(Error("authorization_pending"))
      case PreApproved => Replied(Error("authorization_pending"))
      case Denied => Replied(Error("access_denied"))
      case Exchanged => Replied(Error("invalid_grant"))
      case Approved =>
        if r.user.None? then Replied(Error("server_error"))
        else Issuing(r.user.value, if r.login.Some? then r.login.value else "")
      case Unknown => Replied(Error("server_error"))
  }

  datatype PollOutcome =
    | PollErr
    | PollRead(appNow: Time, dbNow: Time, committed: bool, serviceNow: Time)
  datatype IssueOutcome = Issued(token: TokenId) | IssueErr | IssueErrApplied(token: TokenId)

  datatype Label =
    | Authorize(code: DeviceCode, userCode: UserCode, now: Time)
    | Verify(userCode: UserCode, user: UserId, login: string, now: Time)
    | Approve(userCode: UserCode, user: UserId, now: Time)
    | Deny(code: DeviceCode, status: Status)
    | BeginPoll(poll: PollId, code: DeviceCode, read: PollOutcome)
    | Issue(poll: PollId, issue: IssueOutcome)
    | Mark(poll: PollId, mark: WriteOutcome)
    | Revoke(poll: PollId, revoke: WriteOutcome)
    | IssueElsewhere(token: TokenId, user: UserId, login: string)
    | RevokeByUser(token: TokenId)

  // `approvedBy` is history: who completed the approval of each code.
  datatype State = State(db: Db, polls: map<PollId, Poll>, approvedBy: map<DeviceCode, UserId>)

  const INIT := State(Db(map[], map[]), map[], map[])

  predicate FreshToken(s: State, t: TokenId) {
    t !in s.db.tokens
  }

  predicate Enabled(s: State, l: Label) {
    match l
    case Authorize(code, userCode, _) => CanInsertPending(s.db, code, userCode)
    case Verify(_, _, _, _) => true
    case Approve(_, _, _) => true
    case Deny(code, status) =>
      code in s.db.rows && s.db.rows[code].status != Exchanged && (status == Denied || status == Unknown)
    case BeginPoll(p, _, _) => p !in s.polls
    case Issue(p, o) => p in s.polls && s.polls[p].phase.Issuing? && (o.IssueErr? || FreshToken(s, o.token))
    case Mark(p, _) => p in s.polls && s.polls[p].phase.Minted?
    case Revoke(p, _) => p in s.polls && s.polls[p].phase.Orphaned?
    case IssueElsewhere(t, _, _) => FreshToken(s, t)
    case RevokeByUser(t) => true
  }

  function ApplyBeginPoll(s: State, p: PollId, code: DeviceCode, o: PollOutcome): State {
    match o
    case PollErr => s.(polls := s.polls[p := Poll(code, Replied(Error("server_error")), None, Clean)])
    case PollRead(appNow, dbNow, committed, serviceNow) =>
      if code !in s.db.rows then
        s.(polls := s.polls[p := Poll(code, Replied(Error("invalid_grant")), None, Clean)])
      else
        var r := s.db.rows[code];
        State(
          if committed then TouchPolled(s.db, code, appNow, dbNow) else s.db,
          s.polls[p := Poll(code, AfterPoll(r, TooFast(r, appNow), serviceNow), None, Clean)],
          s.approvedBy)
  }

  function ApplyIssue(s: State, p: PollId, o: IssueOutcome): State
    requires p in s.polls && s.polls[p].phase.Issuing?
  {
    var poll := s.polls[p];
    var user, login := poll.phase.user, poll.phase.login;
    match o
    case Issued(t) =>
      s.(db := IssueToken(s.db, t, user, login),
         polls := s.polls[p := poll.(phase := Minted(t), minted := Some(t))])
    case IssueErr =>
      s.(polls := s.polls[p := poll.(phase := Replied(Error("server_error")), fault := MintErrored)])
    case IssueErrApplied(t) =>
      s.(db := IssueToken(s.db, t, user, login),
         polls := s.polls[p := poll.(phase := Replied(Error("server_error")), minted := Some(t),
           fault := MintUnanswered)])
  }

  function ApplyMark(s: State, p: PollId, o: WriteOutcome): State
    requires p in s.polls && s.polls[p].phase.Minted?
  {
    var poll := s.polls[p];
    var t := poll.phase.token;
    match o
    case WriteOk =>
      s.(db := MarkExchanged(s.db, poll.code, t),
         polls := s.polls[p := poll.(phase :=
           if CanExchange(s.db, poll.code) then Replied(AccessToken(t)) else Orphaned(t))])
    case WriteErr =>
      s.(polls := s.polls[p := poll.(phase := Replied(Error("server_error")), fault := MarkErrored)])
    case WriteErrApplied =>
      s.(db := MarkExchanged(s.db, poll.code, t),
         polls := s.polls[p := poll.(phase := Replied(Error("server_error")),
                                     fault := MarkUnanswered(CanExchange(s.db, poll.code)))])
  }

  function RevokeFault(o: WriteOutcome): Fault {
    if o.WriteOk? then Clean else if o.WriteErr? then RevokeErrored else RevokeUnanswered
  }

  function ApplyRevoke(s: State, p: PollId, o: WriteOutcome): State
    requires p in s.polls && s.polls[p].phase.Orphaned?
  {
    var poll := s.polls[p];
    s.(db := if o.WriteErr? then s.db else RevokeToken(s.db, poll.phase.token),
       polls := s.polls[p := poll.(phase := Replied(Error("invalid_grant")), fault := RevokeFault(o))])
  }

  function ApplyApprove(s: State, userCode: UserCode, user: UserId, now: Time): State {
    s.(db := SetApproved(s.db, userCode, user, now),
       approvedBy := s.approvedBy +
         map c | c in s.db.rows && CanApprove(s.db.rows[c], userCode, user, now) :: user)
  }

  function Apply(s: State, l: Label): State
    requires Enabled(s, l)
  {
    match l
    case Authorize(code, userCode, now) => s.(db := InsertPending(s.db, code, userCode, now))
    case Verify(userCode, user, login, now) => s.(db := SetPreApproved(s.db, userCode, user, login, now))
    case Approve(userCode, user, now) => ApplyApprove(s, userCode, user, now)
    case Deny(code, status) => s.(db := s.db.(rows := s.db.rows[code := s.db.rows[code].(status := status)]))
    case BeginPoll(p, code, o) => ApplyBeginPoll(s, p, code, o)
    case Issue(p, o) => ApplyIssue(s, p, o)
    case Mark(p, o) => ApplyMark(s, p, o)
    case Revoke(p, o) => ApplyRevoke(s, p, o)
    case IssueElsewhere(t, user, login) => s.(db := IssueToken(s.db, t, user, login))
    case RevokeByUser(t) => s.(db := RevokeToken(s.db, t))
  }

  ghost predicate IsRun(trace: seq<State>, labels: seq<Label>) {
    && |trace| == |labels| + 1
    && trace[0] == INIT
    && forall i :: 0 <= i < |labels| ==> Enabled(trace[i], labels[i]) && trace[i + 1] == Apply(trace[i], labels[i])
  }

  // ---- The invariant ----

  ghost predicate UserCodesUnique(rows: map<DeviceCode, Row>) {
    forall c, d :: c in rows && d in rows && rows[c].userCode == rows[d].userCode ==> c == d
  }

  // A row past approval names the user who approved it.
  ghost predicate RowOk(s: State, c: DeviceCode)
    requires c in s.db.rows
  {
    var r := s.db.rows[c];
    && (r.status.Pending? || r.status.PreApproved? ==> c !in s.approvedBy)
    && (r.status.Approved? || r.status.Exchanged? ==> c in s.approvedBy)
    && (c in s.approvedBy ==> r.user == Some(s.approvedBy[c]))
    && (r.status.Exchanged? <==> r.tokenId.Some?)
    && (r.tokenId.Some? ==> exists p :: p in s.polls && Holds(s, p, c, r.tokenId.value))
  }

  // Poll p minted t for code c and either returned it or never learnt that the row took it.
  ghost predicate Holds(s: State, p: PollId, c: DeviceCode, t: TokenId)
    requires p in s.polls
  {
    var poll := s.polls[p];
    && poll.code == c && poll.minted == Some(t) && poll.phase.Replied?
    && (poll.phase.reply == AccessToken(t) || poll.fault == MarkUnanswered(true))
  }

  ghost predicate PollOk(s: State, p: PollId)
    requires p in s.polls
  {
    var poll := s.polls[p];
    && (poll.minted.Some? ==>
         && poll.minted.value in s.db.tokens
         && poll.code in s.approvedBy
         && s.db.tokens[poll.minted.value].user == s.approvedBy[poll.code])
    && (!poll.phase.Replied? || poll.phase.reply.AccessToken? ==> poll.fault.Clean?)
    && match poll.phase
       case Issuing(user, _) => poll.minted.None? && poll.code in s.approvedBy && s.approvedBy[poll.code] == user
       case Minted(t) => poll.minted == Some(t)
       case Orphaned(t) => poll.minted == Some(t)
       case Replied(AccessToken(t)) =>
         && poll.minted == Some(t)
         && poll.code in s.db.rows
         && s.db.rows[poll.code].tokenId == Some(t)
       case Replied(Error(_)) =>
         match poll.fault
         case Clean => poll.minted.Some? ==> s.db.tokens[poll.minted.value].revoked
         case MintErrored => poll.minted.None?
         case MintUnanswered => poll.minted.Some?
         case MarkErrored => poll.minted.Some?
         case MarkUnanswered(applied) =>
           poll.minted.Some? && (applied ==> poll.code in s.db.rows && s.db.rows[poll.code].tokenId == poll.minted)
         case RevokeErrored => poll.minted.Some?
         case RevokeUnanswered => poll.minted.Some? && s.db.tokens[poll.minted.value].revoked
  }

  ghost predicate MintedOnce(s: State) {
    forall p, q ::
      p in s.polls && q in s.polls && s.polls[p].minted.Some? && s.polls[p].minted == s.polls[q].minted ==> p == q
  }

  ghost predicate Inv(s: State) {
    && UserCodesUnique(s.db.rows)
    && s.approvedBy.Keys <= s.db.rows.Keys
    && (forall c :: c in s.db.rows ==> RowOk(s, c))
    && (forall p :: p in s.polls ==> PollOk(s, p))
    && MintedOnce(s)
  }

  // ---- Every step keeps the invariant ----

  lemma AuthorizeKeeps(s: State, l: Label)
    requires Inv(s) && l.Authorize? && Enabled(s, l)
    ensures Inv(Apply(s, l))
  {
    var s' := Apply(s, l);
    forall c | c in s'.db.rows ensures RowOk(s', c) {
      if c != l.code { assert RowOk(s, c); }
    }
    forall p | p in s'.polls ensures PollOk(s', p) { assert PollOk(s, p); }
  }

  // Steps that rewrite rows without touching token ids, polls or tokens.
  lemma RowRewriteKeeps(s: State, s': State)
    requires Inv(s) && s'.polls == s.polls && s'.db.tokens == s.db.tokens
    requires s'.db.rows.Keys == s.db.rows.Keys
    requires s.approvedBy.Keys <= s'.approvedBy.Keys <= s.db.rows.Keys
    requires forall c :: c in s.approvedBy ==> s'.approvedBy[c] == s.approvedBy[c]
    requires forall c :: c in s.db.rows ==>
      var r, r' := s.db.rows[c], s'.db.rows[c];
      && r'.userCode == r.userCode
      && r'.tokenId == r.tokenId
      && (r'.status.Exchanged? <==> r.status.Exchanged?)
      && (r'.status.Pending? || r'.status.PreApproved? ==> c !in s'.approvedBy)
      && (r'.status.Approved? ==> c in s'.approvedBy)
      && (c in s'.approvedBy ==> r'.user == Some(s'.approvedBy[c]))
    ensures Inv(s')
  {
    forall c | c in s'.db.rows ensures RowOk(s', c) {
      assert RowOk(s, c);
      if s.db.rows[c].tokenId.Some? {
        var p :| p in s.polls && Holds(s, p, c, s.db.rows[c].tokenId.value);
        assert Holds(s', p, c, s'.db.rows[c].tokenId.value);
      }
    }
    forall p | p in s'.polls ensures PollOk(s', p) { assert PollOk(s, p); }
  }

  lemma RowStepKeeps(s: State, l: Label)
    requires Inv(s) && (l.Verify? || l.Approve? || l.Deny?) && Enabled(s, l)
    ensures Inv(Apply(s, l))
  {
    match l
    case Verify(_, _, _, _) => VerifyKeeps(s, l);
    case Approve(_, _, _) => ApproveKeeps(s, l);
    case Deny(_, _) => DenyKeeps(s, l);
  }

  lemma VerifyKeeps(s: State, l: Label)
    requires Inv(s) && l.Verify? && Enabled(s, l)
    ensures Inv(Apply(s, l))
  {
    assert forall c :: c in s.db.rows ==> RowOk(s, c);
    assert s.approvedBy.Keys <= s.db.rows.Keys;
    hide Inv, Holds, PollOk;
    RowRewriteKeeps(s, Apply(s, l));
  }

  lemma ApproveKeeps(s: State, l: Label)
    requires Inv(s) && l.Approve? && Enabled(s, l)
    ensures Inv(Apply(s, l))
  {
    assert forall c :: c in s.db.rows ==> RowOk(s, c);
    assert s.approvedBy.Keys <= s.db.rows.Keys;
    hide Inv, Holds, PollOk;
    RowRewriteKeeps(s, Apply(s, l));
  }

  lemma DenyKeeps(s: State, l: Label)
    requires Inv(s) && l.Deny? && Enabled(s, l)
    ensures Inv(Apply(s, l))
  {
    assert forall c :: c in s.db.rows ==> RowOk(s, c);
    assert s.approvedBy.Keys <= s.db.rows.Keys;
    hide Inv, Holds, PollOk;
    RowRewriteKeeps(s, Apply(s, l));
  }

  // A new poll touches no token and nothing of a row but its polling columns.
  lemma BeginPollFrame(s: State, l: Label)
    requires l.BeginPoll? && Enabled(s, l)
    ensures var s' := Apply(s, l);
      && s'.approvedBy == s.approvedBy && s'.db.tokens == s.db.tokens && s'.db.rows.Keys == s.db.rows.Keys
      && (forall c :: c in s.db.rows ==> SameGrant(s.db.rows[c], s'.db.rows[c]))
      && l.poll in s'.polls && s'.polls[l.poll].minted.None?
      && s'.polls == s.polls[l.poll := s'.polls[l.poll]]
  {
    hide AfterPoll, TooFast;
  }

  predicate SameGrant(r: Row, r': Row) {
    r'.userCode == r.userCode && r'.status == r.status && r'.user == r.user && r'.tokenId == r.tokenId
  }

  lemma BeginPollRow(s: State, l: Label, c: DeviceCode)
    requires Inv(s) && l.BeginPoll? && Enabled(s, l) && c in s.db.rows
    ensures c in Apply(s, l).db.rows && RowOk(Apply(s, l), c)
  {
    var s' := Apply(s, l);
    BeginPollFrame(s, l);
    assert RowOk(s, c) && l.poll !in s.polls && SameGrant(s.db.rows[c], s'.db.rows[c]);
    hide Apply, Enabled, Inv;
    if s.db.rows[c].tokenId.Some? {
      var p :| p in s.polls && Holds(s, p, c, s.db.rows[c].tokenId.value);
      assert Holds(s', p, c, s'.db.rows[c].tokenId.value);
    }
  }

  // A poll replies with an error, or goes on to mint for the user of an approved row.
  lemma AfterPollCases(r: Row, slowDown: bool, now: Time)
    ensures match AfterPoll(r, slowDown, now)
      case Issuing(user, _) => r.status.Approved? && r.user == Some(user)
      case Replied(reply) => reply.Error?
      case _ => false
  {
  }

  lemma NewPollOk(s: State, l: Label)
    requires Inv(s) && l.BeginPoll? && Enabled(s, l)
    ensures l.poll in Apply(s, l).polls && PollOk(Apply(s, l), l.poll)
  {
    if l.read.PollRead? && l.code in s.db.rows {
      var r := s.db.rows[l.code];
      assert RowOk(s, l.code);
      AfterPollCases(r, TooFast(r, l.read.appNow), l.read.serviceNow);
    }
    hide AfterPoll, TooFast, TouchPolled, Inv;
  }

  // Another poll touches neither the tokens nor what a row records.
  lemma OtherPollOk(s: State, l: Label, p: PollId)
    requires Inv(s) && l.BeginPoll? && Enabled(s, l) && p in s.polls
    ensures p in Apply(s, l).polls && PollOk(Apply(s, l), p)
  {
    assert PollOk(s, p) && l.poll !in s.polls;
    BeginPollFrame(s, l);
    hide Apply, Enabled, Inv;
    assert Apply(s, l).polls[p] == s.polls[p];
    if s.polls[p].code in s.db.rows {
      assert SameGrant(s.db.rows[s.polls[p].code], Apply(s, l).db.rows[s.polls[p].code]);
    }
  }

  lemma BeginPollPoll(s: State, l: Label, p: PollId)
    requires Inv(s) && l.BeginPoll? && Enabled(s, l) && p in Apply(s, l).polls
    ensures PollOk(Apply(s, l), p)
  {
    hide AfterPoll, TooFast, TouchPolled, Inv, PollOk;
    if p == l.poll { NewPollOk(s, l); } else { OtherPollOk(s, l, p); }
  }

  lemma BeginPollKeeps(s: State, l: Label)
    requires Inv(s) && l.BeginPoll? && Enabled(s, l)
    ensures Inv(Apply(s, l))
  {
    var s' := Apply(s, l);
    BeginPollFrame(s, l);
    hide Apply, Enabled, PollOk, RowOk;
    assert forall c :: c in s.db.rows ==> s'.db.rows[c].userCode == s.db.rows[c].userCode;
    assert UserCodesUnique(s'.db.rows);
    forall c | c in s'.db.rows ensures RowOk(s', c) { BeginPollRow(s, l, c); }
    forall p | p in s'.polls ensures PollOk(s', p) { BeginPollPoll(s, l, p); }
  }

  // Steps that only add or revoke tokens, on behalf of nobody's poll.
  lemma TokenStepKeeps(s: State, l: Label)
    requires Inv(s) && (l.IssueElsewhere? || l.RevokeByUser?) && Enabled(s, l)
    ensures Inv(Apply(s, l))
  {
    var s' := Apply(s, l);
    TokenStepFrame(s, l);
    hide Apply, Enabled;
    forall c | c in s'.db.rows ensures RowOk(s', c) {
      assert RowOk(s, c);
      if s.db.rows[c].tokenId.Some? {
        var p :| p in s.polls && Holds(s, p, c, s.db.rows[c].tokenId.value);
        assert Holds(s', p, c, s'.db.rows[c].tokenId.value);
      }
    }
    forall p | p in s'.polls ensures PollOk(s', p) { assert PollOk(s, p); }
  }

  lemma TokenStepFrame(s: State, l: Label)
    requires (l.IssueElsewhere? || l.RevokeByUser?) && Enabled(s, l)
    ensures var s' := Apply(s, l);
      && s' == s.(db := s.db.(tokens := s'.db.tokens)) && s.db.tokens.Keys <= s'.db.tokens.Keys
      && forall t :: t in s.db.tokens ==>
           s'.db.tokens[t].user == s.db.tokens[t].user && (s.db.tokens[t].revoked ==> s'.db.tokens[t].revoked)
  {
  }

  // A poll in flight holds no row, so moving it leaves every row's holder alone.
  lemma HolderUntouched(s: State, s': State, p: PollId, c: DeviceCode)
    requires Inv(s) && p in s.polls && !s.polls[p].phase.Replied?
    requires p in s'.polls && s'.polls == s.polls[p := s'.polls[p]]
    requires c in s.db.rows && s.db.rows[c].tokenId.Some?
    ensures exists q :: q in s'.polls && Holds(s', q, c, s.db.rows[c].tokenId.value)
  {
    assert RowOk(s, c);
    var q :| q in s.polls && Holds(s, q, c, s.db.rows[c].tokenId.value);
    assert Holds(s', q, c, s.db.rows[c].tokenId.value);
  }

  // Only the moving call's entry changes.
  lemma IssueFrame(s: State, l: Label)
    requires l.Issue? && Enabled(s, l)
    ensures var s' := Apply(s, l);
      && s'.approvedBy == s.approvedBy && s'.db.rows == s.db.rows
      && l.poll in s'.polls && s'.polls == s.polls[l.poll := s'.polls[l.poll]]
      && s'.polls[l.poll].code == s.polls[l.poll].code
      && (s'.polls[l.poll].minted != s.polls[l.poll].minted ==>
        s'.polls[l.poll].minted.Some? && FreshToken(s, s'.polls[l.poll].minted.value))
      && s.db.tokens.Keys <= s'.db.tokens.Keys && (forall t :: t in s.db.tokens ==> s'.db.tokens[t] == s.db.tokens[t])
  {
  }

  lemma IssuePoll(s: State, l: Label, p: PollId)
    requires Inv(s) && l.Issue? && Enabled(s, l) && p in s.polls
    ensures p in Apply(s, l).polls && PollOk(Apply(s, l), p)
  {
    assert PollOk(s, p);
    IssueFrame(s, l);
  }

  lemma IssueMintedOnce(s: State, l: Label)
    requires Inv(s) && l.Issue? && Enabled(s, l)
    ensures MintedOnce(Apply(s, l))
  {
    IssueFrame(s, l);
    assert forall p :: p in s.polls && s.polls[p].minted.Some? ==> PollOk(s, p);
  }

  lemma IssueKeeps(s: State, l: Label)
    requires Inv(s) && l.Issue? && Enabled(s, l)
    ensures Inv(Apply(s, l))
  {
    var s' := Apply(s, l);
    IssueFrame(s, l);
    IssueMintedOnce(s, l);
    forall c | c in s'.db.rows ensures RowOk(s', c) {
      assert RowOk(s, c);
      if s.db.rows[c].tokenId.Some? { HolderUntouched(s, s', l.poll, c); }
    }
    forall p | p in s'.polls ensures PollOk(s', p) { IssuePoll(s, l, p); }
  }

  lemma MarkFrame(s: State, l: Label)
    requires l.Mark? && Enabled(s, l)
    ensures var s' := Apply(s, l);
      && s'.approvedBy == s.approvedBy && s'.db.tokens == s.db.tokens && s'.db.rows.Keys == s.db.rows.Keys
      && (forall c :: c in s.db.rows ==> s'.db.rows[c].userCode == s.db.rows[c].userCode)
      && l.poll in s'.polls && s'.polls == s.polls[l.poll := s'.polls[l.poll]]
      && s'.polls[l.poll].minted == s.polls[l.poll].minted && s'.polls[l.poll].code == s.polls[l.poll].code
  {
  }

  // What the mark does to the rows and to the call.
  lemma MarkEffect(s: State, l: Label)
    requires l.Mark? && Enabled(s, l)
    ensures var s', poll := Apply(s, l), s.polls[l.poll];
      var took := !l.mark.WriteErr? && CanExchange(s.db, poll.code);
      && s'.db.rows == (if took
           then s.db.rows[poll.code := s.db.rows[poll.code].(status := Exchanged, tokenId := Some(poll.phase.token))]
           else s.db.rows)
      && l.poll in s'.polls && s'.polls[l.poll].minted == poll.minted && s'.polls[l.poll].code == poll.code
      && (took ==> s'.polls[l.poll].phase == Replied(AccessToken(poll.phase.token)) ||
                   (s'.polls[l.poll].phase.Replied? && s'.polls[l.poll].fault == MarkUnanswered(true)))
  {
  }

  // The one row that is marked, and all others unchanged; a row with a token is not marked again.
  lemma MarkedRow(s: State, l: Label, c: DeviceCode)
    requires Inv(s) && l.Mark? && Enabled(s, l) && c in s.db.rows
    ensures c in Apply(s, l).db.rows
    ensures var r, r' := s.db.rows[c], Apply(s, l).db.rows[c];
      || r' == r
      || (&& r.status.Approved? && r.tokenId.None? && c == s.polls[l.poll].code
          && Holds(Apply(s, l), l.poll, c, s.polls[l.poll].phase.token)
          && r' == r.(status := Exchanged, tokenId := Some(s.polls[l.poll].phase.token)))
  {
    assert RowOk(s, c) && PollOk(s, l.poll);
    MarkEffect(s, l);
    hide Apply, Inv;
  }

  lemma MarkRow(s: State, l: Label, c: DeviceCode)
    requires Inv(s) && l.Mark? && Enabled(s, l) && c in s.db.rows
    ensures c in Apply(s, l).db.rows && RowOk(Apply(s, l), c)
  {
    var s' := Apply(s, l);
    assert RowOk(s, c);
    MarkFrame(s, l);
    MarkedRow(s, l, c);
    if s.db.rows[c].tokenId.Some? { HolderUntouched(s, s', l.poll, c); }
  }

  lemma MarkPoll(s: State, l: Label, p: PollId)
    requires Inv(s) && l.Mark? && Enabled(s, l) && p in s.polls
    ensures p in Apply(s, l).polls && PollOk(Apply(s, l), p)
  {
    assert PollOk(s, p);
    MarkFrame(s, l);
    if p != l.poll && s.polls[p].code in s.db.rows { MarkedRow(s, l, s.polls[p].code); }
  }

  lemma MarkKeeps(s: State, l: Label)
    requires Inv(s) && l.Mark? && Enabled(s, l)
    ensures Inv(Apply(s, l))
  {
    var s' := Apply(s, l);
    MarkFrame(s, l);
    forall c | c in s'.db.rows ensures RowOk(s', c) { MarkRow(s, l, c); }
    forall p | p in s'.polls ensures PollOk(s', p) { MarkPoll(s, l, p); }
  }

  lemma RevokeFrame(s: State, l: Label)
    requires l.Revoke? && Enabled(s, l)
    ensures var s' := Apply(s, l);
      && s'.approvedBy == s.approvedBy && s'.db.rows == s.db.rows && s'.db.tokens.Keys == s.db.tokens.Keys
      && (forall t :: t in s.db.tokens ==>
            s'.db.tokens[t].user == s.db.tokens[t].user && (s.db.tokens[t].revoked ==> s'.db.tokens[t].revoked))
      && l.poll in s'.polls && s'.polls == s.polls[l.poll := s'.polls[l.poll]]
      && s'.polls[l.poll].minted == s.polls[l.poll].minted && s'.polls[l.poll].code == s.polls[l.poll].code
  {
  }

  lemma RevokeRow(s: State, l: Label, c: DeviceCode)
    requires Inv(s) && l.Revoke? && Enabled(s, l) && c in s.db.rows
    ensures c in Apply(s, l).db.rows && RowOk(Apply(s, l), c)
  {
    var s' := Apply(s, l);
    assert RowOk(s, c) && !s.polls[l.poll].phase.Replied?;
    RevokeFrame(s, l);
    hide Apply, Enabled, PollOk;
    if s.db.rows[c].tokenId.Some? { HolderUntouched(s, s', l.poll, c); }
  }

  lemma RevokePoll(s: State, l: Label, p: PollId)
    requires Inv(s) && l.Revoke? && Enabled(s, l) && p in s.polls
    ensures p in Apply(s, l).polls && PollOk(Apply(s, l), p)
  {
    assert PollOk(s, p);
    hide Inv;
    if p != l.poll {
      RevokeFrame(s, l);
      hide Apply, Enabled;
      assert Apply(s, l).polls[p] == s.polls[p];
    }
  }

  lemma RevokeKeeps(s: State, l: Label)
    requires Inv(s) && l.Revoke? && Enabled(s, l)
    ensures Inv(Apply(s, l))
  {
    var s' := Apply(s, l);
    assert PollOk(s, l.poll);
    RevokeFrame(s, l);
    hide Apply, Enabled;
    forall c | c in s'.db.rows ensures RowOk(s', c) { RevokeRow(s, l, c); }
    forall p | p in s'.polls ensures PollOk(s', p) { RevokePoll(s, l, p); }
  }

  lemma StepKeeps(s: State, l: Label)
    requires Inv(s) && Enabled(s, l)
    ensures Inv(Apply(s, l))
  {
    match l
    case Authorize(_, _, _) => AuthorizeKeeps(s, l);
    case Verify(_, _, _, _) => RowStepKeeps(s, l);
    case Approve(_, _, _) => RowStepKeeps(s, l);
    case Deny(_, _) => RowStepKeeps(s, l);
    case BeginPoll(_, _, _) => BeginPollKeeps(s, l);
    case Issue(_, _) => IssueKeeps(s, l);
    case Mark(_, _) => MarkKeeps(s, l);
    case Revoke(_, _) => RevokeKeeps(s, l);
    case IssueElsewhere(_, _, _) => TokenStepKeeps(s, l);
    case RevokeByUser(_) => TokenStepKeeps(s, l);
  }

  lemma {:induction false} RunKeeps(trace: seq<State>, labels: seq<Label>, i: nat)
    requires IsRun(trace, labels) && i < |trace|
    ensures Inv(trace[i])
  {
    if i > 0 {
      RunKeeps(trace, labels, i - 1);
      StepKeeps(trace[i - 1], labels[i - 1]);
    }
  }

  lemma RepliedStays(s: State, l: Label, p: PollId)
    requires Enabled(s, l) && p in s.polls && s.polls[p].phase.Replied?
    ensures p in Apply(s, l).polls && Apply(s, l).polls[p] == s.polls[p]
  {
    hide AfterPoll, TooFast, SetPreApproved, SetApproved, IssueToken, RevokeToken, MarkExchanged, InsertPending,
      CanInsertPending;
  }

  // A call that has replied never changes again.
  lemma {:induction false} ReplyIsFinal(trace: seq<State>, labels: seq<Label>, i: nat, j: nat, p: PollId)
    requires IsRun(trace, labels) && i <= j < |trace|
    requires p in trace[i].polls && trace[i].polls[p].phase.Replied?
    ensures p in trace[j].polls && trace[j].polls[p] == trace[i].polls[p]
  {
    hide Apply, Enabled;
    if i < j {
      ReplyIsFinal(trace, labels, i, j - 1, p);
      RepliedStays(trace[j - 1], labels[j - 1], p);
    }
  }

  ghost predicate Returned(s: State, p: PollId, c: DeviceCode, t: TokenId) {
    p in s.polls && s.polls[p].code == c && s.polls[p].phase == Replied(AccessToken(t))
  }

  ghost predicate LiveToken(s: State, t: TokenId) {
    t in s.db.tokens && !s.db.tokens[t].revoked
  }

  // The recorded token went to one call, and no other call got any.
  ghost predicate HandedOutOnce(s: State, c: DeviceCode) {
    && c in s.db.rows && s.db.rows[c].tokenId.Some?
    && exists p :: Returned(s, p, c, s.db.rows[c].tokenId.value) && forall q, u :: Returned(s, q, c, u) ==> q == p
  }

  // ---- Main results ----

  /** At most one call per device code ever returns a token, it is the token on
      the row, and it belongs to the user who approved the code. */
  lemma ExactlyOnceExchange(trace: seq<State>, labels: seq<Label>, i: nat, j: nat,
                            p: PollId, q: PollId, c: DeviceCode, t: TokenId, u: TokenId)
    requires IsRun(trace, labels) && i <= j < |trace|
    requires Returned(trace[i], p, c, t)
    requires Returned(trace[j], q, c, u)
    ensures p == q && t == u
    ensures c in trace[j].db.rows && trace[j].db.rows[c].status == Exchanged && trace[j].db.rows[c].tokenId == Some(t)
    ensures t in trace[j].db.tokens && c in trace[j].approvedBy && trace[j].db.tokens[t].user == trace[j].approvedBy[c]
  {
    ReplyIsFinal(trace, labels, i, j, p);
    RunKeeps(trace, labels, j);
    assert PollOk(trace[j], p) && PollOk(trace[j], q);
    assert RowOk(trace[j], c);
  }

  ghost predicate Recorded(s: State, t: TokenId) {
    exists c :: c in s.db.rows && s.db.rows[c].tokenId == Some(t)
  }

  // The faults after which the call's token is on no row and not revoked.
  predicate LosesToken(f: Fault) {
    f.MintUnanswered? || f.MarkErrored? || f == MarkUnanswered(false) || f.RevokeErrored?
  }

  /** Every token a call minted is on its row (returned, or the reply to the mark
      was lost), is still in the call's hands, is revoked, or was lost by one of
      the four losing faults. */
  lemma NoStrayToken(trace: seq<State>, labels: seq<Label>, i: nat, p: PollId)
    requires IsRun(trace, labels) && i < |trace|
    requires p in trace[i].polls && trace[i].polls[p].minted.Some?
    ensures
      var s, poll := trace[i], trace[i].polls[p];
      var t := poll.minted.value;
      t in s.db.tokens &&
      ( || (poll.code in s.db.rows && s.db.rows[poll.code].tokenId == Some(t) &&
             (Returned(s, p, poll.code, t) || poll.fault == MarkUnanswered(true)))
        || poll.phase == Minted(t) || poll.phase == Orphaned(t)
        || s.db.tokens[t].revoked
        || LosesToken(poll.fault))
  {
    RunKeeps(trace, labels, i);
    assert PollOk(trace[i], p);
  }

  // A row's token was put there by a call that returned it or lost the reply to its mark.
  lemma RecordedByHolder(s: State, t: TokenId) returns (q: PollId)
    requires Inv(s) && Recorded(s, t)
    ensures q in s.polls && Holds(s, q, s.polls[q].code, t)
  {
    var c :| c in s.db.rows && s.db.rows[c].tokenId == Some(t);
    assert RowOk(s, c);
    q :| q in s.polls && Holds(s, q, c, t);
  }

  /** Once a call has replied, a token it minted is live although no row records it
      exactly when one of the losing faults befell the call and nobody has revoked
      the token since. */
  lemma StrayExactly(trace: seq<State>, labels: seq<Label>, i: nat, p: PollId)
    requires IsRun(trace, labels) && i < |trace|
    requires p in trace[i].polls && trace[i].polls[p].phase.Replied?
    ensures var s, poll := trace[i], trace[i].polls[p];
      && (LosesToken(poll.fault) ==> poll.minted.Some?)
      && (poll.minted.Some? ==>
           var t := poll.minted.value;
           (LiveToken(s, t) && !Recorded(s, t) <==> LiveToken(s, t) && LosesToken(poll.fault)))
  {
    var s, poll := trace[i], trace[i].polls[p];
    RunKeeps(trace, labels, i);
    assert PollOk(s, p);
    if poll.minted.Some? && Recorded(s, poll.minted.value) {
      var q := RecordedByHolder(s, poll.minted.value);
      assert q == p;
    }
  }

  /** When every call on a code has replied and none of them saw an error, the
      unrevoked tokens minted for it are at most the recorded one, and an
      exchanged row's token was handed to exactly one call. */
  lemma QuiescentCode(trace: seq<State>, labels: seq<Label>, i: nat, c: DeviceCode)
    requires IsRun(trace, labels) && i < |trace| && c in trace[i].db.rows
    requires forall p :: p in trace[i].polls && trace[i].polls[p].code == c ==>
      trace[i].polls[p].phase.Replied? && trace[i].polls[p].fault.Clean?
    ensures var s := trace[i];
      && (forall p ::
            p in s.polls && s.polls[p].code == c && s.polls[p].minted.Some? && LiveToken(s, s.polls[p].minted.value) ==>
            s.db.rows[c].tokenId == s.polls[p].minted && Returned(s, p, c, s.polls[p].minted.value))
      && (s.db.rows[c].status == Exchanged ==> HandedOutOnce(s, c))
  {
    var s := trace[i];
    RunKeeps(trace, labels, i);
    assert RowOk(s, c);
    assert forall p :: p in s.polls ==> PollOk(s, p);
    if s.db.rows[c].status == Exchanged {
      var p :| p in s.polls && Holds(s, p, c, s.db.rows[c].tokenId.value);
      assert Returned(s, p, c, s.db.rows[c].tokenId.value);
      forall q, u | Returned(s, q, c, u) ensures q == p {
        assert PollOk(s, q);
      }
    }
  }

  // ---- An approval is never lost ----

  // The call's mark_exchanged ran, whatever came of it.
  predicate MarkRan(poll: Poll) {
    || poll.phase.Orphaned?
    || (poll.phase.Replied? && poll.minted.Some? &&
        !poll.fault.MintErrored? && !poll.fault.MintUnanswered? && !poll.fault.MarkErrored?)
  }

  predicate Refused(status: Status) { status.Denied? || status.Unknown? }

  predicate Closed(status: Status) { status.Exchanged? || Refused(status) }

  // A step leaves a closed row closed, and an exchanged one exchanged.
  lemma ClosedStays(s: State, l: Label, c: DeviceCode)
    requires Enabled(s, l) && c in s.db.rows && Closed(s.db.rows[c].status)
    ensures c in Apply(s, l).db.rows && Closed(Apply(s, l).db.rows[c].status)
    ensures s.db.rows[c].status.Exchanged? ==> Apply(s, l).db.rows[c].status.Exchanged?
  {
    hide AfterPoll, TooFast;
  }

  lemma MarkRanBefore(s: State, l: Label, p: PollId)
    requires Enabled(s, l) && p in Apply(s, l).polls && MarkRan(Apply(s, l).polls[p])
    ensures p in s.polls && Apply(s, l).polls[p].code == s.polls[p].code
    ensures MarkRan(s.polls[p]) || (l.Mark? && l.poll == p && !l.mark.WriteErr?)
  {
    hide AfterPoll, TooFast, SetPreApproved, SetApproved, IssueToken, RevokeToken, MarkExchanged, InsertPending,
      CanInsertPending, TouchPolled;
    if l.BeginPoll? && l.read.PollRead? && l.code in s.db.rows {
      var r := s.db.rows[l.code];
      AfterPollCases(r, TooFast(r, l.read.appNow), l.read.serviceNow);
    }
  }

  // The row a call marks is approved, and then exchanged, or was closed already.
  lemma MarkCloses(s: State, l: Label)
    requires Inv(s) && l.Mark? && !l.mark.WriteErr? && Enabled(s, l)
    ensures var c, s' := s.polls[l.poll].code, Apply(s, l); c in s'.db.rows && Closed(s'.db.rows[c].status)
  {
    var c := s.polls[l.poll].code;
    assert PollOk(s, l.poll);
    assert c in s.db.rows;
    assert RowOk(s, c);
    MarkEffect(s, l);
    hide Apply, Inv;
  }

  ghost predicate ClosedFor(s: State, p: PollId)
    requires p in s.polls
  {
    s.polls[p].code in s.db.rows && Closed(s.db.rows[s.polls[p].code].status)
  }

  lemma {:induction false} MarkedIsClosed(trace: seq<State>, labels: seq<Label>, i: nat, p: PollId)
    requires IsRun(trace, labels) && i < |trace| && p in trace[i].polls && MarkRan(trace[i].polls[p])
    ensures ClosedFor(trace[i], p)
  {
    hide Apply, Enabled, MarkRan, Closed;
    assert i > 0;
    var s, l := trace[i - 1], labels[i - 1];
    MarkRanBefore(s, l, p);
    if MarkRan(s.polls[p]) {
      MarkedIsClosed(trace, labels, i - 1, p);
      ClosedStays(s, l, s.polls[p].code);
    } else {
      RunKeeps(trace, labels, i - 1);
      MarkCloses(s, l);
    }
  }

  lemma DeniedByDeny(s: State, l: Label, c: DeviceCode)
    requires Enabled(s, l) && c in Apply(s, l).db.rows
    requires Refused(Apply(s, l).db.rows[c].status)
    ensures (l.Deny? && l.code == c) || (c in s.db.rows && Refused(s.db.rows[c].status))
  {
    hide AfterPoll, TooFast;
  }

  ghost predicate NeverDenied(labels: seq<Label>, i: nat, c: DeviceCode)
    requires i <= |labels|
  {
    forall j :: 0 <= j < i ==> !(labels[j].Deny? && labels[j].code == c)
  }

  lemma {:induction false} NotDenied(trace: seq<State>, labels: seq<Label>, i: nat, c: DeviceCode)
    requires IsRun(trace, labels) && i < |trace| && c in trace[i].db.rows && NeverDenied(labels, i, c)
    ensures !Refused(trace[i].db.rows[c].status)
  {
    hide Apply, Enabled;
    if i > 0 && Refused(trace[i].db.rows[c].status) {
      DeniedByDeny(trace[i - 1], labels[i - 1], c);
      NotDenied(trace, labels, i - 1, c);
    }
  }

  /** Once some call's mark has run, its row is closed for good: an approval that
      reached the mark is not left open, and unless the code was denied it is
      exchanged.  When moreover every call on the code has replied without an error,
      exactly one of them was given the token. */
  lemma ApprovalIsNotLost(trace: seq<State>, labels: seq<Label>, i: nat, p: PollId)
    requires IsRun(trace, labels) && i < |trace| && p in trace[i].polls && MarkRan(trace[i].polls[p])
    ensures var s, c := trace[i], trace[i].polls[p].code;
      && c in s.db.rows && Closed(s.db.rows[c].status)
      && (NeverDenied(labels, i, c) ==> s.db.rows[c].status == Exchanged)
      && (NeverDenied(labels, i, c) && (forall q :: q in s.polls && s.polls[q].code == c ==>
            s.polls[q].phase.Replied? && s.polls[q].fault.Clean?) ==>
            HandedOutOnce(s, c))
  {
    var c := trace[i].polls[p].code;
    hide Apply, Enabled, MarkRan, HandedOutOnce;
    MarkedIsClosed(trace, labels, i, p);
    if NeverDenied(labels, i, c) { NotDenied(trace, labels, i, c); }
    if forall q :: q in trace[i].polls && trace[i].polls[q].code == c ==>
        trace[i].polls[q].phase.Replied? && trace[i].polls[q].fault.Clean? {
      QuiescentCode(trace, labels, i, c);
    }
  }

  // ---- When a poll mints, and on whose consent ----

  // An approved row with its user, not past its expiry, last polled at least its interval ago.
  ghost predicate Grants(r: Row, appNow: Time, now: Time) {
    && r.status == Approved && r.user.Some? && now <= r.expiresAt
    && (r.lastPolledAt.Some? ==> appNow - r.lastPolledAt.value >= r.intervalSecs * SECOND)
  }

  function LoginOf(r: Row): string { if r.login.Some? then r.login.value else "" }

  lemma PollStep(s: State, l: Label)
    requires l.BeginPoll? && Enabled(s, l)
    ensures var phase := Apply(s, l).polls[l.poll].phase;
      && (phase.Issuing? <==>
           l.read.PollRead? && l.code in s.db.rows && Grants(s.db.rows[l.code], l.read.appNow, l.read.serviceNow))
      && (phase.Issuing? ==> phase == Issuing(s.db.rows[l.code].user.value, LoginOf(s.db.rows[l.code])))
      && (phase.Issuing? || phase.Replied?)
  {
    hide TouchPolled;
  }

  /** A poll goes on to mint exactly when the row it reads grants it: approved, with
      its user, not past its expiry, and not polled again within its interval. */
  lemma PollMintsExactly(trace: seq<State>, labels: seq<Label>, i: nat)
    requires IsRun(trace, labels) && i < |labels| && labels[i].BeginPoll?
    ensures labels[i].poll in trace[i + 1].polls
    ensures var l, s, phase := labels[i], trace[i], trace[i + 1].polls[labels[i].poll].phase;
      && (phase.Issuing? <==>
           l.read.PollRead? && l.code in s.db.rows && Grants(s.db.rows[l.code], l.read.appNow, l.read.serviceNow))
      && (phase.Issuing? ==> phase == Issuing(s.db.rows[l.code].user.value, LoginOf(s.db.rows[l.code])))
  {
    PollStep(trace[i], labels[i]);
    hide Apply, Enabled;
    assert trace[i + 1] == Apply(trace[i], labels[i]);
    BeginPollFrame(trace[i], labels[i]);
  }

  // The call is about to mint, or has minted.
  predicate Minting(poll: Poll) { poll.phase.Issuing? || poll.minted.Some? }

  // Whatever the call is about to mint or has minted is for this user and login.
  ghost predicate MintsFor(s: State, p: PollId, user: UserId, login: string)
    requires p in s.polls
  {
    && (s.polls[p].phase.Issuing? ==> s.polls[p].phase == Issuing(user, login))
    && (s.polls[p].minted.Some? ==>
         s.polls[p].minted.value in s.db.tokens &&
         s.db.tokens[s.polls[p].minted.value] ==
           Token(user, login, s.db.tokens[s.polls[p].minted.value].revoked))
  }

  // Tokens are only ever added or revoked.
  lemma TokensStay(s: State, l: Label, t: TokenId)
    requires Enabled(s, l) && t in s.db.tokens
    ensures t in Apply(s, l).db.tokens
    ensures var was, is' := s.db.tokens[t], Apply(s, l).db.tokens[t]; is'.user == was.user && is'.login == was.login
  {
    hide AfterPoll, TooFast;
  }

  // What a step makes of a call that is minting.
  lemma MintingStep(s: State, l: Label, p: PollId)
    requires Enabled(s, l) && p in Apply(s, l).polls && Minting(Apply(s, l).polls[p])
    ensures p in s.polls ==> Minting(s.polls[p]) && Apply(s, l).polls[p].code == s.polls[p].code
    ensures p !in s.polls ==> l.BeginPoll? && l.poll == p
    ensures p in s.polls && Apply(s, l).polls[p] != s.polls[p] && s.polls[p].phase.Issuing? ==>
      var minted := Apply(s, l).polls[p].minted;
      !Apply(s, l).polls[p].phase.Issuing? &&
      (minted == s.polls[p].minted || (minted.Some? && minted.value in Apply(s, l).db.tokens &&
        Apply(s, l).db.tokens[minted.value] == Token(s.polls[p].phase.user, s.polls[p].phase.login, false)))
    ensures p in s.polls && Apply(s, l).polls[p] != s.polls[p] && !s.polls[p].phase.Issuing? ==>
      !Apply(s, l).polls[p].phase.Issuing? && Apply(s, l).polls[p].minted == s.polls[p].minted
  {
    hide AfterPoll, TooFast, SetPreApproved, SetApproved, RevokeToken, MarkExchanged, InsertPending,
      CanInsertPending, TouchPolled;
    if l.BeginPoll? && p !in s.polls { PollStep(s, l); }
  }

  lemma MintsForStays(s: State, l: Label, p: PollId, user: UserId, login: string)
    requires Enabled(s, l) && p in s.polls && MintsFor(s, p, user, login)
    requires p in Apply(s, l).polls && Minting(Apply(s, l).polls[p])
    ensures MintsFor(Apply(s, l), p, user, login)
  {
    hide Apply, Enabled;
    MintingStep(s, l, p);
    if s.polls[p].minted.Some? { TokensStay(s, l, s.polls[p].minted.value); }
  }

  ghost predicate GrantedAt(trace: seq<State>, labels: seq<Label>, k: nat, p: PollId, c: DeviceCode)
    requires |trace| == |labels| + 1
  {
    && k < |labels| && labels[k].BeginPoll? && labels[k].poll == p && labels[k].code == c
    && labels[k].read.PollRead? && c in trace[k].db.rows
    && Grants(trace[k].db.rows[c], labels[k].read.appNow, labels[k].read.serviceNow)
  }

  lemma {:induction false} MintTracesToPoll(trace: seq<State>, labels: seq<Label>, i: nat, p: PollId)
    returns (k: nat)
    requires IsRun(trace, labels) && i < |trace| && p in trace[i].polls && Minting(trace[i].polls[p])
    ensures k < i && GrantedAt(trace, labels, k, p, trace[i].polls[p].code)
    ensures var r := trace[k].db.rows[trace[i].polls[p].code]; MintsFor(trace[i], p, r.user.value, LoginOf(r))
  {
    hide Apply, Enabled;
    assert i > 0;
    var s, l := trace[i - 1], labels[i - 1];
    assert Enabled(s, l) && trace[i] == Apply(s, l);
    MintingStep(s, l, p);
    if p in s.polls {
      k := MintTracesToPoll(trace, labels, i - 1, p);
      var r := trace[k].db.rows[s.polls[p].code];
      MintsForStays(s, l, p, r.user.value, LoginOf(r));
    } else {
      k := i - 1;
      PollMintsExactly(trace, labels, k);
      NewPollUnminted(s, l);
    }
  }

  lemma NewPollUnminted(s: State, l: Label)
    requires l.BeginPoll? && Enabled(s, l)
    ensures Apply(s, l).polls[l.poll].minted.None? && Apply(s, l).polls[l.poll].code == l.code
  {
    hide AfterPoll, TooFast, TouchPolled;
  }

  // What a step may have done to a row.
  lemma RowStep(s: State, l: Label, c: DeviceCode)
    requires Enabled(s, l) && c in Apply(s, l).db.rows
    ensures var r' := Apply(s, l).db.rows[c];
      if c !in s.db.rows then
        l.Authorize? && l.code == c && r' == Row(l.userCode, Pending, l.now + 600 * SECOND, 5, None, None, None, None)
      else
        var r := s.db.rows[c];
        && r'.userCode == r.userCode && r'.expiresAt == r.expiresAt
        && (r'.user != r.user || r'.login != r.login || (r'.status != r.status && r'.status == PreApproved) ==>
             && l.Verify? && l.userCode == r.userCode && l.now < r.expiresAt && r.status == Pending
             && r'.status == PreApproved && r'.user == Some(l.user) && r'.login == Some(l.login))
        && (r'.status != r.status && r'.status == Approved ==>
             && l.Approve? && l.userCode == r.userCode && l.now < r.expiresAt && r.status == PreApproved
             && r.user == Some(l.user))
        && (r'.status != r.status && r'.status == Exchanged ==> r.status == Approved)
  {
    hide AfterPoll, TooFast;
  }

  ghost predicate AskedAt(trace: seq<State>, labels: seq<Label>, a: nat, c: DeviceCode, r: Row) {
    && a < |labels| && labels[a] == Authorize(c, r.userCode, r.expiresAt - 600 * SECOND)
  }

  // The user typed the code in, in time.
  ghost predicate VerifiedAt(trace: seq<State>, labels: seq<Label>, v: nat, r: Row) {
    && v < |labels| && labels[v].Verify? && labels[v].userCode == r.userCode && labels[v].now < r.expiresAt
    && r.user == Some(labels[v].user) && r.login == Some(labels[v].login)
  }

  // And confirmed, in time.
  ghost predicate ApprovedAt(trace: seq<State>, labels: seq<Label>, w: nat, r: Row) {
    && w < |labels| && labels[w].Approve? && labels[w].userCode == r.userCode && labels[w].now < r.expiresAt
    && r.user == Some(labels[w].user)
  }

  lemma {:induction false} RowAsked(trace: seq<State>, labels: seq<Label>, i: nat, c: DeviceCode) returns (a: nat)
    requires IsRun(trace, labels) && i < |trace| && c in trace[i].db.rows
    ensures a < i && AskedAt(trace, labels, a, c, trace[i].db.rows[c])
  {
    hide Apply, Enabled;
    assert i > 0;
    RowStep(trace[i - 1], labels[i - 1], c);
    if c in trace[i - 1].db.rows { a := RowAsked(trace, labels, i - 1, c); } else { a := i - 1; }
  }

  lemma {:induction false} RowVerified(trace: seq<State>, labels: seq<Label>, i: nat, c: DeviceCode) returns (v: nat)
    requires IsRun(trace, labels) && i < |trace| && c in trace[i].db.rows && trace[i].db.rows[c].user.Some?
    ensures v < i && VerifiedAt(trace, labels, v, trace[i].db.rows[c]) && c in trace[v].db.rows
  {
    hide Apply, Enabled;
    assert i > 0;
    var s, r' := trace[i - 1], trace[i].db.rows[c];
    RowStep(s, labels[i - 1], c);
    if s.db.rows[c].user == r'.user && s.db.rows[c].login == r'.login {
      v := RowVerified(trace, labels, i - 1, c);
    } else {
      v := i - 1;
    }
  }

  lemma {:induction false} RowApproved(trace: seq<State>, labels: seq<Label>, i: nat, c: DeviceCode)
    returns (v: nat, w: nat)
    requires IsRun(trace, labels) && i < |trace| && c in trace[i].db.rows
    requires trace[i].db.rows[c].status == Approved || trace[i].db.rows[c].status == Exchanged
    ensures v < w < i && c in trace[v].db.rows
    ensures VerifiedAt(trace, labels, v, trace[i].db.rows[c]) && ApprovedAt(trace, labels, w, trace[i].db.rows[c])
  {
    hide Apply, Enabled;
    assert i > 0;
    var s, r' := trace[i - 1], trace[i].db.rows[c];
    RowStep(s, labels[i - 1], c);
    var r := s.db.rows[c];
    if r.status == Approved || r.status == Exchanged {
      v, w := RowApproved(trace, labels, i - 1, c);
    } else {
      v := RowVerified(trace, labels, i - 1, c);
      w := i - 1;
    }
  }

  /** Every token a poll mints rests on consent: its code was asked for, a user typed
      the user code in and then confirmed it, both before the code expired, and a
      later poll read the row approved, unexpired and not polled too soon.  The token
      is that user's. */
  lemma MintTracesToConsent(trace: seq<State>, labels: seq<Label>, i: nat, p: PollId)
    returns (a: nat, v: nat, w: nat, k: nat)
    requires IsRun(trace, labels) && i < |trace| && p in trace[i].polls && trace[i].polls[p].minted.Some?
    ensures a < v < w < k < i && GrantedAt(trace, labels, k, p, trace[i].polls[p].code)
    ensures var c, t := trace[i].polls[p].code, trace[i].polls[p].minted.value;
      var r := trace[k].db.rows[c];
      && AskedAt(trace, labels, a, c, r) && VerifiedAt(trace, labels, v, r) && ApprovedAt(trace, labels, w, r)
      && t in trace[i].db.tokens && trace[i].db.tokens[t].user == r.user.value
      && Some(trace[i].db.tokens[t].login) == r.login
  {
    hide Apply, Enabled;
    var c := trace[i].polls[p].code;
    k := MintTracesToPoll(trace, labels, i, p);
    v, w := RowApproved(trace, labels, k, c);
    a := RowAsked(trace, labels, v, c);
    IdentityStays(trace, labels, v, k, c);
  }

  // A row keeps its user code and expiry.
  lemma {:induction false} IdentityStays(trace: seq<State>, labels: seq<Label>, i: nat, j: nat, c: DeviceCode)
    requires IsRun(trace, labels) && i <= j < |trace| && c in trace[i].db.rows
    ensures c in trace[j].db.rows
    ensures trace[j].db.rows[c].userCode == trace[i].db.rows[c].userCode
    ensures trace[j].db.rows[c].expiresAt == trace[i].db.rows[c].expiresAt
  {
    hide Apply, Enabled;
    if i < j {
      IdentityStays(trace, labels, i, j - 1, c);
      RowsStay(trace[j - 1], labels[j - 1], c);
      RowStep(trace[j - 1], labels[j - 1], c);
    }
  }

  lemma RowsStay(s: State, l: Label, c: DeviceCode)
    requires Enabled(s, l) && c in s.db.rows
    ensures c in Apply(s, l).db.rows
  {
    hide AfterPoll, TooFast;
  }

  lemma Extend(trace: seq<State>, labels: seq<Label>, l: Label, next: State)
    returns (trace': seq<State>, labels': seq<Label>)
    requires IsRun(trace, labels) && Enabled(trace[|trace| - 1], l) && next == Apply(trace[|trace| - 1], l)
    ensures trace' == trace + [next] && labels' == labels + [l] && IsRun(trace', labels')
  {
    trace', labels' := trace + [next], labels + [l];
  }

  const APPROVED := Row("U", Approved, 600 * SECOND, 5, None, Some(1), Some("ann"), None)

  const PRE_APPROVED := APPROVED.(status := PreApproved)

  lemma VerifyStep(s: State)
    requires s.db.rows == map["d" := APPROVED.(status := Pending, user := None, login := None)]
    ensures Apply(s, Verify("U", 1, "ann", 0)) == s.(db := s.db.(rows := map["d" := PRE_APPROVED]))
  {
    assert SetPreApproved(s.db, "U", 1, "ann", 0).rows == map["d" := PRE_APPROVED];
  }

  lemma ApproveStep(s: State)
    requires s.db.rows == map["d" := PRE_APPROVED] && s.approvedBy == map[]
    ensures Apply(s, Approve("U", 1, 0)) == s.(db := s.db.(rows := map["d" := APPROVED]), approvedBy := map["d" := 1])
  {
    assert ApplyApprove(s, "U", 1, 0).db.rows == map["d" := APPROVED];
    assert ApplyApprove(s, "U", 1, 0).approvedBy == map["d" := 1];
  }

  lemma ApprovedRun() returns (trace: seq<State>, labels: seq<Label>)
    ensures IsRun(trace, labels)
    ensures trace[|trace| - 1] == State(Db(map["d" := APPROVED], map[]), map[], map["d" := 1])
  {
    var s1 := INIT.(db := Db(map["d" := APPROVED.(status := Pending, user := None, login := None)], map[]));
    trace, labels := Extend([INIT], [], Authorize("d", "U", 0), s1);
    hide SetPreApproved, ApplyApprove;
    VerifyStep(s1);
    var s2 := INIT.(db := Db(map["d" := PRE_APPROVED], map[]));
    trace, labels := Extend(trace, labels, Verify("U", 1, "ann", 0), s2);
    ApproveStep(s2);
    trace, labels := Extend(trace, labels, Approve("U", 1, 0),
      State(Db(map["d" := APPROVED], map[]), map[], map["d" := 1]));
  }

  /** The error case of NoStrayToken is real: an errored mark_exchanged leaves a
      live token that no row records. */
  lemma ErroredMarkStraysToken() returns (trace: seq<State>, labels: seq<Label>)
    ensures IsRun(trace, labels)
    ensures var s := trace[|trace| - 1];
      && 0 in s.polls && s.polls[0].minted == Some(7) && s.polls[0].phase == Replied(Error("server_error"))
      && LiveToken(s, 7)
      && "d" in s.db.rows && s.db.rows["d"].tokenId.None?
  {
    trace, labels := ApprovedRun();
    var s3 := trace[|trace| - 1];
    var s4 := Apply(s3, BeginPoll(0, "d", PollRead(0, 0, false, 0)));
    assert s4.polls[0].phase == Issuing(1, "ann");
    trace, labels := Extend(trace, labels, BeginPoll(0, "d", PollRead(0, 0, false, 0)), s4);
    var s5 := ApplyIssue(s4, 0, Issued(7));
    trace, labels := Extend(trace, labels, Issue(0, Issued(7)), s5);
    trace, labels := Extend(trace, labels, Mark(0, WriteErr), ApplyMark(s5, 0, WriteErr));
  }

  // ---- The service code: each method is the stretch between two awaits ----

  datatype Authorization =
    | Authorized(code: DeviceCode, userCode: UserCode, attempt: nat)
    | InvalidClient
    | InsertFailed

  // One insert of a pending row: its random codes, the clock and the database's answer.
  datatype Attempt = Attempt(code: DeviceCode, userCode: UserCode, now: Time, outcome: WriteOutcome)

  /** How a poll that has read the row of its code goes on, by the row's fields, and what
      it leaves in the row: late wins over too soon, and too soon over the status. */
  ghost predicate PollAnswers(db: Db, code: DeviceCode, read: PollOutcome, phase: Phase, db': Db) {
    if read.PollErr? then phase == Replied(Error("server_error")) && db' == db
    else if code !in db.rows then phase == Replied(Error("invalid_grant")) && db' == db
    else
      var r := db.rows[code];
      var late := r.expiresAt < read.serviceNow;
      var soon := r.lastPolledAt.Some? && read.appNow - r.lastPolledAt.value < r.intervalSecs * SECOND;
      var approved := r.status == Approved && r.user.Some?;
      && (phase == Replied(Error("expired_token")) <==> late)
      && (phase == Replied(Error("slow_down")) <==> !late && soon)
      && (phase == Replied(Error("authorization_pending")) <==>
           !late && !soon && (r.status == Pending || r.status == PreApproved))
      && (phase == Replied(Error("access_denied")) <==> !late && !soon && r.status == Denied)
      && (phase == Replied(Error("invalid_grant")) <==> !late && !soon && r.status == Exchanged)
      && (phase == Replied(Error("server_error")) <==>
           !late && !soon && (r.status == Unknown || (r.status == Approved && r.user.None?)))
      && (phase.Issuing? <==> !late && !soon && approved)
      && (phase.Issuing? ==> phase == Issuing(r.user.value, if r.login.Some? then r.login.value else ""))
      && db' == (if !read.committed then db else db.(rows := db.rows[code :=
           r.(lastPolledAt := Some(read.dbNow), intervalSecs := if soon then r.intervalSecs + 5 else r.intervalSecs)]))
  }

  lemma BeginPollAnswers(s: State, p: PollId, code: DeviceCode, read: PollOutcome)
    requires p !in s.polls
    ensures var s' := Apply(s, BeginPoll(p, code, read));
      p in s'.polls && PollAnswers(s.db, code, read, s'.polls[p].phase, s'.db)
  {
  }

  class IdentityService {
    var db: Db
    var polls: map<PollId, Poll>
    ghost var approvedBy: map<DeviceCode, UserId>

    ghost function View(): State
      reads this
    {
      State(db, polls, approvedBy)
    }

    constructor ()
      ensures View() == INIT && Inv(View())
    {
      db, polls, approvedBy := Db(map[], map[]), map[], map[];
    }

    // What one attempt leaves: it inserts nothing if it collides or errors outright,
    // and a row nobody learns of if its reply was lost.
    static function AfterAttempt(db: Db, a: Attempt): Db {
      if !a.outcome.WriteErr? && CanInsertPending(db, a.code, a.userCode)
      then InsertPending(db, a.code, a.userCode, a.now) else db
    }

    // The table after the first n attempts.
    static function AfterAttempts(db: Db, attempts: seq<Attempt>, n: nat): Db
      requires n <= |attempts|
    {
      if n == 0 then db else AfterAttempt(AfterAttempts(db, attempts, n - 1), attempts[n - 1])
    }

    static predicate Succeeds(db: Db, attempts: seq<Attempt>, n: nat)
      requires n < |attempts|
    {
      attempts[n].outcome.WriteOk? &&
        CanInsertPending(AfterAttempts(db, attempts, n), attempts[n].code, attempts[n].userCode)
    }

    // Every row that is new in `now` is an attempt, among the first n, whose reply was lost.
    static ghost predicate NewAreLost(was: Db, now: Db, attempts: seq<Attempt>, n: nat)
      requires n <= |attempts|
    {
      && (forall c :: c in was.rows ==> c in now.rows && now.rows[c] == was.rows[c])
      && forall c :: c in now.rows && c !in was.rows ==>
           exists k: nat :: k < n && attempts[k].code == c && attempts[k].outcome.WriteErrApplied?
    }

    static lemma LostAttempt(was: Db, now: Db, attempts: seq<Attempt>, n: nat)
      requires n < |attempts| && NewAreLost(was, now, attempts, n)
      ensures !(attempts[n].outcome.WriteOk? && CanInsertPending(now, attempts[n].code, attempts[n].userCode)) ==>
        NewAreLost(was, AfterAttempt(now, attempts[n]), attempts, n + 1)
    {
      forall c | c in now.rows && c !in was.rows
        ensures exists k: nat :: k < n + 1 && attempts[k].code == c && attempts[k].outcome.WriteErrApplied?
      {
        var k: nat :| k < n && attempts[k].code == c && attempts[k].outcome.WriteErrApplied?;
        assert k < n + 1;
      }
    }

    static lemma AttemptKeeps(s: State, a: Attempt)
      requires Inv(s)
      ensures Inv(s.(db := AfterAttempt(s.db, a)))
    {
      if AfterAttempt(s.db, a) != s.db {
        StepKeeps(s, Authorize(a.code, a.userCode, a.now));
        assert Apply(s, Authorize(a.code, a.userCode, a.now)) == s.(db := AfterAttempt(s.db, a));
      }
    }

    // No row has any of the attempts' codes, and they are all different.
    static ghost predicate Unused(db: Db, attempts: seq<Attempt>) {
      && (forall k, c :: 0 <= k < |attempts| && c in db.rows ==>
           attempts[k].code != c && attempts[k].userCode != db.rows[c].userCode)
      && forall j, k :: 0 <= j < k < |attempts| ==>
           attempts[j].code != attempts[k].code && attempts[j].userCode != attempts[k].userCode
    }

    static lemma {:induction false} RowsAfterAttempts(db: Db, attempts: seq<Attempt>, n: nat)
      requires n <= |attempts|
      ensures forall c :: c in AfterAttempts(db, attempts, n).rows ==>
        || (c in db.rows && AfterAttempts(db, attempts, n).rows[c] == db.rows[c])
        || exists k :: 0 <= k < n && attempts[k].code == c &&
             attempts[k].userCode == AfterAttempts(db, attempts, n).rows[c].userCode
    {
      if n > 0 { RowsAfterAttempts(db, attempts, n - 1); }
    }

    /** Unused codes never collide, so only the database's answers decide. */
    static lemma UnusedSucceed(db: Db, attempts: seq<Attempt>)
      requires Unused(db, attempts)
      ensures forall k: nat :: k < |attempts| ==> (Succeeds(db, attempts, k) <==> attempts[k].outcome.WriteOk?)
    {
      forall k: nat | k < |attempts| ensures Succeeds(db, attempts, k) <==> attempts[k].outcome.WriteOk? {
        RowsAfterAttempts(db, attempts, k);
      }
    }

    /** The reply carries the first attempt that was inserted and confirmed; the row is
        there to be polled, rows of other codes are untouched, and every other new row
        is an attempt whose reply was lost. */
    method DeviceAuthorization(clientId: string, attempts: seq<Attempt>) returns (r: Authorization)
      requires |attempts| == 3
      requires Inv(View())
      modifies this`db
      ensures Inv(View())
      ensures r.InvalidClient? <==> clientId != "claude-code"
      ensures r.InsertFailed? <==>
        clientId == "claude-code" && forall k: nat :: k < 3 ==> !Succeeds(old(db), attempts, k)
      ensures r.Authorized? ==>
        && r.attempt < 3 && r.code == attempts[r.attempt].code && r.userCode == attempts[r.attempt].userCode
        && Succeeds(old(db), attempts, r.attempt)
        && (forall k: nat :: k < r.attempt ==> !Succeeds(old(db), attempts, k))
        && r.code !in old(db.rows) && r.code in db.rows
        && db.rows[r.code] ==
             Row(r.userCode, Pending, attempts[r.attempt].now + 600 * SECOND, 5, None, None, None, None)
      ensures db == AfterAttempts(old(db), attempts,
        if r.Authorized? then r.attempt + 1 else if r.InsertFailed? then 3 else 0)
      ensures NewAreLost(old(db), if r.Authorized? then db.(rows := db.rows - {r.code}) else db, attempts, 3)
    {
      hide Inv, NewAreLost, CanInsertPending, InsertPending;
      NothingLost(db, attempts);
      if clientId != "claude-code" { return InvalidClient; }
      var n := 0;
      while n < 3
        invariant n <= 3 && db == AfterAttempts(old(db), attempts, n) && Inv(View())
        invariant forall k: nat :: k < n ==> !Succeeds(old(db), attempts, k)
        invariant NewAreLost(old(db), db, attempts, n)
      {
        var a := attempts[n];
        AttemptKeeps(View(), a);
        LostAttempt(old(db), db, attempts, n);
        assert Succeeds(old(db), attempts, n) <==> a.outcome.WriteOk? && CanInsertPending(db, a.code, a.userCode);
        if !a.outcome.WriteErr? && CanInsertPending(db, a.code, a.userCode) {
          Confirmed(old(db), db, attempts, n);
          db := InsertPending(db, a.code, a.userCode, a.now);
          if a.outcome.WriteOk? { return Authorized(a.code, a.userCode, n); }
        }
        n := n + 1;
      }
      return InsertFailed;
    }

    static lemma NothingLost(db: Db, attempts: seq<Attempt>)
      ensures NewAreLost(db, db, attempts, 0) && NewAreLost(db, db, attempts, |attempts|)
    {
    }

    // The row of a confirmed attempt is pending and new; without it the table has only lost attempts.
    static lemma Confirmed(was: Db, now: Db, attempts: seq<Attempt>, n: nat)
      requires n < |attempts| && NewAreLost(was, now, attempts, n)
      requires CanInsertPending(now, attempts[n].code, attempts[n].userCode)
      ensures var a := attempts[n];
        var db := InsertPending(now, a.code, a.userCode, a.now);
        && a.code !in was.rows && a.code in db.rows
        && db.rows[a.code] == Row(a.userCode, Pending, a.now + 600 * SECOND, 5, None, None, None, None)
        && NewAreLost(was, db.(rows := db.rows - {a.code}), attempts, |attempts|)
    {
      var a := attempts[n];
      assert InsertPending(now, a.code, a.userCode, a.now).rows - {a.code} == now.rows;
    }

    /** Names the user in every unexpired pending row with this user code; true iff there is one. */
    method DeviceVerify(userCode: UserCode, user: UserId, login: string, now: Time) returns (ok: bool)
      requires Inv(View())
      modifies this`db
      ensures View() == Apply(old(View()), Verify(userCode, user, login, now)) && Inv(View())
      ensures ok <==>
        exists c :: c in old(db.rows) && var r := old(db.rows)[c];
          r.userCode == userCode && r.status == Pending && now < r.expiresAt
      ensures db.tokens == old(db.tokens) && db.rows.Keys == old(db.rows.Keys)
      ensures forall c :: c in db.rows ==>
        var r := old(db.rows)[c];
        db.rows[c] ==
          if r.userCode == userCode && r.status == Pending && now < r.expiresAt
          then r.(status := PreApproved, user := Some(user), login := Some(login)) else r
    {
      hide Inv;
      StepKeeps(View(), Verify(userCode, user, login, now));
      ok := exists c :: c in db.rows && CanPreApprove(db.rows[c], userCode, now);
      db := SetPreApproved(db, userCode, user, login, now);
    }

    /** Approves every unexpired row this user pre-approved under this user code; true iff there is one. */
    method DeviceApprove(userCode: UserCode, user: UserId, now: Time) returns (ok: bool)
      requires Inv(View())
      modifies this`db, this`approvedBy
      ensures View() == Apply(old(View()), Approve(userCode, user, now)) && Inv(View())
      ensures ok <==>
        exists c :: c in old(db.rows) && var r := old(db.rows)[c];
          r.userCode == userCode && r.status == PreApproved && r.user == Some(user) && now < r.expiresAt
      ensures db.tokens == old(db.tokens) && db.rows.Keys == old(db.rows.Keys)
      ensures forall c :: c in db.rows ==>
        var r := old(db.rows)[c];
        db.rows[c] ==
          if r.userCode == userCode && r.status == PreApproved && r.user == Some(user) && now < r.expiresAt
          then r.(status := Approved) else r
    {
      hide Inv;
      StepKeeps(View(), Approve(userCode, user, now));
      ok := exists c :: c in db.rows && CanApprove(db.rows[c], userCode, user, now);
      approvedBy := ApplyApprove(View(), userCode, user, now).approvedBy;
      db := SetApproved(db, userCode, user, now);
    }

    /** The polling transaction and the checks on the row it returned: which answer a
        poll gets, when it goes on to mint instead, and what it writes. */
    method PollRow(p: PollId, code: DeviceCode, read: PollOutcome)
      requires Inv(View()) && p !in polls
      modifies this`db, this`polls
      ensures View() == Apply(old(View()), BeginPoll(p, code, read)) && Inv(View())
      ensures p in polls && polls == old(polls)[p := Poll(code, polls[p].phase, None, Clean)]
      ensures PollAnswers(old(db), code, read, polls[p].phase, db)
    {
      hide Inv, PollAnswers;
      StepKeeps(View(), BeginPoll(p, code, read));
      BeginPollAnswers(View(), p, code, read);
      var phase;
      if read.PollErr? {
        phase := Replied(Error("server_error"));
      } else if code !in db.rows {
        phase := Replied(Error("invalid_grant"));
      } else {
        var row := db.rows[code];
        var slowDown := TooFast(row, read.appNow);
        if read.committed { db := TouchPolled(db, code, read.appNow, read.dbNow); }
        if row.expiresAt < read.serviceNow {
          phase := Replied(Error("expired_token"));
        } else if slowDown {
          phase := Replied(Error("slow_down"));
        } else if row.status.Pending? || row.status.PreApproved? {
          phase := Replied(Error("authorization_pending"));
        } else if row.status.Denied? {
          phase := Replied(Error("access_denied"));
        } else if row.status.Exchanged? {
          phase := Replied(Error("invalid_grant"));
        } else if row.status.Unknown? || row.user.None? {
          phase := Replied(Error("server_error"));
        } else {
          phase := Issuing(row.user.value, if row.login.Some? then row.login.value else "");
        }
      }
      polls := polls[p := Poll(code, phase, None, Clean)];
    }

    /** A token for the poll's user unless the call errored before it ran; any error ends the poll. */
    method Mint(p: PollId, issue: IssueOutcome)
      requires Inv(View()) && Enabled(View(), Issue(p, issue))
      modifies this`db, this`polls
      ensures View() == Apply(old(View()), Issue(p, issue)) && Inv(View())
      ensures p in polls && polls == old(polls)[p := polls[p]] && polls[p].code == old(polls)[p].code
      ensures polls[p].phase == if issue.Issued? then Minted(issue.token) else Replied(Error("server_error"))
      ensures polls[p].minted == if issue.IssueErr? then old(polls)[p].minted else Some(issue.token)
      ensures var phase := old(polls)[p].phase;
        db == if issue.IssueErr? then old(db)
          else old(db).(tokens := old(db.tokens)[issue.token := Token(phase.user, phase.login, false)])
    {
      hide Inv;
      StepKeeps(View(), Issue(p, issue));
      var poll := polls[p];
      if !issue.IssueErr? {
        db := IssueToken(db, issue.token, poll.phase.user, poll.phase.login);
        poll := poll.(minted := Some(issue.token));
      }
      if issue.Issued? {
        poll := poll.(phase := Minted(issue.token));
      } else {
        poll := poll.(phase := Replied(Error("server_error")),
          fault := if issue.IssueErr? then MintErrored else MintUnanswered);
      }
      polls := polls[p := poll];
    }

    /** The row takes the token exactly when it is still approved and the update ran; the
        poll returns the token exactly when it also learnt so. */
    method CompareAndSet(p: PollId, mark: WriteOutcome)
      requires Inv(View()) && Enabled(View(), Mark(p, mark))
      modifies this`db, this`polls
      ensures View() == Apply(old(View()), Mark(p, mark)) && Inv(View())
      ensures p in polls && polls == old(polls)[p := polls[p]]
      ensures polls[p].code == old(polls)[p].code && polls[p].minted == old(polls)[p].minted
      ensures var code, token := old(polls)[p].code, old(polls)[p].phase.token;
        var won := code in old(db.rows) && old(db.rows)[code].status == Approved;
        && polls[p].phase == (if !mark.WriteOk? then Replied(Error("server_error"))
             else if won then Replied(AccessToken(token)) else Orphaned(token))
        && db == (if mark.WriteErr? || !won then old(db) else old(db).(rows :=
             old(db.rows)[code := old(db.rows)[code].(status := Exchanged, tokenId := Some(token))]))
    {
      hide Inv;
      StepKeeps(View(), Mark(p, mark));
      var poll := polls[p];
      var token, won := poll.phase.token, CanExchange(db, poll.code);
      if !mark.WriteErr? { db := MarkExchanged(db, poll.code, token); }
      if !mark.WriteOk? {
        poll := poll.(phase := Replied(Error("server_error")),
                      fault := if mark.WriteErr? then MarkErrored else MarkUnanswered(won));
      } else if won {
        poll := poll.(phase := Replied(AccessToken(token)));
      } else {
        poll := poll.(phase := Orphaned(token));
      }
      polls := polls[p := poll];
    }

    /** The loser's token is revoked unless the revoke errored before it ran; the reply is the same. */
    method RevokeOrphan(p: PollId, revoke: WriteOutcome)
      requires Inv(View()) && Enabled(View(), Revoke(p, revoke))
      modifies this`db, this`polls
      ensures View() == Apply(old(View()), Revoke(p, revoke)) && Inv(View())
      ensures p in polls && polls == old(polls)[p := polls[p]] && polls[p].phase == Replied(Error("invalid_grant"))
      ensures polls[p].code == old(polls)[p].code && polls[p].minted == old(polls)[p].minted
      ensures var token := old(polls)[p].phase.token;
        token in old(db.tokens) &&
        db == if revoke.WriteErr? then old(db)
          else old(db).(tokens := old(db.tokens)[token := old(db.tokens)[token].(revoked := true)])
    {
      assert PollOk(View(), p);
      hide Inv;
      StepKeeps(View(), Revoke(p, revoke));
      var poll := polls[p];
      if !revoke.WriteErr? { db := RevokeToken(db, poll.phase.token); }
      poll := poll.(fault := RevokeFault(revoke));
      polls := polls[p := poll.(phase := Replied(Error("invalid_grant")))];
    }
  }
}
