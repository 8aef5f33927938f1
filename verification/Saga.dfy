/**
 Find-or-create of knowledge sagas: look for a row, insert one unless the unique
 partial index objects, and refetch the winner's row if it does.  Calls
 interleave with each other and with the ingestion-control rows that share the
 table.
 */
module Saga {
  import opened Basics

  type SagaId = nat
  type CallId = nat

  // Ingestion-control rows are not knowledge rows and carry no source.
  datatype Row = Row(knowledge: bool, repo: string, sourceType: Option<string>, sourceRef: Option<string>,
      name: Option<string>)

  datatype Request = Request(repo: string, sourceType: string, sourceRef: Option<string>, name: Option<string>) {
    predicate SameSource(other: Request) {
      repo == other.repo && sourceType == other.sourceType && sourceRef == other.sourceRef
    }
  }

  function DisplayName(q: Request): Option<string> {
    if q.name.Some? then q.name
    else if q.sourceRef.Some? then Some(q.sourceType + ":" + q.sourceRef.value)
    else None
  }

  function NewRow(q: Request): Row { Row(true, q.repo, Some(q.sourceType), q.sourceRef, DisplayName(q)) }

  predicate HasSource(r: Row, q: Request) {
    r.repo == q.repo && r.sourceType == Some(q.sourceType) && r.sourceRef == q.sourceRef
  }

  // What the first lookup selects: by source reference whatever the row's kind,
  // by name among rows without one, and nothing without either.
  predicate Found(r: Row, q: Request) {
    HasSource(r, q) && (q.sourceRef.Some? || (q.name.Some? && r.name == q.name))
  }

  // The unique partial index covers knowledge rows with a source reference.
  predicate Conflicts(rows: map<SagaId, Row>, q: Request) {
    q.sourceRef.Some? && exists i :: i in rows && rows[i].knowledge && HasSource(rows[i], q)
  }

  // ---- Interleaved calls ----

  datatype Phase = Finding | Creating | Refetching | Done(result: Option<SagaId>)
  datatype Call = Call(q: Request, phase: Phase)
  datatype State = State(rows: map<SagaId, Row>, calls: map<CallId, Call>, used: set<SagaId>)

  const INIT := State(map[], map[], {})

  datatype Label =
    | Begin(call: CallId, q: Request)
    | Find(call: CallId, found: Option<SagaId>)    // LIMIT 1 may pick any match
    | Create(call: CallId, id: SagaId)
    | CreateLost(call: CallId, id: SagaId)         // inserted, but the reply errored
    | Refetch(call: CallId, row: SagaId)
    | Fail(call: CallId)                           // the pending database call errored
    | AddControl(id: SagaId, repo: string)
    | DropControl(id: SagaId)

  predicate Enabled(s: State, l: Label) {
    match l
    case Begin(c, _) => c !in s.calls
    case Find(c, found) =>
      c in s.calls && s.calls[c].phase.Finding? &&
      (match found
       case Some(i) => i in s.rows && Found(s.rows[i], s.calls[c].q)
       case None => forall i :: i in s.rows ==> !Found(s.rows[i], s.calls[c].q))
    case Create(c, id) => c in s.calls && s.calls[c].phase.Creating? && id !in s.used
    case CreateLost(c, id) => c in s.calls && s.calls[c].phase.Creating? && id !in s.used
    case Refetch(c, found) =>
      c in s.calls && s.calls[c].phase.Refetching? && found in s.rows && s.rows[found].knowledge &&
      HasSource(s.rows[found], s.calls[c].q.(sourceRef := Some(RefetchRef(s.calls[c].q))))
    case Fail(c) => c in s.calls && !s.calls[c].phase.Done?
    case AddControl(id, _) => id !in s.used
    case DropControl(id) => id in s.rows && !s.rows[id].knowledge
  }

  // The refetch substitutes the empty string for a missing reference.
  function RefetchRef(q: Request): string { if q.sourceRef.Some? then q.sourceRef.value else "" }

  function Insert(s: State, q: Request, id: SagaId): map<SagaId, Row> {
    if Conflicts(s.rows, q) then s.rows else s.rows[id := NewRow(q)]
  }

  function Apply(s: State, l: Label): State
    requires Enabled(s, l)
  {
    match l
    case Begin(c, q) => s.(calls := s.calls[c := Call(q, Finding)])
    case Find(c, found) =>
      s.(calls := s.calls[c := s.calls[c].(phase := if found.Some? then Done(found) else Creating)])
    case Create(c, id) =>
      var q := s.calls[c].q;
      State(Insert(s, q, id),
            s.calls[c := s.calls[c].(phase := if Conflicts(s.rows, q) then Refetching else Done(Some(id)))],
            s.used + {id})
    case CreateLost(c, id) =>
      State(Insert(s, s.calls[c].q, id), s.calls[c := s.calls[c].(phase := Done(None))], s.used + {id})
    case Refetch(c, found) => s.(calls := s.calls[c := s.calls[c].(phase := Done(Some(found)))])
    case Fail(c) => s.(calls := s.calls[c := s.calls[c].(phase := Done(None))])
    case AddControl(id, repo) => s.(rows := s.rows[id := Row(false, repo, None, None, None)], used := s.used + {id})
    case DropControl(id) => s.(rows := s.rows - {id})
  }

  ghost predicate IsRun(trace: seq<State>, labels: seq<Label>) {
    && |trace| == |labels| + 1
    && trace[0] == INIT
    && forall i :: 0 <= i < |labels| ==> Enabled(trace[i], labels[i]) && trace[i + 1] == Apply(trace[i], labels[i])
  }

  ghost predicate IndexUnique(rows: map<SagaId, Row>) {
    forall i, j, q: Request ::
      i in rows && j in rows && q.sourceRef.Some? && Holds(rows[i], q) && Holds(rows[j], q) ==> i == j
  }

  // A knowledge row for the request's source.
  predicate Holds(r: Row, q: Request) { r.knowledge && HasSource(r, q) }

  ghost predicate CallOk(s: State, call: Call) {
    && (call.phase.Refetching? ==> Conflicts(s.rows, call.q))
    && (call.phase.Done? && call.phase.result.Some? ==>
          && call.phase.result.value in s.rows && Holds(s.rows[call.phase.result.value], call.q)
          && (call.q.sourceRef.None? ==> s.rows[call.phase.result.value].name == call.q.name))
  }

  ghost predicate Inv(s: State) {
    && s.rows.Keys <= s.used
    && (forall i :: i in s.rows && !s.rows[i].knowledge ==> s.rows[i].sourceType.None? && s.rows[i].sourceRef.None?)
    && IndexUnique(s.rows)
    && forall c :: c in s.calls ==> CallOk(s, s.calls[c])
  }

  lemma AddKeepsUnique(rows: map<SagaId, Row>, q: Request, id: SagaId)
    requires IndexUnique(rows) && id !in rows && !Conflicts(rows, q)
    ensures IndexUnique(rows[id := NewRow(q)])
  {
    var rows' := rows[id := NewRow(q)];
    forall i, j, p: Request | i in rows' && j in rows' && p.sourceRef.Some? && Holds(rows'[i], p) &&
      Holds(rows'[j], p)
      ensures i == j
    {
      if i != j && (i == id || j == id) {
        var other := if i == id then j else i;
        assert Holds(rows[other], q);
      }
    }
  }

  lemma RowsKeep(s: State, l: Label)
    requires Inv(s) && Enabled(s, l)
    ensures var s' := Apply(s, l);
      && s'.rows.Keys <= s'.used && IndexUnique(s'.rows)
      && forall i :: i in s'.rows && !s'.rows[i].knowledge ==> s'.rows[i].sourceType.None? && s'.rows[i].sourceRef.None?
  {
    if (l.Create? || l.CreateLost?) && !Conflicts(s.rows, s.calls[l.call].q) {
      AddKeepsUnique(s.rows, s.calls[l.call].q, l.id);
    }
  }

  // Knowledge rows stay.
  lemma KnowledgeStays(s: State, l: Label, i: SagaId)
    requires Inv(s) && Enabled(s, l) && i in s.rows && s.rows[i].knowledge
    ensures i in Apply(s, l).rows && Apply(s, l).rows[i] == s.rows[i]
  {
  }

  lemma ConflictStays(s: State, l: Label, q: Request)
    requires Inv(s) && Enabled(s, l) && Conflicts(s.rows, q)
    ensures Conflicts(Apply(s, l).rows, q)
  {
    var i :| i in s.rows && s.rows[i].knowledge && HasSource(s.rows[i], q);
    KnowledgeStays(s, l, i);
  }

  // What the step made of the call it moved.
  lemma MovedCallOk(s: State, l: Label)
    requires Inv(s) && Enabled(s, l) && !l.AddControl? && !l.DropControl?
    ensures l.call in Apply(s, l).calls && CallOk(Apply(s, l), Apply(s, l).calls[l.call])
  {
    if l.call in s.calls { assert CallOk(s, s.calls[l.call]); }
  }

  lemma OtherCallOk(s: State, l: Label, c: CallId)
    requires Inv(s) && Enabled(s, l) && c in s.calls && Apply(s, l).calls[c] == s.calls[c]
    ensures CallOk(Apply(s, l), s.calls[c])
  {
    var call := s.calls[c];
    assert CallOk(s, call);
    if call.phase.Refetching? { ConflictStays(s, l, call.q); }
    if call.phase.Done? && call.phase.result.Some? { KnowledgeStays(s, l, call.phase.result.value); }
    hide Apply, Enabled;
  }

  lemma StepKeeps(s: State, l: Label)
    requires Inv(s) && Enabled(s, l)
    ensures Inv(Apply(s, l))
  {
    hide IndexUnique, CallOk;
    var s' := Apply(s, l);
    RowsKeep(s, l);
    forall c | c in s'.calls ensures CallOk(s', s'.calls[c]) {
      if !l.AddControl? && !l.DropControl? && c == l.call { MovedCallOk(s, l); } else { OtherCallOk(s, l, c); }
    }
  }

  lemma {:induction false} RunKeeps(trace: seq<State>, labels: seq<Label>, i: nat)
    requires IsRun(trace, labels) && i < |trace|
    ensures Inv(trace[i])
  {
    if i > 0 {
      RunKeeps(trace, labels, i - 1);
      StepKeeps(trace[i - 1], labels[i - 1]);
    }
  }

  lemma {:induction false} ResultIsFinal(trace: seq<State>, labels: seq<Label>, i: nat, j: nat, c: CallId)
    requires IsRun(trace, labels) && i <= j < |trace|
    requires c in trace[i].calls && trace[i].calls[c].phase.Done?
    ensures c in trace[j].calls && trace[j].calls[c] == trace[i].calls[c]
  {
    if i < j {
      ResultIsFinal(trace, labels, i, j - 1, c);
      assert trace[j] == Apply(trace[j - 1], labels[j - 1]);
    }
  }

  ghost predicate Returned(s: State, c: CallId, q: Request, id: SagaId) {
    c in s.calls && s.calls[c].q.SameSource(q) && s.calls[c].phase == Done(Some(id))
  }

  /** For one source reference there is at most one knowledge row, and every call
      that succeeds, whenever it does, returns that row's id. */
  lemma OneSagaPerSource(trace: seq<State>, labels: seq<Label>, i: nat, j: nat, c: CallId, c': CallId, q: Request,
      id: SagaId, id': SagaId)
    requires IsRun(trace, labels) && i <= j < |trace| && q.sourceRef.Some?
    requires Returned(trace[i], c, q, id) && Returned(trace[j], c', q, id')
    ensures id == id'
    ensures id in trace[j].rows && forall k :: k in trace[j].rows && Holds(trace[j].rows[k], q) <==> k == id
  {
    ResultIsFinal(trace, labels, i, j, c);
    RunKeeps(trace, labels, j);
    var s := trace[j];
    assert CallOk(s, s.calls[c]) && CallOk(s, s.calls[c']);
    assert Holds(s.rows[id], q) && Holds(s.rows[id'], q);
  }

  // The row is what the request asks for: its repository, source type and reference, and
  // its name when there is no reference.
  ghost predicate Fits(r: Row, q: Request) {
    && r.knowledge && r.repo == q.repo && r.sourceType == Some(q.sourceType) && r.sourceRef == q.sourceRef
    && (q.sourceRef.None? ==> r.name == q.name)
  }

  /** Every call that succeeds returns a row that fits its request, at any later time. */
  lemma ResultFits(trace: seq<State>, labels: seq<Label>, i: nat, c: CallId)
    requires IsRun(trace, labels) && i < |trace| && c in trace[i].calls
    requires trace[i].calls[c].phase.Done? && trace[i].calls[c].phase.result.Some?
    ensures var id := trace[i].calls[c].phase.result.value;
      id in trace[i].rows && Fits(trace[i].rows[id], trace[i].calls[c].q)
  {
    RunKeeps(trace, labels, i);
    assert CallOk(trace[i], trace[i].calls[c]);
  }

  // Some knowledge row has the request's repository, source type and reference.
  ghost predicate Taken(rows: map<SagaId, Row>, q: Request) {
    q.sourceRef.Some? && exists i :: i in rows && Fits(rows[i], q)
  }

  // This step gives call c this row: the one found, the one created, or the winner's.
  ghost predicate Gives(s: State, l: Label, c: CallId, id: SagaId) {
    || l == Find(c, Some(id)) || l == Refetch(c, id)
    || (l == Create(c, id) && c in s.calls && !Taken(s.rows, s.calls[c].q))
  }

  lemma TakenIsConflict(rows: map<SagaId, Row>, q: Request)
    ensures Taken(rows, q) <==> Conflicts(rows, q)
  {
    if Conflicts(rows, q) {
      var i :| i in rows && rows[i].knowledge && HasSource(rows[i], q);
      assert Fits(rows[i], q);
    }
  }

  lemma GivesStep(s: State, l: Label, c: CallId, id: SagaId)
    requires Enabled(s, l) && c in Apply(s, l).calls
    ensures Apply(s, l).calls[c].phase == Done(Some(id)) <==>
      Gives(s, l, c, id) || (c in s.calls && s.calls[c].phase == Done(Some(id)))
    ensures (l.Create? || l.CreateLost?) && l.call == c ==> c in s.calls
    ensures (l.Create? || l.CreateLost?) && l.call == c ==>
      var q := s.calls[c].q;
      var name := if q.name.None? && q.sourceRef.Some? then Some(q.sourceType + ":" + q.sourceRef.value) else q.name;
      Apply(s, l).rows ==
        if Taken(s.rows, q) then s.rows else s.rows[l.id := Row(true, q.repo, Some(q.sourceType), q.sourceRef, name)]
  {
    if c in s.calls { TakenIsConflict(s.rows, s.calls[c].q); }
    hide Taken, Conflicts;
  }

  // Step k gave call c this row.
  ghost predicate GivenAt(trace: seq<State>, labels: seq<Label>, k: nat, i: nat, c: CallId, id: SagaId)
    requires IsRun(trace, labels) && i < |trace|
  {
    k < i && Gives(trace[k], labels[k], c, id)
  }

  /** A call returns a row exactly when it found it, created it because its source was
      not taken, or fetched it after losing the race. */
  lemma {:induction false} ResultExactly(trace: seq<State>, labels: seq<Label>, i: nat, c: CallId, id: SagaId)
    requires IsRun(trace, labels) && i < |trace| && c in trace[i].calls
    ensures trace[i].calls[c].phase == Done(Some(id)) <==> exists k: nat :: GivenAt(trace, labels, k, i, c, id)
  {
    hide Apply, Enabled, Gives;
    assert i > 0;
    var h := i - 1;
    assert Enabled(trace[h], labels[h]) && trace[i] == Apply(trace[h], labels[h]);
    GivesStep(trace[h], labels[h], c, id);
    if c in trace[h].calls {
      ResultExactly(trace, labels, h, c, id);
      if k: nat :| GivenAt(trace, labels, k, h, c, id) { assert GivenAt(trace, labels, k, i, c, id); }
    } else {
      NotYetBegun(trace, labels, h, c, id);
    }
    if Gives(trace[h], labels[h], c, id) { assert GivenAt(trace, labels, h, i, c, id); }
    if k: nat :| GivenAt(trace, labels, k, i, c, id) { assert k == h || GivenAt(trace, labels, k, h, c, id); }
  }

  lemma {:induction false} NotYetBegun(trace: seq<State>, labels: seq<Label>, i: nat, c: CallId, id: SagaId)
    requires IsRun(trace, labels) && i < |trace| && c !in trace[i].calls
    ensures forall k: nat :: !GivenAt(trace, labels, k, i, c, id)
  {
    if i > 0 {
      var h := i - 1;
      assert Enabled(trace[h], labels[h]) && trace[i] == Apply(trace[h], labels[h]);
      NotYetBegun(trace, labels, h, c, id);
      assert forall k: nat :: GivenAt(trace, labels, k, i, c, id) ==> k == h || GivenAt(trace, labels, k, h, c, id);
    }
  }

  /** A call that lost the insert race has a source reference, and the winner's row
      is there to be fetched: the refetch fails only on a database error. */
  lemma RefetchFindsTheWinner(trace: seq<State>, labels: seq<Label>, i: nat, c: CallId)
    requires IsRun(trace, labels) && i < |trace| && c in trace[i].calls && trace[i].calls[c].phase.Refetching?
    ensures trace[i].calls[c].q.sourceRef.Some?
    ensures exists w :: Enabled(trace[i], Refetch(c, w)) && forall v :: Enabled(trace[i], Refetch(c, v)) ==> v == w
  {
    RunKeeps(trace, labels, i);
    var s := trace[i];
    var q := s.calls[c].q;
    assert CallOk(s, s.calls[c]);
    var w :| w in s.rows && s.rows[w].knowledge && HasSource(s.rows[w], q);
    assert q.(sourceRef := Some(RefetchRef(q))) == q;
    assert Enabled(s, Refetch(c, w));
    forall v | Enabled(s, Refetch(c, v)) ensures v == w {
      assert Holds(s.rows[v], q) && Holds(s.rows[w], q);
    }
  }

  /** Topics without a source reference are not covered by the index: two
      overlapping calls on one topic return different rows. */
  lemma ManualTopicsDuplicate(repo: string, topic: string) returns (trace: seq<State>, labels: seq<Label>)
    ensures IsRun(trace, labels)
    ensures var s, q := trace[|trace| - 1], Request(repo, "manual", None, Some(topic));
      Returned(s, 0, q, 10) && Returned(s, 1, q, 11) && 10 in s.rows && 11 in s.rows && s.rows[10] == s.rows[11]
  {
    var q := Request(repo, "manual", None, Some(topic));
    var row := NewRow(q);
    labels := [Begin(0, q), Begin(1, q), Find(0, None), Find(1, None), Create(0, 10), Create(1, 11)];
    trace := [
      INIT,
      State(map[], map[0 := Call(q, Finding)], {}),
      State(map[], map[0 := Call(q, Finding), 1 := Call(q, Finding)], {}),
      State(map[], map[0 := Call(q, Creating), 1 := Call(q, Finding)], {}),
      State(map[], map[0 := Call(q, Creating), 1 := Call(q, Creating)], {}),
      State(map[10 := row], map[0 := Call(q, Done(Some(10))), 1 := Call(q, Creating)], {10}),
      State(map[10 := row, 11 := row], map[0 := Call(q, Done(Some(10))), 1 := Call(q, Done(Some(11)))], {10, 11})];
    forall i | 0 <= i < 6 ensures Enabled(trace[i], labels[i]) && trace[i + 1] == Apply(trace[i], labels[i]) {
      assert trace[i + 1].calls == Apply(trace[i], labels[i]).calls;
      assert trace[i + 1].used == Apply(trace[i], labels[i]).used;
    }
  }

  // ---- One call against the table ----

  // The insert ran and was answered, did not run, or ran without an answer.
  datatype InsertOutcome = InsertOk | InsertErr | InsertErrApplied

  // The row has the request's source reference, or its name when neither has a reference.
  ghost predicate Sought(r: Row, q: Request) {
    && r.repo == q.repo && r.sourceType == Some(q.sourceType)
    && match q.sourceRef
       case Some(_) => r.sourceRef == q.sourceRef
       case None => r.sourceRef.None? && q.name.Some? && r.name == q.name
  }

  class SagaTable {
    var rows: map<SagaId, Row>

    constructor ()
      ensures rows == map[]
    {
      rows := map[];
    }

    /** `rival` is the row another request commits between this call's lookup and
        its insert, if any.  The call fails exactly when a statement it runs errors,
        and writes at most its own row: none if a row was found or the rival won. */
    method FindOrCreateSaga(q: Request, id: SagaId, findErr: bool, rival: Option<SagaId>, insert: InsertOutcome,
        refetchErr: bool)
      returns (r: Option<SagaId>)
      requires IndexUnique(rows) && id !in rows && (rival.Some? ==> rival.value !in rows && rival.value != id)
      requires forall i :: i in rows && !rows[i].knowledge ==> rows[i].sourceType.None?
      modifies this
      ensures IndexUnique(rows)
      ensures r.Some? ==> r.value in rows && Holds(rows[r.value], q) && Fits(rows[r.value], q)
      ensures r.Some? && !findErr && (exists i :: i in old(rows) && Sought(old(rows)[i], q)) ==>
        r.value in old(rows) && Sought(old(rows)[r.value], q)
      ensures r.Some? && q.sourceRef.Some? ==> forall i :: i in rows && Holds(rows[i], q) ==> i == r.value
      ensures var found := exists i :: i in old(rows) && Sought(old(rows)[i], q);
        var lost := q.sourceRef.Some? && rival.Some?;
        var name := if q.name.None? && q.sourceRef.Some? then Some(q.sourceType + ":" + q.sourceRef.value) else q.name;
        var row := Row(true, q.repo, Some(q.sourceType), q.sourceRef, name);
        && (r.None? <==> findErr || (!found && (!insert.InsertOk? || (lost && refetchErr))))
        && (findErr || found ==> rows == old(rows))
        && (!findErr && !found ==>
             var before := if rival.Some? then old(rows)[rival.value := row] else old(rows);
             rows == if lost || insert.InsertErr? then before else before[id := row])
    {
      if findErr { return None; }
      var matches := set i | i in rows && Found(rows[i], q);
      if matches != {} {
        var m :| m in matches;
        assert Holds(rows[m], q);
        return Some(m);
      }
      assert forall i :: i in rows ==> i !in matches;
      assert !Conflicts(rows, q);
      if rival.Some? {
        AddKeepsUnique(rows, q, rival.value);
        rows := rows[rival.value := NewRow(q)];
      }
      var winners := set i | i in rows && Holds(rows[i], q);
      assert q.sourceRef.Some? ==> (winners != {} <==> rival.Some?) by {
        if rival.Some? { assert rival.value in winners; }
      }
      if insert.InsertErr? { return None; }
      if q.sourceRef.Some? && winners != {} {
        if !insert.InsertOk? || refetchErr { return None; }
        var w :| w in winners;
        return Some(w);
      }
      assert forall i :: i in rows ==> i !in winners || q.sourceRef.None?;
      AddKeepsUnique(rows, q, id);
      rows := rows[id := NewRow(q)];
      if !insert.InsertOk? { return None; }
      return Some(id);
    }
  }
}
