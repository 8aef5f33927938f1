/**
 Notes live in two stores: a Postgres row and a Neo4j node, and a superseded
 note carries a mark in Postgres and a SUPERSEDES edge in Neo4j.  Neither
 operation is a transaction, so save_note, delete_note and supersede_note write
 the stores in order and undo what they can.  Every call may error, an errored
 write may still have reached its store, and all operations interleave.
 */
module Curation {
  import opened Basics

  type NoteId = nat
  type CallId = nat

  datatype Note = Note(repo: string, supersededBy: Option<NoteId>)

  // An edge (n, o): note n supersedes note o.
  datatype Stores = Stores(notes: map<NoteId, Note>, nodes: set<NoteId>, edges: set<(NoteId, NoteId)>)

  // ---- The statements, each atomic ----

  function InsertNote(d: Stores, id: NoteId, repo: string): Stores {
    d.(notes := d.notes[id := Note(repo, None)])
  }

  predicate RowMatches(d: Stores, id: NoteId, repo: string) {
    id in d.notes && d.notes[id].repo == repo
  }

  function DeleteNoteRow(d: Stores, id: NoteId, repo: string): Stores {
    if RowMatches(d, id, repo) then d.(notes := d.notes - {id}) else d
  }

  function SetMark(d: Stores, prior: NoteId, next: Option<NoteId>): Stores {
    if prior in d.notes then d.(notes := d.notes[prior := d.notes[prior].(supersededBy := next)]) else d
  }

  function CreateNode(d: Stores, id: NoteId): Stores { d.(nodes := d.nodes + {id}) }

  function DetachDelete(d: Stores, id: NoteId): Stores {
    d.(nodes := d.nodes - {id}, edges := set e | e in d.edges && e.0 != id && e.1 != id)
  }

  // The edge is merged only when both nodes exist; otherwise the query reports an error.
  predicate CanLink(d: Stores, prior: NoteId, next: NoteId) { prior in d.nodes && next in d.nodes }

  function MergeEdge(d: Stores, prior: NoteId, next: NoteId): Stores {
    if CanLink(d, prior, next) then d.(edges := d.edges + {(next, prior)}) else d
  }

  function Written(o: WriteOutcome, before: Stores, after: Stores): Stores {
    if o.WriteErr? then before else after
  }

  // ---- The operations, step by step ----

  datatype Job =
    | Save(repo: string, supersedes: Option<NoteId>)
    | Delete(repo: string, id: NoteId)
    | Supersede(prior: NoteId, next: NoteId)

  datatype Phase =
    | SaveRow | SaveMark(id: NoteId) | SaveNode(id: NoteId) | SaveUndo(id: NoteId, applied: bool)
    | DeleteRow | DeleteNode
    | CheckOld | CheckNew | MarkOld | LinkNew | UndoMark
    | Finished(ok: bool)

  datatype Call = Call(job: Job, phase: Phase)

  // History: `applied` in SaveUndo, whether the node write that errored landed;
  // `used` are the ids ever generated; `stray` the notes whose insert lost its
  // reply, or whose node write did not land and whose compensating delete failed;
  // `faults` the marks that nobody will mirror or undo.
  datatype State = State(d: Stores, calls: map<CallId, Call>, used: set<NoteId>, stray: set<NoteId>,
      faults: set<(NoteId, NoteId)>)

  const INIT := State(Stores(map[], {}, {}), map[], {}, {}, {})

  datatype Label =
    | Start(call: CallId, job: Job)
    | InsertRow(call: CallId, id: NoteId, o: WriteOutcome)
    | SupersedeOnSave(call: CallId, o: WriteOutcome)
    | AddNode(call: CallId, o: WriteOutcome)
    | Compensate(call: CallId, o: WriteOutcome)
    | RemoveRow(call: CallId, o: WriteOutcome)
    | RemoveNode(call: CallId, o: WriteOutcome)
    | Exists(call: CallId, dbError: bool)
    | Mark(call: CallId, o: WriteOutcome)
    | Link(call: CallId, o: WriteOutcome)
    | Unmark(call: CallId, o: WriteOutcome)

  predicate Enabled(s: State, l: Label) {
    if l.Start? then l.call !in s.calls else
    l.call in s.calls &&
    var call := s.calls[l.call];
    match l
    case InsertRow(_, id, _) => call.job.Save? && call.phase.SaveRow? && id !in s.used
    case SupersedeOnSave(_, _) => call.job.Save? && call.phase.SaveMark?
    case AddNode(_, _) => call.job.Save? && call.phase.SaveNode?
    case Compensate(_, _) => call.job.Save? && call.phase.SaveUndo?
    case RemoveRow(_, _) => call.job.Delete? && call.phase.DeleteRow?
    case RemoveNode(_, _) => call.job.Delete? && call.phase.DeleteNode?
    case Exists(_, _) => call.job.Supersede? && (call.phase.CheckOld? || call.phase.CheckNew?)
    case Mark(_, _) => call.job.Supersede? && call.phase.MarkOld?
    case Link(_, _) => call.job.Supersede? && call.phase.LinkNew?
    case Unmark(_, _) => call.job.Supersede? && call.phase.UndoMark?
  }

  function First(job: Job): Phase {
    match job
    case Save(_, _) => SaveRow
    case Delete(_, _) => DeleteRow
    case Supersede(_, _) => CheckOld
  }

  // The new phase of the call that moved.
  function NextPhase(s: State, l: Label): Phase
    requires Enabled(s, l)
  {
    match l
    case Start(_, job) => First(job)
    case InsertRow(c, id, o) =>
      if !o.WriteOk? then Finished(false) else if s.calls[c].job.supersedes.Some? then SaveMark(id) else SaveNode(id)
    case SupersedeOnSave(c, _) => SaveNode(s.calls[c].phase.id)
    case AddNode(c, o) => if o.WriteOk? then Finished(true) else SaveUndo(s.calls[c].phase.id, o.WriteErrApplied?)
    case Compensate(_, _) => Finished(false)
    case RemoveRow(c, o) =>
      if o.WriteOk? && RowMatches(s.d, s.calls[c].job.id, s.calls[c].job.repo) then DeleteNode else Finished(false)
    case RemoveNode(_, _) => Finished(true)
    case Exists(c, dbError) =>
      var call := s.calls[c];
      var id := if call.phase.CheckOld? then call.job.prior else call.job.next;
      if dbError || id !in s.d.notes then Finished(false) else if call.phase.CheckOld? then CheckNew else MarkOld
    case Mark(_, o) => if o.WriteOk? then LinkNew else Finished(false)
    case Link(c, o) =>
      if o.WriteOk? && CanLink(s.d, s.calls[c].job.prior, s.calls[c].job.next) then Finished(true) else UndoMark
    case Unmark(_, _) => Finished(false)
  }

  function NextStores(s: State, l: Label): Stores
    requires Enabled(s, l)
  {
    match l
    case Start(_, _) => s.d
    case InsertRow(c, id, o) => Written(o, s.d, InsertNote(s.d, id, s.calls[c].job.repo))
    case SupersedeOnSave(c, o) =>
      if s.calls[c].job.supersedes.None? then s.d
      else Written(o, s.d, SetMark(s.d, s.calls[c].job.supersedes.value, Some(s.calls[c].phase.id)))
    case AddNode(c, o) => Written(o, s.d, CreateNode(s.d, s.calls[c].phase.id))
    case Compensate(c, o) => Written(o, s.d, DeleteNoteRow(s.d, s.calls[c].phase.id, s.calls[c].job.repo))
    case RemoveRow(c, o) => Written(o, s.d, DeleteNoteRow(s.d, s.calls[c].job.id, s.calls[c].job.repo))
    case RemoveNode(c, o) => Written(o, s.d, DetachDelete(s.d, s.calls[c].job.id))
    case Exists(_, _) => s.d
    case Mark(c, o) => Written(o, s.d, SetMark(s.d, s.calls[c].job.prior, Some(s.calls[c].job.next)))
    case Link(c, o) => Written(o, s.d, MergeEdge(s.d, s.calls[c].job.prior, s.calls[c].job.next))
    case Unmark(c, o) => Written(o, s.d, SetMark(s.d, s.calls[c].job.prior, None))
  }

  function NextStray(s: State, l: Label): set<NoteId>
    requires Enabled(s, l)
  {
    match l
    case InsertRow(_, id, o) => if o.WriteErrApplied? then s.stray + {id} else s.stray
    case Compensate(c, o) =>
      if o.WriteErr? && !s.calls[c].phase.applied then s.stray + {s.calls[c].phase.id} else s.stray
    case _ => s.stray
  }

  function NextFaults(s: State, l: Label): set<(NoteId, NoteId)>
    requires Enabled(s, l)
  {
    match l
    case SupersedeOnSave(c, o) =>
      if s.calls[c].job.supersedes.None? || o.WriteErr? then s.faults
      else s.faults + {(s.calls[c].job.supersedes.value, s.calls[c].phase.id)}
    case Mark(c, o) => if o.WriteErrApplied? then s.faults + {(s.calls[c].job.prior, s.calls[c].job.next)} else s.faults
    case Unmark(c, o) => if o.WriteErr? then s.faults + {(s.calls[c].job.prior, s.calls[c].job.next)} else s.faults
    case _ => s.faults
  }

  function Apply(s: State, l: Label): State
    requires Enabled(s, l)
  {
    var job := if l.Start? then l.job else s.calls[l.call].job;
    State(
      NextStores(s, l),
      s.calls[l.call := Call(job, NextPhase(s, l))],
      if l.InsertRow? then s.used + {l.id} else s.used,
      NextStray(s, l),
      NextFaults(s, l))
  }

  ghost predicate IsRun(trace: seq<State>, labels: seq<Label>) {
    && |trace| == |labels| + 1
    && trace[0] == INIT
    && forall i :: 0 <= i < |labels| ==> Enabled(trace[i], labels[i]) && trace[i + 1] == Apply(trace[i], labels[i])
  }

  // ---- The invariant ----

  ghost predicate CallOk(s: State, call: Call) {
    && (call.phase.SaveMark? || call.phase.SaveNode? || call.phase.SaveUndo? ==>
          && call.job.Save? && call.phase.id in s.used && call.phase.id !in s.stray
          && (call.phase.id in s.d.notes ==> s.d.notes[call.phase.id].repo == call.job.repo)
          && (if call.phase.SaveUndo? && call.phase.applied
              then call.phase.id in s.d.notes ==> call.phase.id in s.d.nodes
              else call.phase.id !in s.d.nodes))
    && (call.phase.DeleteNode? ==> call.job.Delete? && call.job.id in s.used && call.job.id !in s.d.notes)
    && (call.phase.CheckNew? || call.phase.MarkOld? || call.phase.LinkNew? || call.phase.UndoMark? ==>
          call.job.Supersede? && call.job.prior in s.used)
    && (call.phase.MarkOld? || call.phase.LinkNew? || call.phase.UndoMark? ==> call.job.next in s.used)
  }

  // Call c is saving note n and has not settled its node yet.
  ghost predicate Settling(s: State, c: CallId, n: NoteId) {
    c in s.calls &&
    var phase := s.calls[c].phase;
    (phase.SaveMark? || phase.SaveNode? || phase.SaveUndo?) && phase.id == n
  }

  ghost predicate OneSaverEach(s: State) {
    forall c, c', n :: Settling(s, c, n) && Settling(s, c', n) ==> c == c'
  }

  ghost predicate NodeOk(s: State, n: NoteId) {
    (n in s.d.notes && n !in s.d.nodes ==> n in s.stray || exists c :: Settling(s, c, n))
    && (n in s.stray ==> n !in s.d.nodes && n in s.used)
  }

  // Call c will mirror the mark of o by n, or clear it.
  ghost predicate Mirroring(s: State, c: CallId, o: NoteId, n: NoteId) {
    c in s.calls && s.calls[c].job == Supersede(o, n) && (s.calls[c].phase.LinkNew? || s.calls[c].phase.UndoMark?)
  }

  ghost predicate MarkOk(s: State, o: NoteId) {
    o in s.d.notes && s.d.notes[o].supersededBy.Some? ==>
      var n := s.d.notes[o].supersededBy.value;
      n in s.used && (n !in s.d.notes || (n, o) in s.d.edges || (o, n) in s.faults || exists c :: Mirroring(s, c, o, n))
  }

  ghost predicate Inv(s: State) {
    && s.d.notes.Keys + s.d.nodes <= s.used
    && (forall c :: c in s.calls ==> CallOk(s, s.calls[c]))
    && OneSaverEach(s)
    && (forall n :: NodeOk(s, n))
    && (forall o :: MarkOk(s, o))
  }

  // ---- Every step keeps it ----

  lemma NotesUsed(s: State, l: Label)
    requires s.d.notes.Keys + s.d.nodes <= s.used && Enabled(s, l)
    requires l.call in s.calls ==> CallOk(s, s.calls[l.call])
    ensures var s' := Apply(s, l); s'.d.notes.Keys + s'.d.nodes <= s'.used
  {
    hide NextPhase, NextStray, NextFaults;
  }

  // Ids are only ever added to, and a note keeps its repository and never returns.
  lemma NotesFrame(s: State, l: Label, id: NoteId)
    requires Enabled(s, l)
    ensures var s' := Apply(s, l);
      && s.used <= s'.used
      && (id in s.used && id in s'.d.notes ==> id in s.d.notes && s'.d.notes[id].repo == s.d.notes[id].repo)
  {
    hide NextPhase, NextStray, NextFaults;
  }

  // A note becomes stray by its own save only.
  lemma StrayFrame(s: State, l: Label, id: NoteId)
    requires Enabled(s, l) && id in NextStray(s, l) && id !in s.stray
    ensures (l.InsertRow? && id == l.id) || (l.Compensate? && s.calls[l.call].phase == SaveUndo(id, false))
  {
  }

  // A call that does not move.
  lemma StillCallOk(s: State, l: Label, c: CallId)
    requires Inv(s) && Enabled(s, l) && c in s.calls && c != l.call
    ensures CallOk(Apply(s, l), s.calls[c])
  {
    var s', call := Apply(s, l), s.calls[c];
    assert CallOk(s, call);
    if call.phase.SaveMark? || call.phase.SaveNode? || call.phase.SaveUndo? {
      var id := call.phase.id;
      NotesFrame(s, l, id);
      assert Settling(s, c, id);
      assert (l.Compensate? || l.AddNode?) && s.calls[l.call].phase.id == id ==> Settling(s, l.call, id);
      if id in s'.stray { StrayFrame(s, l, id); }
    }
    if call.phase.DeleteNode? { NotesFrame(s, l, call.job.id); }
    NotesFrame(s, l, 0);
    hide NextStores, NextPhase, NextStray, NextFaults;
  }

  // The call the step moves.
  lemma MovedCallOk(s: State, l: Label)
    requires Inv(s) && Enabled(s, l)
    ensures l.call in Apply(s, l).calls && CallOk(Apply(s, l), Apply(s, l).calls[l.call])
  {
    hide NextFaults;
    if l.call in s.calls { assert CallOk(s, s.calls[l.call]); }
    if l.InsertRow? { assert NodeOk(s, l.id); }
  }

  lemma CallsKeep(s: State, l: Label)
    requires Inv(s) && Enabled(s, l)
    ensures var s' := Apply(s, l);
      && s'.d.notes.Keys + s'.d.nodes <= s'.used
      && forall c :: c in s'.calls ==> CallOk(s', s'.calls[c])
  {
    hide CallOk, NextStores, NextPhase, NextStray, NextFaults, NodeOk, MarkOk;
    var s' := Apply(s, l);
    NotesUsed(s, l);
    forall c | c in s'.calls ensures CallOk(s', s'.calls[c]) {
      if c == l.call { MovedCallOk(s, l); } else { StillCallOk(s, l, c); }
    }
  }

  // A step makes only the call it moves settle a note: one it was settling or has just inserted.
  lemma SettlingBefore(s: State, l: Label, c: CallId, n: NoteId)
    requires Enabled(s, l) && Settling(Apply(s, l), c, n)
    ensures Settling(s, c, n) || (c == l.call && l.InsertRow? && l.id == n && n !in s.used)
  {
    hide NextStores, NextStray, NextFaults;
  }

  lemma SaversKeep(s: State, l: Label)
    requires Inv(s) && Enabled(s, l)
    ensures OneSaverEach(Apply(s, l))
  {
    hide NextStores, NextPhase, NextStray, NextFaults, NodeOk, MarkOk;
    var s' := Apply(s, l);
    forall c, c', n | Settling(s', c, n) && Settling(s', c', n) ensures c == c' {
      SettlingBefore(s, l, c, n);
      SettlingBefore(s, l, c', n);
      if Settling(s, c, n) { assert CallOk(s, s.calls[c]); }
      if Settling(s, c', n) { assert CallOk(s, s.calls[c']); }
    }
  }

  lemma NodeKeeps(s: State, l: Label, n: NoteId)
    requires Inv(s) && Enabled(s, l)
    ensures NodeOk(Apply(s, l), n)
  {
    var s' := Apply(s, l);
    assert NodeOk(s, n);
    if l.call in s.calls { assert CallOk(s, s.calls[l.call]); }
    if n in s'.d.notes && n !in s'.d.nodes && n !in s'.stray {
      if n in s.d.notes && n !in s.d.nodes {
        var c :| Settling(s, c, n);
        assert Settling(s', c, n);
      } else {
        assert Settling(s', l.call, n);
      }
    }
  }

  lemma MarkKeeps(s: State, l: Label, o: NoteId)
    requires Inv(s) && Enabled(s, l)
    ensures MarkOk(Apply(s, l), o)
  {
    var s' := Apply(s, l);
    assert MarkOk(s, o);
    if l.call in s.calls { assert CallOk(s, s.calls[l.call]); }
    if o in s'.d.notes && s'.d.notes[o].supersededBy.Some? {
      var n := s'.d.notes[o].supersededBy.value;
      if o in s.d.notes && s.d.notes[o].supersededBy == Some(n) && n in s.d.notes && (n, o) !in s.d.edges &&
        (o, n) !in s.faults {
        var c :| Mirroring(s, c, o, n);
        if c != l.call || s'.calls[c].phase.UndoMark? { assert Mirroring(s', c, o, n); }
      } else if l.Mark? && l.o.WriteOk? && s.calls[l.call].job == Supersede(o, n) {
        assert Mirroring(s', l.call, o, n);
      }
    }
  }

  lemma StepKeeps(s: State, l: Label)
    requires Inv(s) && Enabled(s, l)
    ensures Inv(Apply(s, l))
  {
    CallsKeep(s, l);
    SaversKeep(s, l);
    forall n ensures NodeOk(Apply(s, l), n) { NodeKeeps(s, l, n); }
    forall o ensures MarkOk(Apply(s, l), o) { MarkKeeps(s, l, o); }
  }

  lemma {:induction false} RunKeeps(trace: seq<State>, labels: seq<Label>, i: nat)
    requires IsRun(trace, labels) && i < |trace|
    ensures Inv(trace[i])
  {
    if i > 0 {
      RunKeeps(trace, labels, i - 1);
      StepKeeps(trace[i - 1], labels[i - 1]);
    }
  }

  // ---- Main results ----

  ghost predicate Quiet(s: State) {
    forall c :: c in s.calls ==> s.calls[c].phase.Finished?
  }

  /** When no save is in flight, the Postgres notes without a graph node are
      exactly those whose insert lost its reply, or whose node write did not land
      and whose compensating delete failed. */
  lemma NotesHaveNodes(trace: seq<State>, labels: seq<Label>, i: nat)
    requires IsRun(trace, labels) && i < |trace|
    requires forall c, n :: !Settling(trace[i], c, n)
    ensures forall n :: n in trace[i].d.notes ==> (n !in trace[i].d.nodes <==> n in trace[i].stray)
  {
    RunKeeps(trace, labels, i);
    forall n | n in trace[i].d.notes ensures n !in trace[i].d.nodes <==> n in trace[i].stray {
      assert NodeOk(trace[i], n);
    }
  }

  // The labels that can leave a note without a node.
  predicate LosesNote(l: Label) {
    (l.InsertRow? && l.o.WriteErrApplied?) || (l.Compensate? && l.o.WriteErr?)
  }

  // The labels that can leave a mark without an edge.
  predicate LosesMark(l: Label) {
    (l.SupersedeOnSave? && !l.o.WriteErr?) || (l.Mark? && l.o.WriteErrApplied?) || (l.Unmark? && l.o.WriteErr?)
  }

  lemma {:induction false} NoLossNoException(trace: seq<State>, labels: seq<Label>, i: nat)
    requires IsRun(trace, labels) && i < |trace|
    ensures (forall j :: 0 <= j < i ==> !LosesNote(labels[j])) ==> trace[i].stray == {}
    ensures (forall j :: 0 <= j < i ==> !LosesMark(labels[j])) ==> trace[i].faults == {}
  {
    if i > 0 {
      NoLossNoException(trace, labels, i - 1);
      assert trace[i] == Apply(trace[i - 1], labels[i - 1]);
      assert !LosesNote(labels[i - 1]) ==> trace[i].stray == trace[i - 1].stray;
      assert !LosesMark(labels[i - 1]) ==> trace[i].faults == trace[i - 1].faults;
    }
  }

  /** Without such losses every Postgres note has its node whenever no save is in
      flight, whatever else failed. */
  lemma NoOrphanNotes(trace: seq<State>, labels: seq<Label>, i: nat)
    requires IsRun(trace, labels) && i < |trace|
    requires forall c, n :: !Settling(trace[i], c, n)
    requires forall j :: 0 <= j < i ==> !LosesNote(labels[j])
    ensures trace[i].d.notes.Keys <= trace[i].d.nodes
  {
    NotesHaveNodes(trace, labels, i);
    NoLossNoException(trace, labels, i);
  }

  /** When all calls have finished, every superseded mark has its SUPERSEDES edge
      unless the superseding note is gone or the mark is one nobody undoes. */
  lemma MarksHaveEdges(trace: seq<State>, labels: seq<Label>, i: nat, o: NoteId)
    requires IsRun(trace, labels) && i < |trace| && Quiet(trace[i])
    requires o in trace[i].d.notes && trace[i].d.notes[o].supersededBy.Some?
    ensures var n := trace[i].d.notes[o].supersededBy.value;
      (n, o) in trace[i].d.edges || n !in trace[i].d.notes || (o, n) in trace[i].faults
    ensures
      (forall j :: 0 <= j < i ==> !LosesMark(labels[j])) && trace[i].d.notes[o].supersededBy.value in trace[i].d.notes
      ==> (trace[i].d.notes[o].supersededBy.value, o) in trace[i].d.edges
  {
    RunKeeps(trace, labels, i);
    NoLossNoException(trace, labels, i);
    assert MarkOk(trace[i], o);
  }

  ghost predicate IsPath(trace: seq<State>, labels: seq<Label>) {
    && |trace| == |labels| + 1
    && forall i :: 0 <= i < |labels| ==> Enabled(trace[i], labels[i]) && trace[i + 1] == Apply(trace[i], labels[i])
  }

  lemma Push(trace: seq<State>, labels: seq<Label>, l: Label) returns (trace': seq<State>, labels': seq<Label>)
    requires IsPath(trace, labels) && Enabled(trace[|trace| - 1], l)
    ensures IsPath(trace', labels') && trace'[0] == trace[0] && labels' == labels + [l]
    ensures trace'[|trace'| - 1] == Apply(trace[|trace| - 1], l)
  {
    trace', labels' := trace + [Apply(trace[|trace| - 1], l)], labels + [l];
  }

  // A supersede call up to its mark.
  lemma RunToMark(trace: seq<State>, labels: seq<Label>, c: CallId, o: NoteId, n: NoteId)
    returns (trace': seq<State>, labels': seq<Label>)
    requires IsPath(trace, labels)
    requires var s := trace[|trace| - 1]; c !in s.calls && o in s.d.notes && n in s.d.notes
    ensures IsPath(trace', labels') && trace'[0] == trace[0]
    ensures var s, s' := trace[|trace| - 1], trace'[|trace'| - 1];
      s' == s.(d := SetMark(s.d, o, Some(n)), calls := s.calls[c := Call(Supersede(o, n), LinkNew)])
  {
    trace', labels' := Push(trace, labels, Start(c, Supersede(o, n)));
    trace', labels' := Push(trace', labels', Exists(c, false));
    trace', labels' := Push(trace', labels', Exists(c, false));
    trace', labels' := Push(trace', labels', Mark(c, WriteOk));
  }

  /** The converse fails without any failed rollback: of two overlapping calls on
      one note, the loser's rollback clears the winner's mark, and the winner has
      reported success with an edge and no mark. */
  lemma RollbackErasesOtherMark(s: State, o: NoteId, n1: NoteId, n2: NoteId, a: CallId, b: CallId)
    returns (trace: seq<State>, labels: seq<Label>)
    requires {o, n1, n2} <= s.d.notes.Keys && {o, n1, n2} <= s.d.nodes
    requires a != b && a !in s.calls && b !in s.calls
    ensures IsPath(trace, labels) && trace[0] == s
    ensures var s' := trace[|trace| - 1];
      && b in s'.calls && s'.calls[b] == Call(Supersede(o, n2), Finished(true))
      && a in s'.calls && s'.calls[a] == Call(Supersede(o, n1), Finished(false))
      && (n2, o) in s'.d.edges
      && o in s'.d.notes && s'.d.notes[o].supersededBy.None?
  {
    trace, labels := RunToMark([s], [], a, o, n1);
    trace, labels := RunToMark(trace, labels, b, o, n2);
    trace, labels := Push(trace, labels, Link(b, WriteOk));
    trace, labels := Push(trace, labels, Link(a, WriteErr));
    trace, labels := Push(trace, labels, Unmark(a, WriteOk));
  }

  // ---- When a mark survives ----

  // This step writes the mark of `o` by `n` and the row is there to take it.
  predicate SetsMark(s: State, l: Label, o: NoteId, n: NoteId)
    requires Enabled(s, l)
  {
    && o in s.d.notes
    && match l
       case Mark(c, w) => !w.WriteErr? && s.calls[c].job == Supersede(o, n)
       case SupersedeOnSave(c, w) =>
         !w.WriteErr? && s.calls[c].job.supersedes == Some(o) && s.calls[c].phase.id == n
       case _ => false
  }

  // This step rolls a mark of `o` back.
  predicate ClearsMark(s: State, l: Label, o: NoteId)
    requires Enabled(s, l)
  {
    l.Unmark? && !l.o.WriteErr? && s.calls[l.call].job.prior == o
  }

  ghost predicate TouchesMark(s: State, l: Label, o: NoteId)
    requires Enabled(s, l)
  {
    ClearsMark(s, l, o) || exists n: NoteId :: SetsMark(s, l, o, n)
  }

  // Steps k + 1 to i - 1 write and clear no mark of `o`.
  ghost predicate Untouched(trace: seq<State>, labels: seq<Label>, k: nat, i: nat, o: NoteId)
    requires IsRun(trace, labels) && i < |trace|
  {
    forall j :: k < j < i ==> !TouchesMark(trace[j], labels[j], o)
  }

  // Step k wrote the mark of `o` by `n`, and it is the last to touch `o` before i.
  ghost predicate LastMark(trace: seq<State>, labels: seq<Label>, k: nat, i: nat, o: NoteId, n: NoteId)
    requires IsRun(trace, labels) && i < |trace|
  {
    k < i && SetsMark(trace[k], labels[k], o, n) && Untouched(trace, labels, k, i, o)
  }

  // What one step does to the mark of a note.
  lemma MarkStep(s: State, l: Label, o: NoteId)
    requires Inv(s) && Enabled(s, l) && o in Apply(s, l).d.notes
    ensures var mark := Apply(s, l).d.notes[o].supersededBy;
      && (o !in s.d.notes ==> mark.None? && o !in s.used)
      && (o in s.d.notes && ClearsMark(s, l, o) ==> mark.None?)
      && (forall n: NoteId :: SetsMark(s, l, o, n) ==> mark == Some(n))
      && (o in s.d.notes && !TouchesMark(s, l, o) ==> mark == s.d.notes[o].supersededBy)
  {
    if l.call in s.calls { assert CallOk(s, s.calls[l.call]); }
    hide NextPhase, NextStray, NextFaults;
    if o in s.d.notes && l.Mark? && !l.o.WriteErr? && s.calls[l.call].job.prior == o {
      assert SetsMark(s, l, o, s.calls[l.call].job.next);
    }
    if o in s.d.notes && l.SupersedeOnSave? && !l.o.WriteErr? && s.calls[l.call].job.supersedes == Some(o) {
      assert SetsMark(s, l, o, s.calls[l.call].phase.id);
    }
  }

  lemma {:induction false} UsedGrows(trace: seq<State>, labels: seq<Label>, k: nat, i: nat)
    requires IsRun(trace, labels) && k <= i < |trace|
    ensures trace[k].used <= trace[i].used
  {
    hide Apply, Enabled;
    if k < i {
      UsedGrows(trace, labels, k, i - 1);
      NotesFrame(trace[i - 1], labels[i - 1], 0);
    }
  }

  /** The mark a note carries is exactly the last one written to it, provided no
      rollback of a mark of that note came later. */
  lemma {:induction false} MarkIsLast(trace: seq<State>, labels: seq<Label>, i: nat, o: NoteId, n: NoteId)
    requires IsRun(trace, labels) && i < |trace| && o in trace[i].d.notes
    ensures trace[i].d.notes[o].supersededBy == Some(n) <==> exists k: nat :: LastMark(trace, labels, k, i, o, n)
  {
    if i > 0 {
      var h := i - 1;
      RunKeeps(trace, labels, h);
      MarkStep(trace[h], labels[h], o);
      if o !in trace[h].d.notes {
        forall k: nat | LastMark(trace, labels, k, i, o, n) ensures false { NotYetThere(trace, labels, k, h, o); }
      } else if TouchesMark(trace[h], labels[h], o) {
        assert SetsMark(trace[h], labels[h], o, n) ==> LastMark(trace, labels, h, i, o, n);
        assert forall k: nat :: LastMark(trace, labels, k, i, o, n) ==> k == h;
      } else {
        MarkIsLast(trace, labels, h, o, n);
        LastMarkStays(trace, labels, h, i, o, n);
      }
    }
  }

  // A note whose id is still unused was in no earlier state.
  lemma NotYetThere(trace: seq<State>, labels: seq<Label>, k: nat, i: nat, o: NoteId)
    requires IsRun(trace, labels) && k <= i < |trace| && o !in trace[i].used
    ensures o !in trace[k].d.notes
  {
    RunKeeps(trace, labels, k);
    UsedGrows(trace, labels, k, i);
  }

  lemma LastMarkStays(trace: seq<State>, labels: seq<Label>, h: nat, i: nat, o: NoteId, n: NoteId)
    requires IsRun(trace, labels) && i == h + 1 < |trace| && !TouchesMark(trace[h], labels[h], o)
    ensures (exists k: nat :: LastMark(trace, labels, k, h, o, n)) <==>
      exists k: nat :: LastMark(trace, labels, k, i, o, n)
  {
    if k: nat :| LastMark(trace, labels, k, h, o, n) { assert LastMark(trace, labels, k, i, o, n); }
    if k: nat :| LastMark(trace, labels, k, i, o, n) {
      assert TouchesMark(trace[k], labels[k], o);
      assert LastMark(trace, labels, k, h, o, n);
    }
  }

  // Step k wrote a mark of `o` and no step after it rolled one back.
  ghost predicate MarkedSince(trace: seq<State>, labels: seq<Label>, k: nat, i: nat, o: NoteId)
    requires IsRun(trace, labels) && i < |trace|
  {
    k < i && (exists n: NoteId :: SetsMark(trace[k], labels[k], o, n)) &&
      forall j :: k < j < i ==> !ClearsMark(trace[j], labels[j], o)
  }

  /** A note is marked exactly when some mark was written to it that no later
      rollback cleared, its own call's or another's. */
  lemma {:induction false} MarkedExactly(trace: seq<State>, labels: seq<Label>, i: nat, o: NoteId)
    requires IsRun(trace, labels) && i < |trace| && o in trace[i].d.notes
    ensures trace[i].d.notes[o].supersededBy.Some? <==> exists k: nat :: MarkedSince(trace, labels, k, i, o)
  {
    var mark := trace[i].d.notes[o].supersededBy;
    if mark.Some? {
      MarkIsLast(trace, labels, i, o, mark.value);
      var k: nat :| LastMark(trace, labels, k, i, o, mark.value);
      assert MarkedSince(trace, labels, k, i, o);
    }
    if k: nat :| MarkedSince(trace, labels, k, i, o) {
      var m := LatestTouch(trace, labels, k, i, o);
      var n: NoteId :| SetsMark(trace[m], labels[m], o, n);
      MarkIsLast(trace, labels, i, o, n);
      assert LastMark(trace, labels, m, i, o, n);
    }
  }

  // The last step from k on to touch the mark of `o`.
  lemma {:induction false} LatestTouch(trace: seq<State>, labels: seq<Label>, k: nat, i: nat, o: NoteId)
    returns (m: nat)
    requires IsRun(trace, labels) && k < i < |trace| && TouchesMark(trace[k], labels[k], o)
    ensures k <= m < i && TouchesMark(trace[m], labels[m], o) && Untouched(trace, labels, m, i, o)
    decreases i - k
  {
    if j: nat :| k < j < i && TouchesMark(trace[j], labels[j], o) {
      m := LatestTouch(trace, labels, j, i, o);
    } else {
      m := k;
    }
  }

  // Step j, of a call other than c, rolled a mark of `o` back and no mark was written since.
  ghost predicate Erases(trace: seq<State>, labels: seq<Label>, j: nat, i: nat, o: NoteId, c: CallId)
    requires IsRun(trace, labels) && j < i < |trace|
  {
    labels[j].call != c && ClearsMark(trace[j], labels[j], o) && Untouched(trace, labels, j, i, o)
  }

  ghost predicate ErasedByOther(trace: seq<State>, labels: seq<Label>, m: nat, i: nat, o: NoteId, c: CallId)
    requires IsRun(trace, labels) && i < |trace|
  {
    exists j: nat :: m < j < i && Erases(trace, labels, j, i, o, c)
  }

  // The step at which a supersede call that succeeded, or is about to link, wrote its mark.
  lemma {:induction false} OwnMark(trace: seq<State>, labels: seq<Label>, i: nat, c: CallId, o: NoteId, n: NoteId)
    returns (m: nat)
    requires IsRun(trace, labels) && i < |trace| && c in trace[i].calls
    requires trace[i].calls[c] == Call(Supersede(o, n), LinkNew) ||
      trace[i].calls[c] == Call(Supersede(o, n), Finished(true))
    ensures m < i && labels[m] == Mark(c, WriteOk) && trace[m].calls[c].job == Supersede(o, n)
    ensures forall j :: m < j < i ==> labels[j] != Unmark(c, WriteOk) && labels[j] != Unmark(c, WriteErrApplied)
  {
    var s, l := trace[i - 1], labels[i - 1];
    assert Enabled(s, l) && trace[i] == Apply(s, l);
    if l.call == c && l.Mark? {
      m := i - 1;
    } else {
      m := OwnMark(trace, labels, i - 1, c, o, n);
    }
  }

  /** After a call of supersede_note on `o` has reported success, `o` is marked
      exactly when no other call's rollback came after the last mark. */
  lemma WinnerStaysMarked(trace: seq<State>, labels: seq<Label>, i: nat, c: CallId, o: NoteId, n: NoteId)
    returns (m: nat)
    requires IsRun(trace, labels) && i < |trace| && o in trace[i].d.notes
    requires c in trace[i].calls && trace[i].calls[c] == Call(Supersede(o, n), Finished(true))
    ensures m < i && labels[m] == Mark(c, WriteOk) && SetsMark(trace[m], labels[m], o, n)
    ensures trace[i].d.notes[o].supersededBy.Some? <==> !ErasedByOther(trace, labels, m, i, o, c)
    ensures Untouched(trace, labels, m, i, o) ==> trace[i].d.notes[o].supersededBy == Some(n)
  {
    m := OwnMark(trace, labels, i, c, o, n);
    OwnMarkSets(trace, labels, m, i, c, o, n);
    hide Apply, Enabled, SetsMark, ClearsMark;
    MarkIsLast(trace, labels, i, o, n);
    assert Untouched(trace, labels, m, i, o) ==> LastMark(trace, labels, m, i, o, n);
    ErasedExactly(trace, labels, m, i, o, n, c);
  }

  // The row was there when the call wrote its mark: a note that is gone stays gone.
  lemma OwnMarkSets(trace: seq<State>, labels: seq<Label>, m: nat, i: nat, c: CallId, o: NoteId, n: NoteId)
    requires IsRun(trace, labels) && m < i < |trace| && o in trace[i].d.notes
    requires labels[m] == Mark(c, WriteOk) && trace[m].calls[c].job == Supersede(o, n)
    ensures SetsMark(trace[m], labels[m], o, n)
  {
    RunKeeps(trace, labels, m);
    assert CallOk(trace[m], trace[m].calls[c]);
    if o !in trace[m].d.notes { GoneStaysGone(trace, labels, m, i, o); }
  }

  // After its own mark a call's note is unmarked exactly when another call erased it last.
  lemma ErasedExactly(trace: seq<State>, labels: seq<Label>, m: nat, i: nat, o: NoteId, n: NoteId, c: CallId)
    requires IsRun(trace, labels) && m < i < |trace| && o in trace[i].d.notes && SetsMark(trace[m], labels[m], o, n)
    requires forall j :: m < j < i ==> labels[j] != Unmark(c, WriteOk) && labels[j] != Unmark(c, WriteErrApplied)
    ensures trace[i].d.notes[o].supersededBy.Some? <==> !ErasedByOther(trace, labels, m, i, o, c)
  {
    hide Apply, Enabled;
    MarkedExactly(trace, labels, i, o);
    var t := LatestTouch(trace, labels, m, i, o);
    if ClearsMark(trace[t], labels[t], o) {
      assert labels[t] == Unmark(labels[t].call, labels[t].o);
      assert Erases(trace, labels, t, i, o, c);
    } else {
      assert MarkedSince(trace, labels, t, i, o);
    }
  }

  // A deleted note is never inserted again.
  lemma {:induction false} GoneStaysGone(trace: seq<State>, labels: seq<Label>, k: nat, i: nat, o: NoteId)
    requires IsRun(trace, labels) && k <= i < |trace| && o in trace[k].used && o !in trace[k].d.notes
    ensures o !in trace[i].d.notes
  {
    hide Apply, Enabled;
    if k < i {
      GoneStaysGone(trace, labels, k, i - 1, o);
      UsedGrows(trace, labels, k, i - 1);
      NotesFrame(trace[i - 1], labels[i - 1], o);
    }
  }

  // ---- The operations run alone ----

  // What a save leaves behind, whatever its four writes reported: the row unless its
  // insert did not land or was compensated, the mark on the superseded row once the
  // insert was acknowledged, the node if its write landed, and nothing else.
  ghost predicate SaveLeaves(was: Stores, d: Stores, id: NoteId, repo: string, supersedes: Option<NoteId>,
      insert: WriteOutcome, mark: WriteOutcome, node: WriteOutcome, undo: WriteOutcome)
  {
    var undone := insert.WriteOk? && !node.WriteOk? && !undo.WriteErr?;
    && (forall k :: k in d.notes <==> k in was.notes || (k == id && !insert.WriteErr? && !undone))
    && (forall k :: k in d.notes ==> d.notes[k] == Note(
          if k == id then repo else was.notes[k].repo,
          if insert.WriteOk? && supersedes == Some(k) && !mark.WriteErr? then Some(id)
          else if k == id then None else was.notes[k].supersededBy))
    && d.nodes == (if insert.WriteOk? && !node.WriteErr? then was.nodes + {id} else was.nodes)
    && d.edges == was.edges
  }

  // What a delete leaves behind: the row goes if it is the repository's and the write
  // landed; after an acknowledged delete so do the node and its edges, if that landed.
  ghost predicate DeleteLeaves(was: Stores, d: Stores, repo: string, id: NoteId, row: WriteOutcome,
      node: WriteOutcome)
  {
    var there := id in was.notes && was.notes[id].repo == repo;
    var detached := there && row.WriteOk? && !node.WriteErr?;
    && (forall k :: k in d.notes <==> k in was.notes && !(k == id && there && !row.WriteErr?))
    && (forall k :: k in d.notes ==> d.notes[k] == was.notes[k])
    && d.nodes == (if detached then was.nodes - {id} else was.nodes)
    && (forall e :: e in d.edges <==> e in was.edges && !(detached && (e.0 == id || e.1 == id)))
  }

  // The call supersedes: both notes exist, and the mark and the edge between two present
  // nodes were acknowledged.
  ghost predicate Supersedes(was: Stores, prior: NoteId, next: NoteId, readError: bool, mark: WriteOutcome,
      link: WriteOutcome)
  {
    && !readError && prior in was.notes && next in was.notes
    && mark.WriteOk? && link.WriteOk? && prior in was.nodes && next in was.nodes
  }

  // What supersede_note leaves behind: the mark unless its write did not land or the
  // rollback after a failed link did, the edge if its write landed, and nothing else.
  ghost predicate SupersedeLeaves(was: Stores, d: Stores, prior: NoteId, next: NoteId, readError: bool,
      mark: WriteOutcome, link: WriteOutcome, unmark: WriteOutcome)
  {
    var both := !readError && prior in was.notes && next in was.notes;
    var rolledBack := mark.WriteOk? && !Supersedes(was, prior, next, readError, mark, link) && !unmark.WriteErr?;
    && d.notes.Keys == was.notes.Keys && d.nodes == was.nodes
    && (forall k :: k in was.notes && k != prior ==> d.notes[k] == was.notes[k])
    && (prior in was.notes ==> d.notes[prior] == Note(was.notes[prior].repo,
          if !both || mark.WriteErr? then was.notes[prior].supersededBy else if rolledBack then None else Some(next)))
    && d.edges ==
       (if both && mark.WriteOk? && !link.WriteErr? && prior in was.nodes && next in was.nodes
        then was.edges + {(next, prior)} else was.edges)
  }

  // A save up to its node write.
  lemma RunToNode(s: State, c: CallId, id: NoteId, repo: string, supersedes: Option<NoteId>, mark: WriteOutcome)
    returns (trace: seq<State>, labels: seq<Label>)
    requires c !in s.calls && id !in s.used
    ensures IsPath(trace, labels) && trace[0] == s
    ensures labels == [Start(c, Save(repo, supersedes)), InsertRow(c, id, WriteOk)]
      + (if supersedes.Some? then [SupersedeOnSave(c, mark)] else [])
    ensures var s', d := trace[|trace| - 1], InsertNote(s.d, id, repo);
      && c in s'.calls && s'.calls[c] == Call(Save(repo, supersedes), SaveNode(id))
      && s'.d == if supersedes.Some? then Written(mark, d, SetMark(d, supersedes.value, Some(id))) else d
  {
    trace, labels := Push([s], [], Start(c, Save(repo, supersedes)));
    trace, labels := Push(trace, labels, InsertRow(c, id, WriteOk));
    if supersedes.Some? { trace, labels := Push(trace, labels, SupersedeOnSave(c, mark)); }
  }

  /** Run alone from any state, a save takes exactly these steps and leaves exactly this. */
  lemma SaveAlone(s: State, c: CallId, id: NoteId, repo: string, supersedes: Option<NoteId>,
                  insert: WriteOutcome, mark: WriteOutcome, node: WriteOutcome, undo: WriteOutcome)
    returns (trace: seq<State>, labels: seq<Label>)
    requires c !in s.calls && id !in s.used && id !in s.d.notes
    ensures IsPath(trace, labels) && trace[0] == s
    ensures labels == [Start(c, Save(repo, supersedes)), InsertRow(c, id, insert)]
      + (if insert.WriteOk? && supersedes.Some? then [SupersedeOnSave(c, mark)] else [])
      + (if insert.WriteOk? then [AddNode(c, node)] else [])
      + (if insert.WriteOk? && !node.WriteOk? then [Compensate(c, undo)] else [])
    ensures var s' := trace[|trace| - 1];
      && c in s'.calls && s'.calls[c] == Call(Save(repo, supersedes), Finished(insert.WriteOk? && node.WriteOk?))
      && SaveLeaves(s.d, s'.d, id, repo, supersedes, insert, mark, node, undo)
  {
    if !insert.WriteOk? {
      trace, labels := Push([s], [], Start(c, Save(repo, supersedes)));
      trace, labels := Push(trace, labels, InsertRow(c, id, insert));
    } else {
      trace, labels := RunToNode(s, c, id, repo, supersedes, mark);
      trace, labels := SaveEnd(trace, labels, c, node, undo);
      SaveStores(s.d, id, repo, supersedes, mark, node, undo);
    }
  }

  // A save from its node write on.
  lemma SaveEnd(trace: seq<State>, labels: seq<Label>, c: CallId, node: WriteOutcome, undo: WriteOutcome)
    returns (trace': seq<State>, labels': seq<Label>)
    requires IsPath(trace, labels)
    requires var s := trace[|trace| - 1]; c in s.calls && s.calls[c].job.Save? && s.calls[c].phase.SaveNode?
    ensures IsPath(trace', labels') && trace'[0] == trace[0]
    ensures labels' == labels + [AddNode(c, node)] + (if node.WriteOk? then [] else [Compensate(c, undo)])
    ensures var s, s' := trace[|trace| - 1], trace'[|trace'| - 1];
      && c in s'.calls && s'.calls[c] == Call(s.calls[c].job, Finished(node.WriteOk?))
      && var d := Written(node, s.d, CreateNode(s.d, s.calls[c].phase.id));
         s'.d == if node.WriteOk? then d
           else Written(undo, d, DeleteNoteRow(d, s.calls[c].phase.id, s.calls[c].job.repo))
  {
    trace', labels' := Push(trace, labels, AddNode(c, node));
    if !node.WriteOk? { trace', labels' := Push(trace', labels', Compensate(c, undo)); }
  }

  lemma SaveStores(was: Stores, id: NoteId, repo: string, supersedes: Option<NoteId>,
                   mark: WriteOutcome, node: WriteOutcome, undo: WriteOutcome)
    requires id !in was.notes
    ensures var d := InsertNote(was, id, repo);
      var d1 := if supersedes.Some? then Written(mark, d, SetMark(d, supersedes.value, Some(id))) else d;
      var d2 := Written(node, d1, CreateNode(d1, id));
      SaveLeaves(was, if node.WriteOk? then d2 else Written(undo, d2, DeleteNoteRow(d2, id, repo)),
        id, repo, supersedes, WriteOk, mark, node, undo)
  {
  }

  lemma DeleteAlone(s: State, c: CallId, repo: string, id: NoteId, row: WriteOutcome, node: WriteOutcome)
    returns (trace: seq<State>, labels: seq<Label>)
    requires c !in s.calls
    ensures IsPath(trace, labels) && trace[0] == s
    ensures var ok := row.WriteOk? && id in s.d.notes && s.d.notes[id].repo == repo;
      && labels == [Start(c, Delete(repo, id)), RemoveRow(c, row)] + (if ok then [RemoveNode(c, node)] else [])
      && var s' := trace[|trace| - 1];
         && c in s'.calls && s'.calls[c] == Call(Delete(repo, id), Finished(ok))
         && DeleteLeaves(s.d, s'.d, repo, id, row, node)
  {
    trace, labels := Push([s], [], Start(c, Delete(repo, id)));
    trace, labels := Push(trace, labels, RemoveRow(c, row));
    if row.WriteOk? && RowMatches(s.d, id, repo) { trace, labels := Push(trace, labels, RemoveNode(c, node)); }
  }

  lemma SupersedeAlone(s: State, c: CallId, prior: NoteId, next: NoteId,
                       mark: WriteOutcome, link: WriteOutcome, unmark: WriteOutcome)
    returns (trace: seq<State>, labels: seq<Label>)
    requires c !in s.calls
    ensures IsPath(trace, labels) && trace[0] == s
    ensures var (old', new', ok) :=
        (prior in s.d.notes, next in s.d.notes, Supersedes(s.d, prior, next, false, mark, link));
      && labels == [Start(c, Supersede(prior, next)), Exists(c, false)]
         + (if old' then [Exists(c, false)] else [])
         + (if old' && new' then [Mark(c, mark)] else [])
         + (if old' && new' && mark.WriteOk? then [Link(c, link)] else [])
         + (if old' && new' && mark.WriteOk? && !ok then [Unmark(c, unmark)] else [])
      && var s' := trace[|trace| - 1];
         && c in s'.calls && s'.calls[c] == Call(Supersede(prior, next), Finished(ok))
         && SupersedeLeaves(s.d, s'.d, prior, next, false, mark, link, unmark)
  {
    if prior in s.d.notes && next in s.d.notes {
      trace, labels := RunToCheckedMark(s, c, prior, next, mark);
      if mark.WriteOk? { trace, labels := SupersedeEnd(trace, labels, c, prior, next, link, unmark); }
      SupersedeStores(s.d, prior, next, mark, link, unmark);
    } else {
      trace, labels := Push([s], [], Start(c, Supersede(prior, next)));
      trace, labels := Push(trace, labels, Exists(c, false));
      if prior in s.d.notes { trace, labels := Push(trace, labels, Exists(c, false)); }
    }
  }

  lemma RunToCheckedMark(s: State, c: CallId, prior: NoteId, next: NoteId, mark: WriteOutcome)
    returns (trace: seq<State>, labels: seq<Label>)
    requires c !in s.calls && prior in s.d.notes && next in s.d.notes
    ensures IsPath(trace, labels) && trace[0] == s
    ensures labels == [Start(c, Supersede(prior, next)), Exists(c, false), Exists(c, false), Mark(c, mark)]
    ensures var s' := trace[|trace| - 1];
      && c in s'.calls
      && s'.calls[c] == Call(Supersede(prior, next), if mark.WriteOk? then LinkNew else Finished(false))
      && s'.d == Written(mark, s.d, SetMark(s.d, prior, Some(next)))
  {
    trace, labels := Push([s], [], Start(c, Supersede(prior, next)));
    trace, labels := Push(trace, labels, Exists(c, false));
    trace, labels := Push(trace, labels, Exists(c, false));
    trace, labels := Push(trace, labels, Mark(c, mark));
  }

  lemma SupersedeEnd(trace: seq<State>, labels: seq<Label>, c: CallId, prior: NoteId, next: NoteId,
                     link: WriteOutcome, unmark: WriteOutcome)
    returns (trace': seq<State>, labels': seq<Label>)
    requires IsPath(trace, labels)
    requires var s := trace[|trace| - 1]; c in s.calls && s.calls[c] == Call(Supersede(prior, next), LinkNew)
    ensures IsPath(trace', labels') && trace'[0] == trace[0]
    ensures var s, s' := trace[|trace| - 1], trace'[|trace'| - 1];
      var ok := link.WriteOk? && CanLink(s.d, prior, next);
      && labels' == labels + [Link(c, link)] + (if ok then [] else [Unmark(c, unmark)])
      && c in s'.calls && s'.calls[c] == Call(Supersede(prior, next), Finished(ok))
      && var d := Written(link, s.d, MergeEdge(s.d, prior, next));
         s'.d == if ok then d else Written(unmark, d, SetMark(d, prior, None))
  {
    var s := trace[|trace| - 1];
    trace', labels' := Push(trace, labels, Link(c, link));
    if !(link.WriteOk? && CanLink(s.d, prior, next)) { trace', labels' := Push(trace', labels', Unmark(c, unmark)); }
  }

  lemma SupersedeStores(was: Stores, prior: NoteId, next: NoteId,
                        mark: WriteOutcome, link: WriteOutcome, unmark: WriteOutcome)
    requires prior in was.notes && next in was.notes
    ensures var d := Written(mark, was, SetMark(was, prior, Some(next)));
      var d1 := Written(link, d, MergeEdge(d, prior, next));
      SupersedeLeaves(was,
        if !mark.WriteOk? then d
        else if link.WriteOk? && CanLink(d, prior, next) then d1
        else Written(unmark, d1, SetMark(d1, prior, None)),
        prior, next, false, mark, link, unmark)
  {
  }

  class CurationService {
    var d: Stores

    constructor ()
      ensures d == Stores(map[], {}, {})
    {
      d := Stores(map[], {}, {});
    }

    /** Both stores or neither, except that a mark made for `supersedes` is not
        undone: a failed save whose writes all either reached their store or did
        not leaves the stores unchanged exactly when it marked nothing. */
    method SaveNote(id: NoteId, repo: string, supersedes: Option<NoteId>,
                    insert: WriteOutcome, mark: WriteOutcome, node: WriteOutcome, undo: WriteOutcome)
      returns (saved: Option<NoteId>)
      requires id !in d.notes && id !in d.nodes && forall o :: o in d.notes ==> d.notes[o].supersededBy != Some(id)
      modifies this
      ensures saved.Some? ==> saved.value == id && id in d.notes && id in d.nodes
      ensures saved.Some? <==> insert.WriteOk? && node.WriteOk?
      ensures SaveLeaves(old(d), d, id, repo, supersedes, insert, mark, node, undo)
      ensures saved.None? && !insert.WriteErrApplied? && !node.WriteErrApplied? && !undo.WriteErr? ==>
        id !in d.notes && id !in d.nodes &&
        (d == old(d) <==> insert.WriteErr? || mark.WriteErr? || supersedes.None? || supersedes.value !in old(d.notes))
      ensures saved.None? && !insert.WriteErrApplied? && !node.WriteErrApplied? && !undo.WriteErr? && d != old(d) ==>
        supersedes.value in d.notes && d.notes[supersedes.value].supersededBy == Some(id)
    {
      if !insert.WriteErr? { d := InsertNote(d, id, repo); }
      if !insert.WriteOk? { return None; }
      if supersedes.Some? && !mark.WriteErr? { d := SetMark(d, supersedes.value, Some(id)); }
      if !node.WriteErr? { d := CreateNode(d, id); }
      if !node.WriteOk? {
        if !undo.WriteErr? { d := DeleteNoteRow(d, id, repo); }
        if supersedes.None? || mark.WriteErr? || supersedes.value !in old(d.notes) {
          assert !undo.WriteErr? ==> d.notes == old(d.notes);
        }
        return None;
      }
      return Some(id);
    }

    method DeleteNote(repo: string, id: NoteId, row: WriteOutcome, node: WriteOutcome) returns (ok: bool)
      modifies this
      ensures ok <==> row.WriteOk? && id in old(d).notes && old(d).notes[id].repo == repo
      ensures ok ==> d.notes == old(d.notes) - {id} && (!node.WriteErr? ==> id !in d.nodes)
      ensures DeleteLeaves(old(d), d, repo, id, row, node)
      ensures !ok && !row.WriteErrApplied? ==> d == old(d)
    {
      var matched := RowMatches(d, id, repo);
      if !row.WriteErr? { d := DeleteNoteRow(d, id, repo); }
      if !row.WriteOk? || !matched { return false; }
      if !node.WriteErr? { d := DetachDelete(d, id); }
      return true;
    }

    /** A failed call whose rollback worked leaves both stores unchanged exactly
        when the older note carried no mark before, or no mark was written. */
    method SupersedeNote(prior: NoteId, next: NoteId, readError: bool,
                         mark: WriteOutcome, link: WriteOutcome, unmark: WriteOutcome)
      returns (ok: bool)
      modifies this
      ensures ok ==> prior in d.notes && d.notes[prior].supersededBy == Some(next) && (next, prior) in d.edges
      ensures ok <==> Supersedes(old(d), prior, next, readError, mark, link)
      ensures SupersedeLeaves(old(d), d, prior, next, readError, mark, link, unmark)
      ensures d.nodes == old(d.nodes) && d.notes.Keys == old(d.notes.Keys)
      ensures !ok && !mark.WriteErrApplied? && !link.WriteErrApplied? && !unmark.WriteErr? ==>
        (d == old(d) <==>
          readError || mark.WriteErr? || prior !in old(d.notes) || next !in old(d.notes) ||
            old(d.notes)[prior].supersededBy.None?)
    {
      if readError || prior !in d.notes || next !in d.notes { return false; }
      if !mark.WriteErr? { d := SetMark(d, prior, Some(next)); }
      if !mark.WriteOk? { return false; }
      var linked := CanLink(d, prior, next);
      if !link.WriteErr? { d := MergeEdge(d, prior, next); }
      if !link.WriteOk? || !linked {
        if !unmark.WriteErr? { d := SetMark(d, prior, None); }
        return false;
      }
      return true;
    }
  }
}
