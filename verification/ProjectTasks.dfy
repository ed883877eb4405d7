/**
 * The backlog projection of the task store and the commit of a mutated backlog
 * (lib/projectTasks.ts).
 */
module ProjectTasks {
  import opened Prelude
  import opened TaskContract
  import opened TaskStore

  // ----- definitions -----------------------------------------------------------------------

  datatype Field = Description | AcceptanceCriteria | ReviewLevel | MergeStrategy | Capabilities | Model

  function FieldKey(f: Field): string {
    match f
    case Description => "description"
    case AcceptanceCriteria => "acceptance_criteria"
    case ReviewLevel => "review_level"
    case MergeStrategy => "merge_strategy"
    case Capabilities => "required_capabilities"
    case Model => "model"
  }

  const FIELDS: set<Field> := {Description, AcceptanceCriteria, ReviewLevel, MergeStrategy, Capabilities, Model}

  /** The fields owned by spec revisions. */
  datatype Definition = Definition(title: string, priority: Priority, provider: Option<Provider>, deps: seq<Ref>, extras: map<Field, Json>)

  predicate Vacant(v: Json) {
    v == Null || v == List([])
  }

  /** How a definition is compared: empty fields absent, lists regardless of order. */
  datatype NormalValue = Scalar(value: Json) | Bag(items: multiset<string>)
  datatype NormalForm = NormalForm(title: string, priority: Priority, provider: Option<Provider>, deps: multiset<Ref>, extras: map<Field, NormalValue>)

  function NormalizedDefinition(d: Definition): NormalForm {
    NormalForm(d.title, d.priority, d.provider, multiset(d.deps),
               map f | f in d.extras && !Vacant(d.extras[f]) ::
                 match d.extras[f] case List(items) => Bag(multiset(items)) case v => Scalar(v))
  }

  // ----- projection ------------------------------------------------------------------------

  /** A backlog task: what lifecycle writers read and may change. */
  datatype Row = Row(
    ref: Ref, definition: Definition, status: Status, taskType: Option<string>, attempts: Option<nat>,
    blockedReason: Option<string>, owner: Option<string>, planning: Option<Planning>,
    delegatedBy: Option<string>, requeueAfter: Option<Time>)

  /** JavaScript truthiness of a nullable string: the empty string projects as absent. */
  function Truthy(o: Option<string>): Option<string> {
    if o == Some("") then None else o
  }

  const IMPLEMENTATION := "implementation"

  function LatestMetadata(s: Slot): Metadata {
    if s.revisions == [] then [] else s.revisions[|s.revisions| - 1].metadata
  }

  /** The task type the spec itself asks for. */
  function DefinedType(s: Slot): string {
    match Lookup(LatestMetadata(s), "task_type")
    case Some(Str(t)) => t
    case _ => IMPLEMENTATION
  }

  function ProjectedDefinition(s: Slot): Definition {
    var m := LatestMetadata(s);
    Definition(s.title, s.priority, s.provider, s.deps,
               map f | f in FIELDS && Lookup(m, FieldKey(f)).Some? && !Vacant(Lookup(m, FieldKey(f)).value) ::
                 Lookup(m, FieldKey(f)).value)
  }

  function ProjectRow(ref: Ref, s: Slot): Row {
    Row(ref, ProjectedDefinition(s), s.status, Some(Or(s.dispatch.taskType, DefinedType(s))), Some(s.attempts),
        Truthy(s.blockedReason), Truthy(s.dispatch.owner), s.dispatch.planning, Truthy(s.dispatch.delegatedBy),
        s.dispatch.requeueAfter)
  }

  // ----- commit ----------------------------------------------------------------------------

  /** Why a status changed. */
  datatype Change = Change(cause: Cause, reason: Option<string>, run: Option<RunId>, key: Option<nat>)

  function CauseName(c: Cause): string {
    match c
    case Claim => "claim"
    case RunStart => "run_start"
    case MergeSucceeded => "merge_succeeded"
    case PostMergeRelease => "post_merge_release"
    case FailureRequeue => "failure_requeue"
    case FailureBlock => "failure_block"
    case ManualBlock => "manual_block"
    case Unblock => "unblock"
    case OperatorReset => "operator_reset"
    case Cancel => "cancel"
    case MigrationImport => "migration_import"
  }

  /** The reason recorded with a change; a block falls back to the row's reason, then to the cause. */
  function ChangeReason(row: Row, c: Change): Option<string> {
    if row.status != Blocked || c.reason.Some? then c.reason
    else if row.blockedReason.Some? then row.blockedReason
    else Some(CauseName(c.cause))
  }

  /** A merge reported before its start was acknowledged records the start first. */
  function StartedFirst(s: Slot, c: Change): Result<Slot, Error> {
    if c.cause == MergeSucceeded && s.status == Claimed
    then ApplyTransition(s, TransitionInput(RunStart, InProgress, None, c.run, None))
    else Ok(s)
  }

  function CommitStatus(s: Slot, row: Row, change: Option<Change>): Result<Slot, Error> {
    if row.status == s.status then Ok(s)
    else if change.None? then Err(NoCause)
    else
      var c := change.value;
      var started := StartedFirst(s, c);
      if started.Err? then started
      else ApplyTransition(started.value, TransitionInput(c.cause, row.status, ChangeReason(row, c), c.run, c.key))
  }

  function CommittedType(s: Slot, row: Row): Option<string> {
    if row.taskType.Some? && row.taskType.value != "" && row.taskType.value != DefinedType(s)
    then row.taskType else s.dispatch.taskType
  }

  /** Commit one backlog task to its slot; a task without a revision does not exist. */
  function CommitSlot(s: Slot, row: Row, change: Option<Change>): Result<Slot, Error> {
    if s.revisions == [] then Err(NotFound)
    else if NormalizedDefinition(row.definition) != NormalizedDefinition(ProjectedDefinition(s)) then Err(DefinitionChanged)
    else
      var moved := CommitStatus(s, row, change);
      if moved.Err? then moved
      else Ok(moved.value.(dispatch := Dispatch(row.owner, row.planning, row.delegatedBy, CommittedType(s, row), row.requeueAfter),
                           attempts := Or(row.attempts, 0)))
  }

  function ChangeOf(changes: map<Ref, Change>, ref: Ref): Option<Change> {
    if ref in changes then Some(changes[ref]) else None
  }

  /** Writes one row into its slot. */
  type Writer = (Slot, Row) -> Result<Slot, Error>

  function Committer(changes: map<Ref, Change>): Writer {
    (s: Slot, row: Row) => CommitSlot(s, row, ChangeOf(changes, row.ref))
  }

  /** One transaction over the rows in order; an error rolls everything back. */
  function WriteRows(write: Writer, store: Store, rows: seq<Row>): (r: Result<Store, Error>)
    ensures r.Ok? ==> r.value.Keys == store.Keys
    decreases |rows|
  {
    if rows == [] then Ok(store)
    else
      var before := WriteRows(write, store, rows[..|rows| - 1]);
      if before.Err? then before
      else
        var row := rows[|rows| - 1];
        if row.ref !in before.value then Err(NotFound)
        else
          var s := write(before.value[row.ref], row);
          if s.Err? then Err(s.error) else Ok(before.value[row.ref := s.value])
  }

  /** commitBacklog in a project state directory. */
  function CommitRows(store: Store, rows: seq<Row>, changes: map<Ref, Change>): Result<Store, Error> {
    WriteRows(Committer(changes), store, rows)
  }

  // ----- the projection and the commit are inverse -------------------------------------------

  /**
   * Projecting a task and committing it back is the identity exactly when no
   * dispatch field holds an empty string, which the projection cannot show.
   */
  lemma RoundTripExactlyWhen(ref: Ref, s: Slot, change: Option<Change>)
    requires s.revisions != []
    ensures CommitSlot(s, ProjectRow(ref, s), change) == Ok(s) <==>
            s.dispatch.owner != Some("") && s.dispatch.delegatedBy != Some("")
  {
  }

  /** The projection of the listed tasks, in that order. */
  function ProjectAll(store: Store, order: seq<Ref>): (rows: seq<Row>)
    requires forall r :: r in order ==> r in store
    ensures |rows| == |order| && forall i :: 0 <= i < |rows| ==> order[i] in store && rows[i] == ProjectRow(order[i], store[order[i]])
  {
    assert forall i :: 0 <= i < |order| ==> order[i] in order;
    seq(|order|, i requires 0 <= i < |order| => ProjectRow(order[i], store[order[i]]))
  }

  predicate Storable(s: Slot) {
    s.revisions != [] && s.dispatch.owner != Some("") && s.dispatch.delegatedBy != Some("")
  }

  lemma {:induction false} IdleWritesAreIdentity(write: Writer, store: Store, rows: seq<Row>)
    requires forall i :: 0 <= i < |rows| ==> rows[i].ref in store && write(store[rows[i].ref], rows[i]) == Ok(store[rows[i].ref])
    ensures WriteRows(write, store, rows) == Ok(store)
    decreases |rows|
  {
    if rows != [] {
      IdleWritesAreIdentity(write, store, rows[..|rows| - 1]);
      var ref := rows[|rows| - 1].ref;
      assert store[ref := store[ref]] == store;
    }
  }

  /** Committing the untouched projection of a whole store changes nothing, whatever causes are named. */
  lemma UntouchedBacklogIsIdentity(store: Store, order: seq<Ref>, changes: map<Ref, Change>)
    requires forall r :: r in order ==> r in store
    requires forall r :: r in store ==> Storable(store[r])
    ensures CommitRows(store, ProjectAll(store, order), changes) == Ok(store)
  {
    var rows := ProjectAll(store, order);
    forall i | 0 <= i < |rows| ensures Committer(changes)(store[rows[i].ref], rows[i]) == Ok(store[rows[i].ref]) {
      var ref := order[i];
      assert Storable(store[ref]);
      RoundTripExactlyWhen(ref, store[ref], ChangeOf(changes, ref));
    }
    IdleWritesAreIdentity(Committer(changes), store, rows);
  }

  // ----- what a mutated commit does ------------------------------------------------------------

  predicate DistinctRefs(rows: seq<Row>) {
    forall i, j :: 0 <= i < j < |rows| ==> rows[i].ref != rows[j].ref
  }

  /** Every row is accepted by its own task as it was before the commit. */
  predicate AllAccepted(write: Writer, store: Store, rows: seq<Row>) {
    forall i :: 0 <= i < |rows| ==> rows[i].ref in store && write(store[rows[i].ref], rows[i]).Ok?
  }

  lemma {:induction false} UnnamedTaskStays(write: Writer, store: Store, rows: seq<Row>, ref: Ref)
    requires WriteRows(write, store, rows).Ok? && ref in store
    requires forall i :: 0 <= i < |rows| ==> rows[i].ref != ref
    ensures WriteRows(write, store, rows).value[ref] == store[ref]
    decreases |rows|
  {
    if rows != [] {
      UnnamedTaskStays(write, store, rows[..|rows| - 1], ref);
    }
  }

  lemma {:induction false} WritesAreIndependent(write: Writer, store: Store, rows: seq<Row>)
    requires DistinctRefs(rows)
    ensures WriteRows(write, store, rows).Ok? <==> AllAccepted(write, store, rows)
    ensures WriteRows(write, store, rows).Ok? ==>
              forall i :: 0 <= i < |rows| ==>
                rows[i].ref in store && WriteRows(write, store, rows).value[rows[i].ref] == write(store[rows[i].ref], rows[i]).value
    decreases |rows|
  {
    if rows != [] {
      var init, last := rows[..|rows| - 1], rows[|rows| - 1];
      WritesAreIndependent(write, store, init);
      assert forall i :: 0 <= i < |init| ==> init[i] == rows[i];
      if WriteRows(write, store, init).Ok? && last.ref in store {
        UnnamedTaskStays(write, store, init, last.ref);
      }
    }
  }

  /**
   * A commit is all or nothing: it succeeds exactly when every row is accepted
   * by its own task, and then each named task holds the result of its own row
   * and every other task is as before.
   */
  lemma CommitIsAllOrNothing(store: Store, rows: seq<Row>, changes: map<Ref, Change>)
    requires DistinctRefs(rows)
    ensures CommitRows(store, rows, changes).Ok? <==>
            forall i :: 0 <= i < |rows| ==>
              rows[i].ref in store && CommitSlot(store[rows[i].ref], rows[i], ChangeOf(changes, rows[i].ref)).Ok?
    ensures CommitRows(store, rows, changes).Ok? ==>
              var next := CommitRows(store, rows, changes).value;
              && next.Keys == store.Keys
              && (forall i :: 0 <= i < |rows| ==>
                    && rows[i].ref in store
                    && Ok(next[rows[i].ref]) == CommitSlot(store[rows[i].ref], rows[i], ChangeOf(changes, rows[i].ref)))
              && (forall r :: r in store && (forall i :: 0 <= i < |rows| ==> rows[i].ref != r) ==> next[r] == store[r])
  {
    var write := Committer(changes);
    WritesAreIndependent(write, store, rows);
    assert forall i :: 0 <= i < |rows| && rows[i].ref in store ==>
      write(store[rows[i].ref], rows[i]) == CommitSlot(store[rows[i].ref], rows[i], ChangeOf(changes, rows[i].ref));
    if CommitRows(store, rows, changes).Ok? {
      forall r | r in store && (forall i :: 0 <= i < |rows| ==> rows[i].ref != r)
        ensures CommitRows(store, rows, changes).value[r] == store[r]
      {
        UnnamedTaskStays(write, store, rows, r);
      }
    }
  }

  // ----- status differences become legal chains --------------------------------------------------

  /** A log grew by one legal entry, or by a start followed by a merge. */
  predicate GrewLegally(before: seq<Entry>, after: seq<Entry>, from: Status, to: Status) {
    || (&& |after| == |before| + 1 && before <= after
        && after[|before|].from == from && after[|before|].to == to
        && CanTransition(from, to, after[|before|].cause))
    || (&& |after| == |before| + 2 && before <= after && from == Claimed && to == Done
        && after[|before|].cause == RunStart && after[|before|].from == Claimed && after[|before|].to == InProgress
        && after[|before| + 1].cause == MergeSucceeded && after[|before| + 1].from == InProgress && after[|before| + 1].to == Done)
  }

  /**
   * The change takes effect: its idempotency key is not spent.  With a spent key
   * only the inserted start can still bring a claimed task in progress.
   */
  predicate Lands(s: Slot, row: Row, c: Change) {
    !UsesKey(s.log, c.key) || (c.cause == MergeSucceeded && s.status == Claimed && row.status == InProgress)
  }

  lemma TransitionGrows(s: Slot, t: TransitionInput)
    requires ApplyTransition(s, t).Ok? && !UsesKey(s.log, t.key)
    ensures var d := ApplyTransition(s, t).value;
            && d.status == t.to && d.log == s.log + [Entry(s.status, t.to, t.cause, t.reason, t.run, t.key)]
            && CanTransition(s.status, t.to, t.cause)
  {
  }

  lemma MergeFromClaimedGrows(s: Slot, row: Row, c: Change)
    requires s.status == Claimed && c.cause == MergeSucceeded && row.status != Claimed
    requires CommitStatus(s, row, Some(c)).Ok?
    ensures var t := CommitStatus(s, row, Some(c)).value;
            && (t.status == row.status <==> Lands(s, row, c))
            && (t.status == row.status ==> GrewLegally(s.log, t.log, s.status, row.status))
  {
    var start := TransitionInput(RunStart, InProgress, None, c.run, None);
    var started := ApplyTransition(s, start).value;
    TransitionGrows(s, start);
    OneMoreEntry(s.log, started.log, c.key);
    var input := TransitionInput(c.cause, row.status, ChangeReason(row, c), c.run, c.key);
    assert CommitStatus(s, row, Some(c)) == ApplyTransition(started, input);
    if !UsesKey(s.log, c.key) {
      TransitionGrows(started, input);
    }
  }

  lemma SingleMoveGrows(s: Slot, row: Row, c: Change)
    requires row.status != s.status && !(c.cause == MergeSucceeded && s.status == Claimed)
    requires CommitStatus(s, row, Some(c)).Ok?
    ensures var t := CommitStatus(s, row, Some(c)).value;
            && (t.status == row.status <==> Lands(s, row, c))
            && (t.status == row.status ==> GrewLegally(s.log, t.log, s.status, row.status))
  {
    if !UsesKey(s.log, c.key) {
      TransitionGrows(s, TransitionInput(c.cause, row.status, ChangeReason(row, c), c.run, c.key));
    }
  }

  /**
   * An accepted row whose status differs leaves its task in that status exactly
   * when its change lands, and then the log grew by the legal chain between the
   * two; an unchanged status leaves log and bindings alone.
   */
  lemma AcceptedRowAppliesItsStatus(s: Slot, row: Row, change: Option<Change>)
    requires CommitSlot(s, row, change).Ok?
    ensures var t := CommitSlot(s, row, change).value;
            if row.status == s.status then t.status == s.status && t.log == s.log && t.runs == s.runs
            else (t.status == row.status <==> Lands(s, row, change.value))
                 && (t.status == row.status ==> GrewLegally(s.log, t.log, s.status, row.status))
  {
    assert CommitStatus(s, row, change).Ok?;
    if row.status != s.status {
      if change.value.cause == MergeSucceeded && s.status == Claimed {
        MergeFromClaimedGrows(s, row, change.value);
      } else {
        SingleMoveGrows(s, row, change.value);
      }
    }
  }

  /** A change whose key is spent is accepted and ignored, apart from an inserted start. */
  lemma SpentKeyIsIgnored(s: Slot, row: Row, c: Change)
    requires s.revisions != [] && NormalizedDefinition(row.definition) == NormalizedDefinition(ProjectedDefinition(s))
    requires UsesKey(s.log, c.key) && !(c.cause == MergeSucceeded && s.status == Claimed)
    ensures CommitSlot(s, row, Some(c)).Ok?
    ensures var t := CommitSlot(s, row, Some(c)).value; t.status == s.status && t.log == s.log && t.runs == s.runs
  {
  }

  /** It happens: blocking a new task and asking to unblock it with the same key leaves it blocked. */
  lemma SpentKeySwallowsAStatus(ref: Ref, spec: Spec)
    ensures var block := TransitionInput(ManualBlock, Blocked, Some("x"), None, Some(1));
            && ApplyTransition(NewSlot(spec), block).Ok?
            && var s := ApplyTransition(NewSlot(spec), block).value;
               var row, unblock := ProjectRow(ref, s).(status := Todo), Change(Unblock, None, None, Some(1));
               CommitSlot(s, row, Some(unblock)).Ok? && CommitSlot(s, row, Some(unblock)).value.status == Blocked
  {
    hide RevisionMetadata, ProjectedDefinition;
    var block := TransitionInput(ManualBlock, Blocked, Some("x"), None, Some(1));
    assert !Blank("x") by { assert "x"[0] == 'x'; }
    var s := ApplyTransition(NewSlot(spec), block).value;
    assert s.log[0].key == Some(1);
    SpentKeyIsIgnored(s, ProjectRow(ref, s).(status := Todo), Change(Unblock, None, None, Some(1)));
  }

  lemma OneMoreEntry(log: seq<Entry>, more: seq<Entry>, key: Option<nat>)
    requires |more| == |log| + 1 && log <= more && more[|log|].key == None
    ensures UsesKey(more, key) <==> UsesKey(log, key)
  {
    if UsesKey(log, key) {
      var i :| 0 <= i < |log| && log[i].key == key;
      assert more[i].key == key;
    }
  }

  // ----- what the projection shows --------------------------------------------------------------------

  /** A projected task shows its row, its dispatch fields and the non-empty fields of its latest revision. */
  lemma ProjectionShows(ref: Ref, s: Slot, f: Field)
    requires s.revisions != []
    ensures var row, m := ProjectRow(ref, s), s.revisions[|s.revisions| - 1].metadata;
            && row.ref == ref && row.status == s.status && row.attempts == Some(s.attempts)
            && row.blockedReason == (if s.blockedReason == Some("") then None else s.blockedReason)
            && row.owner == (if s.dispatch.owner == Some("") then None else s.dispatch.owner)
            && row.delegatedBy == (if s.dispatch.delegatedBy == Some("") then None else s.dispatch.delegatedBy)
            && row.planning == s.dispatch.planning && row.requeueAfter == s.dispatch.requeueAfter
            && row.taskType == (if s.dispatch.taskType.Some? then s.dispatch.taskType
                                else match Lookup(m, "task_type") case Some(Str(t)) => Some(t) case _ => Some("implementation"))
            && row.definition.title == s.title && row.definition.priority == s.priority && row.definition.provider == s.provider
            && row.definition.deps == s.deps
            && (f in row.definition.extras <==>
                  Lookup(m, FieldKey(f)).Some? && Lookup(m, FieldKey(f)).value != Null && Lookup(m, FieldKey(f)).value != List([]))
            && (f in row.definition.extras ==> Lookup(m, FieldKey(f)) == Some(row.definition.extras[f]))
  {
    hide Lookup, FieldKey;
    assert f in FIELDS;
  }

  // ----- what a commit may and does change ---------------------------------------------------------

  predicate IsEmpty(v: Option<Json>) {
    v.None? || v.value.Null? || (v.value.List? && |v.value.items| == 0)
  }

  /** Both absent or empty, lists with the same items in any order, or the same value. */
  predicate SameValue(a: Option<Json>, b: Option<Json>) {
    || (IsEmpty(a) && IsEmpty(b))
    || (a.Some? && b.Some? && a.value.List? && b.value.List? && multiset(a.value.items) == multiset(b.value.items))
    || (a == b)
  }

  function ValueOf(d: Definition, f: Field): Option<Json> {
    if f in d.extras then Some(d.extras[f]) else None
  }

  /** The row repeats the definition the latest revision stores. */
  predicate RepeatsDefinition(s: Slot, row: Row)
    requires s.revisions != []
  {
    var d, m := row.definition, s.revisions[|s.revisions| - 1].metadata;
    && d.title == s.title && d.priority == s.priority && d.provider == s.provider && multiset(d.deps) == multiset(s.deps)
    && SameValue(ValueOf(d, Description), Lookup(m, "description"))
    && SameValue(ValueOf(d, AcceptanceCriteria), Lookup(m, "acceptance_criteria"))
    && SameValue(ValueOf(d, ReviewLevel), Lookup(m, "review_level"))
    && SameValue(ValueOf(d, MergeStrategy), Lookup(m, "merge_strategy"))
    && SameValue(ValueOf(d, Capabilities), Lookup(m, "required_capabilities"))
    && SameValue(ValueOf(d, Model), Lookup(m, "model"))
  }

  function NormalOf(d: Definition, f: Field): Option<NormalValue> {
    var n := NormalizedDefinition(d).extras;
    if f in n then Some(n[f]) else None
  }

  lemma SameNormal(d: Definition, e: Definition)
    ensures NormalizedDefinition(d) == NormalizedDefinition(e) <==>
            && d.title == e.title && d.priority == e.priority && d.provider == e.provider && multiset(d.deps) == multiset(e.deps)
            && forall f: Field :: NormalOf(d, f) == NormalOf(e, f)
  {
    var a, b := NormalizedDefinition(d).extras, NormalizedDefinition(e).extras;
    if forall f: Field :: NormalOf(d, f) == NormalOf(e, f) {
      forall f: Field ensures (f in a <==> f in b) && (f in a ==> a[f] == b[f]) { assert NormalOf(d, f) == NormalOf(e, f); }
      assert a == b;
    }
  }

  /** How one value is compared. */
  function NormalizedValue(v: Option<Json>): Option<NormalValue> {
    if v.None? || Vacant(v.value) then None else Some(match v.value case List(items) => Bag(multiset(items)) case x => Scalar(x))
  }

  lemma NormalOfIs(d: Definition, f: Field)
    ensures NormalOf(d, f) == NormalizedValue(ValueOf(d, f))
  {
  }

  lemma ProjectedValue(s: Slot, f: Field)
    requires s.revisions != []
    ensures NormalizedValue(ValueOf(ProjectedDefinition(s), f)) == NormalizedValue(Lookup(s.revisions[|s.revisions| - 1].metadata, FieldKey(f)))
  {
    hide Lookup, FieldKey;
    assert f in FIELDS;
  }

  lemma SameValueIs(a: Option<Json>, b: Option<Json>)
    ensures NormalizedValue(a) == NormalizedValue(b) <==> SameValue(a, b)
  {
    EmptyIsVacant(a);
    EmptyIsVacant(b);
    if a.Some? && b.Some? && a.value.List? && b.value.List? {
      assert |multiset(a.value.items)| == |a.value.items| && |multiset(b.value.items)| == |b.value.items|;
    }
  }

  lemma EmptyIsVacant(v: Option<Json>)
    ensures NormalizedValue(v).None? <==> IsEmpty(v)
  {
    if v.Some? && v.value.List? && |v.value.items| == 0 {
      assert v.value.items == [];
    }
  }

  lemma SameNormalValue(d: Definition, s: Slot, f: Field)
    requires s.revisions != []
    ensures NormalOf(d, f) == NormalOf(ProjectedDefinition(s), f) <==>
            SameValue(ValueOf(d, f), Lookup(s.revisions[|s.revisions| - 1].metadata, FieldKey(f)))
  {
    hide NormalOf, NormalizedValue, SameValue, Lookup, ProjectedDefinition, ValueOf, FieldKey;
    NormalOfIs(d, f);
    NormalOfIs(ProjectedDefinition(s), f);
    ProjectedValue(s, f);
    SameValueIs(ValueOf(d, f), Lookup(s.revisions[|s.revisions| - 1].metadata, FieldKey(f)));
  }

  /** A commit is refused as a definition change exactly when some field of the definition really differs. */
  lemma DefinitionChangeRefusedExactlyWhen(s: Slot, row: Row, change: Option<Change>)
    requires s.revisions != []
    ensures CommitSlot(s, row, change) == Err(DefinitionChanged) <==> !RepeatsDefinition(s, row)
  {
    hide NormalizedDefinition, ProjectedDefinition, NormalOf, SameValue, Lookup, ValueOf, CommitStatus;
    var d := row.definition;
    StatusErrors(s, row, change);
    ProjectedColumns(s);
    SameNormal(d, ProjectedDefinition(s));
    forall f: Field ensures NormalOf(d, f) == NormalOf(ProjectedDefinition(s), f) <==>
                            SameValue(ValueOf(d, f), Lookup(s.revisions[|s.revisions| - 1].metadata, FieldKey(f))) {
      SameNormalValue(d, s, f);
    }
    assert NormalOf(d, Description) == NormalOf(ProjectedDefinition(s), Description) <==> SameValue(ValueOf(d, Description), Lookup(LatestMetadata(s), FieldKey(Description)));
  }

  lemma ProjectedColumns(s: Slot)
    ensures var d := ProjectedDefinition(s); d.title == s.title && d.priority == s.priority && d.provider == s.provider && d.deps == s.deps
  {
  }

  lemma StatusErrors(s: Slot, row: Row, change: Option<Change>)
    ensures CommitStatus(s, row, change).Err? ==> CommitStatus(s, row, change).error != DefinitionChanged
  {
  }

  /** An accepted row stores its dispatch fields and attempts; an explicit type other than the spec's is kept as an override. */
  lemma CommittedFields(s: Slot, row: Row, change: Option<Change>)
    requires CommitSlot(s, row, change).Ok?
    ensures var t := CommitSlot(s, row, change).value;
            && t.dispatch.owner == row.owner && t.dispatch.planning == row.planning && t.dispatch.delegatedBy == row.delegatedBy
            && t.dispatch.requeueAfter == row.requeueAfter && t.attempts == (if row.attempts.Some? then row.attempts.value else 0)
            && t.dispatch.taskType == (if row.taskType.Some? && row.taskType.value !in {"", DefinedType(s)} then row.taskType else s.dispatch.taskType)
            && t.title == s.title && t.priority == s.priority && t.provider == s.provider && t.deps == s.deps && t.revisions == s.revisions
  {
    hide NormalizedDefinition, ProjectedDefinition, TriggerAllows;
  }

  /** A task that becomes blocked keeps why: the change's reason, else the row's, else the cause. */
  lemma BlockReasonIsKept(s: Slot, row: Row, c: Change)
    requires CommitSlot(s, row, Some(c)).Ok? && row.status == Blocked && s.status != Blocked
    requires c.key.None? && c.cause in {FailureBlock, ManualBlock, MigrationImport}
    ensures CommitSlot(s, row, Some(c)).value.blockedReason ==
            if c.reason.Some? then c.reason
            else if row.blockedReason.Some? then row.blockedReason
            else Some(if c.cause == FailureBlock then "failure_block" else if c.cause == ManualBlock then "manual_block" else "migration_import")
  {
    hide NormalizedDefinition, ProjectedDefinition, TriggerAllows;
  }

  // ----- a whole backlog, whatever its order ------------------------------------------------------

  /** The same commit without an order: one row per task. */
  function CommitMap(write: Writer, store: Store, rows: map<Ref, Row>): Result<Store, Error> {
    if forall r :: r in rows ==> r in store && write(store[r], rows[r]).Ok?
    then Ok(map r | r in store :: if r in rows then write(store[r], rows[r]).value else store[r])
    else Err(Constraint)
  }

  /** Committing one row per task gives the same store in every listing order. */
  lemma CommitIgnoresOrder(write: Writer, store: Store, rows: map<Ref, Row>, order: seq<Row>)
    requires DistinctRefs(order)
    requires forall r :: r in rows ==> rows[r].ref == r && rows[r] in order
    requires forall i :: 0 <= i < |order| ==> order[i].ref in rows && rows[order[i].ref] == order[i]
    ensures WriteRows(write, store, order).Ok? <==> CommitMap(write, store, rows).Ok?
    ensures CommitMap(write, store, rows).Ok? ==> WriteRows(write, store, order) == CommitMap(write, store, rows)
  {
    WritesAreIndependent(write, store, order);
    if CommitMap(write, store, rows).Ok? {
      assert AllAccepted(write, store, order);
      var listed, direct := WriteRows(write, store, order).value, CommitMap(write, store, rows).value;
      forall r | r in store ensures listed[r] == direct[r] {
        if r in rows {
          var i :| 0 <= i < |order| && order[i] == rows[r];
        } else {
          UnnamedTaskStays(write, store, order, r);
        }
      }
      assert listed == direct;
    } else {
      var r :| r in rows && !(r in store && write(store[r], rows[r]).Ok?);
      var i :| 0 <= i < |order| && order[i] == rows[r];
    }
  }
}
