/**
 The compensating undo of AINDY/core/effect_compensation.py.

 A run's successful effects are reversed newest first.  A compensator runs inside a
 savepoint, so one that raises leaves the world as it found it; every attempt appends one
 row to the audit log.  The summary lists carry the effect records; the runtime reports
 their action types.
 */
module Compensation {
  import opened Common

  const UNDO_SYSCALL := "sys.v1.agent.undo"

  datatype Effect = Effect(id: int, unit: string, actionType: string, success: bool, createdAt: int)

  datatype Outcome<S> = Done(state: S) | Raised(partial: S, error: string)

  type Registry<!S> = map<string, (Effect, S) -> Outcome<S>>

  datatype Status = Reversed | Irreversible | Failed

  datatype Reversal = Reversal(effectId: int, status: Status)

  datatype Summary = Summary(
    reversed: seq<Effect>,
    alreadyReversed: seq<Effect>,
    irreversible: seq<Effect>,
    failed: seq<Effect>,
    reversible: seq<Effect>)

  const NO_EFFECTS := Summary([], [], [], [], [])

  // ------------------------------------------------------------------ the records of a run

  /** ORDER BY created_at DESC, id DESC. */
  predicate Newer(a: Effect, b: Effect) {
    a.createdAt > b.createdAt || (a.createdAt == b.createdAt && a.id > b.id)
  }

  predicate Selected(e: Effect, unit: string) {
    e.unit == unit && e.success && e.actionType != UNDO_SYSCALL
  }

  function Insert(e: Effect, sorted: seq<Effect>): (r: seq<Effect>)
    ensures multiset(r) == multiset(sorted) + multiset{e}
  {
    if sorted == [] || Newer(e, sorted[0]) then [e] + sorted
    else
      assert sorted == [sorted[0]] + sorted[1..];
      [sorted[0]] + Insert(e, sorted[1..])
  }

  function Records(table: seq<Effect>, unit: string): seq<Effect> {
    if table == [] then []
    else if Selected(table[0], unit) then Insert(table[0], Records(table[1..], unit))
    else Records(table[1..], unit)
  }

  function Matching(table: seq<Effect>, unit: string): seq<Effect> {
    if table == [] then []
    else (if Selected(table[0], unit) then [table[0]] else []) + Matching(table[1..], unit)
  }

  ghost predicate NewestFirst(es: seq<Effect>) {
    forall i, j :: 0 <= i < j < |es| ==> Newer(es[i], es[j])
  }

  ghost predicate DistinctIds(es: seq<Effect>) {
    forall i, j :: 0 <= i < j < |es| ==> es[i].id != es[j].id
  }

  lemma {:induction false} InsertOrdered(e: Effect, sorted: seq<Effect>)
    requires NewestFirst(sorted) && forall i :: 0 <= i < |sorted| ==> sorted[i].id != e.id
    ensures NewestFirst(Insert(e, sorted))
  {
    if sorted != [] && !Newer(e, sorted[0]) {
      var rest := sorted[1..];
      InsertOrdered(e, rest);
      var r := Insert(e, rest);
      forall i | 0 <= i < |r| ensures Newer(sorted[0], r[i]) {
        InMultiset(r, r[i]);
        assert r[i] == e || r[i] in rest;
      }
    }
  }

  /** The query answers exactly the matching rows, newest first. */
  lemma {:induction false} RecordsAreMatchingNewestFirst(table: seq<Effect>, unit: string)
    requires DistinctIds(table)
    ensures multiset(Records(table, unit)) == multiset(Matching(table, unit))
    ensures NewestFirst(Records(table, unit))
    ensures forall e :: e in Records(table, unit) ==> e in table
  {
    if table != [] {
      var rest := table[1..];
      RecordsAreMatchingNewestFirst(rest, unit);
      if Selected(table[0], unit) {
        var sorted := Records(rest, unit);
        forall i | 0 <= i < |sorted| ensures sorted[i].id != table[0].id {
          assert sorted[i] in rest;
        }
        InsertOrdered(table[0], sorted);
        forall e | e in Records(table, unit) ensures e in table {
          InMultiset(Insert(table[0], sorted), e);
          assert e == table[0] || e in sorted;
        }
      }
    }
  }

  lemma {:induction false} MatchingIff(table: seq<Effect>, unit: string, e: Effect)
    ensures e in Matching(table, unit) <==>
            e in table && e.unit == unit && e.success && e.actionType != "sys.v1.agent.undo"
  {
    if table != [] { MatchingIff(table[1..], unit, e); }
  }

  /** The query answers the unit's successful effects and no others, and never an undo itself. */
  lemma {:induction false} RecordedExactly(table: seq<Effect>, unit: string, e: Effect)
    ensures e in Records(table, unit) <==>
            e in table && e.unit == unit && e.success && e.actionType != "sys.v1.agent.undo"
  {
    if table != [] {
      RecordedExactly(table[1..], unit, e);
      if Selected(table[0], unit) {
        InMultiset(Insert(table[0], Records(table[1..], unit)), e);
        InMultiset(Records(table[1..], unit), e);
      }
    }
  }

  /** Rows of other units, of failed effects and of undos change nothing, wherever they are in the table. */
  lemma {:induction false} OthersIgnored(before: seq<Effect>, x: Effect, after: seq<Effect>, unit: string)
    requires x.unit != unit || !x.success || x.actionType == "sys.v1.agent.undo"
    ensures Records(before + [x] + after, unit) == Records(before + after, unit)
  {
    if before == [] {
      assert ([x] + after)[1..] == after && before + [x] + after == [x] + after && before + after == after;
    } else {
      OthersIgnored(before[1..], x, after, unit);
      assert (before + [x] + after)[1..] == before[1..] + [x] + after && (before + after)[1..] == before[1..] + after;
    }
  }

  // ------------------------------------------------------------------ one undo

  function ReversedIds(audit: seq<Reversal>): set<int> {
    set i | 0 <= i < |audit| && audit[i].status == Reversed :: audit[i].effectId
  }

  datatype Progress<S> = Progress(world: S, rows: seq<Reversal>, summary: Summary)

  /** What became of one record: skipped, or tried with a status and a world after it. */
  datatype Trial<S> = Skipped | Tried(status: Status, world: S)

  function Try<S>(registry: Registry<S>, skip: set<int>, world: S, e: Effect): Trial<S> {
    if e.id in skip then Skipped
    else if e.actionType !in registry then Tried(Irreversible, world)
    else
      match registry[e.actionType](e, world)
      case Done(state) => Tried(Reversed, state)
      // the savepoint discards whatever the compensator had changed
      case Raised(_, _) => Tried(Failed, world)
  }

  function Listed(sum: Summary, e: Effect, status: Status): Summary {
    match status
    case Reversed => sum.(reversed := sum.reversed + [e])
    case Irreversible => sum.(irreversible := sum.irreversible + [e])
    case Failed => sum.(failed := sum.failed + [e])
  }

  function Noted<S>(p: Progress<S>, e: Effect, t: Trial<S>): Progress<S> {
    match t
    case Skipped => p.(summary := p.summary.(alreadyReversed := p.summary.alreadyReversed + [e]))
    case Tried(status, world) => Progress(world, p.rows + [Reversal(e.id, status)], Listed(p.summary, e, status))
  }

  function UndoOne<S>(registry: Registry<S>, skip: set<int>, p: Progress<S>, e: Effect): Progress<S> {
    Noted(p, e, Try(registry, skip, p.world, e))
  }

  function UndoMany<S>(registry: Registry<S>, skip: set<int>, world: S, records: seq<Effect>): (p: Progress<S>)
    decreases |records|
  {
    if records == [] then Progress(world, [], NO_EFFECTS)
    else
      UndoOne(registry, skip, UndoMany(registry, skip, world, records[..|records| - 1]), records[|records| - 1])
  }

  function ReportOne<S>(registry: Registry<S>, skip: set<int>, sum: Summary, e: Effect): Summary {
    if e.id in skip then sum.(alreadyReversed := sum.alreadyReversed + [e])
    else if e.actionType in registry then sum.(reversible := sum.reversible + [e])
    else sum.(irreversible := sum.irreversible + [e])
  }

  function ReportMany<S>(registry: Registry<S>, skip: set<int>, records: seq<Effect>): (r: Summary)
    decreases |records|
  {
    if records == [] then NO_EFFECTS
    else ReportOne(registry, skip, ReportMany(registry, skip, records[..|records| - 1]), records[|records| - 1])
  }

  lemma UndoManyStep<S>(registry: Registry<S>, skip: set<int>, world: S, records: seq<Effect>, k: nat)
    requires k < |records|
    ensures UndoMany(registry, skip, world, records[..k + 1]) ==
              UndoOne(registry, skip, UndoMany(registry, skip, world, records[..k]), records[k])
  {
    assert records[..k + 1][..k] == records[..k];
  }

  lemma ReportManyStep<S>(registry: Registry<S>, skip: set<int>, records: seq<Effect>, k: nat)
    requires k < |records|
    ensures ReportMany(registry, skip, records[..k + 1]) == ReportOne(registry, skip, ReportMany(registry, skip, records[..k]), records[k])
  {
    assert records[..k + 1][..k] == records[..k];
  }

  class UndoEngine<S> {
    var world: S
    var audit: seq<Reversal>

    constructor (initial: S)
      ensures world == initial && audit == []
    {
      world, audit := initial, [];
    }

    /** None is a run without an execution unit. */
    method UndoRunEffects(unit: Option<string>, table: seq<Effect>, registry: Registry<S>, reportOnly: bool)
      returns (summary: Summary)
      modifies this
      ensures unit.None? || reportOnly ==> world == old(world) && audit == old(audit)
      ensures unit.None? ==> summary == NO_EFFECTS
      ensures unit.Some? && reportOnly ==>
                summary == ReportMany(registry, ReversedIds(audit), Records(table, unit.value))
      ensures unit.Some? && !reportOnly ==>
                var p := UndoMany(registry, ReversedIds(old(audit)), old(world), Records(table, unit.value));
                world == p.world && audit == old(audit) + p.rows && summary == p.summary
    {
      summary := NO_EFFECTS;
      if unit.None? { return; }
      var records := Records(table, unit.value);
      var skip := ReversedIds(audit);
      ghost var start, p := audit, Progress(world, [], NO_EFFECTS);
      var i := 0;
      while i < |records|
        invariant 0 <= i <= |records|
        invariant reportOnly ==>
                    world == old(world) && audit == start && summary == ReportMany(registry, skip, records[..i])
        invariant !reportOnly ==>
                    && p == UndoMany(registry, skip, old(world), records[..i])
                    && world == p.world && audit == start + p.rows && summary == p.summary
      {
        var e := records[i];
        ReportManyStep(registry, skip, records, i);
        UndoManyStep(registry, skip, old(world), records, i);
        p := UndoOne(registry, skip, p, e);
        if e.id in skip {
          summary := summary.(alreadyReversed := summary.alreadyReversed + [e]);
        } else if reportOnly {
          if e.actionType in registry {
            summary := summary.(reversible := summary.reversible + [e]);
          } else {
            summary := summary.(irreversible := summary.irreversible + [e]);
          }
        } else {
          var status := UndoEffect(registry, e);
          summary := Listed(summary, e, status);
        }
        i := i + 1;
      }
      assert records[..|records|] == records;
    }

    /** Runs the compensator in a savepoint and writes the audit row. */
    method UndoEffect(registry: Registry<S>, e: Effect) returns (status: Status)
      modifies this
      ensures Try(registry, {}, old(world), e) == Tried(status, world)
      ensures audit == old(audit) + [Reversal(e.id, status)]
    {
      status := Irreversible;
      if e.actionType in registry {
        var savepoint := world;
        var outcome := registry[e.actionType](e, world);
        if outcome.Done? {
          world, status := outcome.state, Reversed;
        } else {
          world := outcome.partial;
          world, status := savepoint, Failed;
        }
      }
      audit := audit + [Reversal(e.id, status)];
    }
  }

  // ------------------------------------------------------------------ what an undo reports

  /** Applying the compensators of exactly these effects, in this order. */
  function Compensate<S>(registry: Registry<S>, world: S, effects: seq<Effect>): Option<S>
    decreases |effects|
  {
    if effects == [] then Some(world)
    else
      var w, e := Compensate(registry, world, effects[..|effects| - 1]), effects[|effects| - 1];
      if w.None? || e.actionType !in registry then None
      else
        var r := registry[e.actionType](e, w.value);
        if r.Done? then Some(r.state) else None
  }

  /** The world an undo leaves is made by the compensators it reports as reversed and by nothing else: a raise contributes nothing. */
  lemma {:induction false} OnlyReversedChangeTheWorld<S>(registry: Registry<S>, skip: set<int>, world: S, records: seq<Effect>)
    ensures var p := UndoMany(registry, skip, world, records);
            Compensate(registry, world, p.summary.reversed) == Some(p.world)
    decreases |records|
  {
    if records != [] {
      var n := |records| - 1;
      OnlyReversedChangeTheWorld(registry, skip, world, records[..n]);
      var p := UndoMany(registry, skip, world, records[..n]);
      var e := records[n];
      var more := p.summary.reversed + [e];
      assert more[..|more| - 1] == p.summary.reversed;
    }
  }

  function Lists(s: Summary): multiset<Effect> {
    multiset(s.reversed) + multiset(s.alreadyReversed) + multiset(s.irreversible) + multiset(s.failed) + multiset(s.reversible)
  }

  lemma ReportedOne<S>(p: Progress<S>, e: Effect, t: Trial<S>)
    ensures Lists(Noted(p, e, t).summary) == Lists(p.summary) + multiset{e}
    ensures Noted(p, e, t).summary.reversible == p.summary.reversible
  {
    if t.Tried? { ListedOne(p.summary, e, t.status); }
  }

  lemma ListedOne(sum: Summary, e: Effect, status: Status)
    ensures Lists(Listed(sum, e, status)) == Lists(sum) + multiset{e} && Listed(sum, e, status).reversible == sum.reversible
  {
    match status
    case Reversed => assert multiset(sum.reversed + [e]) == multiset(sum.reversed) + multiset{e};
    case Irreversible => assert multiset(sum.irreversible + [e]) == multiset(sum.irreversible) + multiset{e};
    case Failed => assert multiset(sum.failed + [e]) == multiset(sum.failed) + multiset{e};
  }

  /** Every record lands in exactly one list of the summary. */
  lemma {:induction false} EveryRecordReportedOnce<S>(registry: Registry<S>, skip: set<int>, world: S, records: seq<Effect>)
    ensures var p := UndoMany(registry, skip, world, records);
            Lists(p.summary) == multiset(records) && p.summary.reversible == []
    decreases |records|
  {
    if records != [] {
      var n := |records| - 1;
      EveryRecordReportedOnce(registry, skip, world, records[..n]);
      var p := UndoMany(registry, skip, world, records[..n]);
      ReportedOne(p, records[n], Try(registry, skip, p.world, records[n]));
      LastMultiset(records);
    }
  }

  /** So does a report, which reverses nothing and fails at nothing. */
  lemma {:induction false} EveryRecordInReportOnce<S>(registry: Registry<S>, skip: set<int>, records: seq<Effect>)
    ensures var sum := ReportMany(registry, skip, records);
            Lists(sum) == multiset(records) && sum.reversed == [] && sum.failed == []
    decreases |records|
  {
    if records != [] {
      var n := |records| - 1;
      EveryRecordInReportOnce(registry, skip, records[..n]);
      ReportListsOne(registry, skip, ReportMany(registry, skip, records[..n]), records[n]);
      LastMultiset(records);
    }
  }

  lemma ReportListsOne<S>(registry: Registry<S>, skip: set<int>, sum: Summary, e: Effect)
    ensures var after := ReportOne(registry, skip, sum, e);
            Lists(after) == Lists(sum) + multiset{e} && after.reversed == sum.reversed && after.failed == sum.failed
  {
  }

  /** The effects whose audit rows have this status, in order. */
  function IdsWith(rows: seq<Reversal>, status: Status): seq<int>
    decreases |rows|
  {
    if rows == [] then []
    else
      var r := rows[|rows| - 1];
      IdsWith(rows[..|rows| - 1], status) + if r.status == status then [r.effectId] else []
  }

  /** The summary and the audit rows tell the same story, in the same order. */
  ghost predicate Agrees(sum: Summary, rows: seq<Reversal>) {
    && IdsOf(sum.reversed) == IdsWith(rows, Reversed)
    && IdsOf(sum.irreversible) == IdsWith(rows, Irreversible)
    && IdsOf(sum.failed) == IdsWith(rows, Failed)
  }

  lemma NotedAgrees<S>(p: Progress<S>, e: Effect, t: Trial<S>)
    requires Agrees(p.summary, p.rows)
    ensures Agrees(Noted(p, e, t).summary, Noted(p, e, t).rows)
  {
    if t.Tried? { assert (p.rows + [Reversal(e.id, t.status)])[..|p.rows|] == p.rows; }
  }

  lemma {:induction false} SummaryAgreesWithRows<S>(registry: Registry<S>, skip: set<int>, world: S, records: seq<Effect>)
    ensures var p := UndoMany(registry, skip, world, records); Agrees(p.summary, p.rows)
    decreases |records|
  {
    if records != [] {
      var n := |records| - 1;
      SummaryAgreesWithRows(registry, skip, world, records[..n]);
      var p := UndoMany(registry, skip, world, records[..n]);
      NotedAgrees(p, records[n], Try(registry, skip, p.world, records[n]));
    }
  }

  /** Which list an effect is in: skipped ones as already reversed, those without a compensator as irreversible, the others tried. */
  lemma {:induction false} ListedWhere<S>(registry: Registry<S>, skip: set<int>, world: S, records: seq<Effect>, e: Effect)
    ensures var sum := UndoMany(registry, skip, world, records).summary;
            && (e in sum.alreadyReversed <==> e in records && e.id in skip)
            && (e in sum.irreversible <==> e in records && e.id !in skip && e.actionType !in registry)
            && (e in sum.reversed || e in sum.failed <==> e in records && e.id !in skip && e.actionType in registry)
    decreases |records|
  {
    if records != [] { ListedWhere(registry, skip, world, records[..|records| - 1], e); }
  }

  /** A compensator that never raises leaves nothing failed, and one that always does leaves nothing reversed. */
  lemma {:induction false} FailedExactlyWhenRaised<S(!new)>(registry: Registry<S>, skip: set<int>, world: S,
                                                             records: seq<Effect>, e: Effect)
    requires e.actionType in registry
    ensures var sum := UndoMany(registry, skip, world, records).summary;
            && ((forall w :: registry[e.actionType](e, w).Done?) ==> e !in sum.failed)
            && ((forall w :: registry[e.actionType](e, w).Raised?) ==> e !in sum.reversed)
    decreases |records|
  {
    if records != [] { FailedExactlyWhenRaised(registry, skip, world, records[..|records| - 1], e); }
  }

  function IdsOf(es: seq<Effect>): seq<int> { seq(|es|, i requires 0 <= i < |es| => es[i].id) }

  /** The effects an undo may invoke a compensator for, in order. */
  function Attempted<S>(registry: Registry<S>, skip: set<int>, records: seq<Effect>): seq<Effect>
    decreases |records|
  {
    if records == [] then []
    else
      var e := records[|records| - 1];
      Attempted(registry, skip, records[..|records| - 1]) +
      (if e.id !in skip && e.actionType in registry then [e] else [])
  }

  /** The effects whose compensator ran, in order, as the audit rows tell. */
  function RanIds(rows: seq<Reversal>): seq<int>
    decreases |rows|
  {
    if rows == [] then []
    else
      var r := rows[|rows| - 1];
      RanIds(rows[..|rows| - 1]) + (if r.status == Irreversible then [] else [r.effectId])
  }

  lemma AttemptedNext<S>(registry: Registry<S>, skip: set<int>, records: seq<Effect>, n: nat)
    requires n < |records|
    ensures var more := if records[n].id !in skip && records[n].actionType in registry then [records[n]] else [];
            && Attempted(registry, skip, records[..n + 1]) == Attempted(registry, skip, records[..n]) + more
            && IdsOf(Attempted(registry, skip, records[..n + 1])) == IdsOf(Attempted(registry, skip, records[..n])) + IdsOf(more)
  {
    assert records[..n + 1][..n] == records[..n];
  }

  lemma ReportedNext<S>(registry: Registry<S>, skip: set<int>, records: seq<Effect>, n: nat)
    requires n < |records|
    ensures var more := if records[n].id !in skip && records[n].actionType in registry then [records[n]] else [];
            ReportMany(registry, skip, records[..n + 1]).reversible == ReportMany(registry, skip, records[..n]).reversible + more
  {
    ReportManyStep(registry, skip, records, n);
  }

  /**
   A report changes nothing and names, in order, exactly the effects whose compensator the
   next undo over the same rows runs, whatever the world is by then.
   */
  lemma {:induction false} ReportPredictsUndo<S>(registry: Registry<S>, skip: set<int>, world: S, records: seq<Effect>)
    ensures ReportMany(registry, skip, records).reversible == Attempted(registry, skip, records)
    ensures RanIds(UndoMany(registry, skip, world, records).rows) == IdsOf(Attempted(registry, skip, records))
    decreases |records|
  {
    if records != [] {
      var n := |records| - 1;
      ReportPredictsUndo(registry, skip, world, records[..n]);
      ReportedNext(registry, skip, records, n);
      AttemptedNext(registry, skip, records, n);
      RanOne(registry, skip, UndoMany(registry, skip, world, records[..n]), records[n]);
      UndoManyStep(registry, skip, world, records, n);
      assert records[..n + 1] == records;
    }
  }

  lemma RanSnoc(rows: seq<Reversal>, r: Reversal)
    ensures RanIds(rows + [r]) == RanIds(rows) + (if r.status == Irreversible then [] else [r.effectId])
  {
    assert (rows + [r])[..|rows|] == rows;
  }

  lemma RanOne<S>(registry: Registry<S>, skip: set<int>, p: Progress<S>, e: Effect)
    ensures RanIds(UndoOne(registry, skip, p, e).rows) ==
              RanIds(p.rows) + (if e.id !in skip && e.actionType in registry then [e.id] else [])
  {
    var t := Try(registry, skip, p.world, e);
    if t.Tried? { RanSnoc(p.rows, Reversal(e.id, t.status)); }
  }

  lemma {:induction false} RowsAreOfRecords<S>(registry: Registry<S>, skip: set<int>, world: S, records: seq<Effect>, k: nat)
    requires k < |UndoMany(registry, skip, world, records).rows|
    ensures exists i :: 0 <= i < |records| && records[i].id == UndoMany(registry, skip, world, records).rows[k].effectId
    decreases |records|
  {
    if records != [] {
      var n := |records| - 1;
      var p := UndoMany(registry, skip, world, records[..n]);
      if k < |p.rows| {
        RowsAreOfRecords(registry, skip, world, records[..n], k);
        var i :| 0 <= i < n && records[..n][i].id == p.rows[k].effectId;
        assert records[i].id == p.rows[k].effectId;
      } else {
        assert records[n].id == UndoMany(registry, skip, world, records).rows[k].effectId;
      }
    }
  }

  /** An undo touches no other run: every audit row it writes and every effect it lists is one of the unit's own. */
  lemma UndoTouchesOwn<S>(registry: Registry<S>, skip: set<int>, world: S, table: seq<Effect>, unit: string)
    ensures var p := UndoMany(registry, skip, world, Records(table, unit));
            && (forall e :: e in Lists(p.summary) ==> e in table && e.unit == unit && e.success)
            && (forall k :: 0 <= k < |p.rows| ==> exists e :: e in table && e.unit == unit && e.success && e.id == p.rows[k].effectId)
  {
    var records := Records(table, unit);
    var p := UndoMany(registry, skip, world, records);
    EveryRecordReportedOnce(registry, skip, world, records);
    forall e | e in Lists(p.summary) ensures e in table && e.unit == unit && e.success {
      InMultiset(records, e);
      RecordedExactly(table, unit, e);
    }
    forall k | 0 <= k < |p.rows| ensures exists e :: e in table && e.unit == unit && e.success && e.id == p.rows[k].effectId {
      RowsAreOfRecords(registry, skip, world, records, k);
      var i :| 0 <= i < |records| && records[i].id == p.rows[k].effectId;
      RecordedExactly(table, unit, records[i]);
    }
  }

  // ------------------------------------------------------------------ any sequence of undos

  /** One undo: the rows it finds, the compensators declared then, and the world then. */
  datatype Call<!S> = Call(records: seq<Effect>, registry: Registry<S>, world: S)

  function RowsOf<S>(audit: seq<Reversal>, c: Call<S>): seq<Reversal> {
    UndoMany(c.registry, ReversedIds(audit), c.world, c.records).rows
  }

  function AuditAfter<S>(calls: seq<Call<S>>): seq<Reversal>
    decreases |calls|
  {
    if calls == [] then []
    else
      var audit := AuditAfter(calls[..|calls| - 1]);
      audit + RowsOf(audit, calls[|calls| - 1])
  }

  function Count(rows: seq<Reversal>, id: int, status: Status): nat
    decreases |rows|
  {
    if rows == [] then 0
    else Count(rows[..|rows| - 1], id, status) + (if rows[|rows| - 1] == Reversal(id, status) then 1 else 0)
  }

  lemma {:induction false} CountAppend(a: seq<Reversal>, b: seq<Reversal>, id: int, status: Status)
    ensures Count(a + b, id, status) == Count(a, id, status) + Count(b, id, status)
    decreases |b|
  {
    if b == [] {
      assert a + b == a;
    } else {
      var n := |b| - 1;
      assert (a + b)[..|a + b| - 1] == a + b[..n];
      CountAppend(a, b[..n], id, status);
    }
  }

  lemma {:induction false} CountedIsReversed(rows: seq<Reversal>, id: int)
    ensures Count(rows, id, Reversed) > 0 <==> id in ReversedIds(rows)
    decreases |rows|
  {
    if rows != [] {
      var n := |rows| - 1;
      CountedIsReversed(rows[..n], id);
      if rows[n] == Reversal(id, Reversed) {
        assert rows[n].effectId in ReversedIds(rows);
      } else {
        forall i | 0 <= i < |rows| && rows[i].status == Reversed && rows[i].effectId == id
          ensures id in ReversedIds(rows[..n])
        {
          assert rows[..n][i] == rows[i];
        }
      }
    }
  }

  /** Rows one undo adds for an effect: none if it was reversed before, at most one otherwise. */
  lemma {:induction false} RowsPerEffect<S>(registry: Registry<S>, skip: set<int>, world: S, records: seq<Effect>, id: int, status: Status)
    requires DistinctIds(records)
    ensures var n := Count(UndoMany(registry, skip, world, records).rows, id, status);
            n <= 1 && (id in skip || (forall i :: 0 <= i < |records| ==> records[i].id != id) ==> n == 0)
    decreases |records|
  {
    if records != [] {
      var n := |records| - 1;
      RowsPerEffect(registry, skip, world, records[..n], id, status);
      RowsOne(registry, skip, UndoMany(registry, skip, world, records[..n]), records[n], id, status);
      if records[n].id == id {
        assert forall i :: 0 <= i < n ==> records[..n][i].id != id;
      }
    }
  }

  lemma RowsOne<S>(registry: Registry<S>, skip: set<int>, p: Progress<S>, e: Effect, id: int, status: Status)
    ensures var n := Count(UndoOne(registry, skip, p, e).rows, id, status) - Count(p.rows, id, status);
            0 <= n <= 1 && (e.id != id || id in skip ==> n == 0)
  {
    var t := Try(registry, skip, p.world, e);
    if t.Tried? { CountSnoc(p.rows, Reversal(e.id, t.status), id, status); }
  }

  lemma CountSnoc(rows: seq<Reversal>, r: Reversal, id: int, status: Status)
    ensures Count(rows + [r], id, status) == Count(rows, id, status) + (if r == Reversal(id, status) then 1 else 0)
  {
    assert (rows + [r])[..|rows|] == rows;
  }

  /** Over any sequence of undo calls an effect gets at most one `reversed` row. */
  lemma {:induction false} ReversedAtMostOnce<S>(calls: seq<Call<S>>, id: int)
    requires forall i :: 0 <= i < |calls| ==> DistinctIds(calls[i].records)
    ensures Count(AuditAfter(calls), id, Reversed) <= 1
    decreases |calls|
  {
    if calls != [] {
      var front, c := calls[..|calls| - 1], calls[|calls| - 1];
      ReversedAtMostOnce(front, id);
      var audit := AuditAfter(front);
      CountAppend(audit, RowsOf(audit, c), id, Reversed);
      CountedIsReversed(audit, id);
      RowsPerEffect(c.registry, ReversedIds(audit), c.world, c.records, id, Reversed);
    }
  }

  /** The audit log only grows. */
  lemma {:induction false} AuditGrows<S>(calls: seq<Call<S>>, k: nat)
    requires k <= |calls|
    ensures AuditAfter(calls[..k]) <= AuditAfter(calls)
    decreases |calls| - k
  {
    if k == |calls| {
      assert calls[..k] == calls;
    } else {
      AuditGrows(calls, k + 1);
      assert calls[..k + 1][..k] == calls[..k];
    }
  }

  lemma {:induction false} AttemptedIff<S>(registry: Registry<S>, skip: set<int>, records: seq<Effect>, e: Effect)
    ensures e in Attempted(registry, skip, records) <==> e in records && e.id !in skip && e.actionType in registry
    decreases |records|
  {
    if records != [] {
      AttemptedIff(registry, skip, records[..|records| - 1], e);
    }
  }

  /**
   The next undo runs the compensator of exactly the records that have one and no earlier
   `reversed` row: a reversed effect is never run again, and a failed one is retried.
   */
  lemma NextUndoRuns<S>(calls: seq<Call<S>>, c: Call<S>, e: Effect)
    requires DistinctIds(c.records) && e in c.records
    ensures var audit := AuditAfter(calls);
            e.id in RanIds(RowsOf(audit, c)) <==>
              e.actionType in c.registry && Count(audit, e.id, Reversed) == 0
  {
    var audit := AuditAfter(calls);
    var ran := Attempted(c.registry, ReversedIds(audit), c.records);
    ReportPredictsUndo(c.registry, ReversedIds(audit), c.world, c.records);
    CountedIsReversed(audit, e.id);
    AttemptedIff(c.registry, ReversedIds(audit), c.records, e);
    if e in ran {
      var i :| 0 <= i < |ran| && ran[i] == e;
      assert IdsOf(ran)[i] == e.id;
    }
    if e.id in IdsOf(ran) {
      var i :| 0 <= i < |ran| && IdsOf(ran)[i] == e.id;
      AttemptedIff(c.registry, ReversedIds(audit), c.records, ran[i]);
      assert ran[i] in ran;
      var j :| 0 <= j < |c.records| && c.records[j] == ran[i];
      var k :| 0 <= k < |c.records| && c.records[k] == e;
      assert j == k;
    }
  }
}
