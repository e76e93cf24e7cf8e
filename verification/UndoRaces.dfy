/** Undos that read before and commit after each other. */
module UndoRaces {
  import opened Common
  import opened Compensation

  /** An undo under way: the ids it read as reversed before its loop. */
  datatype Open<!S> = Open(call: Call<S>, skip: set<int>)

  /** Each undo reads, works in its own transaction, and commits its rows or loses them. */
  datatype Move<!S> = Begin(u: nat, call: Call<S>) | Commit(u: nat) | Abandon(u: nat)

  datatype Desk<!S> = Desk(audit: seq<Reversal>, open: seq<Option<Open<S>>>)

  function RowsOfOpen<S>(o: Open<S>): seq<Reversal> {
    UndoMany(o.call.registry, o.skip, o.call.world, o.call.records).rows
  }

  function Moved<S>(d: Desk<S>, m: Move<S>): (r: Desk<S>)
    ensures |r.open| == |d.open|
  {
    if m.u >= |d.open| then d
    else
      match m
      case Begin(u, c) => if d.open[u].None? then d.(open := d.open[u := Some(Open(c, ReversedIds(d.audit)))]) else d
      case Commit(u) => if d.open[u].Some? then Desk(d.audit + RowsOfOpen(d.open[u].value), d.open[u := None]) else d
      case Abandon(u) => d.(open := d.open[u := None])
  }

  /** n undoers, none of them at work. */
  function Quiet<S>(n: nat): Desk<S> { Desk([], seq(n, _ => None)) }

  function Moves<S>(n: nat, moves: seq<Move<S>>): (d: Desk<S>)
    ensures |d.open| == n
    decreases |moves|
  {
    if moves == [] then Quiet(n) else Moved(Moves(n, moves[..|moves| - 1]), moves[|moves| - 1])
  }

  ghost predicate WellRead<S>(moves: seq<Move<S>>) {
    forall i :: 0 <= i < |moves| && moves[i].Begin? ==> DistinctIds(moves[i].call.records)
  }

  function MayReverse<S>(id: int): Option<Open<S>> -> nat {
    (o: Option<Open<S>>) => if o.Some? && id !in o.value.skip then 1 else 0
  }

  ghost predicate DeskOk<S>(d: Desk<S>, id: int) {
    && (forall u :: 0 <= u < |d.open| && d.open[u].Some? ==> DistinctIds(d.open[u].value.call.records))
    && (Count(d.audit, id, Reversed) > 0 ==> Count(d.audit, id, Reversed) + Sum(d.open, MayReverse(id)) <= |d.open|)
  }

  lemma CommitCounts<S>(d: Desk<S>, u: nat, id: int)
    requires DeskOk(d, id) && u < |d.open| && d.open[u].Some?
    ensures var rows := Moved(d, Commit(u)).audit;
            Count(d.audit, id, Reversed) <= Count(rows, id, Reversed) <= Count(d.audit, id, Reversed) + MayReverse(id)(d.open[u])
  {
    var o := d.open[u].value;
    CountAppend(d.audit, RowsOfOpen(o), id, Reversed);
    RowsPerEffect(o.call.registry, o.skip, o.call.world, o.call.records, id, Reversed);
  }

  lemma DeskStep<S>(d: Desk<S>, m: Move<S>, id: int)
    requires DeskOk(d, id) && (m.Begin? ==> DistinctIds(m.call.records))
    ensures DeskOk(Moved(d, m), id)
  {
    if m.u < |d.open| {
      var t := Moved(d, m);
      SumUpdate(d.open, m.u, t.open[m.u], MayReverse(id));
      AtMostEach(d.open, MayReverse(id));
      CountedIsReversed(d.audit, id);
      assert t.open == d.open[m.u := t.open[m.u]];
      if m.Commit? && d.open[m.u].Some? { CommitCounts(d, m.u, id); }
    }
  }

  /** With n undoers at once an effect gets at most n `reversed` rows, whatever they do and however they overlap. */
  lemma {:induction false} ReversalsBounded<S>(n: nat, moves: seq<Move<S>>, id: int)
    requires WellRead(moves)
    ensures DeskOk(Moves(n, moves), id) && Count(Moves(n, moves).audit, id, Reversed) <= n
    decreases |moves|
  {
    if moves != [] {
      var front := moves[..|moves| - 1];
      ReversalsBounded(n, front, id);
      DeskStep(Moves(n, front), moves[|moves| - 1], id);
    }
  }

  lemma MovesSnoc<S>(n: nat, moves: seq<Move<S>>, m: Move<S>)
    ensures Moves(n, moves + [m]) == Moved(Moves(n, moves), m)
  {
    assert (moves + [m])[..|moves|] == moves;
  }

  /** Undos one after the other, as moves of a single undoer. */
  function Serial<S>(calls: seq<Call<S>>): seq<Move<S>>
    decreases |calls|
  {
    if calls == [] then []
    else Serial(calls[..|calls| - 1]) + [Begin(0, calls[|calls| - 1])] + [Commit(0)]
  }

  lemma {:induction false} SerialIsOneUndoer<S>(calls: seq<Call<S>>)
    ensures Moves(1, Serial(calls)) == Desk(AuditAfter(calls), [None])
    decreases |calls|
  {
    if calls != [] {
      var front, c := calls[..|calls| - 1], calls[|calls| - 1];
      SerialIsOneUndoer(front);
      MovesSnoc(1, Serial(front), Begin(0, c));
      MovesSnoc(1, Serial(front) + [Begin(0, c)], Commit(0));
    }
  }

  /** Two undos of the same effect read before either commits. */
  function Overlap<S>(c: Call<S>): seq<Move<S>> { [Begin(0, c)] + [Begin(1, c)] + [Commit(0)] + [Commit(1)] }

  function Simple<S>(id: int, world: S): Call<S> {
    Call([Effect(id, "", "", true, 0)], map["" := (e: Effect, s: S) => Done(s)], world)
  }

  lemma SimpleRows<S>(id: int, world: S)
    ensures RowsOfOpen(Open(Simple(id, world), {})) == [Reversal(id, Reversed)]
  {
    var c := Simple(id, world);
    UndoManyStep(c.registry, {}, world, c.records, 0);
    assert c.records[..1] == c.records && c.records[..0] == [];
  }

  lemma OverlapReversesTwice<S>(n: nat, id: int, world: S)
    requires n >= 2
    ensures Count(Moves(n, Overlap(Simple(id, world))).audit, id, Reversed) == 2
  {
    var c, row := Simple(id, world), Reversal(id, Reversed);
    var b: seq<Move<S>> := [Begin(0, c)];
    assert [] + b == b;
    MovesSnoc(n, [], Begin(0, c));
    MovesSnoc(n, b, Begin(1, c));
    MovesSnoc(n, b + [Begin(1, c)], Commit(0));
    MovesSnoc(n, b + [Begin(1, c)] + [Commit(0)], Commit(1));
    SimpleRows(id, world);
    assert ReversedIds([]) == {};
    var both := Moves(n, b + [Begin(1, c)]);
    assert both.audit == [] && both.open[0] == both.open[1] == Some(Open(c, {}));
    assert Moves(n, b + [Begin(1, c)] + [Commit(0)]) == Desk([row], both.open[0 := None]);
    assert Moves(n, Overlap(c)).audit == [row] + [row];
    CountAppend([row], [row], id, Reversed);
  }

  ghost predicate NeverTwice<S(!new)>(n: nat) {
    forall moves: seq<Move<S>>, id :: WellRead(moves) ==> Count(Moves(n, moves).audit, id, Reversed) <= 1
  }

  /** An effect gets at most one `reversed` row in every run exactly when undos do not overlap. */
  lemma NeverTwiceIff<S(!new)>(n: nat, world: S)
    ensures NeverTwice<S>(n) <==> n <= 1
  {
    if n <= 1 {
      forall moves: seq<Move<S>>, id | WellRead(moves) ensures Count(Moves(n, moves).audit, id, Reversed) <= 1 {
        ReversalsBounded(n, moves, id);
      }
    } else {
      OverlapReversesTwice(n, 0, world);
      assert WellRead(Overlap(Simple(0, world)));
    }
  }
}
