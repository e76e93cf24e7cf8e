/** How many copies of a job the Redis transport holds, over every run: what adds one, and that one is left. */
module RedisCopies {
  import opened Common
  import opened Jobs
  import opened RedisQueue
  import opened RedisBounds

  /** Whether the worker holds a copy that is nowhere else; a lease `fail` has only read is still in the hash. */
  function Held(h: Hand, id: JobId): nat {
    match h
    case Popped(p) => if p.jobId == id then 1 else 0
    case FailTaken(jobId, found) => if jobId == id && found.Some? then 1 else 0
    case Recovering(p, _, _, _) => if p.jobId == id then 1 else 0
    case _ => 0
  }

  function HeldOf(id: JobId): Hand -> nat { h => Held(h, id) }

  function StoredCopies(r: Store, id: JobId): nat {
    Queued(r, id) + (if id in r.inflight then 1 else 0) + Saved(r.dead, id)
  }

  /** Copies with their payload: queued, delayed, in flight, in a dead letter or in a worker's hand. */
  function AllCopies(s: State, id: JobId): nat { StoredCopies(s.store, id) + Sum(s.hands, HeldOf(id)) }

  lemma {:induction false} SavedAfterRemove(dead: seq<DeadLetter>, letter: DeadLetter, id: JobId)
    ensures Saved(RemoveFirst(dead, letter), id) ==
              Saved(dead, id) - (if letter in dead && letter.jobId == id && letter.payload.Some? then 1 else 0)
  {
    if dead != [] && dead[0] != letter { SavedAfterRemove(dead[1..], letter, id); }
  }

  lemma {:induction false} SavedMeansLetter(dead: seq<DeadLetter>, id: JobId)
    requires Saved(dead, id) > 0
    ensures id in LetterIds(dead)
  {
    if dead[0].jobId == id {
      LetterIn(dead, 0);
    } else {
      SavedMeansLetter(dead[1..], id);
      var i :| 0 <= i < |dead[1..]| && dead[1..][i].jobId == id;
      LetterIn(dead, i + 1);
    }
  }

  /** A delete of `fail` that comes too late, or a call sent again that Redis had executed. */
  predicate AddsCopy(r: Store, h: Hand, call: Call, id: JobId) {
    (DeletesBlindly(r, h, call) && h.jobId == id) || Doubles(r, h, call, id)
  }

  /** Copies in the store and in the worker's hand grow exactly by the calls that add one, and by one. */
  ghost predicate Accounted(r: Store, hand: Hand, call: Call, id: JobId) {
    var before, after := StoredCopies(r, id) + Held(hand, id),
                         StoredCopies(StoreAfter(r, hand, call), id) + Held(HandAfter(r, hand, call), id);
    (after > before <==> AddsCopy(r, hand, call, id)) && after <= before + 1
  }

  lemma PushAccounted(r: Store, hand: Hand, call: Call, id: JobId)
    requires call.Repush?
    ensures Accounted(r, hand, call, id)
  {
    if hand.Recovering? || hand.Repushed? { CopiesAppend(r.main, [hand.payload], id); }
  }

  lemma RemovalAccounted(r: Store, hand: Hand, call: Call, id: JobId)
    requires call.RemoveLetter?
    ensures Accounted(r, hand, call, id)
  {
    if hand.LetterRead? {
      SavedAfterRemove(r.dead, hand.letter, id);
      assert StoredCopies(StoreAfter(r, hand, call), id) <= StoredCopies(r, id);
    }
  }

  lemma LetterAccounted(r: Store, hand: Hand, call: Call, id: JobId)
    requires call.FailPush?
    ensures Accounted(r, hand, call, id)
  {
  }

  lemma LeaseAccounted(r: Store, hand: Hand, call: Call, id: JobId)
    requires KeyedHand(hand) && (call.Record? || call.FailDelete? || call.ScanNext?)
    ensures Accounted(r, hand, call, id)
  {
  }

  lemma RestAccounted(r: Store, hand: Hand, call: Call, id: JobId)
    requires call.Pop? || call.FailGet? || call.Scan? || call.ReadLetter? || call.Crash? || call.CallFails?
    ensures Accounted(r, hand, call, id)
  {
  }

  lemma CallAccounted(r: Store, hand: Hand, call: Call, id: JobId)
    requires KeyedHand(hand)
    ensures Accounted(r, hand, call, id)
  {
    if call.Repush? {
      PushAccounted(r, hand, call, id);
    } else if call.RemoveLetter? {
      RemovalAccounted(r, hand, call, id);
    } else if call.FailPush? {
      LetterAccounted(r, hand, call, id);
    } else if call.Record? || call.FailDelete? || call.ScanNext? {
      LeaseAccounted(r, hand, call, id);
    } else {
      RestAccounted(r, hand, call, id);
    }
  }

  lemma CopiesAfterCommand(cap: nat, r: Store, h: History, c: Command, id: JobId)
    ensures StoredCopies(Execute(cap, r, c), id) + h.accepted[id] <= StoredCopies(r, id) + ObserveCommand(cap, r, h, c).accepted[id]
  {
    QueuedAfterCommand(cap, r, h, c, id);
  }

  /**
   A worker's call adds a copy of a job exactly when it is the HDEL of a `fail` that read the
   lease and finds it gone, or a call sent again: a push of stale recovery, a dead letter with
   payload, or a lease that was taken away meanwhile.  A client's call adds one only by
   accepting the job.
   */
  lemma CopiedExactly(cap: nat, s: State, step: Step, id: JobId)
    requires Keyed(s) && step.By? && step.w < |s.hands|
    ensures AllCopies(Apply(cap, s, step), id) > AllCopies(s, id) <==>
            AddsCopy(s.store, s.hands[step.w], step.call, id)
    ensures AllCopies(Apply(cap, s, step), id) <= AllCopies(s, id) + 1
  {
    var hand := s.hands[step.w];
    CallAccounted(s.store, hand, step.call, id);
    SumUpdate(s.hands, step.w, HandAfter(s.store, hand, step.call), HeldOf(id));
  }

  /** Everything that ever added a copy of the job. */
  function Causes(h: History, id: JobId): nat { h.accepted[id] + h.blind[id] + h.doubled[id] }

  lemma CopiesStep(cap: nat, y: System, step: Step, id: JobId)
    requires Keyed(y.s)
    ensures var t := Next(cap, y, step);
            AllCopies(t.s, id) + Causes(y.h, id) <= AllCopies(y.s, id) + Causes(t.h, id)
  {
    match step
    case Client(c) => CopiesAfterCommand(cap, y.s.store, y.h, c, id);
    case By(w, call) =>
      if w < |y.s.hands| {
        CopiedExactly(cap, y.s, step, id);
        AddedCounted(y.s.store, y.s.hands[w], y.h, call, id);
      }
  }

  lemma AddedCounted(r: Store, hand: Hand, h: History, call: Call, id: JobId)
    ensures Causes(ObserveCall(r, hand, h, call), id) == Causes(h, id) + if AddsCopy(r, hand, call, id) then 1 else 0
  {
    if call.Repush? {
      PushCounted(r, hand, h, call, id);
    } else if call.FailDelete? || call.FailPush? || call.Record? {
      OthersCounted(r, hand, h, call, id);
    }
  }

  lemma OthersCounted(r: Store, hand: Hand, h: History, call: Call, id: JobId)
    requires call.FailDelete? || call.FailPush? || call.Record?
    ensures Causes(ObserveCall(r, hand, h, call), id) == Causes(h, id) + if AddsCopy(r, hand, call, id) then 1 else 0
  {
  }

  lemma PushCounted(r: Store, hand: Hand, h: History, call: Call, id: JobId)
    requires call.Repush?
    ensures Causes(ObserveCall(r, hand, h, call), id) == Causes(h, id) + if AddsCopy(r, hand, call, id) then 1 else 0
  {
  }

  /** In every run there are at most as many copies of a job as acceptances, blind deletes and doubling resends of it. */
  lemma {:induction false} CopiesBounded(cap: nat, n: nat, steps: seq<Step>, id: JobId)
    ensures var y := Run(cap, Fresh(n), steps); AllCopies(y.s, id) <= Causes(y.h, id)
    decreases |steps|
  {
    if steps == [] {
      SumZero(Fresh(n).s.hands, HeldOf(id));
    } else {
      var k := |steps| - 1;
      CopiesBounded(cap, n, steps[..k], id);
      RunKeyed(cap, n, steps[..k]);
      CopiesStep(cap, Run(cap, Fresh(n), steps[..k]), steps[k], id);
    }
  }

  // ------------------------------------------------------------------ and that there is at least one

  /** The step destroys a copy: a crash or failed call while holding it, or a `fail` that deletes a lease it did not read. */
  ghost predicate Destroys(s: State, step: Step, id: JobId) {
    Drops(s, step, id) ||
    (step.By? && step.w < |s.hands| && DeletesUnread(s.store, s.hands[step.w], step.call) && s.hands[step.w].jobId == id)
  }

  lemma CopyKeptByCall(r: Store, hand: Hand, h: History, call: Call, id: JobId)
    requires KeyedHand(hand) && StoredCopies(r, id) + Held(hand, id) > 0
    requires !(DeletesUnread(r, hand, call) && hand.jobId == id)
    requires (call.Crash? || call.CallFails?) ==> Held(hand, id) == 0
    ensures || StoredCopies(StoreAfter(r, hand, call), id) + Held(HandAfter(r, hand, call), id) > 0
            || id !in ObserveCall(r, hand, h, call).live
  {
    if call.RemoveLetter? {
      CopyKeptByRemoval(r, hand, h, call, id);
    } else {
      CopyKeptElsewhere(r, hand, call, id);
    }
  }

  lemma CopyKeptByRemoval(r: Store, hand: Hand, h: History, call: Call, id: JobId)
    requires StoredCopies(r, id) + Held(hand, id) > 0 && call.RemoveLetter?
    ensures || StoredCopies(StoreAfter(r, hand, call), id) + Held(HandAfter(r, hand, call), id) > 0
            || id !in ObserveCall(r, hand, h, call).live
  {
    if hand.LetterRead? && !(hand.letter in r.dead && hand.letter.jobId == id) {
      SavedAfterRemove(r.dead, hand.letter, id);
    }
  }

  lemma CopyKeptElsewhere(r: Store, hand: Hand, call: Call, id: JobId)
    requires KeyedHand(hand) && StoredCopies(r, id) + Held(hand, id) > 0
    requires !(DeletesUnread(r, hand, call) && hand.jobId == id) && !call.RemoveLetter?
    requires (call.Crash? || call.CallFails?) ==> Held(hand, id) == 0
    ensures StoredCopies(StoreAfter(r, hand, call), id) + Held(HandAfter(r, hand, call), id) > 0
  {
    if call.Repush? && (hand.Recovering? || hand.Repushed?) { CopiesAppend(r.main, [hand.payload], id); }
  }

  lemma CopyKeptByCommand(cap: nat, r: Store, h: History, c: Command, id: JobId)
    requires StoredCopies(r, id) > 0
    ensures StoredCopies(Execute(cap, r, c), id) > 0 || id !in ObserveCommand(cap, r, h, c).live
  {
    match c
    case Enqueue(p) => CopiesAppend(r.main, [p], id);
    case EnqueueDelayed(p, at) =>
      assert Waiting(r.delayed, id) <= Waiting(r.delayed[p := at], id);
      if |Waiting(r.delayed, id)| > 0 {
        var q :| q in Waiting(r.delayed, id);
        assert q in Waiting(r.delayed[p := at], id);
      }
    case Promote(now, ready) => if IsReadyBatch(r.delayed, now, ready) { PromotionKeepsQueued(r, now, ready, id); }
    case DrainLetters => if Saved(r.dead, id) > 0 { SavedMeansLetter(r.dead, id); }
    case _ =>
  }

  lemma CopyKept(cap: nat, s: State, h: History, step: Step, id: JobId)
    requires Keyed(s) && AllCopies(s, id) > 0 && !Destroys(s, step, id)
    ensures AllCopies(Apply(cap, s, step), id) > 0 || id !in Observe(cap, s, h, step).live
  {
    match step
    case Client(c) => if StoredCopies(s.store, id) > 0 { CopyKeptByCommand(cap, s.store, h, c, id); }
    case By(w, call) =>
      if w < |s.hands| {
        var hand := s.hands[w];
        SumUpdate(s.hands, w, HandAfter(s.store, hand, call), HeldOf(id));
        SumHas(s.hands, w, HeldOf(id));
        if StoredCopies(s.store, id) + Held(hand, id) > 0 { CopyKeptByCall(s.store, hand, h, call, id); }
      }
  }

  lemma AcceptedHasCopy(cap: nat, s: State, h: History, step: Step, id: JobId)
    requires Observe(cap, s, h, step).accepted[id] != h.accepted[id]
    ensures AllCopies(Apply(cap, s, step), id) > 0
  {
    var c := step.command;
    if c.Enqueue? {
      CopiesAppend(s.store.main, [c.payload], id);
    } else {
      assert c.payload in Waiting(Execute(cap, s.store, c).delayed, id);
    }
  }

  ghost predicate NeverDestroyed(cap: nat, y: System, steps: seq<Step>, id: JobId) {
    forall i :: 0 <= i < |steps| ==> !Destroys(Run(cap, y, steps[..i]).s, steps[i], id)
  }

  lemma NeverDestroyedFront(cap: nat, y: System, steps: seq<Step>, id: JobId)
    requires steps != [] && NeverDestroyed(cap, y, steps, id)
    ensures NeverDestroyed(cap, y, steps[..|steps| - 1], id)
    ensures !Destroys(Run(cap, y, steps[..|steps| - 1]).s, steps[|steps| - 1], id)
  {
    var front := steps[..|steps| - 1];
    forall i | 0 <= i < |front| ensures !Destroys(Run(cap, y, front[..i]).s, front[i], id) {
      assert front[..i] == steps[..i] && front[i] == steps[i];
    }
  }

  lemma CopyStep(cap: nat, s: State, h: History, step: Step, id: JobId)
    requires Keyed(s) && id in Observe(cap, s, h, step).live && !Destroys(s, step, id)
    requires id in h.live ==> AllCopies(s, id) > 0
    ensures AllCopies(Apply(cap, s, step), id) > 0
  {
    if Observe(cap, s, h, step).accepted[id] != h.accepted[id] {
      AcceptedHasCopy(cap, s, h, step, id);
    } else {
      CopyKept(cap, s, h, step, id);
    }
  }

  /** While nothing destroys a copy of a live job, at least one copy with its payload is left. */
  lemma {:induction false} CopyLeft(cap: nat, n: nat, steps: seq<Step>, id: JobId)
    requires id in Run(cap, Fresh(n), steps).h.live && NeverDestroyed(cap, Fresh(n), steps, id)
    ensures AllCopies(Run(cap, Fresh(n), steps).s, id) > 0
    decreases |steps|
  {
    if steps != [] {
      var k := |steps| - 1;
      var front, step := steps[..k], steps[k];
      var y := Run(cap, Fresh(n), front);
      RunKeyed(cap, n, front);
      NeverDestroyedFront(cap, Fresh(n), steps, id);
      if id in y.h.live { CopyLeft(cap, n, front, id); }
      CopyStep(cap, y.s, y.h, step, id);
    }
  }

  /**
   A live job accepted once is in exactly one place, with its payload, while no copy is
   destroyed, no delete is blind and no call sent again doubles it.
   */
  lemma ExactlyOneCopy(cap: nat, n: nat, steps: seq<Step>, id: JobId)
    requires var h := Run(cap, Fresh(n), steps).h; id in h.live && h.accepted[id] == 1 && h.blind[id] == 0 && h.doubled[id] == 0
    requires NeverDestroyed(cap, Fresh(n), steps, id)
    ensures AllCopies(Run(cap, Fresh(n), steps).s, id) == 1
  {
    CopiesBounded(cap, n, steps, id);
    CopyLeft(cap, n, steps, id);
  }
}
