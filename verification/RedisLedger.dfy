/** The books of the Redis transport: every copy of a job that ever came in is still there or left in a way that is named. */
module RedisLedger {
  import opened Common
  import opened Jobs
  import opened RedisQueue
  import opened RedisBounds
  import opened RedisCopies

  /** How copies of one job left: acked in flight, taken out with a dead letter, or destroyed. */
  datatype Exits = Exits(acked: nat, cleared: nat, wasted: nat)

  function Total(e: Exits): nat { e.acked + e.cleared + e.wasted }

  /**
   The call destroys a copy: a crash or failed call while holding it, a lease that replaces
   another of the same job, or an HDEL that removes a lease its caller does not hold.
   */
  function Wasted(r: Store, hand: Hand, call: Call, id: JobId): nat {
    match call
    case Record(_, _) => if hand.Popped? && hand.payload.jobId == id && id in r.inflight then 1 else 0
    case FailDelete =>
      if ((hand.FailRead? && hand.found.None?) || hand.FailTaken?) && hand.jobId == id && id in r.inflight then 1 else 0
    case ScanNext => if ReclaimsAgain(r, hand) && hand.payload.jobId == id then 1 else 0
    case Crash => Held(hand, id)
    case CallFails => Held(hand, id)
    case _ => 0
  }

  /** The call takes a dead letter with its payload out. */
  function Cleared(r: Store, hand: Hand, call: Call, id: JobId): nat {
    if call.RemoveLetter? && hand.LetterRead? && hand.letter in r.dead && hand.letter.payload.Some? && hand.letter.jobId == id
    then 1 else 0
  }

  ghost function ExitsByCommand(cap: nat, r: Store, e: Exits, c: Command, id: JobId): Exits {
    match c
    case Ack(acked) => if acked == id && id in r.inflight then e.(acked := e.acked + 1) else e
    case DrainLetters => e.(cleared := e.cleared + Saved(r.dead, id))
    // a payload delayed again is one member of the set all the same
    case EnqueueDelayed(p, _) => if Depth(r) < cap && p.jobId == id && p in r.delayed then e.(wasted := e.wasted + 1) else e
    case _ => e
  }

  function ExitsByCall(r: Store, hand: Hand, e: Exits, call: Call, id: JobId): Exits {
    e.(cleared := e.cleared + Cleared(r, hand, call, id), wasted := e.wasted + Wasted(r, hand, call, id))
  }

  ghost function ExitsAfter(cap: nat, s: State, e: Exits, step: Step, id: JobId): Exits {
    match step
    case Client(c) => ExitsByCommand(cap, s.store, e, c, id)
    case By(w, call) => if w < |s.hands| then ExitsByCall(s.store, s.hands[w], e, call, id) else e
  }

  // ------------------------------------------------------------------ one step

  /** Copies before and those the call adds are the copies after and those it takes away. */
  ghost predicate Balanced(r: Store, hand: Hand, call: Call, id: JobId) {
    StoredCopies(StoreAfter(r, hand, call), id) + Held(HandAfter(r, hand, call), id)
      + Cleared(r, hand, call, id) + Wasted(r, hand, call, id) ==
    StoredCopies(r, id) + Held(hand, id) + if AddsCopy(r, hand, call, id) then 1 else 0
  }

  lemma PushBalanced(r: Store, hand: Hand, call: Call, id: JobId)
    requires call.Repush?
    ensures Balanced(r, hand, call, id)
  {
    if hand.Recovering? || hand.Repushed? { CopiesAppend(r.main, [hand.payload], id); }
  }

  lemma RemovalBalanced(r: Store, hand: Hand, call: Call, id: JobId)
    requires call.RemoveLetter?
    ensures Balanced(r, hand, call, id)
  {
    if hand.LetterRead? { SavedAfterRemove(r.dead, hand.letter, id); }
  }

  lemma LeaseBalanced(r: Store, hand: Hand, call: Call, id: JobId)
    requires KeyedHand(hand) && (call.Record? || call.FailDelete? || call.ScanNext?)
    ensures Balanced(r, hand, call, id)
  {
  }

  lemma LetterBalanced(r: Store, hand: Hand, call: Call, id: JobId)
    requires call.FailPush?
    ensures Balanced(r, hand, call, id)
  {
  }

  lemma RestBalanced(r: Store, hand: Hand, call: Call, id: JobId)
    requires call.Pop? || call.FailGet? || call.Scan? || call.ReadLetter? || call.Crash? || call.CallFails?
    ensures Balanced(r, hand, call, id)
  {
  }

  lemma CallBalanced(r: Store, hand: Hand, call: Call, id: JobId)
    requires KeyedHand(hand)
    ensures Balanced(r, hand, call, id)
  {
    if call.Repush? {
      PushBalanced(r, hand, call, id);
    } else if call.RemoveLetter? {
      RemovalBalanced(r, hand, call, id);
    } else if call.FailPush? {
      LetterBalanced(r, hand, call, id);
    } else if call.Record? || call.FailDelete? || call.ScanNext? {
      LeaseBalanced(r, hand, call, id);
    } else {
      RestBalanced(r, hand, call, id);
    }
  }

  lemma DelayBalanced(r: Store, p: Payload, at: int, id: JobId)
    ensures Queued(r.(delayed := r.delayed[p := at]), id) == Queued(r, id) + if p.jobId == id && p !in r.delayed then 1 else 0
  {
    if p.jobId == id && p !in r.delayed {
      assert Waiting(r.delayed[p := at], id) == Waiting(r.delayed, id) + {p};
    } else {
      assert Waiting(r.delayed[p := at], id) == Waiting(r.delayed, id);
    }
  }

  lemma EnqueueBalanced(cap: nat, r: Store, h: History, p: Payload, id: JobId)
    ensures StoredCopies(Execute(cap, r, Enqueue(p)), id) + h.accepted[id] ==
            StoredCopies(r, id) + ObserveCommand(cap, r, h, Enqueue(p)).accepted[id]
  {
    CopiesAppend(r.main, [p], id);
  }

  lemma EnqueueDelayedBalanced(cap: nat, r: Store, h: History, e: Exits, p: Payload, at: int, id: JobId)
    ensures StoredCopies(Execute(cap, r, EnqueueDelayed(p, at)), id) + h.accepted[id] +
              Total(ExitsByCommand(cap, r, e, EnqueueDelayed(p, at), id)) ==
            StoredCopies(r, id) + Total(e) + ObserveCommand(cap, r, h, EnqueueDelayed(p, at)).accepted[id]
  {
    DelayBalanced(r, p, at, id);
  }

  lemma CommandBalanced(cap: nat, r: Store, h: History, e: Exits, c: Command, id: JobId)
    ensures StoredCopies(Execute(cap, r, c), id) + Total(ExitsByCommand(cap, r, e, c, id)) + h.accepted[id] ==
            StoredCopies(r, id) + Total(e) + ObserveCommand(cap, r, h, c).accepted[id]
  {
    match c
    case Enqueue(p) => EnqueueBalanced(cap, r, h, p, id);
    case EnqueueDelayed(p, at) => EnqueueDelayedBalanced(cap, r, h, e, p, at, id);
    case Promote(now, ready) => PromotionBalanced(cap, r, now, ready, id);
    case _ =>
  }

  lemma PromotionBalanced(cap: nat, r: Store, now: int, ready: seq<Payload>, id: JobId)
    ensures StoredCopies(Execute(cap, r, Promote(now, ready)), id) == StoredCopies(r, id)
  {
    if IsReadyBatch(r.delayed, now, ready) { PromotionKeepsQueued(r, now, ready, id); }
  }

  lemma CommandCauses(cap: nat, r: Store, h: History, c: Command)
    ensures ObserveCommand(cap, r, h, c).blind == h.blind && ObserveCommand(cap, r, h, c).doubled == h.doubled
  {
  }

  /** The copies that are there and those that left are together those that came in. */
  ghost predicate Booked(y: System, e: Exits, id: JobId) { AllCopies(y.s, id) + Total(e) == Causes(y.h, id) }

  lemma StepBooked(cap: nat, y: System, e: Exits, step: Step, id: JobId)
    requires Keyed(y.s) && Booked(y, e, id)
    ensures Booked(Next(cap, y, step), ExitsAfter(cap, y.s, e, step, id), id)
  {
    match step
    case Client(c) =>
      CommandBalanced(cap, y.s.store, y.h, e, c, id);
      CommandCauses(cap, y.s.store, y.h, c);
    case By(w, call) =>
      if w < |y.s.hands| {
        var hand := y.s.hands[w];
        CallBalanced(y.s.store, hand, call, id);
        AddedCounted(y.s.store, hand, y.h, call, id);
        SumUpdate(y.s.hands, w, HandAfter(y.s.store, hand, call), HeldOf(id));
      }
  }

  // ------------------------------------------------------------------ every run

  /** The transport and the books of one job, after any steps of n workers. */
  datatype Ledger = Ledger(y: System, e: Exits)

  ghost function Post(cap: nat, l: Ledger, step: Step, id: JobId): Ledger {
    Ledger(Next(cap, l.y, step), ExitsAfter(cap, l.y.s, l.e, step, id))
  }

  ghost function Books(cap: nat, n: nat, steps: seq<Step>, id: JobId): Ledger
    decreases |steps|
  {
    if steps == [] then Ledger(Fresh(n), Exits(0, 0, 0))
    else Post(cap, Books(cap, n, steps[..|steps| - 1], id), steps[|steps| - 1], id)
  }

  lemma BooksSnoc(cap: nat, n: nat, front: seq<Step>, step: Step, id: JobId)
    ensures Books(cap, n, front + [step], id) == Post(cap, Books(cap, n, front, id), step, id)
  {
    assert (front + [step])[..|front|] == front;
  }

  lemma {:induction false} BooksFollowRun(cap: nat, n: nat, steps: seq<Step>, id: JobId)
    ensures Books(cap, n, steps, id).y == Run(cap, Fresh(n), steps)
    decreases |steps|
  {
    if steps != [] { BooksFollowRun(cap, n, steps[..|steps| - 1], id); }
  }

  lemma NothingBooked(n: nat, id: JobId)
    ensures Booked(Fresh(n), Exits(0, 0, 0), id)
  {
    SumZero(Fresh(n).s.hands, HeldOf(id));
  }

  ghost predicate Balance(l: Ledger, id: JobId) { Keyed(l.y.s) && Booked(l.y, l.e, id) }

  lemma PostBalances(cap: nat, l: Ledger, step: Step, id: JobId)
    requires Balance(l, id)
    ensures Balance(Post(cap, l, step, id), id)
  {
    KeyedKept(cap, l.y.s, step);
    StepBooked(cap, l.y, l.e, step, id);
  }

  lemma {:induction false} BooksBalance(cap: nat, n: nat, steps: seq<Step>, id: JobId)
    ensures Balance(Books(cap, n, steps, id), id)
    decreases |steps|
  {
    if steps == [] {
      NothingBooked(n, id);
    } else {
      var front, step := steps[..|steps| - 1], steps[|steps| - 1];
      BooksBalance(cap, n, front, id);
      PostBalances(cap, Books(cap, n, front, id), step, id);
    }
  }

  /**
   Conservation: in every run the copies of a job that are there and those that left, acked,
   cleared or wasted, are together its acceptances, blind deletes and doubling resends.
   */
  lemma CopiesConserved(cap: nat, n: nat, steps: seq<Step>, id: JobId)
    ensures var y := Run(cap, Fresh(n), steps); AllCopies(y.s, id) + Total(Books(cap, n, steps, id).e) == Causes(y.h, id)
  {
    BooksBalance(cap, n, steps, id);
    BooksFollowRun(cap, n, steps, id);
  }

  // ------------------------------------------------------------------ what left stays away

  lemma DeliveryNeedsCopy(cap: nat, y: System, step: Step, id: JobId)
    requires AllCopies(y.s, id) == 0
    ensures Next(cap, y, step).h.delivered[id] == y.h.delivered[id]
  {
  }

  lemma CausesGrow(cap: nat, y: System, step: Step, id: JobId)
    ensures Causes(y.h, id) <= Causes(Next(cap, y, step).h, id)
  {
    if step.By? && step.w < |y.s.hands| {
      AddedCounted(y.s.store, y.s.hands[step.w], y.h, step.call, id);
    } else if step.Client? {
      CommandCauses(cap, y.s.store, y.h, step.command);
    }
  }

  lemma ExitsGrow(cap: nat, s: State, e: Exits, step: Step, id: JobId)
    ensures Total(e) <= Total(ExitsAfter(cap, s, e, step, id)) && e.acked <= ExitsAfter(cap, s, e, step, id).acked
  {
  }

  /** From `l` on nothing has come in and nothing more was delivered. */
  ghost predicate NothingSince(l: Ledger, k: Ledger, id: JobId) {
    && Causes(l.y.h, id) <= Causes(k.y.h, id) && Total(l.e) <= Total(k.e) && Balance(k, id)
    && (Causes(k.y.h, id) == Total(l.e) ==> AllCopies(k.y.s, id) == 0 && k.y.h.delivered[id] == l.y.h.delivered[id])
  }

  lemma PostNothingSince(cap: nat, l: Ledger, k: Ledger, step: Step, id: JobId)
    requires NothingSince(l, k, id)
    ensures NothingSince(l, Post(cap, k, step, id), id)
  {
    PostBalances(cap, k, step, id);
    CausesGrow(cap, k.y, step, id);
    ExitsGrow(cap, k.y.s, k.e, step, id);
    if AllCopies(k.y.s, id) == 0 { DeliveryNeedsCopy(cap, k.y, step, id); }
  }

  lemma {:induction false} NothingSinceThen(cap: nat, n: nat, steps: seq<Step>, more: seq<Step>, id: JobId)
    ensures NothingSince(Books(cap, n, steps, id), Books(cap, n, steps + more, id), id)
    decreases |more|
  {
    if more == [] {
      assert steps + more == steps;
      BooksBalance(cap, n, steps, id);
    } else {
      var front, step := more[..|more| - 1], more[|more| - 1];
      assert steps + more == (steps + front) + [step];
      NothingSinceThen(cap, n, steps, front, id);
      BooksSnoc(cap, n, steps + front, step, id);
      PostNothingSince(cap, Books(cap, n, steps, id), Books(cap, n, steps + front, id), step, id);
    }
  }

  /**
   What has left stays away: once as many copies of a job have left as ever came in, none is
   there and it is not delivered again, whatever is called, until it is accepted again or a
   blind delete or a doubling resend brings a copy back.
   */
  lemma GoneForGood(cap: nat, n: nat, steps: seq<Step>, more: seq<Step>, id: JobId)
    requires Causes(Run(cap, Fresh(n), steps + more).h, id) == Total(Books(cap, n, steps, id).e)
    ensures AllCopies(Run(cap, Fresh(n), steps + more).s, id) == 0
    ensures Run(cap, Fresh(n), steps + more).h.delivered[id] == Run(cap, Fresh(n), steps).h.delivered[id]
  {
    NothingSinceThen(cap, n, steps, more, id);
    BooksFollowRun(cap, n, steps, id);
    BooksFollowRun(cap, n, steps + more, id);
  }

  /** An acked job is done: accepted once and acked in flight, it has no copy left and is not delivered again. */
  lemma AckedIsDone(cap: nat, n: nat, steps: seq<Step>, more: seq<Step>, id: JobId)
    requires Books(cap, n, steps, id).e.acked > 0
    requires var h := Run(cap, Fresh(n), steps + more).h; h.accepted[id] == 1 && h.blind[id] == 0 && h.doubled[id] == 0
    ensures AllCopies(Run(cap, Fresh(n), steps + more).s, id) == 0
    ensures Run(cap, Fresh(n), steps + more).h.delivered[id] == Run(cap, Fresh(n), steps).h.delivered[id]
  {
    CopiesConserved(cap, n, steps, id);
    NothingSinceThen(cap, n, steps, more, id);
    BooksFollowRun(cap, n, steps, id);
    BooksFollowRun(cap, n, steps + more, id);
    GoneForGood(cap, n, steps, more, id);
  }

  /** An ack takes its own lease and nothing else. */
  lemma AckTakesOneLease(cap: nat, r: Store, id: JobId, other: JobId)
    ensures var t := Execute(cap, r, Ack(id));
            && id !in t.inflight && t.main == r.main && t.delayed == r.delayed && t.dead == r.dead
            && (other != id ==> (other in t.inflight <==> other in r.inflight))
            && (other != id && other in r.inflight ==> t.inflight[other] == r.inflight[other])
  {
  }
}
