/**
 The Redis transport of AINDY/core/distributed_queue.py as a step machine.

 One step is one atomic Redis call: a Lua script, BRPOP, HSET, HGET, HDEL, LPUSH, HGETALL,
 LRANGE, LREM or DEL.  What a worker holds between two calls of one backend method is its
 `Hand`.  A call a worker is not ready for leaves everything alone, so a run is any sequence
 of steps whatever, by any number of workers, in any interleaving.

 The main list is written in pop order: element 0 is the next one BRPOP takes and LPUSH
 appends.

 A call that Redis executed but whose reply was lost is sent again.  HSET, LPUSH and LREM say
 whether they were answered; the same call from the hand that an unanswered one leaves is the
 one sent again.  An HDEL sent again is `FailDelete`
 by a worker that has taken the lease, or `ScanNext` by one that is recovering it; when it
 removes nothing, stale recovery gives the entry up as in `CallFails`.  A BRPOP is `Pop`,
 `CallFails`, `Pop`: what the first one took is gone.  A script is the command twice.
 */
module RedisQueue {
  import opened Common
  import opened Jobs

  datatype Entry = Entry(payload: Payload, dequeuedAt: int)
  datatype Lease = Lease(jobId: JobId, entry: Entry)

  datatype Store = Store(
    main: seq<Payload>,
    delayed: map<Payload, int>,
    inflight: map<JobId, Entry>,
    dead: seq<DeadLetter>)

  datatype Hand =
    | Idle
    | Popped(payload: Payload)                          // BRPOP answered, HSET not sent
    | FailRead(jobId: JobId, found: Option<Entry>)      // fail: HGET answered, HDEL not sent
    | FailTaken(jobId: JobId, found: Option<Entry>)     // fail: HDEL answered, LPUSH not sent
    | Scanning(now: int, timeout: int, todo: seq<Lease>)                        // HGETALL answered
    | Recovering(payload: Payload, now: int, timeout: int, todo: seq<Lease>)    // HDEL said 1, LPUSH not sent
    | LetterRead(letter: DeadLetter)                    // remove_dead_letter: LRANGE answered
    // executed by Redis but not answered, so that the worker sends it again or gives up
    | Filed(entry: Entry)                               // HSET of dequeue
    | Lettered(letter: DeadLetter)                      // LPUSH of fail
    | Repushed(payload: Payload, now: int, timeout: int, todo: seq<Lease>)      // LPUSH of requeue_stale_jobs

  /** Backend methods that are one Redis call. */
  datatype Command =
    | Enqueue(payload: Payload)
    | EnqueueDelayed(payload: Payload, executeAt: int)
    | Promote(now: int, ready: seq<Payload>)
    | Ack(jobId: JobId)
    | DrainLetters

  /** The calls of dequeue, fail, requeue_stale_jobs and remove_dead_letter, and the ways they break off. */
  datatype Call =
    | Pop
    | Record(at: int, answered: bool)
    | FailGet(jobId: JobId)
    | FailDelete
    | FailPush(error: string, at: int, answered: bool)
    | Scan(now: int, timeout: int, order: seq<JobId>)
    | ScanNext
    | Repush(answered: bool)
    | ReadLetter(jobId: JobId)
    | RemoveLetter(answered: bool)
    | Crash
    | CallFails

  datatype Step = Client(command: Command) | By(w: nat, call: Call)

  datatype State = State(store: Store, hands: seq<Hand>)

  // ------------------------------------------------------------------ single calls

  const PROMOTE_LIMIT: nat := 100

  function Depth(r: Store): nat { |r.main| + |r.delayed| }

  /** ZRANGEBYSCORE -inf now LIMIT 0 100: due members, lowest score first, as many as fit. */
  ghost predicate IsReadyBatch(delayed: map<Payload, int>, now: int, ready: seq<Payload>) {
    && |ready| <= PROMOTE_LIMIT
    && (forall i :: 0 <= i < |ready| ==> ready[i] in delayed && delayed[ready[i]] <= now)
    && (forall i, j :: 0 <= i < j < |ready| ==> ready[i] != ready[j] && delayed[ready[i]] <= delayed[ready[j]])
    && (forall p :: p in delayed && delayed[p] <= now && p !in ready ==>
          |ready| == PROMOTE_LIMIT && forall i :: 0 <= i < |ready| ==> delayed[ready[i]] <= delayed[p])
  }

  function Members(ps: seq<Payload>): set<Payload> { set p | p in ps }

  ghost function Execute(cap: nat, r: Store, c: Command): (t: Store) {
    match c
    case Enqueue(p) =>
      if Depth(r) >= cap then r else r.(main := r.main + [p])
    case EnqueueDelayed(p, at) =>
      if Depth(r) >= cap then r else r.(delayed := r.delayed[p := at])
    case Promote(now, ready) =>
      if IsReadyBatch(r.delayed, now, ready)
      then r.(main := r.main + ready, delayed := r.delayed - Members(ready))
      else r
    case Ack(id) => r.(inflight := r.inflight - {id})
    case DrainLetters => r.(dead := [])
  }

  /** The fields HGETALL lists: every lease once, in any order. */
  ghost predicate IsScanOrder(inflight: map<JobId, Entry>, order: seq<JobId>) {
    && (forall i :: 0 <= i < |order| ==> order[i] in inflight)
    && (forall i, j :: 0 <= i < j < |order| ==> order[i] != order[j])
    && (forall id :: id in inflight ==> id in order)
  }

  function Leases(inflight: map<JobId, Entry>, order: seq<JobId>): (r: seq<Lease>)
    requires forall i :: 0 <= i < |order| ==> order[i] in inflight
  {
    seq(|order|, i requires 0 <= i < |order| => Lease(order[i], inflight[order[i]]))
  }

  function FirstLetter(dead: seq<DeadLetter>, jobId: JobId): (r: Option<DeadLetter>)
    ensures r.Some? <==> exists i :: 0 <= i < |dead| && dead[i].jobId == jobId
    ensures r.Some? ==> r.value in dead && r.value.jobId == jobId
  {
    if dead == [] then None
    else if dead[0].jobId == jobId then Some(dead[0])
    else FirstLetter(dead[1..], jobId)
  }

  /** LREM key 1 value. */
  function RemoveFirst(dead: seq<DeadLetter>, letter: DeadLetter): seq<DeadLetter> {
    if dead == [] then []
    else if dead[0] == letter then dead[1..]
    else [dead[0]] + RemoveFirst(dead[1..], letter)
  }

  /** `age <= timeout: continue`; otherwise HDEL, and only an HDEL that removed the lease recovers it. */
  predicate Reclaims(r: Store, h: Hand) {
    && h.Scanning? && h.todo != []
    && h.now - h.todo[0].entry.dequeuedAt > h.timeout
    && h.todo[0].jobId in r.inflight
  }

  /** HGET answered a lease and HDEL, whose reply `fail` does not look at, removes none. */
  predicate DeletesBlindly(r: Store, h: Hand, call: Call) {
    call.FailDelete? && h.FailRead? && h.found.Some? && h.jobId !in r.inflight
  }

  /** HGET answered no lease and HDEL removes one all the same. */
  predicate DeletesUnread(r: Store, h: Hand, call: Call) {
    call.FailDelete? && (h.FailRead? || h.FailTaken?) && h.found.None? && h.jobId in r.inflight
  }

  /** HDEL of stale recovery, sent again, removes a lease that was filed since. */
  predicate ReclaimsAgain(r: Store, h: Hand) { h.Recovering? && h.payload.jobId in r.inflight }

  /** What `fail` pushes to the dead letters: what it read, or the very entry it sent before. */
  function LetterOf(h: Hand, error: string, at: int): DeadLetter
    requires h.FailTaken? || h.Lettered?
  {
    if h.Lettered? then h.letter
    else DeadLetter(h.jobId, if h.found.Some? then Some(h.found.value.payload) else None, error, at)
  }

  /** The call is sent again although Redis executed it, and it adds a copy of this job. */
  predicate Doubles(r: Store, h: Hand, call: Call, id: JobId) {
    || (call.Repush? && h.Repushed? && h.payload.jobId == id)
    || (call.FailPush? && h.Lettered? && h.letter.payload.Some? && h.letter.jobId == id)
    || (call.Record? && h.Filed? && h.entry.payload.jobId == id && id !in r.inflight)
  }

  function StoreAfter(r: Store, h: Hand, call: Call): (t: Store) {
    match call
    case Pop =>
      if h.Idle? && r.main != [] then r.(main := r.main[1..]) else r
    case Record(at, _) =>
      if h.Popped? then r.(inflight := r.inflight[h.payload.jobId := Entry(h.payload, at)])
      else if h.Filed? then r.(inflight := r.inflight[h.entry.payload.jobId := h.entry])
      else r
    case FailDelete =>
      if h.FailRead? || h.FailTaken? then r.(inflight := r.inflight - {h.jobId}) else r
    case FailPush(error, at, _) =>
      if h.FailTaken? || h.Lettered? then r.(dead := [LetterOf(h, error, at)] + r.dead) else r
    case ScanNext =>
      if Reclaims(r, h) then r.(inflight := r.inflight - {h.todo[0].jobId})
      else if ReclaimsAgain(r, h) then r.(inflight := r.inflight - {h.payload.jobId})
      else r
    case Repush(_) =>
      if h.Recovering? || h.Repushed? then r.(main := r.main + [h.payload]) else r
    case RemoveLetter(_) =>
      if h.LetterRead? then r.(dead := RemoveFirst(r.dead, h.letter)) else r
    case _ => r
  }

  ghost function HandAfter(r: Store, h: Hand, call: Call): (t: Hand) {
    match call
    case Pop => if h.Idle? && r.main != [] then Popped(r.main[0]) else h
    case Record(at, answered) =>
      if !h.Popped? && !h.Filed? then h
      else if answered then Idle
      else if h.Popped? then Filed(Entry(h.payload, at))
      else h
    case FailGet(id) =>
      if h.Idle? then FailRead(id, if id in r.inflight then Some(r.inflight[id]) else None) else h
    case FailDelete => if h.FailRead? then FailTaken(h.jobId, h.found) else h
    case FailPush(error, at, answered) =>
      if !h.FailTaken? && !h.Lettered? then h else if answered then Idle else Lettered(LetterOf(h, error, at))
    case Scan(now, timeout, order) =>
      if h.Idle? && IsScanOrder(r.inflight, order) then Scanning(now, timeout, Leases(r.inflight, order)) else h
    case ScanNext =>
      if !h.Scanning? then h
      else if h.todo == [] then Idle
      else if Reclaims(r, h) then Recovering(h.todo[0].entry.payload, h.now, h.timeout, h.todo[1..])
      else Scanning(h.now, h.timeout, h.todo[1..])
    case Repush(answered) =>
      if !h.Recovering? && !h.Repushed? then h
      else if answered then Scanning(h.now, h.timeout, h.todo)
      else Repushed(h.payload, h.now, h.timeout, h.todo)
    case ReadLetter(id) =>
      if h.Idle? && FirstLetter(r.dead, id).Some? then LetterRead(FirstLetter(r.dead, id).value) else h
    case RemoveLetter(answered) => if h.LetterRead? && answered then Idle else h
    case Crash => Idle
    // stale recovery swallows the error of one entry, in HDEL or in LPUSH, and goes on with the rest
    case CallFails =>
      if h.Recovering? || h.Repushed? then Scanning(h.now, h.timeout, h.todo)
      else if h.Scanning? && h.todo != [] then Scanning(h.now, h.timeout, h.todo[1..])
      else Idle
  }

  ghost function Apply(cap: nat, s: State, step: Step): (t: State)
    ensures |t.hands| == |s.hands|
  {
    match step
    case Client(c) => s.(store := Execute(cap, s.store, c))
    case By(w, call) =>
      if w < |s.hands|
      then State(StoreAfter(s.store, s.hands[w], call),
                 s.hands[w := HandAfter(s.store, s.hands[w], call)])
      else s
  }

  // ------------------------------------------------------------------ observed history

  /**
   What an outside observer of the calls can count.  `live` holds the job ids accepted and
   neither acked nor taken out of the dead letters since.
   */
  datatype History = History(
    live: set<JobId>,
    accepted: multiset<JobId>,
    delivered: multiset<JobId>,
    reclaimed: multiset<JobId>,   // HDEL calls of stale recovery that removed a lease
    repushed: multiset<JobId>,    // LPUSH calls of stale recovery
    resent: multiset<JobId>,      // those of them sent again
    doubled: multiset<JobId>,     // copies added by calls sent again
    blind: multiset<JobId>,       // HDEL calls of fail that came too late for the lease it had read
    pushes: seq<Payload>,         // everything pushed to the main list, in order
    pops: seq<Payload>)           // everything BRPOP answered, in order

  datatype System = System(s: State, h: History)

  function LetterIds(dead: seq<DeadLetter>): set<JobId> {
    set i | 0 <= i < |dead| :: dead[i].jobId
  }

  ghost function ObserveCommand(cap: nat, r: Store, h: History, c: Command): (t: History) {
    match c
    case Enqueue(p) =>
      if Depth(r) >= cap then h
      else h.(live := h.live + {p.jobId}, accepted := h.accepted + multiset{p.jobId}, pushes := h.pushes + [p])
    case EnqueueDelayed(p, at) =>
      if Depth(r) >= cap then h
      else h.(live := h.live + {p.jobId}, accepted := h.accepted + multiset{p.jobId})
    case Promote(now, ready) =>
      if IsReadyBatch(r.delayed, now, ready) then h.(pushes := h.pushes + ready) else h
    case Ack(id) => h.(live := h.live - {id})
    case DrainLetters => h.(live := h.live - LetterIds(r.dead))
  }

  /** Stale recovery pushes a lease back, for the first time or again. */
  function ObserveRepush(hand: Hand, h: History): History {
    if hand.Recovering? || hand.Repushed?
    then
      var again := if hand.Repushed? then multiset{hand.payload.jobId} else multiset{};
      h.(repushed := h.repushed + multiset{hand.payload.jobId}, resent := h.resent + again,
         doubled := h.doubled + again, pushes := h.pushes + [hand.payload])
    else h
  }

  function ObserveCall(r: Store, hand: Hand, h: History, call: Call): (t: History) {
    match call
    case Pop =>
      if hand.Idle? && r.main != []
      then h.(pops := h.pops + [r.main[0]], delivered := h.delivered + multiset{r.main[0].jobId})
      else h
    case FailDelete =>
      if DeletesBlindly(r, hand, call) then h.(blind := h.blind + multiset{hand.jobId}) else h
    case ScanNext =>
      if Reclaims(r, hand)
      then h.(reclaimed := h.reclaimed + multiset{hand.todo[0].entry.payload.jobId})
      else if ReclaimsAgain(r, hand) then h.(reclaimed := h.reclaimed + multiset{hand.payload.jobId})
      else h
    case Record(_, _) =>
      if hand.Filed? && hand.entry.payload.jobId !in r.inflight
      then h.(doubled := h.doubled + multiset{hand.entry.payload.jobId})
      else h
    case FailPush(_, _, _) =>
      if hand.Lettered? && hand.letter.payload.Some? then h.(doubled := h.doubled + multiset{hand.letter.jobId}) else h
    case Repush(_) => ObserveRepush(hand, h)
    case RemoveLetter(_) =>
      if hand.LetterRead? && hand.letter in r.dead then h.(live := h.live - {hand.letter.jobId}) else h
    case _ => h
  }

  ghost function Observe(cap: nat, s: State, h: History, step: Step): (t: History) {
    match step
    case Client(c) => ObserveCommand(cap, s.store, h, c)
    case By(w, call) => if w < |s.hands| then ObserveCall(s.store, s.hands[w], h, call) else h
  }

  ghost function Next(cap: nat, y: System, step: Step): (t: System) {
    System(Apply(cap, y.s, step), Observe(cap, y.s, y.h, step))
  }

  ghost function Run(cap: nat, y: System, steps: seq<Step>): (t: System)
    decreases |steps|
  {
    if steps == [] then y
    else Next(cap, Run(cap, y, steps[..|steps| - 1]), steps[|steps| - 1])
  }

  /** An empty Redis and n workers that hold nothing. */
  function Fresh(n: nat): (y: System) {
    System(State(Store([], map[], map[], []), seq(n, _ => Idle)),
           History({}, multiset{}, multiset{}, multiset{}, multiset{}, multiset{}, multiset{}, multiset{}, [], []))
  }

  // ------------------------------------------------------------------ where a job is

  function HandIds(h: Hand): set<JobId> {
    match h
    case Popped(p) => {p.jobId}
    case FailTaken(id, _) => {id}
    case Recovering(p, _, _, _) => {p.jobId}
    case _ => {}
  }

  ghost predicate Stored(r: Store, id: JobId) {
    || (exists i :: 0 <= i < |r.main| && r.main[i].jobId == id)
    || (exists p :: p in r.delayed && p.jobId == id)
    || id in r.inflight
    || id in LetterIds(r.dead)
  }

  ghost predicate InHands(hands: seq<Hand>, id: JobId) {
    exists w :: 0 <= w < |hands| && id in HandIds(hands[w])
  }

  ghost predicate Placed(s: State, id: JobId) {
    Stored(s.store, id) || InHands(s.hands, id)
  }

  /** The step that destroys what a worker holds for this job between two calls. */
  ghost predicate Drops(s: State, step: Step, id: JobId) {
    && step.By? && (step.call.Crash? || step.call.CallFails?)
    && step.w < |s.hands| && id in HandIds(s.hands[step.w])
  }

  // ------------------------------------------------------------------ ids and payloads agree

  predicate KeyedStore(r: Store) {
    forall id :: id in r.inflight ==> r.inflight[id].payload.jobId == id
  }

  predicate KeyedHand(h: Hand) {
    (h.Scanning? || h.Recovering? || h.Repushed?) ==>
      forall i :: 0 <= i < |h.todo| ==> h.todo[i].entry.payload.jobId == h.todo[i].jobId
  }

  /** Leases and snapshots of leases are keyed by the id inside their payload. */
  predicate Keyed(s: State) {
    KeyedStore(s.store) && forall w :: 0 <= w < |s.hands| ==> KeyedHand(s.hands[w])
  }

  lemma KeyedCall(r: Store, h: Hand, call: Call)
    requires KeyedStore(r) && KeyedHand(h)
    ensures KeyedStore(StoreAfter(r, h, call)) && KeyedHand(HandAfter(r, h, call))
  {
  }

  lemma KeyedKept(cap: nat, s: State, step: Step)
    requires Keyed(s)
    ensures Keyed(Apply(cap, s, step))
  {
    if step.By? && step.w < |s.hands| { KeyedCall(s.store, s.hands[step.w], step.call); }
  }

  lemma {:induction false} RunKeyed(cap: nat, n: nat, steps: seq<Step>)
    ensures Keyed(Run(cap, Fresh(n), steps).s)
    decreases |steps|
  {
    if steps != [] {
      RunKeyed(cap, n, steps[..|steps| - 1]);
      KeyedKept(cap, Run(cap, Fresh(n), steps[..|steps| - 1]).s, steps[|steps| - 1]);
    }
  }

  // ------------------------------------------------------------------ no job is lost

  lemma CommandKeepsStored(cap: nat, r: Store, h: History, c: Command, id: JobId)
    requires Stored(r, id)
    ensures Stored(Execute(cap, r, c), id) || id !in ObserveCommand(cap, r, h, c).live
  {
    var t := Execute(cap, r, c);
    if i :| 0 <= i < |r.main| && r.main[i].jobId == id {
      assert t.main[i] == r.main[i];
    } else if p :| p in r.delayed && p.jobId == id {
      if c.Promote? && IsReadyBatch(r.delayed, c.now, c.ready) && p in c.ready {
        var i :| 0 <= i < |c.ready| && c.ready[i] == p;
        assert t.main[|r.main| + i] == p;
      } else {
        assert p in t.delayed;
      }
    }
  }

  /** A call moves a job between the store and this worker's hand, or is one of the three ends. */
  lemma CallKeepsJob(r: Store, hand: Hand, h: History, call: Call, id: JobId)
    requires KeyedHand(hand)
    requires Stored(r, id) || id in HandIds(hand)
    requires (call.Crash? || call.CallFails?) ==> Stored(r, id)
    ensures || Stored(StoreAfter(r, hand, call), id)
            || id in HandIds(HandAfter(r, hand, call))
            || id !in ObserveCall(r, hand, h, call).live
  {
    var t := StoreAfter(r, hand, call);
    if id in HandIds(hand) && !call.Crash? && !call.CallFails? {
      HandKept(r, hand, call, id);
    } else if i :| 0 <= i < |r.main| && r.main[i].jobId == id {
      MainKept(r, hand, call, i);
    } else if p :| p in r.delayed && p.jobId == id {
      assert p in t.delayed;
    } else if id in r.inflight {
    } else {
      var i :| 0 <= i < |r.dead| && r.dead[i].jobId == id;
      DeadKept(r, hand, h, call, i);
    }
  }

  lemma HandKept(r: Store, hand: Hand, call: Call, id: JobId)
    requires id in HandIds(hand) && !call.Crash? && !call.CallFails?
    ensures Stored(StoreAfter(r, hand, call), id) || id in HandIds(HandAfter(r, hand, call))
  {
    var t := StoreAfter(r, hand, call);
    if call.FailPush? && hand.FailTaken? {
      assert t.dead[0].jobId in LetterIds(t.dead);
    } else if call.Repush? && hand.Recovering? {
      assert t.main[|r.main|].jobId == id;
    }
  }

  lemma MainKept(r: Store, hand: Hand, call: Call, i: nat)
    requires i < |r.main|
    ensures var id := r.main[i].jobId;
            Stored(StoreAfter(r, hand, call), id) || id in HandIds(HandAfter(r, hand, call))
  {
    var t := StoreAfter(r, hand, call);
    if call.Pop? && hand.Idle? {
      if i != 0 {
        assert t.main[i - 1] == r.main[i];
      }
    } else {
      assert t.main[i] == r.main[i];
    }
  }

  lemma LetterIn(dead: seq<DeadLetter>, i: nat)
    requires i < |dead|
    ensures dead[i].jobId in LetterIds(dead)
  {
  }

  lemma {:induction false} OtherLettersStay(dead: seq<DeadLetter>, letter: DeadLetter, d: DeadLetter)
    requires d in dead && (letter != d || letter !in dead)
    ensures d in RemoveFirst(dead, letter)
  {
    if dead[0] != letter && dead[0] != d { OtherLettersStay(dead[1..], letter, d); }
  }

  lemma LetterInDead(dead: seq<DeadLetter>, d: DeadLetter)
    requires d in dead
    ensures d.jobId in LetterIds(dead)
  {
    var i :| 0 <= i < |dead| && dead[i] == d;
    LetterIn(dead, i);
  }

  lemma DeadKept(r: Store, hand: Hand, h: History, call: Call, i: nat)
    requires i < |r.dead|
    ensures r.dead[i].jobId in LetterIds(StoreAfter(r, hand, call).dead) || r.dead[i].jobId !in ObserveCall(r, hand, h, call).live
  {
    if call.RemoveLetter? && hand.LetterRead? {
      if hand.letter.jobId != r.dead[i].jobId || hand.letter !in r.dead {
        OtherLettersStay(r.dead, hand.letter, r.dead[i]);
        LetterInDead(RemoveFirst(r.dead, hand.letter), r.dead[i]);
      }
    } else if call.FailPush? && (hand.FailTaken? || hand.Lettered?) {
      LetterIn(StoreAfter(r, hand, call).dead, i + 1);
    } else {
      LetterIn(r.dead, i);
    }
  }

  /** A step keeps every placed job placed, except the jobs it acks, takes from the dead letters or drops. */
  lemma PlacedKept(cap: nat, s: State, h: History, step: Step, id: JobId)
    requires Keyed(s) && Placed(s, id)
    requires !Drops(s, step, id)
    ensures Placed(Apply(cap, s, step), id) || id !in Observe(cap, s, h, step).live
  {
    var t := Apply(cap, s, step);
    match step
    case Client(c) =>
      if Stored(s.store, id) {
        CommandKeepsStored(cap, s.store, h, c, id);
      }
    case By(w, call) =>
      if w < |s.hands| {
        if Stored(s.store, id) || id in HandIds(s.hands[w]) {
          CallKeepsJob(s.store, s.hands[w], h, call, id);
          assert t.hands[w] == HandAfter(s.store, s.hands[w], call);
        } else {
          var v :| 0 <= v < |s.hands| && id in HandIds(s.hands[v]);
          assert t.hands[v] == s.hands[v];
        }
      }
  }

  /** An accepted job is placed right away. */
  lemma AcceptedPlaced(cap: nat, s: State, h: History, step: Step, id: JobId)
    requires Observe(cap, s, h, step).accepted[id] != h.accepted[id]
    ensures Placed(Apply(cap, s, step), id)
  {
    var c := step.command;
    var t := Execute(cap, s.store, c);
    if c.Enqueue? {
      assert t.main[|s.store.main|].jobId == id;
    } else {
      assert c.payload in t.delayed;
    }
  }

  /** A worker dropped the job when it had been accepted `total` times. */
  ghost predicate DroppedAt(cap: nat, y: System, steps: seq<Step>, id: JobId, total: nat, i: nat) {
    i < |steps| && Drops(Run(cap, y, steps[..i]).s, steps[i], id) && Run(cap, y, steps[..i]).h.accepted[id] == total
  }

  /** Some worker dropped the job, and it has not been accepted again since. */
  ghost predicate DroppedSince(cap: nat, y: System, steps: seq<Step>, id: JobId) {
    exists i :: DroppedAt(cap, y, steps, id, Run(cap, y, steps).h.accepted[id], i)
  }

  lemma DroppedStays(cap: nat, y: System, steps: seq<Step>, step: Step, id: JobId, total: nat, i: nat)
    requires DroppedAt(cap, y, steps, id, total, i)
    ensures DroppedAt(cap, y, steps + [step], id, total, i)
  {
    assert (steps + [step])[..i] == steps[..i];
  }

  lemma DroppedNow(cap: nat, y: System, steps: seq<Step>, step: Step, id: JobId)
    requires Drops(Run(cap, y, steps).s, step, id)
    ensures DroppedAt(cap, y, steps + [step], id, Run(cap, y, steps).h.accepted[id], |steps|)
  {
    assert (steps + [step])[..|steps|] == steps;
  }

  lemma RunSnoc(cap: nat, y: System, steps: seq<Step>, step: Step)
    ensures Run(cap, y, steps + [step]) == Next(cap, Run(cap, y, steps), step)
  {
    assert (steps + [step])[..|steps|] == steps;
  }

  /** One step: a job that is placed, or only now accepted, is placed afterwards or dropped. */
  lemma PlacedStep(cap: nat, s: State, h: History, step: Step, id: JobId)
    requires Keyed(s) && id in Observe(cap, s, h, step).live && (id in h.live ==> Placed(s, id))
    ensures || Placed(Apply(cap, s, step), id)
            || (Drops(s, step, id) && Observe(cap, s, h, step).accepted[id] == h.accepted[id])
  {
    if Observe(cap, s, h, step).accepted[id] != h.accepted[id] {
      AcceptedPlaced(cap, s, h, step, id);
    } else if !Drops(s, step, id) {
      PlacedKept(cap, s, h, step, id);
    }
  }

  lemma DroppedFurther(cap: nat, y: System, front: seq<Step>, step: Step, id: JobId)
    requires DroppedSince(cap, y, front, id)
    requires Run(cap, y, front + [step]).h.accepted[id] == Run(cap, y, front).h.accepted[id]
    ensures DroppedSince(cap, y, front + [step], id)
  {
    var total := Run(cap, y, front).h.accepted[id];
    var i :| DroppedAt(cap, y, front, id, total, i);
    DroppedStays(cap, y, front, step, id, total, i);
  }

  /**
   No accepted job disappears.  In every run of any number of workers, a job id that was
   accepted and neither acked nor taken out of the dead letters is in the main list, the
   delayed set, the in-flight hash, the dead letters or a worker's hand, unless since its
   last acceptance a worker crashed or had a call fail while it was holding that very job.
   */
  lemma {:induction false} NoJobLost(cap: nat, n: nat, steps: seq<Step>, id: JobId)
    requires id in Run(cap, Fresh(n), steps).h.live
    ensures Placed(Run(cap, Fresh(n), steps).s, id) || DroppedSince(cap, Fresh(n), steps, id)
    decreases |steps|
  {
    if steps != [] {
      var front, step := steps[..|steps| - 1], steps[|steps| - 1];
      var y := Run(cap, Fresh(n), front);
      assert steps == front + [step];
      RunKeyed(cap, n, front);
      if id in y.h.live { NoJobLost(cap, n, front, id); }
      if Observe(cap, y.s, y.h, step).accepted[id] != y.h.accepted[id] {
        AcceptedPlaced(cap, y.s, y.h, step, id);
      } else if DroppedSince(cap, Fresh(n), front, id) {
        DroppedFurther(cap, Fresh(n), front, step, id);
      } else {
        PlacedStep(cap, y.s, y.h, step, id);
        if Drops(y.s, step, id) { DroppedNow(cap, Fresh(n), front, step, id); }
      }
    }
  }
}
