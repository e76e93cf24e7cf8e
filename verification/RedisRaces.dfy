/** Runs of the Redis transport from the empty store: a `fail` alone, in a race, and calls that are sent again. */
module RedisRaces {
  import opened Common
  import opened Jobs
  import opened RedisQueue

  /** `fail` without interference moves the lease, payload included, to the head of the dead letters. */
  lemma FailAlone(cap: nat, s: State, w: nat, id: JobId, error: string, at: int)
    requires w < |s.hands| && s.hands[w].Idle?
    ensures var t := Apply(cap, Apply(cap, Apply(cap, s, By(w, FailGet(id))), By(w, FailDelete)), By(w, FailPush(error, at, true)));
            var p := if id in s.store.inflight then Some(s.store.inflight[id].payload) else None;
            t == s.(store := s.store.(inflight := s.store.inflight - {id},
                                      dead := [DeadLetter(id, p, error, at)] + s.store.dead))
  {
  }

  /** `dequeue` without interference takes the head of the list and files its lease under the time given. */
  lemma DequeueAlone(cap: nat, s: State, w: nat, at: int)
    requires w < |s.hands| && s.hands[w].Idle? && s.store.main != []
    ensures var p := s.store.main[0];
            Apply(cap, Apply(cap, s, By(w, Pop)), By(w, Record(at, true))) ==
              s.(store := s.store.(main := s.store.main[1..], inflight := s.store.inflight[p.jobId := Entry(p, at)]))
  {
  }

  /** The letter with that id that comes first. */
  ghost predicate FirstOf(dead: seq<DeadLetter>, id: JobId, k: nat) {
    k < |dead| && dead[k].jobId == id && forall i :: 0 <= i < k ==> dead[i].jobId != id
  }

  lemma {:induction false} FirstFound(dead: seq<DeadLetter>, id: JobId, k: nat)
    requires FirstOf(dead, id, k)
    ensures FirstLetter(dead, id) == Some(dead[k]) && RemoveFirst(dead, dead[k]) == dead[..k] + dead[k + 1..]
  {
    if k > 0 {
      assert dead[0].jobId != id;
      assert FirstOf(dead[1..], id, k - 1);
      FirstFound(dead[1..], id, k - 1);
      assert dead[..k] == [dead[0]] + dead[1..][..k - 1] && dead[k + 1..] == dead[1..][k..];
    }
  }

  /** `remove_dead_letter` without interference takes out the first letter of that id and leaves the worker free. */
  lemma RemoveAlone(cap: nat, s: State, w: nat, id: JobId, k: nat)
    requires w < |s.hands| && s.hands[w].Idle? && FirstOf(s.store.dead, id, k)
    ensures Apply(cap, Apply(cap, s, By(w, ReadLetter(id))), By(w, RemoveLetter(true))) ==
              s.(store := s.store.(dead := s.store.dead[..k] + s.store.dead[k + 1..]))
  {
    FirstFound(s.store.dead, id, k);
  }

  /** A system of two workers that some run from the empty store leads to. */
  ghost predicate CanReach(cap: nat, y: System) { exists steps :: Run(cap, Fresh(2), steps) == y }

  /** One more call leads on to the given state; only acceptances and blind deletes of the history are followed. */
  lemma Onward(cap: nat, y: System, w: nat, call: Call, s: State) returns (z: System)
    requires CanReach(cap, y) && w < |y.s.hands| == |s.hands| && s.hands == y.s.hands[w := s.hands[w]]
    requires StoreAfter(y.s.store, y.s.hands[w], call) == s.store && HandAfter(y.s.store, y.s.hands[w], call) == s.hands[w]
    ensures CanReach(cap, z) && z.s == s && z.h.accepted == y.h.accepted
    ensures !DeletesBlindly(y.s.store, y.s.hands[w], call) ==> z.h.blind == y.h.blind
  {
    ReachesNext(cap, y, By(w, call));
    HistoryKept(y.s.store, y.s.hands[w], y.h, call);
    z := Next(cap, y, By(w, call));
  }

  lemma ReachesNext(cap: nat, y: System, step: Step)
    requires CanReach(cap, y)
    ensures CanReach(cap, Next(cap, y, step))
  {
    var steps :| Run(cap, Fresh(2), steps) == y;
    RunSnoc(cap, Fresh(2), steps, step);
  }

  lemma HistoryKept(r: Store, hand: Hand, h: History, call: Call)
    ensures ObserveCall(r, hand, h, call).accepted == h.accepted
    ensures !DeletesBlindly(r, hand, call) ==> ObserveCall(r, hand, h, call).blind == h.blind
  {
  }

  predicate AcceptedOnce(h: History, id: JobId) { h.accepted == multiset{id} && h.blind == multiset{} }

  lemma Accepted(cap: nat, p: Payload) returns (y: System)
    requires cap > 0
    ensures CanReach(cap, y) && y.s == State(Store([p], map[], map[], []), [Idle, Idle]) && AcceptedOnce(y.h, p.jobId)
  {
    y := Fresh(2);
    assert y.s.hands == [Idle, Idle] && Run(cap, y, []) == y;
    ReachesNext(cap, y, Client(Enqueue(p)));
    y := Next(cap, y, Client(Enqueue(p)));
  }

  function Leased(p: Payload): Store { Store([], map[], map[p.jobId := Entry(p, 0)], []) }

  /** Worker 0 takes the job; its HSET is answered or not. */
  lemma Taken(cap: nat, p: Payload, answered: bool) returns (y: System)
    requires cap > 0
    ensures CanReach(cap, y) && AcceptedOnce(y.h, p.jobId)
    ensures y.s == State(Leased(p), [if answered then Idle else Filed(Entry(p, 0)), Idle])
  {
    y := Accepted(cap, p);
    y := Onward(cap, y, 0, Pop, State(Store([], map[], map[], []), [Popped(p), Idle]));
    y := Onward(cap, y, 0, Record(0, answered), State(Leased(p), [if answered then Idle else Filed(Entry(p, 0)), Idle]));
  }

  /** A worker that has scanned the one lease there is, at a time when it is stale. */
  function ScannedOne(p: Payload, timeout: int): Hand { Scanning(timeout + 1, timeout, [Lease(p.jobId, Entry(p, 0))]) }

  lemma ScanOfOne(p: Payload, timeout: int)
    ensures HandAfter(Leased(p), Idle, Scan(timeout + 1, timeout, [p.jobId])) == ScannedOne(p, timeout)
    ensures StoreAfter(Leased(p), ScannedOne(p, timeout), ScanNext) == Store([], map[], map[], [])
    ensures HandAfter(Leased(p), ScannedOne(p, timeout), ScanNext) == Recovering(p, timeout + 1, timeout, [])
  {
    assert IsScanOrder(Leased(p).inflight, [p.jobId]);
    assert Leases(Leased(p).inflight, [p.jobId]) == [Lease(p.jobId, Entry(p, 0))];
    assert Leased(p).inflight - {p.jobId} == map[];
    assert ScannedOne(p, timeout).todo[1..] == [];
  }

  /** Worker 1 scans and takes the lease away. */
  lemma Sweeps(cap: nat, y: System, p: Payload, timeout: int, hand: Hand) returns (z: System)
    requires CanReach(cap, y) && y.s == State(Leased(p), [hand, Idle])
    ensures CanReach(cap, z) && z.h.accepted == y.h.accepted && z.h.blind == y.h.blind
    ensures z.s == State(Store([], map[], map[], []), [hand, Recovering(p, timeout + 1, timeout, [])])
  {
    ScanOfOne(p, timeout);
    z := Onward(cap, y, 1, Scan(timeout + 1, timeout, [p.jobId]), State(Leased(p), [hand, ScannedOne(p, timeout)]));
    z := Onward(cap, z, 1, ScanNext, State(Store([], map[], map[], []), [hand, Recovering(p, timeout + 1, timeout, [])]));
  }

  /** What worker 1 holds while it recovers p: the push is to be sent, was sent and not answered, or was answered. */
  function Recovery(p: Payload, timeout: int): Hand { Recovering(p, timeout + 1, timeout, []) }

  function Unanswered(p: Payload, timeout: int): Hand { Repushed(p, timeout + 1, timeout, []) }

  function Swept(timeout: int): Hand { Scanning(timeout + 1, timeout, []) }

  /** Worker 1 pushes it back, for the first time or again; its LPUSH is answered or not. */
  lemma PushesBack(cap: nat, y: System, q: seq<Payload>, p: Payload, timeout: int, hand: Hand, held: Hand, answered: bool)
    returns (z: System)
    requires CanReach(cap, y) && (held == Recovery(p, timeout) || held == Unanswered(p, timeout))
    requires y.s == State(Store(q, map[], map[], []), [hand, held])
    ensures CanReach(cap, z) && z.h.accepted == y.h.accepted && z.h.blind == y.h.blind
    ensures z.s == State(Store(q + [p], map[], map[], []), [hand, if answered then Swept(timeout) else Unanswered(p, timeout)])
  {
    z := Onward(cap, y, 1, Repush(answered),
                State(Store(q + [p], map[], map[], []), [hand, if answered then Swept(timeout) else Unanswered(p, timeout)]));
  }

  /** Worker 0 reads the lease of its job in order to fail it. */
  lemma Read(cap: nat, p: Payload) returns (y: System)
    requires cap > 0
    ensures CanReach(cap, y) && AcceptedOnce(y.h, p.jobId)
    ensures y.s == State(Leased(p), [FailRead(p.jobId, Some(Entry(p, 0))), Idle])
  {
    y := Taken(cap, p, true);
    y := Onward(cap, y, 0, FailGet(p.jobId), State(Leased(p), [FailRead(p.jobId, Some(Entry(p, 0))), Idle]));
  }

  /**
   A run from the empty store in which stale recovery removes the lease between the read and
   the delete of `fail`: a job accepted once ends on the main list and as a dead letter.
   */
  lemma FailRacesRecovery(cap: nat, p: Payload, timeout: int, error: string, at: int) returns (y: System)
    requires cap > 0
    ensures CanReach(cap, y) && y.h.accepted == multiset{p.jobId}
    ensures y.s.store == Store([p], map[], map[], [DeadLetter(p.jobId, Some(p), error, at)])
  {
    var found, scan := Some(Entry(p, 0)), Swept(timeout);
    y := Read(cap, p);
    y := Sweeps(cap, y, p, timeout, FailRead(p.jobId, found));
    y := PushesBack(cap, y, [], p, timeout, FailRead(p.jobId, found), Recovery(p, timeout), true);
    assert [] + [p] == [p];
    y := Onward(cap, y, 0, FailDelete, State(Store([p], map[], map[], []), [FailTaken(p.jobId, found), scan]));
    y := Onward(cap, y, 0, FailPush(error, at, true),
                State(Store([p], map[], map[], [DeadLetter(p.jobId, Some(p), error, at)]), [Idle, scan]));
  }

  // ------------------------------------------------------------------ calls sent again

  /** The push of stale recovery is executed, not answered and sent again: a job accepted once is queued twice. */
  lemma PushedTwice(cap: nat, p: Payload, timeout: int) returns (y: System)
    requires cap > 0
    ensures CanReach(cap, y) && AcceptedOnce(y.h, p.jobId) && y.s.store == Store([p, p], map[], map[], [])
  {
    y := Taken(cap, p, true);
    y := Sweeps(cap, y, p, timeout, Idle);
    y := PushesBack(cap, y, [], p, timeout, Idle, Recovery(p, timeout), false);
    y := PushesBack(cap, y, [] + [p], p, timeout, Idle, Unanswered(p, timeout), true);
  }

  /** The lease is filed, not answered, taken away by stale recovery and filed again: the job is queued and in flight. */
  lemma FiledTwice(cap: nat, p: Payload, timeout: int) returns (y: System)
    requires cap > 0
    ensures CanReach(cap, y) && AcceptedOnce(y.h, p.jobId) && y.s.store == Leased(p).(main := [p])
  {
    var filed, scan := Filed(Entry(p, 0)), Swept(timeout);
    y := Taken(cap, p, false);
    y := Sweeps(cap, y, p, timeout, filed);
    y := PushesBack(cap, y, [], p, timeout, filed, Recovery(p, timeout), true);
    y := Onward(cap, y, 0, Record(0, true), State(Leased(p).(main := [p]), [Idle, scan]));
  }

  /** The dead letter is pushed, not answered and pushed again: one job, two letters with its payload. */
  lemma LetteredTwice(cap: nat, p: Payload, error: string, at: int) returns (y: System)
    requires cap > 0
    ensures CanReach(cap, y) && AcceptedOnce(y.h, p.jobId)
    ensures var letter := DeadLetter(p.jobId, Some(p), error, at); y.s.store == Store([], map[], map[], [letter, letter])
  {
    var letter := DeadLetter(p.jobId, Some(p), error, at);
    y := Read(cap, p);
    assert Leased(p).inflight - {p.jobId} == map[];
    y := Onward(cap, y, 0, FailDelete, State(Store([], map[], map[], []), [FailTaken(p.jobId, Some(Entry(p, 0))), Idle]));
    y := Onward(cap, y, 0, FailPush(error, at, false), State(Store([], map[], map[], [letter]), [Lettered(letter), Idle]));
    y := Onward(cap, y, 0, FailPush(error, at, true), State(Store([], map[], map[], [letter, letter]), [Idle, Idle]));
  }

  /** An LREM that was executed, not answered and sent again takes a second letter that is the same. */
  lemma LetterTakenTwice(cap: nat, s: State, w: nat, letter: DeadLetter)
    requires w < |s.hands| && s.hands[w] == LetterRead(letter) && s.store.dead == [letter, letter]
    ensures Apply(cap, Apply(cap, s, By(w, RemoveLetter(false))), By(w, RemoveLetter(true))).store == s.store.(dead := [])
  {
    assert RemoveFirst([letter, letter], letter) == [letter] && RemoveFirst([letter], letter) == [];
  }

  // ------------------------------------------------------------------ a lease filed again after the scan

  /** Worker 1 has scanned the lease of p; worker 0 recovers it and takes the job again. */
  lemma TakenAgain(cap: nat, y: System, p: Payload, timeout: int, scan: Hand) returns (z: System)
    requires CanReach(cap, y) && y.s == State(Leased(p), [Idle, scan])
    ensures CanReach(cap, z) && z.s == State(Store([], map[], map[p.jobId := Entry(p, timeout + 1)], []), [Idle, scan])
  {
    ScanOfOne(p, timeout);
    z := Onward(cap, y, 0, Scan(timeout + 1, timeout, [p.jobId]), State(Leased(p), [ScannedOne(p, timeout), scan]));
    z := Onward(cap, z, 0, ScanNext, State(Store([], map[], map[], []), [Recovery(p, timeout), scan]));
    z := PopsBack(cap, z, p, timeout, scan);
  }

  lemma PopsBack(cap: nat, y: System, p: Payload, timeout: int, scan: Hand) returns (z: System)
    requires CanReach(cap, y) && y.s == State(Store([], map[], map[], []), [Recovery(p, timeout), scan])
    ensures CanReach(cap, z) && z.s == State(Store([], map[], map[p.jobId := Entry(p, timeout + 1)], []), [Idle, scan])
  {
    z := PutsBack(cap, y, p, timeout, scan);
    z := EndsScan(cap, z, p, timeout, scan);
    z := TakesFirst(cap, z, p, timeout + 1, scan);
  }

  lemma RepushOfOne(p: Payload, timeout: int)
    ensures StoreAfter(Store([], map[], map[], []), Recovery(p, timeout), Repush(true)) == Store([p], map[], map[], [])
    ensures HandAfter(Store([], map[], map[], []), Recovery(p, timeout), Repush(true)) == Swept(timeout)
  {
  }

  lemma PutsBack(cap: nat, y: System, p: Payload, timeout: int, scan: Hand) returns (z: System)
    requires CanReach(cap, y) && y.s == State(Store([], map[], map[], []), [Recovery(p, timeout), scan])
    ensures CanReach(cap, z) && z.s == State(Store([p], map[], map[], []), [Swept(timeout), scan])
  {
    RepushOfOne(p, timeout);
    z := Onward(cap, y, 0, Repush(true), State(Store([p], map[], map[], []), [Swept(timeout), scan]));
  }

  lemma EndsScan(cap: nat, y: System, p: Payload, timeout: int, scan: Hand) returns (z: System)
    requires CanReach(cap, y) && y.s == State(Store([p], map[], map[], []), [Swept(timeout), scan])
    ensures CanReach(cap, z) && z.s == State(Store([p], map[], map[], []), [Idle, scan])
  {
    z := Onward(cap, y, 0, ScanNext, State(Store([p], map[], map[], []), [Idle, scan]));
  }

  lemma TakesFirst(cap: nat, y: System, p: Payload, at: int, scan: Hand) returns (z: System)
    requires CanReach(cap, y) && y.s == State(Store([p], map[], map[], []), [Idle, scan])
    ensures CanReach(cap, z) && z.s == State(Store([], map[], map[p.jobId := Entry(p, at)], []), [Idle, scan])
  {
    z := Onward(cap, y, 0, Pop, State(Store([], map[], map[], []), [Popped(p), scan]));
    z := Onward(cap, z, 0, Record(at, true), State(Store([], map[], map[p.jobId := Entry(p, at)], []), [Idle, scan]));
  }

  /**
   A lease within the timeout can be taken away: a recovery scans it, another one recovers it,
   the job is taken again, and the first recovery deletes the new lease by the age of the old.
   */
  lemma FreshLeaseTaken(cap: nat, p: Payload, timeout: nat) returns (y: System)
    requires cap > 0
    ensures CanReach(cap, y) && |y.s.hands| == 2 && p.jobId in y.s.store.inflight && Reclaims(y.s.store, y.s.hands[1])
    ensures y.s.hands[1].todo[0].jobId == p.jobId
    ensures y.s.hands[1].now - y.s.store.inflight[p.jobId].dequeuedAt == 0 <= y.s.hands[1].timeout == timeout
  {
    y := Taken(cap, p, true);
    ScanOfOne(p, timeout);
    y := Onward(cap, y, 1, Scan(timeout + 1, timeout, [p.jobId]), State(Leased(p), [Idle, ScannedOne(p, timeout)]));
    y := TakenAgain(cap, y, p, timeout, ScannedOne(p, timeout));
  }
}
