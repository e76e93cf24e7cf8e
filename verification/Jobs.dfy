/** What both queue transports carry. */
module Jobs {
  import opened Common

  type JobId = string

  datatype Payload = Payload(jobId: JobId, body: string)
  datatype DeadLetter = DeadLetter(jobId: JobId, payload: Option<Payload>, error: string, failedAt: int)

  function Copies(ps: seq<Payload>, id: JobId): nat {
    if ps == [] then 0 else (if ps[0].jobId == id then 1 else 0) + Copies(ps[1..], id)
  }

  lemma {:induction false} CopiesAppend(a: seq<Payload>, b: seq<Payload>, id: JobId)
    ensures Copies(a + b, id) == Copies(a, id) + Copies(b, id)
  {
    if a == [] {
      assert a + b == b;
    } else {
      assert (a + b)[1..] == a[1..] + b;
      CopiesAppend(a[1..], b, id);
    }
  }

  /** Dead letters that still carry the job. */
  function Saved(dead: seq<DeadLetter>, id: JobId): nat {
    if dead == [] then 0
    else (if dead[0].jobId == id && dead[0].payload.Some? then 1 else 0) + Saved(dead[1..], id)
  }

  lemma {:induction false} SavedAppend(a: seq<DeadLetter>, b: seq<DeadLetter>, id: JobId)
    ensures Saved(a + b, id) == Saved(a, id) + Saved(b, id)
  {
    if a == [] {
      assert a + b == b;
    } else {
      assert (a + b)[1..] == a[1..] + b;
      SavedAppend(a[1..], b, id);
    }
  }
}
