/** The event leg of the OTLP exporter (adapters/export/otlp/otlp.go): batches are
    cut into chunks that fit the log SDK's queue and flushed one by one. */
module OtlpSink {
  import opened Wrappers

  const EVENT_QUEUE_SIZE: nat := 2048

  /** One log record; the number stands for its content. */
  type Record = nat

  /** The log SDK as the sink sees it. A full queue overwrites its oldest record,
      and a stopped provider discards: neither is reported to anyone. handed
      lists what reached the SDK's exporter; stoppedAt is how much had when the
      provider was stopped. */
  datatype Provider = Provider(
    queue: seq<Record>, handed: seq<Record>, overwritten: seq<Record>, discarded: seq<Record>,
    stoppedAt: Option<nat>)

  const NEW_PROVIDER := Provider([], [], [], [], None)

  function Enqueue(p: Provider, rec: Record): Provider {
    if p.stoppedAt.Some? then p.(discarded := p.discarded + [rec])
    else if |p.queue| >= EVENT_QUEUE_SIZE then
      p.(overwritten := p.overwritten + [p.queue[0]], queue := p.queue[1..] + [rec])
    else p.(queue := p.queue + [rec])
  }

  /** The oldest k queued records reach the exporter. */
  function HandOver(p: Provider, k: nat): Provider
    requires k <= |p.queue|
  {
    p.(handed := p.handed + p.queue[..k], queue := p.queue[k..])
  }

  /** What a flush answers: all is out, or an error that may leave records behind. */
  datatype FlushAnswer = Drained | FlushFailed(left: nat)

  function Flush(p: Provider, answer: FlushAnswer): Provider {
    if answer.FlushFailed? && answer.left <= |p.queue| then HandOver(p, |p.queue| - answer.left)
    else HandOver(p, |p.queue|)
  }

  predicate EndsWith<T(==)>(s: seq<T>, w: seq<T>) {
    |w| <= |s| && forall j :: 0 <= j < |w| ==> w[j] == s[|s| - |w| + j]
  }

  lemma EndsWithAppended<T>(s: seq<T>, w: seq<T>, u: seq<T>)
    requires EndsWith(s, w)
    ensures EndsWith(s + u, w + u)
  {
  }

  /** How many of the waiting records a chunk pushes out. */
  function PushedOut(waiting: nat, chunk: nat): nat {
    if waiting + chunk <= EVENT_QUEUE_SIZE then 0 else waiting + chunk - EVENT_QUEUE_SIZE
  }

  /** A whole chunk at once: the queue keeps the newest records that fit. */
  function EnqueueAll(p: Provider, chunk: seq<Record>): Provider {
    var all, out := p.queue + chunk, PushedOut(|p.queue|, |chunk|);
    p.(queue := all[out..], overwritten := p.overwritten + all[..out])
  }

  lemma EnqueueAllSnoc(p: Provider, chunk: seq<Record>, i: nat)
    requires p.stoppedAt.None? && |p.queue| <= EVENT_QUEUE_SIZE && i < |chunk|
    ensures EnqueueAll(p, chunk[..i + 1]) == Enqueue(EnqueueAll(p, chunk[..i]), chunk[i])
  {
    var all, all' := p.queue + chunk[..i], p.queue + chunk[..i + 1];
    var out := PushedOut(|p.queue|, i);
    assert all' == all + [chunk[i]];
    if |all| >= EVENT_QUEUE_SIZE {
      assert all'[..out + 1] == all[..out] + [all[out]];
      assert all'[out + 1..] == all[out..][1..] + [chunk[i]];
    } else {
      assert all'[0..] == all[0..] + [chunk[i]];
    }
  }

  lemma ChunkFits(p: Provider, chunk: seq<Record>)
    requires |chunk| <= EVENT_QUEUE_SIZE && |p.queue| <= EVENT_QUEUE_SIZE
    ensures var out := PushedOut(|p.queue|, |chunk|);
            out <= |p.queue| && EnqueueAll(p, chunk).queue == p.queue[out..] + chunk
    ensures |EnqueueAll(p, chunk).queue| <= EVENT_QUEUE_SIZE
  {
  }

  /** Nothing is pushed out of an empty queue. */
  lemma ChunkAlone(p: Provider, chunk: seq<Record>)
    requires |chunk| <= EVENT_QUEUE_SIZE && p.queue == []
    ensures EnqueueAll(p, chunk) == p.(queue := chunk)
  {
    assert p.queue + chunk == chunk;
    assert p.overwritten + chunk[..0] == p.overwritten;
  }

  /** Records are overwritten exactly when a chunk and what a failed flush left
      behind do not fit together; a full chunk overwrites all that was left. */
  lemma LeftoversAreOverwritten(p: Provider, chunk: seq<Record>)
    requires |chunk| <= EVENT_QUEUE_SIZE && |p.queue| <= EVENT_QUEUE_SIZE
    ensures EnqueueAll(p, chunk).overwritten != p.overwritten <==> |p.queue| + |chunk| > EVENT_QUEUE_SIZE
    ensures |chunk| == EVENT_QUEUE_SIZE ==> EnqueueAll(p, chunk).overwritten == p.overwritten + p.queue
  {
    var out := PushedOut(|p.queue|, |chunk|);
    assert |EnqueueAll(p, chunk).overwritten| == |p.overwritten| + out;
    assert (p.queue + chunk)[..out] == p.queue[..out];
    assert out == 0 ==> p.overwritten + p.queue[..0] == p.overwritten;
  }

  lemma FlushedQueue(was: Provider, chunk: seq<Record>)
    requires |chunk| <= EVENT_QUEUE_SIZE && |was.queue| <= EVENT_QUEUE_SIZE
    ensures var out := PushedOut(|was.queue|, |chunk|);
            out <= |was.queue|
            && Flush(EnqueueAll(was, chunk), Drained).handed == was.handed + was.queue[out..] + chunk
            && Flush(EnqueueAll(was, chunk), Drained).queue == []
  {
    ChunkFits(was, chunk);
  }

  lemma EndsWithPrefix(before: seq<Record>, batch: seq<Record>, start: nat, end: nat)
    requires start <= end <= |batch| && EndsWith(before, batch[..start])
    ensures EndsWith(before + batch[start..end], batch[..end])
  {
    assert batch[..start] + batch[start..end] == batch[..end];
    EndsWithAppended(before, batch[..start], batch[start..end]);
  }

  /** A drained chunk continues the block its predecessors began. */
  lemma Landed(was: Provider, batch: seq<Record>, start: nat, end: nat)
    requires start < end <= |batch| && end - start <= EVENT_QUEUE_SIZE && |was.queue| <= EVENT_QUEUE_SIZE
    requires start > 0 ==> was.queue == [] && EndsWith(was.handed, batch[..start])
    ensures EndsWith(Flush(EnqueueAll(was, batch[start..end]), Drained).handed, batch[..end])
  {
    var out := PushedOut(|was.queue|, end - start);
    FlushedQueue(was, batch[start..end]);
    var before := was.handed + was.queue[out..];
    if start == 0 {
      assert EndsWith(before, []);
    } else {
      assert before == was.handed;
    }
    EndsWithPrefix(before, batch, start, end);
  }

  /** How far a batch has come since the provider was as before. */
  ghost predicate Progress(before: Provider, p: Provider, batch: seq<Record>, done: nat) {
    && done <= |batch|
    && (done > 0 ==> p.queue == [] && EndsWith(p.handed, batch[..done]))
    && (before.queue == [] ==> p == before.(handed := before.handed + batch[..done]))
  }

  lemma PassesThrough(before: Provider, was: Provider, batch: seq<Record>, start: nat, end: nat)
    requires start < end <= |batch| && end - start <= EVENT_QUEUE_SIZE && before.queue == []
    requires was == before.(handed := before.handed + batch[..start])
    ensures Flush(EnqueueAll(was, batch[start..end]), Drained) == before.(handed := before.handed + batch[..end])
  {
    var chunk := batch[start..end];
    ChunkAlone(was, chunk);
    assert chunk[..|chunk|] == chunk && chunk[|chunk|..] == [];
    assert before.handed + batch[..start] + chunk == before.handed + batch[..end];
  }

  lemma ProgressMade(before: Provider, was: Provider, batch: seq<Record>, start: nat, end: nat)
    requires start < end <= |batch| && end - start <= EVENT_QUEUE_SIZE && |was.queue| <= EVENT_QUEUE_SIZE
    requires Progress(before, was, batch, start)
    ensures Progress(before, Flush(EnqueueAll(was, batch[start..end]), Drained), batch, end)
  {
    Landed(was, batch, start, end);
    if before.queue == [] {
      PassesThrough(before, was, batch, start, end);
    }
  }

  /** Every flush from the n-th on that a batch of this length takes succeeds. */
  ghost predicate AllDrain(answers: nat -> FlushAnswer, n: nat, length: nat) {
    forall j: nat :: n <= j && j * EVENT_QUEUE_SIZE < length ==> answers(j).Drained?
  }

  /** Where the chunk that starts here ends. */
  function ChunkEnd(start: nat, length: nat): nat {
    if start + EVENT_QUEUE_SIZE < length then start + EVENT_QUEUE_SIZE else length
  }

  /** The provider after the chunks from the n-th on, up to the first failed flush. */
  ghost function EmitFrom(p: Provider, batch: seq<Record>, answers: nat -> FlushAnswer, n: nat): Provider
    decreases |batch| - n * EVENT_QUEUE_SIZE
  {
    var start := n * EVENT_QUEUE_SIZE;
    if start >= |batch| then p
    else
      var next := Flush(EnqueueAll(p, batch[start..ChunkEnd(start, |batch|)]), answers(n));
      if answers(n).Drained? then EmitFrom(next, batch, answers, n + 1) else next
  }

  /** A chunk keeps the queue within its size and what was handed over handed
      over; from an empty queue it overwrites nothing. */
  lemma ShipKeeps(before: Provider, p: Provider, batch: seq<Record>, start: nat, answer: FlushAnswer)
    requires start < |batch| && |p.queue| <= EVENT_QUEUE_SIZE && Progress(before, p, batch, start)
    ensures var end := ChunkEnd(start, |batch|);
            var next := Flush(EnqueueAll(p, batch[start..end]), answer);
            && |next.queue| <= EVENT_QUEUE_SIZE && p.handed <= next.handed
            && next.stoppedAt == p.stoppedAt && next.discarded == p.discarded
            && (before.queue == [] ==> next.overwritten == p.overwritten)
            && (answer.Drained? ==> Progress(before, next, batch, end))
  {
    var end := ChunkEnd(start, |batch|);
    ChunkFits(p, batch[start..end]);
    if before.queue == [] {
      ChunkAlone(p, batch[start..end]);
    }
    if answer.Drained? {
      ProgressMade(before, p, batch, start, end);
    }
  }

  /** If every flush drains, the whole batch reaches the exporter, in order and in
      one piece; if nothing was waiting, nothing is overwritten in any case. */
  lemma {:induction false} EmitDelivers(before: Provider, p: Provider, batch: seq<Record>, answers: nat -> FlushAnswer, n: nat)
    requires |p.queue| <= EVENT_QUEUE_SIZE
    requires Progress(before, p, batch, if n * EVENT_QUEUE_SIZE <= |batch| then n * EVENT_QUEUE_SIZE else |batch|)
    ensures var after := EmitFrom(p, batch, answers, n);
            && |after.queue| <= EVENT_QUEUE_SIZE && p.handed <= after.handed
            && after.stoppedAt == p.stoppedAt && after.discarded == p.discarded
            && (before.queue == [] ==> after.overwritten == p.overwritten)
            && (AllDrain(answers, n, |batch|) ==> Progress(before, after, batch, |batch|))
    decreases |batch| - n * EVENT_QUEUE_SIZE
  {
    hide Flush, EnqueueAll, Progress;
    var start := n * EVENT_QUEUE_SIZE;
    if start < |batch| {
      ShipKeeps(before, p, batch, start, answers(n));
      if answers(n).Drained? {
        EmitDelivers(before, Flush(EnqueueAll(p, batch[start..ChunkEnd(start, |batch|)]), Drained), batch, answers, n + 1);
      }
    }
  }

  lemma {:induction false} EmptyOverwritesNothing(p: Provider, batch: seq<Record>, answers: nat -> FlushAnswer, n: nat)
    requires p.queue == []
    ensures EmitFrom(p, batch, answers, n).overwritten == p.overwritten
    decreases |batch| - n * EVENT_QUEUE_SIZE
  {
    var start := n * EVENT_QUEUE_SIZE;
    if start < |batch| {
      var chunk := batch[start..ChunkEnd(start, |batch|)];
      ChunkAlone(p, chunk);
      if answers(n).Drained? {
        EmptyOverwritesNothing(Flush(EnqueueAll(p, chunk), Drained), batch, answers, n + 1);
      }
    }
  }

  /** A batch overwrites records exactly if its first chunk does not fit beside what
      a failed flush left in the queue, whatever its own flushes answer. */
  lemma OverwritesExactly(p: Provider, batch: seq<Record>, answers: nat -> FlushAnswer)
    requires |p.queue| <= EVENT_QUEUE_SIZE
    ensures EmitFrom(p, batch, answers, 0).overwritten != p.overwritten
       <==> batch != [] && |p.queue| + ChunkEnd(0, |batch|) > EVENT_QUEUE_SIZE
  {
    if batch != [] {
      var chunk := batch[0..ChunkEnd(0, |batch|)];
      LeftoversAreOverwritten(p, chunk);
      var next := Flush(EnqueueAll(p, chunk), answers(0));
      if answers(0).Drained? {
        EmptyOverwritesNothing(next, batch, answers, 1);
      }
    }
  }

  datatype EmitError = CtxExpired | Stopped | FlushError | ShutdownError

  class ProviderSink {
    var stopped: bool
    var provider: Provider

    /** The provider is stopped only after the sink was. */
    ghost predicate Valid()
      reads this
    {
      && |provider.queue| <= EVENT_QUEUE_SIZE
      && (provider.stoppedAt.Some? ==> stopped)
      && provider.discarded == []
    }

    constructor ()
      ensures Valid() && !stopped && provider == NEW_PROVIDER
    {
      stopped, provider := false, NEW_PROVIDER;
    }

    /** A batch; answers are what successive flushes return. Without the slot, and
        once the sink is stopped, nothing is touched. A success means the whole batch
        reached the exporter in order and in one piece; if nothing was waiting,
        nothing was overwritten either. */
    method Emit(acquired: bool, batch: seq<Record>, answers: nat -> FlushAnswer) returns (err: Option<EmitError>)
      requires Valid()
      modifies `provider
      ensures Valid() && provider.stoppedAt == old(provider.stoppedAt)
      ensures !acquired || stopped ==> err == Some(if acquired then Stopped else CtxExpired) && provider == old(provider)
      ensures acquired && !stopped ==> err == if AllDrain(answers, 0, |batch|) then None else Some(FlushError)
      ensures acquired && !stopped ==> provider == EmitFrom(old(provider), batch, answers, 0)
      ensures err.None? && batch != [] ==> provider.queue == [] && EndsWith(provider.handed, batch)
      ensures err.None? && old(provider.queue) == [] ==> provider == old(provider).(handed := old(provider.handed) + batch)
      ensures old(provider.handed) <= provider.handed
      ensures old(provider.queue) == [] ==> provider.overwritten == old(provider.overwritten)
    {
      if !acquired {
        return Some(CtxExpired);
      }
      if stopped {
        return Some(Stopped);
      }
      EmitDelivers(provider, provider, batch, answers, 0);
      err := EmitChunks(batch, answers);
      assert batch[..|batch|] == batch;
    }

    /** Chunk by chunk; the first failed flush ends it. */
    method EmitChunks(batch: seq<Record>, answers: nat -> FlushAnswer) returns (err: Option<EmitError>)
      requires Valid() && provider.stoppedAt.None?
      modifies `provider
      ensures provider == EmitFrom(old(provider), batch, answers, 0)
      ensures err == if AllDrain(answers, 0, |batch|) then None else Some(FlushError)
    {
      var start, n := 0, 0;
      while start < |batch|
        invariant start == n * EVENT_QUEUE_SIZE
        invariant forall j :: 0 <= j < n ==> answers(j).Drained?
        invariant |provider.queue| <= EVENT_QUEUE_SIZE && provider.stoppedAt.None?
        invariant EmitFrom(provider, batch, answers, n) == EmitFrom(old(provider), batch, answers, 0)
      {
        var ok := ShipChunk(batch[start..ChunkEnd(start, |batch|)], answers(n));
        if !ok {
          return Some(FlushError);
        }
        n := n + 1;
        start := start + EVENT_QUEUE_SIZE;
      }
      return None;
    }

    /** One chunk and its flush. */
    method ShipChunk(chunk: seq<Record>, answer: FlushAnswer) returns (ok: bool)
      requires |provider.queue| <= EVENT_QUEUE_SIZE && provider.stoppedAt.None? && |chunk| <= EVENT_QUEUE_SIZE
      modifies `provider
      ensures provider == Flush(EnqueueAll(old(provider), chunk), answer) && ok == answer.Drained?
      ensures |provider.queue| <= EVENT_QUEUE_SIZE && provider.stoppedAt.None?
    {
      ChunkFits(provider, chunk);
      EmitChunk(chunk);
      provider := Flush(provider, answer);
      ok := answer.Drained?;
    }

    /** The records of one chunk, one by one. */
    method EmitChunk(chunk: seq<Record>)
      requires provider.stoppedAt.None? && |provider.queue| <= EVENT_QUEUE_SIZE
      modifies `provider
      ensures provider == EnqueueAll(old(provider), chunk)
    {
      ghost var was := provider;
      assert EnqueueAll(was, []) == was by {
        assert was.queue + [] == was.queue;
      }
      for i := 0 to |chunk|
        invariant provider == EnqueueAll(was, chunk[..i])
      {
        EnqueueAllSnoc(was, chunk, i);
        provider := Enqueue(provider, chunk[i]);
      }
      assert chunk[..|chunk|] == chunk;
    }

    /** Marks the sink; the provider is stopped only by a caller that got the slot,
        which then answers as the provider did. */
    method Shutdown(acquired: bool, answer: FlushAnswer) returns (err: Option<EmitError>)
      requires Valid()
      modifies this
      ensures Valid() && stopped
      ensures !acquired ==> err == Some(CtxExpired) && provider == old(provider)
      ensures acquired ==> provider.stoppedAt.Some? && err == if answer.Drained? then None else Some(ShutdownError)
      ensures acquired ==> provider.handed + provider.queue == old(provider.handed + provider.queue)
      ensures acquired && err.None? ==> provider.queue == []
    {
      stopped := true;
      if !acquired {
        return Some(CtxExpired);
      }
      provider := Stop(provider, answer);
      return if answer.Drained? then None else Some(ShutdownError);
    }
  }

  /** Stopping hands over what is queued, or part of it if the time runs out. */
  function Stop(p: Provider, answer: FlushAnswer): Provider {
    Flush(p.(stoppedAt := if p.stoppedAt.Some? then p.stoppedAt else Some(|p.handed|)), answer)
  }
}
