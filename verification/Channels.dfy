/** The send side of the classes themselves: the methods that move buffers between the pool, the strand,
    the ring and the outstanding write, each proved to be one step (or, for `send`, one thread's steps)
    of the send pipeline. */
module Channels {
  import opened Streams
  import opened SendPipeline
  import opened PipelineInvariants
  import opened PipelineTheorems

  /** How far a call of `send` came: refused, posted, or still spinning on the empty pool. */
  datatype Outcome = Refused | Sent | Spins

  /** `push_back` on the ring. */
  method RingPushBack(capacity: nat, q: seq<nat>, b: nat) returns (r: seq<nat>)
    requires |q| <= capacity
    ensures r == RingPush(capacity, q, b)
    ensures |r| <= capacity
  {
    r := q;
    if |r| == capacity && capacity > 0 {
      r := r[1..];
    }
    if capacity > 0 {
      r := r + [b];
    }
  }

  /** `TcpConnection`, and `TcpClient` once it is connected. */
  class TcpChannel {
    const setup: Setup
    var memory: seq<seq<byte>>       // the vectors, by number
    var bufferPool: set<nat>
    var strand: seq<nat>             // posted handlers
    var sendQueue: seq<nat>
    var writeBuffers: seq<Slice>
    var activeWrites: nat
    var open: bool
    ghost const threads: nat
    ghost var model: State<byte>     // the state of the pipeline these fields are part of

    ghost predicate Valid()
      reads this
    {
      && SoundSetup(setup) && Reachable(setup, threads, model)
      && memory == model.memory && bufferPool == model.pool && strand == model.posted
      && sendQueue == model.queue && writeBuffers == model.slices && activeWrites == model.active
      && open == model.open
    }

    constructor (setup: Setup, ghost threads: nat)
      requires SoundSetup(setup)
      ensures Valid() && this.setup == setup && this.threads == threads && model == Init<byte>(setup, threads)
    {
      this.setup, this.threads := setup, threads;
      memory := seq(setup.pool, _ => []);
      bufferPool := AllBuffers(setup.pool);
      strand, sendQueue, writeBuffers, activeWrites, open := [], [], [], 0, true;
      model := Init<byte>(setup, threads);
      ReachableInit<byte>(setup, threads);
    }

    /** `send` by thread `t`, up to its first look at the pool and on from there if there is a buffer. It
        fails without any effect when the socket is closed. */
    method Send(ghost t: nat, data: seq<byte>) returns (r: Outcome, ghost buf: nat)
      requires Valid() && t < |model.senders| && model.senders[t].Idle?
      modifies this
      ensures Valid() && open == old(open)
      ensures r == if !old(open) then Refused else if old(bufferPool) == {} then Spins else Sent
      ensures r.Refused? ==> model == old(model)
      ensures r.Spins? ==> Enabled(setup, old(model), Begin(t, data)) && model == Apply(setup, old(model), Begin(t, data))
      ensures r.Sent? ==>
        && IsRun(setup, old(model), [Begin(t, data)] + PostSteps(t, buf))
        && model == Exec(setup, old(model), [Begin(t, data)] + PostSteps(t, buf))
        && model.log == old(model.log) + [data] && model.authors == old(model.authors) + [t]
    {
      buf := 0;
      if !open {
        return Refused, buf;
      }
      SendSizes(setup, threads, model);
      ReachableStep(setup, threads, model, Begin(t, data));
      ghost var before := model;
      model := Apply(setup, model, Begin(t, data));
      var posted;
      posted, buf := Retry(t, data);
      if posted {
        ExecOne(setup, before, Begin(t, data), PostSteps(t, buf));
      }
      return if posted then Sent else Spins, buf;
    }

    /** One more look at the pool by thread `t`, which spins in `send`. It does not look at the socket again. */
    method Retry(ghost t: nat, data: seq<byte>) returns (posted: bool, ghost buf: nat)
      requires Valid() && t < |model.senders| && model.senders[t] == Spinning(data)
      modifies this
      ensures Valid() && open == old(open) && posted == (old(bufferPool) != {})
      ensures !posted ==> model == old(model)
      ensures posted ==>
        && IsRun(setup, old(model), PostSteps(t, buf)) && model == Exec(setup, old(model), PostSteps(t, buf))
        && buf in old(bufferPool) && bufferPool == old(bufferPool) - {buf}
        && model.log == old(model.log) + [data] && model.authors == old(model.authors) + [t]
        && model.senders == old(model.senders)[t := Idle]
    {
      buf := 0;
      if bufferPool == {} {
        return false, buf;
      }
      var b :| b in bufferPool;
      buf := b;
      model := PostedBy(setup, threads, model, t, data, b);
      bufferPool := bufferPool - {b};
      memory := memory[b := data];
      strand := strand + [b];
      return true, buf;
    }

    /** Collects the gather list for the next write. */
    method DoWrite()
      modifies this`writeBuffers, this`activeWrites
      ensures activeWrites == Min(setup.batch, |sendQueue|)
      ensures writeBuffers == SlicesOf(memory, sendQueue[..activeWrites])
    {
      writeBuffers, activeWrites := [], 0;
      for i := 0 to |sendQueue|
        invariant activeWrites == Min(i, setup.batch)
        invariant writeBuffers == SlicesOf(memory, sendQueue[..activeWrites])
      {
        if activeWrites >= setup.batch { break; }
        writeBuffers := writeBuffers + [Slice(sendQueue[i], |At(memory, sendQueue[i])|)];
        activeWrites := activeWrites + 1;
      }
    }

    /** The strand runs the oldest handler posted by `send`. */
    method RunPosted()
      requires Valid() && strand != []
      modifies this
      ensures Valid() && model == Apply(setup, old(model), RunPost)
    {
      NoOverwrite(setup, threads, model);
      ReachableStep(setup, threads, model, RunPost);
      var startWrite := sendQueue == [];
      sendQueue := RingPushBack(setup.ring, sendQueue, strand[0]);
      strand := strand[1..];
      if startWrite {
        DoWrite();
      }
      model := Apply(setup, model, RunPost);
    }

    /** The network takes the next `n` bytes of the outstanding write, reading them from the vectors. */
    ghost method NetworkTakes(n: nat)
      requires Valid() && Enabled(setup, model, Emit(n))
      modifies this`model
      ensures Valid() && model == Apply(setup, old(model), Emit(n))
      ensures model.wire == old(model.wire) + Gather(memory, writeBuffers)[old(model.write.sent)..][..n]
    {
      ReachableStep(setup, threads, model, Emit(n));
      model := Apply(setup, model, Emit(n));
    }

    /** Takes the written batch off the queue. `refused` are the buffers the lock-free pool does not
        take back; they are deleted. */
    method RecycleBatch(refused: set<nat>)
      requires activeWrites <= |sendQueue|
      modifies this`sendQueue, this`bufferPool
      ensures sendQueue == old(sendQueue)[activeWrites..]
      ensures bufferPool == old(bufferPool) + (ToSet(old(sendQueue)[..activeWrites]) - refused)
    {
      ghost var batch := sendQueue[..activeWrites];
      for i := 0 to activeWrites
        invariant sendQueue == old(sendQueue)[i..]
        invariant bufferPool == old(bufferPool) + (ToSet(batch[..i]) - refused)
      {
        var b := sendQueue[0];
        assert batch[..i + 1] == batch[..i] + [b];
        sendQueue := sendQueue[1..];
        if b !in refused {
          bufferPool := bufferPool + {b};
        }
      }
      assert batch[..|batch|] == batch;
    }

    /** The completion handler of the outstanding write. */
    method OnWriteComplete(ok: bool, refused: set<nat>)
      requires Valid() && Enabled(setup, model, Complete(ok, refused))
      modifies this
      ensures Valid() && model == Apply(setup, old(model), Complete(ok, refused))
    {
      ReachableStep(setup, threads, model, Complete(ok, refused));
      CompletionRecyclesTheBatch(setup, threads, model, ok, refused);
      RecycleBatch(refused);
      if ok && sendQueue != [] {
        DoWrite();
      } else if !ok {
        open := false;
      }
      model := Apply(setup, model, Complete(ok, refused));
    }

    /** `close`, on the strand. */
    method CloseSocket()
      requires Valid()
      modifies this
      ensures Valid() && model == Apply(setup, old(model), Close)
    {
      ReachableStep(setup, threads, model, Close);
      if open {
        open := false;
      }
      model := Apply(setup, model, Close);
    }
  }

  /** The state after the spinning thread `t` has got buffer `b` and posted `data` in it. */
  ghost function PostedBy<U(!new)>(c: Setup, threads: nat, s: State<U>, t: nat, data: seq<U>, b: nat): (r: State<U>)
    requires Reachable(c, threads, s) && SoundSetup(c)
    requires t < |s.senders| && s.senders[t] == Spinning(data) && b in s.pool
    ensures IsRun(c, s, PostSteps(t, b)) && r == Exec(c, s, PostSteps(t, b))
    ensures Reachable(c, threads, r) && b < |s.memory|
    ensures r == s.(memory := s.memory[b := data], pool := s.pool - {b}, posted := s.posted + [b],
                    log := s.log + [data], authors := s.authors + [t], senders := s.senders[t := Idle])
  {
    SendSizes(c, threads, s);
    var s1 := Apply(c, s, Pop(t, b));
    var s2 := Apply(c, s1, Fill(t));
    var s3 := Apply(c, s2, Post(t));
    ThreeSteps(c, threads, s, s1, s2, Pop(t, b), Fill(t), Post(t));
    assert s3.senders == s.senders[t := Idle];
    s3
  }

  lemma SendSizes<U(!new)>(c: Setup, threads: nat, s: State<U>)
    requires Reachable(c, threads, s) && SoundSetup(c)
    ensures |s.issued| == |s.senders| && forall b :: b in s.pool ==> b < |s.memory|
  {
    ReachableInvariant(c, threads, s);
    forall b | b in s.pool ensures b < |s.memory| {
      assert Places(s, b) == One(b < c.pool);
    }
  }

  lemma ThreeSteps<U(!new)>(c: Setup, threads: nat, s0: State<U>, s1: State<U>, s2: State<U>,
                            a: Step<U>, b: Step<U>, d: Step<U>)
    requires Reachable(c, threads, s0) && Enabled(c, s0, a) && s1 == Apply(c, s0, a)
    requires Enabled(c, s1, b) && s2 == Apply(c, s1, b) && Enabled(c, s2, d)
    ensures IsRun(c, s0, [a, b, d]) && Exec(c, s0, [a, b, d]) == Apply(c, s2, d)
    ensures Reachable(c, threads, Apply(c, s2, d))
  {
    ExecOne(c, s2, d, []);
    ExecOne(c, s1, b, [d]);
    ExecOne(c, s0, a, [b, d]);
    assert [a, b, d] == [a] + [b, d] && [b, d] == [b] + [d] && [d] == [d] + [];
    ReachableStep(c, threads, s0, a);
    ReachableStep(c, threads, s1, b);
    ReachableStep(c, threads, s2, d);
  }

  ghost function PostSteps<U>(t: nat, b: nat): seq<Step<U>>
  {
    [Pop(t, b), Fill(t), Post(t)]
  }
}
