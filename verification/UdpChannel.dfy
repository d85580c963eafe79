/** `UdpEndpoint`: items of the pool carry a buffer and a target, both overwritten in place, and the
    writer sends the front item of the ring alone. */
module UdpChannels {
  import opened Streams
  import opened SendPipeline
  import opened PipelineInvariants
  import opened PipelineTheorems
  import opened Channels
  import opened Datagrams

  datatype UdpItem = UdpItem(buf: seq<byte>, target: nat)

  /** The message to put on the wire for an item. */
  function MessageOf(item: UdpItem): Datagram { Datagram(item.target, item.buf) }

  /** The items in `q` carry what the pipeline's memory says. */
  ghost predicate Loaded(items: seq<UdpItem>, memory: seq<seq<Datagram>>, q: seq<nat>) {
    forall i :: 0 <= i < |q| ==> q[i] < |items| && At(memory, q[i]) == [MessageOf(items[q[i]])]
  }

  lemma LoadedByPost(items: seq<UdpItem>, memory: seq<seq<Datagram>>, strand: seq<nat>, queue: seq<nat>, b: nat,
                     data: seq<byte>, target: nat)
    requires Loaded(items, memory, strand) && Loaded(items, memory, queue)
    requires b < |items| && b < |memory| && b !in strand && b !in queue
    ensures var items', memory' := items[b := UdpItem(data, target)], memory[b := [Datagram(target, data)]];
      Loaded(items', memory', strand + [b]) && Loaded(items', memory', queue)
  {
  }

  lemma LoadedTail(items: seq<UdpItem>, memory: seq<seq<Datagram>>, queue: seq<nat>)
    requires Loaded(items, memory, queue) && queue != []
    ensures Loaded(items, memory, queue[1..])
  {
  }

  class UdpChannel {
    const setup: Setup
    var items: seq<UdpItem>
    var bufferPool: set<nat>
    var strand: seq<nat>
    var sendQueue: seq<nat>
    var sending: nat              // the item and the target handed to the outstanding send
    var sendingTo: nat
    var open: bool
    ghost const threads: nat
    ghost var model: State<Datagram>

    ghost predicate Valid()
      reads this
    {
      && SoundSetup(setup) && setup.batch == 1 && Reachable(setup, threads, model) && |items| == setup.pool
      && bufferPool == model.pool && strand == model.posted && sendQueue == model.queue && open == model.open
      && Loaded(items, model.memory, strand) && Loaded(items, model.memory, sendQueue)
      && (model.write.Writing? ==>
            sendQueue != [] && sending == sendQueue[0] < |items| && sendingTo == items[sending].target)
    }

    constructor (setup: Setup, ghost threads: nat)
      requires SoundSetup(setup) && setup.batch == 1
      ensures Valid() && this.setup == setup && this.threads == threads
      ensures model == Init<Datagram>(setup, threads)
    {
      this.setup, this.threads := setup, threads;
      items := seq(setup.pool, _ => UdpItem([], 0));
      bufferPool := AllBuffers(setup.pool);
      strand, sendQueue, open := [], [], true;
      sending, sendingTo := 0, 0;
      model := Init<Datagram>(setup, threads);
      ReachableInit<Datagram>(setup, threads);
    }

    /** `send_to` by thread `t`, up to its first look at the pool and on from there if there is an item. */
    method SendTo(ghost t: nat, data: seq<byte>, target: nat) returns (r: Outcome, ghost item: nat)
      requires Valid() && t < |model.senders| && model.senders[t].Idle?
      modifies this
      ensures Valid() && open == old(open)
      ensures r == if !old(open) then Refused else if old(bufferPool) == {} then Spins else Sent
      ensures r.Refused? ==> model == old(model)
      ensures var begin := Begin(t, [Datagram(target, data)]);
        && (r.Spins? ==> Enabled(setup, old(model), begin) && model == Apply(setup, old(model), begin))
        && (r.Sent? ==>
              && IsRun(setup, old(model), [begin] + PostSteps(t, item))
              && model == Exec(setup, old(model), [begin] + PostSteps(t, item))
              && model.log == old(model.log) + [[Datagram(target, data)]])
    {
      item := 0;
      if !open {
        return Refused, item;
      }
      ghost var before, begin := model, Begin(t, [Datagram(target, data)]);
      SendSizes(setup, threads, model);
      ReachableStep(setup, threads, model, begin);
      model := Apply(setup, model, begin);
      var posted;
      posted, item := Retry(t, data, target);
      if posted {
        ExecOne(setup, before, begin, PostSteps(t, item));
      }
      return if posted then Sent else Spins, item;
    }

    /** One more look at the pool by thread `t`, which spins in `send_to`. */
    method Retry(ghost t: nat, data: seq<byte>, target: nat) returns (posted: bool, ghost item: nat)
      requires Valid() && t < |model.senders| && model.senders[t] == Spinning([Datagram(target, data)])
      modifies this
      ensures Valid() && open == old(open) && posted == (old(bufferPool) != {})
      ensures !posted ==> model == old(model)
      ensures posted ==>
        && IsRun(setup, old(model), PostSteps(t, item)) && model == Exec(setup, old(model), PostSteps(t, item))
        && model.log == old(model.log) + [[Datagram(target, data)]]
    {
      item := 0;
      if bufferPool == {} {
        return false, item;
      }
      var b :| b in bufferPool;
      item := b;
      PooledIsExclusive(setup, threads, model, b);
      NoMessageForgotten(setup, threads, model);
      ghost var memory := model.memory;
      model := PostedBy(setup, threads, model, t, [Datagram(target, data)], b);
      LoadedByPost(items, memory, strand, sendQueue, b, data, target);
      bufferPool := bufferPool - {b};
      items := items[b := items[b].(buf := data)];
      items := items[b := items[b].(target := target)];
      assert items == old(items)[b := UdpItem(data, target)];
      strand := strand + [b];
      return true, item;
    }

    /** Starts the send of the front item. */
    method DoWrite()
      requires sendQueue != [] && sendQueue[0] < |items|
      modifies this`sending, this`sendingTo
      ensures sending == sendQueue[0] && sendingTo == items[sending].target
    {
      sending := sendQueue[0];
      sendingTo := items[sending].target;
    }

    method RunPosted()
      requires Valid() && strand != []
      modifies this
      ensures Valid() && model == Apply(setup, old(model), RunPost)
    {
      NoOverwrite(setup, threads, model);
      NoMessageForgotten(setup, threads, model);
      ReachableStep(setup, threads, model, RunPost);
      var startWrite := sendQueue == [];
      sendQueue := RingPushBack(setup.ring, sendQueue, strand[0]);
      strand := strand[1..];
      if startWrite {
        DoWrite();
      }
      model := Apply(setup, model, RunPost);
    }

    /** The network takes the outstanding datagram; it is the one `send_to` was called with. */
    method NetworkTakes() returns (message: Datagram)
      requires Valid() && Enabled(setup, model, Emit(1))
      modifies this`model
      ensures Valid() && model == Apply(setup, old(model), Emit(1))
      ensures model.wire == old(model.wire) + [message]
      ensures old(model.recycled) < |model.log| && model.log[old(model.recycled)] == [message]
    {
      message := Datagram(sendingTo, items[sending].buf);
      ReachableStep(setup, threads, model, Emit(1));
      FrontIsLogged(setup, threads, model);
      assert model.write.sent == 0 && Gather(model.memory, model.slices) == [message];
      model := Apply(setup, model, Emit(1));
    }

    /** Takes the front item off the ring; the pool gets it back, or refuses it and it is deleted. */
    method RecycleFront(refused: set<nat>)
      requires sendQueue != []
      modifies this`sendQueue, this`bufferPool
      ensures sendQueue == old(sendQueue)[1..]
      ensures bufferPool == old(bufferPool) + ({old(sendQueue)[0]} - refused)
    {
      var b := sendQueue[0];
      sendQueue := sendQueue[1..];
      if b !in refused {
        bufferPool := bufferPool + {b};
      }
    }

    /** The completion handler of the outstanding send. */
    method OnSendComplete(ok: bool, refused: set<nat>)
      requires Valid() && Enabled(setup, model, Complete(ok, refused))
      modifies this
      ensures Valid() && model == Apply(setup, old(model), Complete(ok, refused))
    {
      ghost var next := Apply(setup, model, Complete(ok, refused));
      SendCompleted(setup, threads, model, ok, refused);
      FinishSend(ok, refused, next);
    }

    /** The same against the state `next` that the model goes to. */
    method FinishSend(ok: bool, refused: set<nat>, ghost next: State<Datagram>)
      requires Valid() && sendQueue != [] && Reachable(setup, threads, next)
      requires next.memory == model.memory && next.posted == strand && next.open == (open && ok)
      requires next.queue == sendQueue[1..] && next.pool == bufferPool + ({sendQueue[0]} - refused)
      requires next.write.Writing? ==> ok && next.queue != []
      modifies this
      ensures Valid() && model == next
    {
      RecycleFront(refused);
      if ok && sendQueue != [] {
        assert sendQueue[0] == old(sendQueue)[1];
        DoWrite();
      } else if !ok {
        open := false;
      }
      LoadedTail(items, model.memory, old(sendQueue));
      model := next;
    }
  }

  lemma SendCompleted<U(!new)>(c: Setup, threads: nat, s: State<U>, ok: bool, refused: set<nat>)
    requires Reachable(c, threads, s) && SoundSetup(c) && c.batch == 1 && Enabled(c, s, Complete(ok, refused))
    ensures s.queue != []
    ensures var s' := Apply(c, s, Complete(ok, refused));
      && Reachable(c, threads, s')
      && s'.memory == s.memory && s'.posted == s.posted && s'.open == (s.open && ok)
      && s'.queue == s.queue[1..] && s'.pool == s.pool + ({s.queue[0]} - refused)
      && (s'.write.Writing? ==> ok && s'.queue != [])
  {
    ReachableStep(c, threads, s, Complete(ok, refused));
    BatchIsFront(c, threads, s);
    assert ToSet([s.queue[0]]) == {s.queue[0]};
  }

  lemma PooledIsExclusive<U(!new)>(c: Setup, threads: nat, s: State<U>, b: nat)
    requires Reachable(c, threads, s) && SoundSetup(c) && b in s.pool
    ensures b < c.pool && b !in s.posted && b !in s.queue
  {
    ReachableInvariant(c, threads, s);
    assert Places(s, b) == One(b < c.pool);
    CountIn(s.posted, b);
    CountIn(s.queue, b);
  }

  lemma BatchIsFront<U(!new)>(c: Setup, threads: nat, s: State<U>)
    requires Reachable(c, threads, s) && SoundSetup(c) && s.write.Writing? && c.batch == 1
    ensures s.queue != [] && Batch(s) == [s.queue[0]]
  {
    ReachableInvariant(c, threads, s);
  }

  /** The outstanding send transmits the oldest payload that is not recycled. */
  lemma FrontIsLogged<U(!new)>(c: Setup, threads: nat, s: State<U>)
    requires Reachable(c, threads, s) && SoundSetup(c) && s.write.Writing? && c.batch == 1
    ensures s.queue != [] && s.recycled < |s.log| && s.log[s.recycled] == At(s.memory, s.queue[0])
    ensures Gather(s.memory, s.slices) == At(s.memory, s.queue[0])
  {
    ReachableInvariant(c, threads, s);
    assert s.log[s.recycled..][0] == Contents(s.memory, s.queue + s.posted)[0];
    assert s.queue[..1] == [s.queue[0]];
    GatherIsContents(s.memory, [s.queue[0]]);
    assert Contents(s.memory, [s.queue[0]]) == [At(s.memory, s.queue[0])];
    FlattenOne(At(s.memory, s.queue[0]));
  }
}
