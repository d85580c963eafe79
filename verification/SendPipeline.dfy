/** The send path of `TcpConnection`, `TcpClient` and `UdpEndpoint` as a step machine: any number of
    sender threads, a fixed pool of buffers, a strand with its queue of posted handlers, a ring of
    queued buffers and at most one asynchronous write.

    `U` is what the socket transmits in one piece: a byte for TCP, an addressed datagram for UDP. */
module SendPipeline {
  import opened Streams

  /** Buffers made by the constructor, capacity of the ring, and how many buffers one write may gather. */
  datatype Setup = Setup(pool: nat, ring: nat, batch: nat)

  /** A thread inside `send`: spinning on the pool, filling the buffer it popped, or about to post it. */
  datatype Sender<U> =
    | Idle
    | Spinning(payload: seq<U>)
    | Filling(buf: nat, payload: seq<U>)
    | Filled(buf: nat, payload: seq<U>)

  /** One entry of the gather list: a pointer to a buffer and the length it had when the write began. */
  datatype Slice = Slice(buf: nat, len: nat)

  datatype Write = NoWrite | Writing(sent: nat)

  datatype State<U> = State(
    senders: seq<Sender<U>>,
    memory: seq<seq<U>>,          // the buffers, by number
    pool: set<nat>,
    deleted: set<nat>,
    posted: seq<nat>,             // handlers waiting on the strand, in order
    queue: seq<nat>,              // the ring, oldest first
    slices: seq<Slice>,
    active: nat,
    write: Write,
    open: bool,
    failed: bool,                 // a write has completed with an error
    wire: seq<U>,                 // everything handed to the network so far
    // History
    log: seq<seq<U>>,             // payloads in the order they were posted
    authors: seq<nat>,            // ... and the thread that posted each
    issued: seq<seq<seq<U>>>,     // what each thread's `send` calls accepted, in program order
    recycled: nat)                // how many payloads have left the queue

  function AllBuffers(n: nat): (r: set<nat>)
    ensures forall b :: b in r <==> 0 <= b < n
    ensures |r| == n
  {
    if n == 0 then {} else AllBuffers(n - 1) + {n - 1}
  }

  function Init<U>(c: Setup, threads: nat): State<U>
  {
    State(seq(threads, _ => Idle), seq(c.pool, _ => []), AllBuffers(c.pool), {}, [], [], [], 0, NoWrite,
          true, false, [], [], [], seq(threads, _ => []), 0)
  }

  /** The bytes a pointer leads to. */
  function At<U>(memory: seq<seq<U>>, b: nat): seq<U>
  {
    if b < |memory| then memory[b] else []
  }

  function Contents<U>(memory: seq<seq<U>>, q: seq<nat>): seq<seq<U>>
  {
    seq(|q|, i requires 0 <= i < |q| => At(memory, q[i]))
  }

  function SlicesOf<U>(memory: seq<seq<U>>, q: seq<nat>): seq<Slice>
  {
    seq(|q|, i requires 0 <= i < |q| => Slice(q[i], |At(memory, q[i])|))
  }

  /** What a gather list reads from memory now. */
  function Gather<U>(memory: seq<seq<U>>, slices: seq<Slice>): seq<U>
  {
    if slices == [] then []
    else
      var m := At(memory, slices[0].buf);
      m[..Min(slices[0].len, |m|)] + Gather(memory, slices[1..])
  }

  /** `push_back` of a circular buffer: when it is full the oldest element is overwritten. */
  function RingPush(capacity: nat, q: seq<nat>, b: nat): seq<nat>
  {
    if capacity == 0 then []
    else if |q| < capacity then q + [b]
    else q[1..] + [b]
  }

  /** `do_write`: gathers the oldest buffers up to the batch limit and starts the write. */
  function DoWrite<U>(c: Setup, s: State<U>): State<U>
  {
    var k := Min(c.batch, |s.queue|);
    s.(slices := SlicesOf(s.memory, s.queue[..k]), active := k, write := Writing(0))
  }

  datatype Step<U> =
    | Begin(t: nat, payload: seq<U>)     // `send` is called and passes its open check
    | Pop(t: nat, b: nat)
    | Scribble(t: nat, junk: seq<U>)     // the buffer half way through resize, copy, or target change
    | Fill(t: nat)
    | Post(t: nat)
    | RunPost                            // the strand runs the oldest posted handler
    | Emit(n: nat)                       // the network takes the next n units of the outstanding write
    | Complete(ok: bool, lost: set<nat>) // completion handler; `lost` are the buffers the pool refused
    | Close                              // the strand closes the socket, for whatever reason

  function Unsent<U>(s: State<U>): int
    requires s.write.Writing?
  {
    |Gather(s.memory, s.slices)| - s.write.sent
  }

  function Batch<U>(s: State<U>): seq<nat>
  {
    s.queue[..Min(s.active, |s.queue|)]
  }

  predicate Enabled<U(==)>(c: Setup, s: State<U>, step: Step<U>)
  {
    match step
    case Begin(t, _) => t < |s.senders| == |s.issued| && s.senders[t].Idle? && s.open
    case Pop(t, b) => t < |s.senders| && s.senders[t].Spinning? && b in s.pool
    case Scribble(t, _) => t < |s.senders| && s.senders[t].Filling? && s.senders[t].buf < |s.memory|
    case Fill(t) => t < |s.senders| && s.senders[t].Filling? && s.senders[t].buf < |s.memory|
    case Post(t) => t < |s.senders| && s.senders[t].Filled?
    case RunPost => s.posted != []
    case Emit(n) => s.write.Writing? && s.open && n <= Unsent(s)
    case Complete(ok, lost) =>
      s.write.Writing? && (ok ==> Unsent(s) == 0) && forall b :: b in lost ==> b in Batch(s)
    case Close => true
  }

  function Apply<U(==)>(c: Setup, s: State<U>, step: Step<U>): State<U>
    requires Enabled(c, s, step)
  {
    match step
    case Begin(t, p) =>
      s.(senders := s.senders[t := Spinning(p)], issued := s.issued[t := s.issued[t] + [p]])
    case Pop(t, b) =>
      s.(senders := s.senders[t := Filling(b, s.senders[t].payload)], pool := s.pool - {b})
    case Scribble(t, junk) =>
      s.(memory := s.memory[s.senders[t].buf := junk])
    case Fill(t) =>
      var Filling(b, p) := s.senders[t];
      s.(memory := s.memory[b := p], senders := s.senders[t := Filled(b, p)])
    case Post(t) =>
      var Filled(b, p) := s.senders[t];
      s.(senders := s.senders[t := Idle], posted := s.posted + [b], log := s.log + [p], authors := s.authors + [t])
    case RunPost =>
      var s1 := s.(posted := s.posted[1..], queue := RingPush(c.ring, s.queue, s.posted[0]));
      if s.queue == [] then DoWrite(c, s1) else s1
    case Emit(n) =>
      s.(wire := s.wire + Gather(s.memory, s.slices)[s.write.sent..][..n], write := Writing(s.write.sent + n))
    case Complete(ok, lost) =>
      var batch := Batch(s);
      var s1 := s.(queue := s.queue[|batch|..], write := NoWrite, recycled := s.recycled + |batch|,
                   pool := s.pool + (ToSet(batch) - lost), deleted := s.deleted + lost);
      if !ok then s1.(open := false, failed := true)
      else if s1.queue != [] then DoWrite(c, s1)
      else s1
    case Close => s.(open := false)
  }

  function ToSet(q: seq<nat>): set<nat> { set b | b in q }

  /** Every step of the run is enabled when it is taken. */
  predicate IsRun<U(==)>(c: Setup, s: State<U>, run: seq<Step<U>>)
    decreases |run|
  {
    run == [] || (Enabled(c, s, run[0]) && IsRun(c, Apply(c, s, run[0]), run[1..]))
  }

  function Exec<U(==)>(c: Setup, s: State<U>, run: seq<Step<U>>): State<U>
    requires IsRun(c, s, run)
    decreases |run|
  {
    if run == [] then s else Exec(c, Apply(c, s, run[0]), run[1..])
  }

  lemma {:induction false} ExecAppend<U>(c: Setup, s: State<U>, xs: seq<Step<U>>, ys: seq<Step<U>>)
    requires IsRun(c, s, xs) && IsRun(c, Exec(c, s, xs), ys)
    ensures IsRun(c, s, xs + ys) && Exec(c, s, xs + ys) == Exec(c, Exec(c, s, xs), ys)
    decreases |xs|
  {
    if xs == [] {
      assert xs + ys == ys;
    } else {
      assert (xs + ys)[0] == xs[0] && (xs + ys)[1..] == xs[1..] + ys;
      ExecAppend(c, Apply(c, s, xs[0]), xs[1..], ys);
    }
  }
}
