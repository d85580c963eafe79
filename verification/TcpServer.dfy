/** `TcpServer` itself: the set of live connections and `broadcast`. `Simulates` ties its handlers to the
    steps of `Lifecycle`. */
module TcpServers {
  import opened Streams
  import opened SendPipeline
  import opened PipelineInvariants
  import opened Channels
  import Lifecycle

  /** What the server's fields and its connections' sockets say: the live set, every connection there has
      been, the disconnect callbacks that ran, and the connections whose socket is open. */
  datatype Books = Books(live: set<TcpChannel>, accepted: set<TcpChannel>, gone: seq<TcpChannel>, opens: set<TcpChannel>)

  ghost function AfterAccept(k: Books, conn: TcpChannel): Books
  {
    Books(k.live + {conn}, k.accepted + {conn}, k.gone, k.opens + {conn})
  }

  ghost function AfterClose(k: Books, conn: TcpChannel): Books
  {
    if conn in k.opens then Books(k.live - {conn}, k.accepted, k.gone + [conn], k.opens - {conn}) else k
  }

  class TcpServer {
    var connections: set<TcpChannel>
    ghost var accepted: set<TcpChannel>      // every connection there has been
    ghost var gone: seq<TcpChannel>          // the disconnect callbacks that ran

    /** The live set holds exactly the accepted connections that are open; the others had their
        disconnect callback, once each. */
    ghost predicate Valid()
      reads this, accepted
    {
      ValidBut(null)
    }

    /** The same, while a handler of `conn` is between closing its socket and the disconnect callback. */
    ghost predicate ValidBut(conn: TcpChannel?)
      reads this, accepted
    {
      && (forall c :: c in accepted ==> c.Valid())
      && connections <= accepted && (forall c :: c in accepted && c != conn ==> (c in connections <==> c.open))
      && (forall c :: c in gone ==> c in accepted)
      && (forall c :: c in accepted && c != conn ==> (c in gone <==> !c.open))
      && (forall i, j :: 0 <= i < j < |gone| ==> gone[i] != gone[j])
    }

    ghost function Opens(): set<TcpChannel>
      reads this, accepted
    {
      set c | c in accepted && c.open
    }

    ghost function Recorded(): Books
      reads this, accepted
    {
      Books(connections, accepted, gone, Opens())
    }

    constructor ()
      ensures Valid() && Recorded() == Books({}, {}, [], {})
    {
      connections, accepted, gone := {}, {}, [];
    }

    /** The accept handler: a new connection is in the live set before its reads start. */
    method Accept(setup: Setup, ghost threads: nat) returns (conn: TcpChannel)
      requires Valid() && SoundSetup(setup)
      modifies this
      ensures Valid() && fresh(conn)
      ensures Recorded() == AfterAccept(old(Recorded()), conn)
      ensures conn.setup == setup && conn.model == Init<byte>(setup, threads)
    {
      ghost var opens := Opens();
      conn := new TcpChannel(setup, threads);
      connections, accepted := connections + {conn}, accepted + {conn};
      assert Opens() == opens + {conn};
    }

    /** The disconnect callback the server gives every connection. */
    method OnDisconnect(conn: TcpChannel)
      requires conn in accepted && ValidBut(conn) && !conn.open && conn !in gone
      modifies this`connections, this`gone
      ensures Valid() && connections == old(connections) - {conn} && gone == old(gone) + [conn]
      ensures Opens() == old(Opens())
    {
      connections := connections - {conn};
      gone := gone + [conn];
    }

    /** `close` of a connection, for whatever cause: the first one takes it out of the live set and runs
        its disconnect callback; later ones do nothing. */
    method CloseConnection(conn: TcpChannel)
      requires Valid() && conn in accepted
      modifies this`connections, this`gone, conn
      ensures Valid() && !conn.open
      ensures Recorded() == AfterClose(old(Recorded()), conn)
      ensures conn.model == old(conn.model).(open := false)
    {
      var wasOpen := conn.open;
      Shut(conn);
      SocketClosed(conn);
      if wasOpen {
        OnDisconnect(conn);
      }
    }

    /** When nothing but the socket of `conn` has changed, and is now closed. */
    twostate lemma SocketClosed(conn: TcpChannel)
      requires old(Valid()) && conn in accepted && unchanged(this) && conn.Valid() && !conn.open
      requires forall c :: c in accepted && c != conn ==> unchanged(c)
      ensures ValidBut(if old(conn.open) then conn else null) && Opens() == old(Opens()) - {conn}
      ensures old(conn.open) ==> conn !in gone
      ensures !old(conn.open) ==> Valid()
    {
    }

    method Shut(conn: TcpChannel)
      requires conn.Valid()
      modifies conn
      ensures conn.Valid() && !conn.open && conn.model == old(conn.model).(open := false)
    {
      conn.CloseSocket();
    }

    /** The completion handler of a connection's write; a failure closes the connection. */
    method OnWriteComplete(conn: TcpChannel, ok: bool, refused: set<nat>)
      requires Valid() && conn in accepted && Enabled(conn.setup, conn.model, Complete(ok, refused))
      modifies this`connections, this`gone, conn
      ensures Valid()
      ensures conn.model == SendPipeline.Apply(conn.setup, old(conn.model), Complete(ok, refused))
      ensures Recorded() == if ok then old(Recorded()) else AfterClose(old(Recorded()), conn)
    {
      if ok {
        WriteSucceeded(conn, refused);
      } else {
        WriteFailed(conn, refused);
      }
    }

    method WriteSucceeded(conn: TcpChannel, refused: set<nat>)
      requires Valid() && conn in accepted && Enabled(conn.setup, conn.model, Complete(true, refused))
      modifies conn
      ensures Valid() && Recorded() == old(Recorded())
      ensures conn.model == SendPipeline.Apply(conn.setup, old(conn.model), Complete(true, refused))
    {
      ghost var opens := Opens();
      WriteDone(conn, true, refused);
      assert Opens() == opens;
    }

    method WriteFailed(conn: TcpChannel, refused: set<nat>)
      requires Valid() && conn in accepted && Enabled(conn.setup, conn.model, Complete(false, refused))
      modifies this`connections, this`gone, conn
      ensures Valid()
      ensures conn.model == SendPipeline.Apply(conn.setup, old(conn.model), Complete(false, refused))
      ensures Recorded() == AfterClose(old(Recorded()), conn)
    {
      var wasOpen := conn.open;
      WriteDone(conn, false, refused);
      SocketClosed(conn);
      if wasOpen {
        OnDisconnect(conn);
      }
    }

    method WriteDone(conn: TcpChannel, ok: bool, refused: set<nat>)
      requires conn.Valid() && Enabled(conn.setup, conn.model, Complete(ok, refused))
      modifies conn
      ensures conn.Valid() && conn.open == (old(conn.open) && ok)
      ensures conn.model == SendPipeline.Apply(conn.setup, old(conn.model), Complete(ok, refused))
    {
      conn.OnWriteComplete(ok, refused);
    }

    /** `broadcast` by thread `t` over the live connections. It stops at a connection whose pool is empty
        and spins there, with `rest` still to come. */
    method Broadcast(ghost t: nat, data: seq<byte>) returns (spinsOn: TcpChannel?, rest: set<TcpChannel>)
      requires Valid()
      requires forall c :: c in connections ==> t < |c.model.senders| && c.model.senders[t].Idle?
      modifies connections
      ensures Valid() && rest <= connections && (spinsOn != null ==> spinsOn in connections - rest)
      ensures forall c :: c in rest ==> unchanged(c)
      ensures forall c :: c in connections - rest && c != spinsOn ==> Posted(c.setup, old(c.model), c.model, t, data)
      ensures if spinsOn == null then rest == {}
              else old(spinsOn.bufferPool) == {} && LeftSpinning(spinsOn.setup, old(spinsOn.model), spinsOn.model, t, data)
    {
      spinsOn, rest := PostOnAll(connections, t, data);
    }

    /** The broadcaster looks again at the pool it spins on and, if it gets a buffer, goes on with what was
        left of its snapshot. Connections may have closed in the meantime, and then refuse. */
    static method ResumeBroadcast(conn: TcpChannel, left: set<TcpChannel>, ghost t: nat, data: seq<byte>)
      returns (spinsOn: TcpChannel?, rest: set<TcpChannel>)
      requires conn.Valid() && t < |conn.model.senders| && conn.model.senders[t] == Spinning(data)
      requires conn !in left
      requires forall c :: c in left ==> c.Valid() && t < |c.model.senders| && c.model.senders[t].Idle?
      modifies conn, left
      ensures conn.Valid() && conn.open == old(conn.open)
      ensures if old(conn.bufferPool) == {} then spinsOn == conn && rest == left && conn.model == old(conn.model)
              else Posted(conn.setup, old(conn.model), conn.model, t, data)
      ensures rest <= left && (spinsOn != null ==> spinsOn == conn || spinsOn in left - rest)
      ensures forall c :: c in rest ==> unchanged(c)
      ensures forall c :: c in left - rest && c != spinsOn ==> Served(old(c.model), c, t, data)
      ensures if spinsOn == null then rest == {}
              else spinsOn.Valid() && old(spinsOn.bufferPool) == {}
                   && t < |spinsOn.model.senders| && spinsOn.model.senders[t] == Spinning(data)
                   && (spinsOn != conn ==> LeftSpinning(spinsOn.setup, old(spinsOn.model), spinsOn.model, t, data))
    {
      ghost var before := conn.model;
      var posted, buf := conn.Retry(t, data);
      if posted {
        assert [] + PostSteps<byte>(t, buf) == PostSteps(t, buf);
        assert PostedIn(conn.setup, before, conn.model, t, data, buf);
        spinsOn, rest := PostOnAll(left, t, data);
      } else {
        spinsOn, rest := conn, left;
      }
    }

    static method PostOnAll(snapshot: set<TcpChannel>, ghost t: nat, data: seq<byte>)
      returns (spinsOn: TcpChannel?, rest: set<TcpChannel>)
      requires forall c :: c in snapshot ==> c.Valid() && t < |c.model.senders| && c.model.senders[t].Idle?
      modifies snapshot
      ensures rest <= snapshot && (spinsOn != null ==> spinsOn in snapshot - rest)
      ensures forall c :: c in rest ==> unchanged(c)
      ensures forall c :: c in snapshot - rest && c != spinsOn ==> Served(old(c.model), c, t, data)
      ensures if spinsOn == null then rest == {}
              else spinsOn.Valid() && old(spinsOn.open) && old(spinsOn.bufferPool) == {}
                   && LeftSpinning(spinsOn.setup, old(spinsOn.model), spinsOn.model, t, data)
    {
      spinsOn, rest := null, snapshot;
      while rest != {} && spinsOn == null
        invariant rest <= snapshot && (spinsOn != null ==> spinsOn in snapshot - rest)
        invariant forall c :: c in rest ==> unchanged(c)
        invariant forall c :: c in snapshot - rest && c != spinsOn ==> Served(old(c.model), c, t, data)
        invariant spinsOn != null ==>
          && spinsOn.Valid() && old(spinsOn.open) && old(spinsOn.bufferPool) == {}
          && LeftSpinning(spinsOn.setup, old(spinsOn.model), spinsOn.model, t, data)
        decreases |rest|
      {
        var c :| c in rest;
        ghost var before := c.model;
        var r, buf := c.Send(t, data);
        if r.Sent? { assert PostedIn(c.setup, before, c.model, t, data, buf); }
        rest := rest - {c};
        if r.Spins? {
          spinsOn := c;
        }
      }
    }
  }

  // ---- The handlers are steps of the lifecycle machine.

  /** The machine knows what is in the books of a connection; whoever accepted it still refers to it. */
  ghost predicate Knows(m: Lifecycle.State, n: nat, k: Books, c: TcpChannel) {
    && n in m.conns && m.conns[n].phase.Between? && m.conns[n].alive && m.conns[n].refs > 0
    && m.conns[n].open == (c in k.opens) && (n in m.live <==> c in k.live) && (m.conns[n].disconnects == 1 <==> c in k.gone)
  }

  /** `m` is a reachable state of the machine, with the numbers `ids`, that agrees with the books. */
  ghost predicate Simulates(m: Lifecycle.State, ids: map<TcpChannel, nat>, k: Books) {
    && Lifecycle.Reachable(m) && ids.Keys == k.accepted && (forall n :: n in m.conns ==> n in ids.Values)
    && (forall c, d :: c in ids && d in ids && ids[c] == ids[d] ==> c == d)
    && forall c :: c in ids ==> Knows(m, ids[c], k, c)
  }

  lemma StartSimulates()
    ensures Simulates(Lifecycle.Empty, map[], Books({}, {}, [], {}))
  {
    Lifecycle.ReachableEmpty();
  }

  /** `Accept` is the making of a connection and its insertion into the live set. */
  lemma AcceptSimulates(m: Lifecycle.State, ids: map<TcpChannel, nat>, k: Books, conn: TcpChannel, n: nat)
    requires Simulates(m, ids, k) && conn !in k.accepted && n !in m.conns
    requires conn !in k.live && conn !in k.gone
    ensures var made := Lifecycle.Apply(m, Lifecycle.Accept(n));
      && Lifecycle.Enabled(made, Lifecycle.Insert(n))
      && Simulates(Lifecycle.Apply(made, Lifecycle.Insert(n)), ids[conn := n], AfterAccept(k, conn))
  {
    var made := Lifecycle.Apply(m, Lifecycle.Accept(n));
    Lifecycle.ReachableStep(m, Lifecycle.Accept(n));
    Lifecycle.ReachableStep(made, Lifecycle.Insert(n));
    var m', ids' := Lifecycle.Apply(made, Lifecycle.Insert(n)), ids[conn := n];
    forall c | c in ids' ensures Knows(m', ids'[c], AfterAccept(k, conn), c) {
      if c != conn { assert Knows(m, ids[c], k, c); }
    }
    assert ids'[conn] == n && n in ids'.Values;
    forall i | i in m.conns ensures i in ids'.Values {
      var c: TcpChannel :| c in ids && ids[c] == i;
      assert ids'[c] == i;
    }
  }

  /** A close by a handler is a close run inline and, if the socket was open, the callback that ends it. */
  lemma CloseSimulates(m: Lifecycle.State, ids: map<TcpChannel, nat>, k: Books, conn: TcpChannel, cause: Lifecycle.Cause)
    returns (m': Lifecycle.State)
    requires Simulates(m, ids, k) && conn in k.accepted
    ensures Simulates(m', ids, AfterClose(k, conn)) && ClosedBy(m, m', ids[conn], cause)
  {
    var n := ids[conn];
    assert Knows(m, n, k, conn);
    Lifecycle.BetweenIsExact(m, n);
    Lifecycle.ReachableStep(m, Lifecycle.CloseInline(n, cause));
    m' := Lifecycle.Apply(m, Lifecycle.CloseInline(n, cause));
    if conn in k.opens {
      Lifecycle.ReachableStep(m', Lifecycle.EndClose(n));
      m' := Lifecycle.Apply(m', Lifecycle.EndClose(n));
    }
    forall c | c in ids ensures Knows(m', ids[c], AfterClose(k, conn), c) {
      assert Knows(m, ids[c], k, c);
    }
  }

  ghost predicate ClosedBy(m: Lifecycle.State, m': Lifecycle.State, n: nat, cause: Lifecycle.Cause) {
    var step, end := Lifecycle.CloseInline(n, cause), Lifecycle.EndClose(n);
    && Lifecycle.Enabled(m, step)
    && var closed := Lifecycle.Apply(m, step);
       if m.conns[n].open then Lifecycle.Enabled(closed, end) && m' == Lifecycle.Apply(closed, end) else m' == closed
  }

  /** One more message, from thread `t`, and nothing else has happened. */
  ghost predicate Posted(c: Setup, s: State<byte>, s': State<byte>, t: nat, data: seq<byte>) {
    && s'.log == s.log + [data] && s'.authors == s.authors + [t] && s'.open == s.open
    && exists b: nat :: PostedIn(c, s, s', t, data, b)
  }

  ghost predicate PostedIn(c: Setup, s: State<byte>, s': State<byte>, t: nat, data: seq<byte>, b: nat) {
    var steps := (if t < |s.senders| && s.senders[t] == Spinning(data) then [] else [Begin(t, data)]) + PostSteps(t, b);
    IsRun(c, s, steps) && s' == Exec(c, s, steps)
  }

  /** Thread `t` waits for a buffer to put `data` in, and nothing else has happened. */
  ghost predicate LeftSpinning(c: Setup, s: State<byte>, s': State<byte>, t: nat, data: seq<byte>) {
    Enabled(c, s, Begin(t, data)) && s' == SendPipeline.Apply(c, s, Begin(t, data))
  }

  /** The message is posted if the connection, whose state was `s`, is open; otherwise it is as it was. */
  ghost predicate Served(s: State<byte>, c: TcpChannel, t: nat, data: seq<byte>)
    reads c
  {
    c.Valid() && if s.open then Posted(c.setup, s, c.model, t, data) else c.model == s
  }
}
