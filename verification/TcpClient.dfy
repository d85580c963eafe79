/** `TcpClient`: the send side of a connection behind the `is_connected_` flag. */
module TcpClients {
  import opened Streams
  import opened SendPipeline
  import opened PipelineInvariants
  import opened Channels

  /** From the call of `connect` on, which gives the client its socket. */
  class TcpClient {
    const channel: TcpChannel
    var isConnected: bool

    ghost predicate Valid()
      reads this, channel
    {
      channel.Valid()
    }

    constructor (setup: Setup, ghost threads: nat)
      requires SoundSetup(setup)
      ensures Valid() && fresh(channel) && !isConnected
      ensures channel.setup == setup && channel.model == Init<byte>(setup, threads)
    {
      channel := new TcpChannel(setup, threads);
      isConnected := false;
    }

    /** The completion handler of `connect`. */
    method OnConnectComplete(ok: bool)
      requires Valid()
      modifies this`isConnected
      ensures Valid() && isConnected == (old(isConnected) || ok)
    {
      if ok {
        isConnected := true;
      }
    }

    /** Refused without effect unless the handshake is done and the socket still open; with an empty pool
        the thread is left spinning, and `channel.Retry` is its next look. */
    method Send(ghost t: nat, data: seq<byte>) returns (r: Outcome, ghost buf: nat)
      requires Valid() && t < |channel.model.senders| && channel.model.senders[t].Idle?
      modifies channel
      ensures Valid() && r.Refused? == !(isConnected && old(channel.open))
      ensures r.Refused? ==> channel.model == old(channel.model)
      ensures r.Spins? <==> isConnected && old(channel.open) && old(channel.bufferPool) == {}
      ensures channel.open == old(channel.open)
      ensures r.Spins? ==>
        && Enabled(channel.setup, old(channel.model), Begin(t, data))
        && channel.model == SendPipeline.Apply(channel.setup, old(channel.model), Begin(t, data))
      ensures r.Sent? ==>
        && IsRun(channel.setup, old(channel.model), [Begin(t, data)] + PostSteps(t, buf))
        && channel.model == Exec(channel.setup, old(channel.model), [Begin(t, data)] + PostSteps(t, buf))
      ensures r.Sent? ==>
        channel.model.log == old(channel.model.log) + [data] && channel.model.authors == old(channel.model.authors) + [t]
    {
      if !isConnected || !channel.open {
        return Refused, 0;
      }
      r, buf := channel.Send(t, data);
    }

    /** Clears the flag even when the socket was closed before. */
    method Close()
      requires Valid()
      modifies this`isConnected, channel
      ensures Valid() && !isConnected && !channel.open
      ensures channel.model == old(channel.model).(open := false)
    {
      channel.CloseSocket();
      isConnected := false;
    }

    /** The completion handler of the outstanding write; a failure closes the client. */
    method OnWriteComplete(ok: bool, refused: set<nat>)
      requires Valid() && Enabled(channel.setup, channel.model, Complete(ok, refused))
      modifies this`isConnected, channel
      ensures Valid() && channel.model == SendPipeline.Apply(channel.setup, old(channel.model), Complete(ok, refused))
      ensures isConnected == (old(isConnected) && ok)
    {
      channel.OnWriteComplete(ok, refused);
      if !ok {
        isConnected := false;
      }
    }
  }
}
