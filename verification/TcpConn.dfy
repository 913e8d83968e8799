/** The stream object handed to the async side of a connection. */
module TcpConn {
  import opened Options
  import opened Varint
  import N = Netstack
  import P = NetstackProofs

  /** What the stream sends the actor. */
  datatype Cmd = Send(h: N.Handle, data: seq<byte>) | Close(h: N.Handle)

  class TcpConn {
    const handle: N.Handle
    var queue: seq<N.Chunk>     // from_net: chunks in the channel
    var senderAlive: bool       // the actor still holds the other end
    var readBuf: N.Chunk
    var readPos: nat
    var cmds: seq<Cmd>          // commands sent so far
    var actorAlive: bool
    ghost var received: seq<byte>
    ghost var out: seq<byte>
    ghost var end: Option<N.End>  // how the connection ended, once it has

    ghost function View(): N.Pipe
      reads this
    {
      N.Pipe(queue, senderAlive, true, readBuf, readPos, received, out, end)
    }

    constructor (handle: N.Handle)
      ensures P.PipeOk(View()) && queue == [] && senderAlive && actorAlive && cmds == [] && this.handle == handle
    {
      this.handle := handle;
      queue, senderAlive, readBuf, readPos, cmds, actorAlive := [], true, [], 0, [], true;
      received, out, end := [], [], None;
    }

    /** poll_read with `space` bytes of room: the machine's own step, keeping what was received in order. */
    method PollRead(space: nat) returns (r: N.ReadResult)
      requires P.PipeOk(View())
      modifies this`queue, this`readBuf, this`readPos, this`out
      ensures (View(), r) == N.PollRead(old(View()), space)
      ensures P.PipeOk(View())
      ensures r.Ready? ==> |r.data| <= space && out == old(out) + r.data && out <= received
      ensures r.Ready? && |r.data| < space ==> readPos >= |readBuf|
      ensures r.Pending? ==> View() == old(View()) && senderAlive && out == received
      ensures r == N.Ready([]) && space > 0 ==> !senderAlive && out == received
    {
      ghost var before := View();
      P.PollKeeps(before, space);
      if readPos >= |readBuf| {
        if |queue| > 0 {
          readBuf, queue := queue[0], queue[1..];
          readPos := 0;
        } else if !senderAlive {
          return N.Ready([]);
        } else {
          return N.Pending;
        }
      }
      var n := if space < |readBuf| - readPos then space else |readBuf| - readPos;
      r := N.Ready(readBuf[readPos..readPos + n]);
      out := out + readBuf[readPos..readPos + n];
      readPos := readPos + n;
      assert out <= out + readBuf[readPos..] + N.Flat(queue);
    }

    /** poll_write takes everything at once, or fails when the actor is gone. */
    method PollWrite(data: seq<byte>) returns (taken: Option<nat>)
      modifies this`cmds
      ensures actorAlive ==> taken == Some(|data|) && cmds == old(cmds) + [Send(handle, data)]
      ensures !actorAlive ==> taken.None? && cmds == old(cmds)
    {
      if actorAlive {
        cmds := cmds + [Send(handle, data)];
        taken := Some(|data|);
      } else {
        taken := None;
      }
    }

    method PollShutdown()
      modifies this`cmds
      ensures cmds == if actorAlive then old(cmds) + [Close(handle)] else old(cmds)
    {
      if actorAlive {
        cmds := cmds + [Close(handle)];
      }
    }
  }
}
