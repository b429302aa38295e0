/** The wrapped client and server connections and their Close methods. */
module Connections {
  // ---- as values, for the step system -----------------------------------

  /** A wrapper: its flag, the closes of the connection it wraps, and the addons told of the disconnect. */
  datatype Wrap = Wrap(closed: bool, closes: nat, told: seq<nat>)

  datatype Conns = Conns(
    client: Wrap,
    server: Wrap,
    addons: nat,
    tls: bool,
    closeAfterResponse: bool,
    clientReadShut: bool,
    pipeServerClosed: bool
  )

  /** All addons, in order. */
  function Everyone(addons: nat): seq<nat> {
    seq(addons, i => i)
  }

  predicate ClosedOnce(w: Wrap, addons: nat) {
    w == if w.closed then Wrap(true, 1, Everyone(addons)) else Wrap(false, 0, [])
  }

  function CloseWrap(w: Wrap, addons: nat): Wrap {
    Wrap(true, w.closes + 1, w.told + Everyone(addons))
  }

  function CloseServer(c: Conns): Conns {
    if c.server.closed then c
    else
      var d := c.(server := CloseWrap(c.server, c.addons));
      if !c.tls then d.(clientReadShut := true)
      else if !c.closeAfterResponse then d.(pipeServerClosed := true)
      else d
  }

  /** The client's own part of its Close, before the cascade. */
  function CloseClientHead(c: Conns): Conns {
    c.(client := CloseWrap(c.client, c.addons))
  }

  function CloseClient(c: Conns): Conns {
    if c.client.closed then c else CloseServer(CloseClientHead(c))
  }

  /** What closing an open server does besides: without TLS the client's read side is shut, with TLS and keep-alive the pipe. */
  lemma ServerCloseShuts(c: Conns)
    ensures var d := CloseServer(c);
            && d.server.closed && d.client == c.client && d.addons == c.addons
            && d.tls == c.tls && d.closeAfterResponse == c.closeAfterResponse
            && (d.clientReadShut <==> c.clientReadShut || (!c.server.closed && !c.tls))
            && (d.pipeServerClosed <==> c.pipeServerClosed || (!c.server.closed && c.tls && !c.closeAfterResponse))
            && d.server.closes == c.server.closes + (if c.server.closed then 0 else 1)
            && d.server.told == c.server.told + (if c.server.closed then [] else Everyone(c.addons))
  {
  }

  /** Closing an open client closes it, tells every addon, and closes the server; closing a closed one does nothing. */
  lemma ClientCloseCascades(c: Conns)
    ensures var d := CloseClient(c);
            && d.client.closed && (!c.client.closed ==> d.server.closed)
            && (c.client.closed ==> d == c)
            && d.client.closes == c.client.closes + (if c.client.closed then 0 else 1)
            && d.client.told == c.client.told + (if c.client.closed then [] else Everyone(c.addons))
            && (!c.client.closed && !c.server.closed ==>
                  && (d.clientReadShut <==> c.clientReadShut || !c.tls)
                  && (d.pipeServerClosed <==> c.pipeServerClosed || (c.tls && !c.closeAfterResponse)))
  {
    ServerCloseShuts(CloseClientHead(c));
  }

  // ---- as objects -------------------------------------------------------

  /** An underlying connection: how often it was closed, and whether its read side is shut. */
  class Socket {
    var closes: nat
    var readShut: bool

    method Close() returns (err: bool)
      modifies this`closes
      ensures closes == old(closes) + 1
    {
      closes := closes + 1;
      err := *;
    }

    method CloseRead()
      modifies this`readShut
      ensures readShut
    {
      readShut := true;
    }
  }

  /** What the two wrappers and the tunnel share about one client connection. */
  class ConnContext {
    const addons: nat
    const client: WrapClientConn
    const pipe: Socket              // the end of the pipe held by the interceptor
    var server: WrapServerConn?
    var tls: bool
    var closeAfterResponse: bool

    constructor (addons: nat, client: WrapClientConn, pipe: Socket)
      ensures this.addons == addons && this.client == client && this.pipe == pipe
      ensures server == null && !tls && !closeAfterResponse
    {
      this.addons, this.client, this.pipe := addons, client, pipe;
      server, tls, closeAfterResponse := null, false, false;
    }

    /** The wrappers belong to this context and wrap connections of their own. */
    ghost predicate Valid()
      reads this, client, server
    {
      && client.ctx == this && client.socket != pipe
      && (server != null ==> server.ctx == this && server.socket != client.socket && server.socket != pipe)
    }

    /** The connections as a value. */
    ghost function View(): Conns
      requires server != null
      reads this, client, client.socket, server, server.socket, pipe
    {
      Conns(Wrap(client.closed, client.socket.closes, client.told), Wrap(server.closed, server.socket.closes, server.told),
            addons, tls, closeAfterResponse, client.socket.readShut, pipe.closes > 0)
    }
  }

  class WrapServerConn {
    const socket: Socket
    var ctx: ConnContext?
    var closed: bool
    var closeErr: bool
    var told: seq<nat>  // the addons that saw ServerDisconnected, in order

    constructor (socket: Socket)
      ensures this.socket == socket && ctx == null && !closed && told == []
    {
      this.socket := socket;
      ctx, closed, closeErr, told := null, false, false, [];
    }

    method Close() returns (err: bool)
      requires ctx != null && ctx.server == this && ctx.Valid()
      modifies this, socket, ctx.client.socket`readShut, ctx.pipe`closes
      ensures ctx == old(ctx) && ctx.View() == CloseServer(old(ctx.View()))
      ensures closed && socket.closes == old(socket.closes) + (if old(closed) then 0 else 1)
      ensures told == old(told) + (if old(closed) then [] else Everyone(ctx.addons))
      ensures ctx.client.socket.readShut <==> old(ctx.client.socket.readShut) || (!old(closed) && !ctx.tls)
      ensures ctx.pipe.closes > 0 <==> old(ctx.pipe.closes) > 0 || (!old(closed) && ctx.tls && !ctx.closeAfterResponse)
      ensures err == closeErr && (old(closed) ==> closeErr == old(closeErr))
    {
      if closed {
        return closeErr;
      }
      closed := true;
      closeErr := socket.Close();
      told := TellAll(ctx.addons, told);
      if !ctx.tls {
        ctx.client.socket.CloseRead();
      } else if !ctx.closeAfterResponse {
        var _ := ctx.pipe.Close();
      }
      return closeErr;
    }
  }

  class WrapClientConn {
    const socket: Socket
    var ctx: ConnContext?
    var closed: bool
    var closeErr: bool
    var told: seq<nat>  // the addons that saw ClientDisconnected, in order

    constructor (socket: Socket)
      ensures this.socket == socket && ctx == null && !closed && told == []
    {
      this.socket := socket;
      ctx, closed, closeErr, told := null, false, false, [];
    }

    /** Closes this connection and then the server's; a second call changes nothing. */
    method Close() returns (err: bool)
      requires ctx != null && ctx.client == this && ctx.Valid()
      modifies this, socket, ctx.server, if ctx.server == null then {} else {ctx.server.socket}, ctx.pipe`closes
      ensures ctx == old(ctx) && ctx.server == old(ctx.server) && ctx.Valid()
      ensures ctx.server != null ==> ctx.View() == CloseClient(old(ctx.View()))
      ensures closed && socket.closes == old(socket.closes) + (if old(closed) then 0 else 1)
      ensures told == old(told) + (if old(closed) then [] else Everyone(ctx.addons))
      ensures ctx.server != null && !old(closed) ==> ctx.server.closed
      ensures ctx.server == null ==>
                Wrap(closed, socket.closes, told)
                == (if old(closed) then old(Wrap(closed, socket.closes, told)) else old(CloseWrap(Wrap(closed, socket.closes, told), ctx.addons)))
      ensures err == closeErr && (old(closed) ==> closeErr == old(closeErr))
    {
      if closed {
        return closeErr;
      }
      closed := true;
      closeErr := socket.Close();
      told := TellAll(ctx.addons, told);
      if ctx.server != null {
        var _ := ctx.server.Close();
      }
      return closeErr;
    }
  }

  /** The loop over the addons that reports a disconnect. */
  method TellAll(addons: nat, before: seq<nat>) returns (told: seq<nat>)
    ensures told == before + Everyone(addons)
    ensures |told| == |before| + addons && before <= told && forall p :: |before| <= p < |told| ==> told[p] == p - |before|
  {
    told := before;
    for i := 0 to addons
      invariant told == before + Everyone(i)
    {
      told := told + [i];
    }
  }
}
