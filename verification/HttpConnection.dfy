/** The connection object itself: each member function against the event machine. */
module HttpConnections {
  import opened Base
  import opened Replies
  import opened ResponseParser
  import opened Requests
  import opened Framing
  import opened Connection
  import Runs

  class HttpConnection {
    const reply: Reply
    const request: Request
    var requestComplete: bool
    var keepAlive: bool
    var waiting: bool

    // the socket, the timer and the queue of the io_service
    var socketOpen: bool
    var readOps: seq<bool>
    var writeOps: seq<WriteOp>
    var armed: nat
    var aborted: nat
    var expired: nat
    var posted: nat
    var owed: nat
    var faulted: bool

    ghost function Exchanged(): Exchange
      reads this, reply, request
    {
      Exchange(requestComplete, keepAlive, request.verb, reply.View())
    }

    ghost function View(): Conn
      reads this, reply, request
    {
      Conn(Exchanged(), waiting, socketOpen, readOps, writeOps, Timer(armed, aborted, expired), posted, owed, faulted)
    }

    constructor ()
      ensures Constructed(View()) && fresh(reply) && fresh(request)
    {
      reply := new Reply();
      request := new Request();
      requestComplete, keepAlive, waiting := false, false, false;
      socketOpen, readOps, writeOps := true, [], [];
      armed, aborted, expired, posted, owed, faulted := 0, 0, 0, 0, 0, false;
    }

    method Start()
      modifies this
      ensures View() == Connection.Start(old(View()))
    {
      AsyncRead();
    }

    // ---- asynchronous operations

    method AsyncRead()
      modifies this`readOps
      ensures View() == StartRead(old(View()))
    {
      readOps := readOps + [!socketOpen];
    }

    method AsyncWrite(buffers: seq<Octets>)
      modifies this`writeOps
      ensures writeOps == old(writeOps) + [WriteOp(Flatten(buffers), !socketOpen)]
    {
      writeOps := writeOps + [WriteOp(Flatten(buffers), !socketOpen)];
    }

    method CancelTimer()
      modifies this`armed, this`aborted
      ensures View() == old(View()).(timer := Cancel(old(View()).timer))
    {
      aborted := aborted + armed;
      armed := 0;
    }

    method ArmTimer()
      modifies this`armed, this`aborted
      ensures View() == old(View()).(timer := Arm(old(View()).timer))
    {
      CancelTimer();
      armed := armed + 1;
    }

    // ---- the public calls

    method SendReply()
      requires reply.content.Some?
      modifies this, reply
      ensures View() == Connection.SendReply(old(View()))
    {
      waiting := false;
      if !keepAlive {
        reply.Add(Header("Connection", "close"));
      }
      var buffers := reply.ToBuffers();
      AsyncWrite(buffers);
    }

    method WaitForAsyncReply()
      modifies this
      ensures View() == Connection.WaitForAsyncReply(old(View()))
    {
      waiting := true;
      ArmTimer();
    }

    method NotifyAsyncReplyDone()
      modifies this
      ensures View() == Connection.NotifyAsyncReplyDone(old(View()))
    {
      posted := posted + 1;
    }

    // ---- request handlers, by the calls they make

    method FillIn(f: Fill)
      modifies this, reply
      ensures View() == Filled(old(View()), f)
    {
      if reply.content.None? {
        faulted := true;
        return;
      }
      reply.headers := reply.headers + f.before;
      reply.content := Some(reply.content.value + f.body);
      reply.Create(f.status, f.contentType, f.extra);
      reply.headers := reply.headers + f.after;
    }

    method HandleRequest(h: Handler)
      requires !faulted
      modifies this, reply
      ensures View() == RunHandler(old(View()), h)
    {
      match h
      case Replies(f) => FillIn(f);
      case Waits =>
        WaitForAsyncReply();
        owed := owed + 1;
      case WaitsThenReplies(f) =>
        WaitForAsyncReply();
        FillIn(f);
        if !faulted {
          NotifyAsyncReplyDone();
        }
    }

    /** The handler of a waiting request, later. */
    method FinishRequest(f: Fill)
      requires owed > 0 && !faulted
      modifies this, reply
      ensures View() == OnHandlerReplies(old(View()), f)
    {
      owed := owed - 1;
      FillIn(f);
      if !faulted {
        NotifyAsyncReplyDone();
      }
    }

    // ---- the parser

    method OnMessageBegin()
      modifies this, reply, request
      ensures View() == old(View()).(msg := OnCallback(old(Exchanged()), MessageBegin))
    {
      request.Reset();
      reply.Reset();
      requestComplete := false;
    }

    method OnHeadersComplete(verb: Method)
      modifies request`verb
      ensures View() == old(View()).(msg := OnCallback(old(Exchanged()), HeadersComplete(verb)))
    {
      request.verb := verb;
    }

    method OnMessageComplete(alive: bool)
      modifies this
      ensures View() == old(View()).(msg := OnCallback(old(Exchanged()), MessageComplete(alive)))
    {
      keepAlive := alive;
      requestComplete := true;
    }

    method HttpParse(callbacks: seq<Callback>)
      modifies this, reply, request
      ensures View() == old(View()).(msg := OnCallbacks(old(Exchanged()), callbacks))
    {
      var i := 0;
      while i < |callbacks|
        invariant 0 <= i <= |callbacks|
        invariant View() == old(View()).(msg := OnCallbacks(old(Exchanged()), callbacks[..i]))
      {
        match callbacks[i] {
          case MessageBegin => OnMessageBegin();
          case HeadersComplete(verb) => OnHeadersComplete(verb);
          case MessageComplete(alive) => OnMessageComplete(alive);
        }
        assert callbacks[..i + 1][..i] == callbacks[..i];
        i := i + 1;
      }
      assert callbacks[..i] == callbacks;
    }

    // ---- completion handlers; the io_service takes the completion off its queue first

    method HandleRead(i: nat, got: ReadOutcome)
      requires i < |readOps| && !faulted
      modifies this, reply, request
      ensures View() == OnRead(old(View()), i, got)
    {
      readOps := Without(readOps, i);
      if got.ReadAborted? {
        return;
      }
      CancelTimer();
      if got.ReadOk? {
        HttpParse(got.callbacks);
        if got.bad {
          if reply.content.None? {
            faulted := true;
            return;
          }
          StockFillCreates(reply.View(), BAD_REQUEST);
          reply.Create(BAD_REQUEST, TEXT_HTML, 0);
          SendReply();
          return;
        }
        if requestComplete {
          HandleRequest(got.handler);
          if faulted {
            return;
          }
          if waiting {
            ArmTimer();
          } else if reply.content.None? {
            faulted := true;
          } else {
            SendReply();
          }
        } else {
          ArmTimer();
          AsyncRead();
        }
      }
    }

    method HandleWrite(i: nat, result: WriteOutcome)
      requires i < |writeOps| && !faulted
      modifies this, reply, request
      ensures View() == OnWrite(old(View()), i, result)
    {
      writeOps := Without(writeOps, i);
      if result.WriteAborted? {
        return;
      }
      if !keepAlive {
        CancelTimer();
        return;
      }
      if result.Written? {
        reply.Reset();
        request.Reset();
        CancelTimer();
        ArmTimer();
        AsyncRead();
      }
    }

    method HandleTimer(ok: bool)
      requires !faulted && if ok then expired > 0 else aborted > 0
      modifies this
      ensures View() == OnTimer(old(View()), ok)
    {
      if !ok {
        aborted := aborted - 1;
        return;
      }
      expired := expired - 1;
      socketOpen := false;
    }

    method HandleAsyncReplyDone()
      requires posted > 0 && !faulted
      modifies this, reply
      ensures View() == OnReplyDone(old(View()))
    {
      posted := posted - 1;
      CancelTimer();
      if reply.content.None? {
        faulted := true;
        return;
      }
      SendReply();
    }
  }

  /** What the server does with an accepted socket: a new connection, started. */
  method Accept() returns (c: HttpConnection)
    ensures fresh(c) && fresh(c.reply) && fresh(c.request)
    ensures Runs.Started(c.View())
  {
    c := new HttpConnection();
    Runs.StartBeginsRun(c.View());
    c.Start();
  }

  /** A stock reply, 400 or 404, is a fill that adds nothing of its own. */
  lemma StockFillCreates(r: ReplyState, status: int)
    requires r.content.Some?
    ensures FillReply(r, Fill([], [], status, TEXT_HTML, 0, [])) == Created(r, status, TEXT_HTML, 0)
  {
    assert r.headers + [] == r.headers && r.content.value + [] == r.content.value;
    var c := Created(r, status, TEXT_HTML, 0);
    assert c.headers + [] == c.headers;
    assert r.(headers := r.headers + [], content := Some(r.content.value + [])) == r;
  }
}
