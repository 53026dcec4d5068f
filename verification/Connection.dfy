/**
 * The server connection of csi_http/server/http_connection.cpp as an event machine on values:
 * its fields, its outstanding asynchronous operations, and what each completion handler does to them.
 */
module Connection {
  import opened Base
  import opened Replies
  import opened ResponseParser
  import opened Framing

  /** The parser callbacks that change more than the text of the request. */
  datatype Callback =
    | MessageBegin
    | HeadersComplete(verb: Method)
    | MessageComplete(keepAlive: bool)

  /** What the callbacks can change. */
  datatype Exchange = Exchange(requestComplete: bool, keepAlive: bool, verb: Method, reply: ReplyState)

  /** The waits on the one deadline timer: running, cancelled but not yet delivered, run out but not yet delivered. */
  datatype Timer = Timer(armed: nat, aborted: nat, expired: nat)

  /** A pending write: its octets, and whether the socket was already shut when it was started. */
  datatype WriteOp = WriteOp(bytes: Octets, late: bool)

  /**
   * `readOps` holds one flag per pending read: whether the socket was already shut when it was started.
   * `posted` counts queued reply-done calls; `owed` counts handlers that said they would call back.
   * `faulted` is set when a null content stream was used, where the program has no defined behaviour.
   */
  datatype Conn = Conn(
    msg: Exchange,
    waiting: bool,
    socketOpen: bool,
    readOps: seq<bool>,
    writeOps: seq<WriteOp>,
    timer: Timer,
    posted: nat,
    owed: nat,
    faulted: bool)

  /** How a request handler makes a reply: headers, body, create with its arguments, more headers. */
  datatype Fill = Fill(before: seq<Header>, body: Octets, status: int, contentType: Octets, extra: nat, after: seq<Header>)

  /** What a request handler does while it is called. */
  datatype Handler =
    | Replies(fill: Fill)
    | Waits
    | WaitsThenReplies(fill: Fill)

  datatype ReadOutcome =
    | ReadOk(callbacks: seq<Callback>, bad: bool, handler: Handler)
    | ReadAborted
    | ReadFailed

  /** A write that does not succeed may still have sent some of its octets. */
  datatype WriteOutcome =
    | Written
    | WriteAborted(sent: nat)
    | WriteFailed(sent: nat)

  datatype Event =
    | ReadDone(read: nat, got: ReadOutcome)
    | WriteDone(write: nat, result: WriteOutcome)
    | TimerExpires
    | TimerDone(ok: bool)
    | HandlerReplies(fill: Fill)
    | ReplyDone

  const BAD_REQUEST_FILL := Fill([], [], BAD_REQUEST, TEXT_HTML, 0, [])

  // ---- building a reply

  function FillReply(r: ReplyState, f: Fill): ReplyState
    requires r.content.Some?
  {
    var filled := r.(headers := r.headers + f.before, content := Some(r.content.value + f.body));
    var created := Created(filled, f.status, f.contentType, f.extra);
    created.(headers := created.headers + f.after)
  }

  // ---- the parser

  function OnCallback(m: Exchange, k: Callback): Exchange {
    match k
    case MessageBegin => m.(requestComplete := false, reply := WasReset(m.reply))
    case HeadersComplete(verb) => m.(verb := verb)
    case MessageComplete(keepAlive) => m.(requestComplete := true, keepAlive := keepAlive)
  }

  function OnCallbacks(m: Exchange, ks: seq<Callback>): Exchange {
    if ks == [] then m else OnCallback(OnCallbacks(m, ks[..|ks| - 1]), ks[|ks| - 1])
  }

  // ---- the timer and the socket

  /** cancel, and expires_from_now: every running wait will be delivered as aborted. */
  function Cancel(t: Timer): Timer {
    t.(armed := 0, aborted := t.aborted + t.armed)
  }

  /** expires_from_now followed by async_wait. */
  function Arm(t: Timer): Timer {
    Cancel(t).(armed := 1)
  }

  function Without<T>(ops: seq<T>, i: nat): seq<T>
    requires i < |ops|
  {
    ops[..i] + ops[i + 1..]
  }

  function StartRead(c: Conn): Conn {
    c.(readOps := c.readOps + [!c.socketOpen])
  }

  // ---- the connection's own functions

  function Start(c: Conn): Conn {
    StartRead(c)
  }

  /** The reply as send_reply hands it to the socket. */
  function Outgoing(m: Exchange): ReplyState {
    if m.keepAlive then m.reply else Added(m.reply, CloseHeader())
  }

  function SendReply(c: Conn): Conn
    requires c.msg.reply.content.Some?
  {
    var out := Outgoing(c.msg);
    c.(waiting := false,
       msg := c.msg.(reply := Buffered(out)),
       writeOps := c.writeOps + [WriteOp(Render(out), !c.socketOpen)])
  }

  function WaitForAsyncReply(c: Conn): Conn {
    c.(waiting := true, timer := Arm(c.timer))
  }

  function NotifyAsyncReplyDone(c: Conn): Conn {
    c.(posted := c.posted + 1)
  }

  function Fault(c: Conn): Conn {
    c.(faulted := true)
  }

  function Filled(c: Conn, f: Fill): Conn {
    if c.msg.reply.content.None? then Fault(c) else c.(msg := c.msg.(reply := FillReply(c.msg.reply, f)))
  }

  function RunHandler(c: Conn, h: Handler): Conn {
    match h
    case Replies(f) => Filled(c, f)
    case Waits => WaitForAsyncReply(c).(owed := c.owed + 1)
    case WaitsThenReplies(f) =>
      var d := Filled(WaitForAsyncReply(c), f);
      if d.faulted then d else NotifyAsyncReplyDone(d)
  }

  /** handle_read behind the parser: `c` has consumed the chunk. */
  function AfterParse(c: Conn, bad: bool, h: Handler): Conn {
    if bad then
      var d := Filled(c, BAD_REQUEST_FILL);
      if d.faulted then d else SendReply(d)
    else if c.msg.requestComplete then
      var d := RunHandler(c, h);
      if d.faulted then d
      else if d.waiting then d.(timer := Arm(d.timer))
      else if d.msg.reply.content.None? then Fault(d)
      else SendReply(d)
    else
      StartRead(c.(timer := Arm(c.timer)))
  }

  function OnRead(c: Conn, i: nat, got: ReadOutcome): Conn
    requires i < |c.readOps|
  {
    var d := c.(readOps := Without(c.readOps, i));
    match got
    case ReadAborted => d
    case ReadFailed => d.(timer := Cancel(d.timer))
    case ReadOk(callbacks, bad, handler) =>
      AfterParse(d.(timer := Cancel(d.timer), msg := OnCallbacks(d.msg, callbacks)), bad, handler)
  }

  function OnWrite(c: Conn, i: nat, result: WriteOutcome): Conn
    requires i < |c.writeOps|
  {
    var d := c.(writeOps := Without(c.writeOps, i));
    if result.WriteAborted? then d
    else if !d.msg.keepAlive then d.(timer := Cancel(d.timer))
    else if result.Written? then
      StartRead(d.(msg := d.msg.(reply := WasReset(d.msg.reply)), timer := Arm(Cancel(d.timer))))
    else d
  }

  function OnTimer(c: Conn, ok: bool): Conn
    requires if ok then c.timer.expired > 0 else c.timer.aborted > 0
  {
    if ok then c.(timer := c.timer.(expired := c.timer.expired - 1), socketOpen := false)
    else c.(timer := c.timer.(aborted := c.timer.aborted - 1))
  }

  function OnReplyDone(c: Conn): Conn
    requires c.posted > 0
  {
    var d := c.(posted := c.posted - 1, timer := Cancel(c.timer));
    if d.msg.reply.content.None? then Fault(d) else SendReply(d)
  }

  /** The handler of an outstanding request fills the reply and calls notify_async_reply_done. */
  function OnHandlerReplies(c: Conn, f: Fill): Conn
    requires c.owed > 0
  {
    var d := Filled(c.(owed := c.owed - 1), f);
    if d.faulted then d else NotifyAsyncReplyDone(d)
  }

  // ---- steps

  predicate Enabled(c: Conn, e: Event) {
    && !c.faulted
    && match e
       case ReadDone(i, _) => i < |c.readOps|
       case WriteDone(i, result) =>
         i < |c.writeOps| && (!result.Written? ==> result.sent <= |c.writeOps[i].bytes|)
       case TimerExpires => c.timer.armed > 0
       case TimerDone(ok) => if ok then c.timer.expired > 0 else c.timer.aborted > 0
       case HandlerReplies(_) => c.owed > 0
       case ReplyDone => c.posted > 0
  }

  function Step(c: Conn, e: Event): Conn
    requires Enabled(c, e)
  {
    match e
    case ReadDone(i, got) => OnRead(c, i, got)
    case WriteDone(i, result) => OnWrite(c, i, result)
    case TimerExpires => c.(timer := c.timer.(armed := 0, expired := c.timer.expired + c.timer.armed))
    case TimerDone(ok) => OnTimer(c, ok)
    case HandlerReplies(f) => OnHandlerReplies(c, f)
    case ReplyDone => OnReplyDone(c)
  }

  /** A connection as its constructor leaves it; status, method and the stream are not set there. */
  predicate Constructed(c: Conn) {
    && !c.msg.requestComplete && !c.msg.keepAlive
    && c.msg.reply.headers == [] && c.msg.reply.content == None && c.msg.reply.txBuffer == None
    && !c.waiting && c.socketOpen && c.readOps == [] && c.writeOps == []
    && c.timer == Timer(0, 0, 0) && c.posted == 0 && c.owed == 0 && !c.faulted
  }
}
