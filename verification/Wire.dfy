/** What a client reads: the octets of a whole run, and the replies they decode to. */
module Wire {
  import opened Base
  import opened Decimal
  import opened Replies
  import opened ResponseParser
  import opened Framing
  import opened Connection
  import opened Runs

  const BLANK_REPLY := ReplyState([], Some([]), None, 0)

  /** The answer a fill stands for, made from nothing but the fill. */
  function AnswerTo(verb: Method, f: Fill, keepAlive: bool): (a: Answer)
    ensures a.reply.content.Some?
  {
    var reply := FillReply(BLANK_REPLY, f);
    Answer(verb, if keepAlive then reply else Added(reply, CloseHeader()), f.extra)
  }

  /**
   * An observer beside the connection. `answers` are the replies whose writing was begun, and `fills` the
   * fills they were made from; `delivered` of them were written in full; `tail` is what a failed write
   * left behind; `draft` is the reply of a handler that has called back and is still to be sent.
   */
  datatype Log = Log(
    draft: Option<Fill>,
    answers: seq<Answer>,
    fills: seq<Fill>,
    delivered: nat,
    wire: Octets,
    tail: Octets)

  /** The reply whose writing begins when a chunk has been parsed. */
  function BegunByParse(m: Exchange, bad: bool, h: Handler): Option<Fill> {
    if m.reply.content.None? then None
    else if bad then Some(BAD_REQUEST_FILL)
    else if m.requestComplete && h.Replies? then Some(h.fill)
    else None
  }

  function DraftByParse(m: Exchange, bad: bool, h: Handler, draft: Option<Fill>): Option<Fill> {
    if !bad && m.requestComplete && h.WaitsThenReplies? then Some(h.fill) else draft
  }

  /** The reply whose writing a step begins. */
  function Begun(c: Conn, l: Log, e: Event): Option<Fill> {
    match e
    case ReadDone(_, ReadOk(ks, bad, h)) => BegunByParse(OnCallbacks(c.msg, ks), bad, h)
    case ReplyDone => l.draft
    case _ => None
  }

  function NextDraft(c: Conn, l: Log, e: Event): Option<Fill> {
    match e
    case ReadDone(_, ReadOk(ks, bad, h)) => DraftByParse(OnCallbacks(c.msg, ks), bad, h, l.draft)
    case HandlerReplies(f) => Some(f)
    case ReplyDone => None
    case _ => l.draft
  }

  /** `m` is the exchange after the step. */
  function Record(l: Log, m: Exchange, begun: Option<Fill>, draft: Option<Fill>): Log {
    match begun
    case None => l.(draft := draft)
    case Some(f) =>
      l.(draft := draft, answers := l.answers + [AnswerTo(m.verb, f, m.keepAlive)], fills := l.fills + [f])
  }

  function NextLog(c: Conn, l: Log, e: Event): Log
    requires Enabled(c, e)
  {
    var m := Record(l, Step(c, e).msg, Begun(c, l, e), NextDraft(c, l, e));
    match e
    case WriteDone(i, Written) =>
      m.(delivered := l.delivered + 1, wire := l.wire + c.writeOps[i].bytes)
    case WriteDone(i, result) =>
      var sent := c.writeOps[i].bytes[..result.sent];
      m.(wire := l.wire + sent, tail := sent)
    case _ => m
  }

  function LogAfter(cs: seq<Conn>, es: seq<Event>, k: nat): Log
    requires IsRun(cs, es) && k <= |es|
  {
    if k == 0 then Log(None, [], [], 0, [], []) else NextLog(cs[k - 1], LogAfter(cs, es, k - 1), es[k - 1])
  }

  // ---- what every step keeps

  /** The parts of a reply that are printed. */
  predicate SameText(a: ReplyState, b: ReplyState) {
    a.headers == b.headers && a.content == b.content && a.status == b.status
  }

  lemma FillOnBlank(r: ReplyState, f: Fill)
    requires IsEmptyReply(r) && r.content.Some?
    ensures SameText(FillReply(r, f), FillReply(BLANK_REPLY, f))
  {
  }

  /** The socket's buffers are those of the reply object, which nobody touches while they are in use. */
  predicate IsStable(c: Conn) {
    c.writeOps != [] ==>
      && c.msg.reply.content.Some?
      && c.writeOps[0].bytes == Render(c.msg.reply)
      && Buffered(c.msg.reply) == c.msg.reply
  }

  predicate Outstanding(c: Conn, l: Log) {
    && |l.answers| == |l.fills| == l.delivered + 1
    && l.tail == []
    && c.msg.reply.content.Some?
    && SameText(c.msg.reply, l.answers[l.delivered].reply)
    && l.answers[l.delivered] == AnswerTo(c.msg.verb, l.fills[l.delivered], c.msg.keepAlive)
  }

  predicate LogGood(c: Conn, l: Log) {
    && AllHaveContent(l.answers)
    && |l.answers| == |l.fills| && l.delivered <= |l.answers|
    && (c.writeOps != [] ==> Outstanding(c, l))
    && (c.readOps != [] || c.posted > 0 || c.owed > 0 ==> |l.answers| == l.delivered && l.tail == [])
    && (c.posted > 0 ==> l.draft.Some? && SameText(c.msg.reply, FillReply(BLANK_REPLY, l.draft.value)))
  }

  /** The octets sent so far: every delivered reply in order, and what a failed write left. */
  predicate OnWire(answers: seq<Answer>, delivered: nat, wire: Octets, tail: Octets) {
    && AllHaveContent(answers) && delivered <= |answers|
    && wire == Flatten(Printed(answers[..delivered])) + tail
  }

  lemma OnWireLonger(answers: seq<Answer>, a: Answer, delivered: nat, wire: Octets, tail: Octets)
    requires OnWire(answers, delivered, wire, tail) && a.reply.content.Some?
    ensures OnWire(answers + [a], delivered, wire, tail)
  {
    assert (answers + [a])[..delivered] == answers[..delivered];
  }

  lemma OnWireDelivered(answers: seq<Answer>, delivered: nat, wire: Octets, bytes: Octets)
    requires OnWire(answers, delivered, wire, []) && delivered < |answers|
    requires bytes == Render(answers[delivered].reply)
    ensures OnWire(answers, delivered + 1, wire + bytes, [])
  {
    var before, a := answers[..delivered], answers[delivered];
    assert answers[..delivered + 1] == before + [a];
    PrintedAppend(before, a);
    FlattenPush(Printed(before), bytes);
    assert wire == Flatten(Printed(before));
  }

  lemma OnWireCut(answers: seq<Answer>, delivered: nat, wire: Octets, sent: Octets)
    requires OnWire(answers, delivered, wire, [])
    ensures OnWire(answers, delivered, wire + sent, sent)
  {
    assert wire == Flatten(Printed(answers[..delivered]));
  }

  lemma SendKeepsLog(c: Conn, l: Log, f: Fill, draft: Option<Fill>)
    requires c.msg.reply.content.Some? && c.writeOps == [] && Token(c) == 0 && !c.faulted
    requires SameText(c.msg.reply, FillReply(BLANK_REPLY, f))
    requires AllHaveContent(l.answers) && |l.answers| == |l.fills| == l.delivered && l.tail == []
    ensures LogGood(SendReply(c), Record(l, SendReply(c).msg, Some(f), draft)) && IsStable(SendReply(c))
  {
    var d := SendReply(c);
    var a := AnswerTo(d.msg.verb, f, d.msg.keepAlive);
    assert SameText(Outgoing(c.msg), a.reply);
  }

  lemma ParseKeepsLog(c: Conn, l: Log, bad: bool, h: Handler)
    requires Token(c) == 0 && !c.faulted && !c.waiting && IsEmptyReply(c.msg.reply)
    requires AllHaveContent(l.answers) && |l.answers| == |l.fills| == l.delivered && l.tail == []
    ensures var d := AfterParse(c, bad, h);
      && LogGood(d, Record(l, d.msg, BegunByParse(c.msg, bad, h), DraftByParse(c.msg, bad, h, l.draft)))
      && IsStable(d)
  {
    var draft := DraftByParse(c.msg, bad, h, l.draft);
    if c.msg.reply.content.Some? {
      if bad {
        FillOnBlank(c.msg.reply, BAD_REQUEST_FILL);
        SendKeepsLog(Filled(c, BAD_REQUEST_FILL), l, BAD_REQUEST_FILL, draft);
      } else if c.msg.requestComplete && !h.Waits? {
        FillOnBlank(c.msg.reply, h.fill);
        if h.Replies? {
          SendKeepsLog(Filled(c, h.fill), l, h.fill, draft);
        }
      }
    }
  }

  lemma ReadKeepsLog(c: Conn, l: Log, i: nat, got: ReadOutcome)
    requires Good(c) && LogGood(c, l) && Enabled(c, ReadDone(i, got))
    ensures var e := ReadDone(i, got); LogGood(Step(c, e), NextLog(c, l, e)) && IsStable(Step(c, e))
  {
    match got
    case ReadOk(ks, bad, h) =>
      CallbacksKeepBlank(c.msg, ks);
      ParseKeepsLog(
        c.(readOps := Without(c.readOps, i), timer := Cancel(c.timer), msg := OnCallbacks(c.msg, ks)), l, bad, h);
    case _ =>
  }

  lemma WriteKeepsLog(c: Conn, l: Log, i: nat, result: WriteOutcome)
    requires Good(c) && LogGood(c, l) && IsStable(c) && Enabled(c, WriteDone(i, result))
    ensures var e := WriteDone(i, result); LogGood(Step(c, e), NextLog(c, l, e)) && IsStable(Step(c, e))
  {
  }

  /** While a write is pending its octets are those of the last answer. */
  lemma WriteIsLastAnswer(c: Conn, l: Log)
    requires LogGood(c, l) && IsStable(c) && c.writeOps != []
    ensures l.delivered < |l.answers| && l.answers[l.delivered].reply.content.Some?
    ensures c.writeOps[0].bytes == Render(l.answers[l.delivered].reply)
  {
    assert l.answers[l.delivered] in l.answers;
  }

  lemma WriteKeepsWire(c: Conn, l: Log, i: nat, result: WriteOutcome)
    requires LogGood(c, l) && IsStable(c) && Enabled(c, WriteDone(i, result)) && |c.writeOps| == 1
    requires OnWire(l.answers, l.delivered, l.wire, l.tail)
    ensures var m := NextLog(c, l, WriteDone(i, result)); OnWire(m.answers, m.delivered, m.wire, m.tail)
  {
    hide Step, Render, OnWire, Printed, Flatten;
    WriteIsLastAnswer(c, l);
    if result.Written? {
      OnWireDelivered(l.answers, l.delivered, l.wire, c.writeOps[i].bytes);
    } else {
      OnWireCut(l.answers, l.delivered, l.wire, c.writeOps[i].bytes[..result.sent]);
    }
  }

  lemma StepKeepsWire(c: Conn, l: Log, e: Event)
    requires Good(c) && LogGood(c, l) && IsStable(c) && Enabled(c, e)
    requires OnWire(l.answers, l.delivered, l.wire, l.tail)
    ensures var m := NextLog(c, l, e); OnWire(m.answers, m.delivered, m.wire, m.tail)
  {
    if e.WriteDone? {
      WriteKeepsWire(c, l, e.write, e.result);
    } else if Begun(c, l, e).Some? {
      var m := Step(c, e).msg;
      OnWireLonger(l.answers, AnswerTo(m.verb, Begun(c, l, e).value, m.keepAlive), l.delivered, l.wire, l.tail);
    }
  }

  lemma StepKeepsLog(c: Conn, l: Log, e: Event)
    requires Good(c) && LogGood(c, l) && IsStable(c) && Enabled(c, e)
    ensures LogGood(Step(c, e), NextLog(c, l, e)) && IsStable(Step(c, e))
  {
    match e
    case ReadDone(i, got) => ReadKeepsLog(c, l, i, got);
    case WriteDone(i, result) => WriteKeepsLog(c, l, i, result);
    case ReplyDone =>
      SendKeepsLog(c.(posted := c.posted - 1, timer := Cancel(c.timer)), l, l.draft.value, None);
    case HandlerReplies(f) =>
      if c.msg.reply.content.Some? {
        FillOnBlank(c.msg.reply, f);
      }
    case _ =>
  }

  predicate Sound(c: Conn, l: Log) {
    Good(c) && LogGood(c, l) && IsStable(c) && OnWire(l.answers, l.delivered, l.wire, l.tail)
  }

  lemma StepKeepsSound(c: Conn, l: Log, e: Event)
    requires Sound(c, l) && Enabled(c, e)
    ensures Sound(Step(c, e), NextLog(c, l, e))
  {
    StepKeepsGood(c, e);
    StepKeepsLog(c, l, e);
    StepKeepsWire(c, l, e);
  }

  lemma {:induction false} RunIsSound(cs: seq<Conn>, es: seq<Event>, k: nat)
    requires IsRun(cs, es) && k <= |es|
    ensures Sound(cs[k], LogAfter(cs, es, k))
  {
    hide Step, NextLog, Sound, Enabled;
    if k > 0 {
      RunIsSound(cs, es, k - 1);
      StepKeepsSound(cs[k - 1], LogAfter(cs, es, k - 1), es[k - 1]);
    } else {
      StartIsSound(cs[0]);
    }
  }

  lemma StartIsSound(c: Conn)
    requires Started(c)
    ensures Sound(c, Log(None, [], [], 0, [], []))
  {
  }

  // ---- buffers and the close header

  /** While a reply is being written, the octets on their way are the reply object's own, body copy included. */
  lemma BuffersAreStable(cs: seq<Conn>, es: seq<Event>, k: nat)
    requires IsRun(cs, es) && k <= |es| && cs[k].writeOps != []
    ensures |cs[k].writeOps| == 1 && cs[k].msg.reply.content.Some?
    ensures cs[k].writeOps[0].bytes == Render(cs[k].msg.reply)
    ensures cs[k].msg.reply.content != Some([]) ==> cs[k].msg.reply.txBuffer == cs[k].msg.reply.content
  {
    RunIsSound(cs, es, k);
  }

  lemma WritingStep(c: Conn, e: Event)
    requires Good(c) && Enabled(c, e) && c.writeOps != [] && Step(c, e).writeOps != []
    ensures Step(c, e).msg == c.msg
  {
  }

  /** Nothing in the reply, the method or the keep-alive flag moves between send_reply and the matching handle_write. */
  lemma {:induction false} ReplyIsUntouchedWhileWriting(cs: seq<Conn>, es: seq<Event>, j: nat, k: nat)
    requires IsRun(cs, es) && j <= k <= |es|
    requires forall i :: j <= i <= k ==> cs[i].writeOps != []
    ensures cs[k].msg == cs[j].msg
    decreases k
  {
    hide Step, Enabled;
    if j < k {
      ReplyIsUntouchedWhileWriting(cs, es, j, k - 1);
      RunIsGood(cs, es, k - 1);
      WritingStep(cs[k - 1], es[k - 1]);
    }
  }

  /** Whenever data may arrive, nothing of an earlier reply is left. */
  lemma ReplyIsEmptyWhileReading(cs: seq<Conn>, es: seq<Event>, k: nat)
    requires IsRun(cs, es) && k <= |es| && cs[k].readOps != []
    ensures cs[k].msg.reply.headers == []
    ensures cs[k].msg.reply.content == None || cs[k].msg.reply.content == Some([])
  {
    RunIsGood(cs, es, k);
  }

  // ---- decoding the stream

  /** What a request handler must see to: a reply that delimits itself (see Framing.FramingExact). */
  predicate Fits(verb: Method, f: Fill) {
    IsFramable(AnswerTo(verb, f, true))
  }

  predicate KeepsContract(c: Conn, e: Event) {
    match e
    case ReadDone(_, ReadOk(ks, bad, h)) =>
      var m := OnCallbacks(c.msg, ks);
      !bad && m.requestComplete && !h.Waits? ==> Fits(m.verb, h.fill)
    case HandlerReplies(f) => Fits(c.msg.verb, f)
    case _ => true
  }

  /** The request handlers of the first k steps kept their contract. */
  predicate ContractKept(cs: seq<Conn>, es: seq<Event>, k: nat)
    requires k <= |es| < |cs|
  {
    forall j {:trigger es[j]} :: 0 <= j < k ==> KeepsContract(cs[j], es[j])
  }

  /** The server's own replies, 400 and 404, fit any request. */
  lemma StockRepliesFit(verb: Method, status: int)
    ensures Fits(verb, Fill([], [], status, TEXT_HTML, 0, []))
  {
    StockRepliesAreFramable(verb, status);
    var a := AnswerTo(verb, Fill([], [], status, TEXT_HTML, 0, []), true);
    assert a.reply.headers == [Header(CONTENT_LENGTH, "0")] && a.reply.content == Some([]);
  }

  /** Any fill makes a reply with its length header in place. */
  lemma FillHasLength(verb: Method, f: Fill)
    ensures HasLengthAt(AnswerTo(verb, f, true).reply, f.extra)
  {
    var filled := BLANK_REPLY.(headers := BLANK_REPLY.headers + f.before, content := Some([] + f.body));
    CreateSetsLength(filled, f.status, f.contentType, f.extra, f.after);
  }

  /** A fill fits exactly when its reply, followed by anything at all, is read back as itself. */
  lemma FitsExact(verb: Method, f: Fill)
    ensures Fits(verb, f) <==>
      var r := AnswerTo(verb, f, true).reply;
      forall rest :: ParseReply(verb, Render(r) + rest) == Some((MessageOf(r), rest))
  {
    FillHasLength(verb, f);
    FramingExact(verb, AnswerTo(verb, f, true).reply, f.extra);
  }

  /** With or without the close header, a fitting fill is framable. */
  lemma FittingAnswer(verb: Method, f: Fill, keepAlive: bool)
    requires Fits(verb, f)
    ensures IsFramable(AnswerTo(verb, f, keepAlive))
  {
    if !keepAlive {
      CloseKeepsFraming(verb, FillReply(BLANK_REPLY, f), f.extra);
    }
  }

  predicate IsFramed(c: Conn, l: Log) {
    && (forall a :: a in l.answers ==> IsFramable(a))
    && (c.posted > 0 ==> l.draft.Some? && Fits(c.msg.verb, l.draft.value))
  }

  lemma ParseKeepsVerb(c: Conn, bad: bool, h: Handler)
    ensures AfterParse(c, bad, h).msg.verb == c.msg.verb
    ensures AfterParse(c, bad, h).posted <=
      c.posted + if !bad && c.msg.requestComplete && h.WaitsThenReplies? then 1 else 0
  {
    hide Render, FillReply;
  }

  /** Every reply whose writing begins under the contract fits. */
  lemma BegunFits(c: Conn, l: Log, e: Event)
    requires Good(c) && IsFramed(c, l) && Enabled(c, e) && KeepsContract(c, e) && Begun(c, l, e).Some?
    ensures Fits(Step(c, e).msg.verb, Begun(c, l, e).value)
  {
    match e
    case ReadDone(i, ReadOk(ks, bad, h)) =>
      ParseKeepsVerb(
        c.(readOps := Without(c.readOps, i), timer := Cancel(c.timer), msg := OnCallbacks(c.msg, ks)), bad, h);
      StockRepliesFit(OnCallbacks(c.msg, ks).verb, BAD_REQUEST);
    case ReplyDone =>
  }

  lemma DraftFits(c: Conn, l: Log, e: Event)
    requires Good(c) && IsFramed(c, l) && Enabled(c, e) && KeepsContract(c, e) && Step(c, e).posted > 0
    ensures NextDraft(c, l, e).Some? && Fits(Step(c, e).msg.verb, NextDraft(c, l, e).value)
  {
    if e.ReadDone? && e.got.ReadOk? {
      ParseKeepsVerb(
        c.(readOps := Without(c.readOps, e.read), timer := Cancel(c.timer), msg := OnCallbacks(c.msg, e.got.callbacks)),
        e.got.bad, e.got.handler);
    }
  }

  lemma StepKeepsFramed(c: Conn, l: Log, e: Event)
    requires Good(c) && IsFramed(c, l) && Enabled(c, e) && KeepsContract(c, e)
    ensures IsFramed(Step(c, e), NextLog(c, l, e))
  {
    hide Step, Fits, Begun, NextDraft, Enabled, KeepsContract, Good, IsFramable, AnswerTo;
    if Begun(c, l, e).Some? {
      BegunFits(c, l, e);
      FittingAnswer(Step(c, e).msg.verb, Begun(c, l, e).value, Step(c, e).msg.keepAlive);
    }
    if Step(c, e).posted > 0 {
      DraftFits(c, l, e);
    }
  }

  lemma {:induction false} RunIsFramed(cs: seq<Conn>, es: seq<Event>, k: nat)
    requires IsRun(cs, es) && k <= |es| && ContractKept(cs, es, k)
    ensures IsFramed(cs[k], LogAfter(cs, es, k))
  {
    hide Step, NextLog, Enabled, KeepsContract, Good, Fits;
    if k > 0 {
      RunIsFramed(cs, es, k - 1);
      RunIsGood(cs, es, k - 1);
      StepKeepsFramed(cs[k - 1], LogAfter(cs, es, k - 1), es[k - 1]);
    }
  }

  /**
   * The octets of any run under the contract are read as exactly the delivered replies, one each and
   * in order; what is left over is what a failed write had sent.
   */
  lemma StreamDecodes(cs: seq<Conn>, es: seq<Event>, k: nat)
    requires IsRun(cs, es) && k <= |es| && ContractKept(cs, es, k)
    ensures var l := LogAfter(cs, es, k);
      && l.delivered <= |l.answers| && AllHaveContent(l.answers[..l.delivered])
      && ParseReplies(VerbsOf(l.answers[..l.delivered]), l.wire)
         == Some((MessagesOf(l.answers[..l.delivered]), l.tail))
  {
    hide IsFramable, Good, LogGood, IsStable;
    var l := LogAfter(cs, es, k);
    RunIsSound(cs, es, k);
    RunIsFramed(cs, es, k);
    assert forall a :: a in l.answers[..l.delivered] ==> a in l.answers;
    StreamRoundTrips(l.answers[..l.delivered], l.tail);
  }

  /** A refused chunk is answered by an empty 400. */
  lemma RefusedChunkGets400(cs: seq<Conn>, es: seq<Event>, k: nat)
    requires IsRun(cs, es) && k < |es| && es[k].ReadDone? && es[k].got.ReadOk? && es[k].got.bad
    requires !cs[k + 1].faulted
    ensures var before, l := LogAfter(cs, es, k).answers, LogAfter(cs, es, k + 1).answers;
      && |l| == |before| + 1 && l[..|before|] == before && l[|before|].reply.content.Some?
      && MessageOf(l[|before|].reply).status == 400 && MessageOf(l[|before|].reply).body == []
  {
    RunIsGood(cs, es, k);
    StepKeepsGood(cs[k], es[k]);
  }

  // ---- the close header

  /** The reply of a fill, before send_reply adds anything. */
  function OwnReply(f: Fill): (r: ReplyState)
    ensures r.content.Some?
  {
    FillReply(BLANK_REPLY, f)
  }

  /** No read is started at or after step k. */
  predicate NeverReadsAgain(cs: seq<Conn>, k: nat) {
    forall j :: k < j < |cs| ==> cs[j].readOps == []
  }

  function CloseMark(closing: bool): seq<Header> {
    if closing then [Header("Connection", "close")] else []
  }

  lemma AnswerCarriesMark(verb: Method, f: Fill, keepAlive: bool)
    ensures AnswerTo(verb, f, keepAlive).reply.headers == OwnReply(f).headers + CloseMark(!keepAlive)
    ensures AnswerTo(verb, f, keepAlive).reply.content == OwnReply(f).content
    ensures AnswerTo(verb, f, keepAlive).reply.status == OwnReply(f).status
  {
    hide FillReply;
  }

  lemma DeliveryFacts(c: Conn, l: Log, i: nat)
    requires Sound(c, l) && Enabled(c, WriteDone(i, Written))
    ensures var m := NextLog(c, l, WriteDone(i, Written));
      && 0 < m.delivered == |m.answers| == |m.fills| && m.tail == []
      && m.answers[m.delivered - 1] == AnswerTo(c.msg.verb, m.fills[m.delivered - 1], c.msg.keepAlive)
      && m.wire == l.wire + Render(m.answers[m.delivered - 1].reply)
    ensures var d := Step(c, WriteDone(i, Written)); if c.msg.keepAlive then d.readOps != [] else Token(d) == 0
  {
    WriteIsLastAnswer(c, l);
    assert l.answers[l.delivered] in l.answers;
    hide Render;
  }

  lemma ReadsAgainExact(cs: seq<Conn>, es: seq<Event>, k: nat, i: nat)
    requires IsRun(cs, es) && k < |es| && es[k] == WriteDone(i, Written)
    ensures NeverReadsAgain(cs, k) <==> !cs[k].msg.keepAlive
  {
    hide Step, NextLog, Sound, Enabled, AnswerTo, Render;
    RunIsSound(cs, es, k);
    DeliveryFacts(cs[k], LogAfter(cs, es, k), i);
    if cs[k].msg.keepAlive {
      assert cs[k + 1].readOps != [];
    } else {
      forall j | k < j < |cs|
        ensures cs[j].readOps == []
      {
        TokenNeverReturns(cs, es, k + 1, j);
      }
    }
  }

  /**
   * The octets of a written reply are the handler's own reply with the header "Connection: close" behind its
   * headers exactly when no read is ever started again, and without it otherwise.
   */
  lemma CloseAgreement(cs: seq<Conn>, es: seq<Event>, k: nat, i: nat)
    requires IsRun(cs, es) && k < |es| && es[k] == WriteDone(i, Written)
    ensures var before, l := LogAfter(cs, es, k), LogAfter(cs, es, k + 1);
      && 0 < l.delivered == |l.fills|
      && var own := OwnReply(l.fills[l.delivered - 1]);
      l.wire == before.wire + Render(own.(headers := own.headers +
        if NeverReadsAgain(cs, k) then [Header("Connection", "close")] else []))
  {
    hide Step, NextLog, Sound, Enabled, NeverReadsAgain, OwnReply, AnswerTo, Render;
    RunIsSound(cs, es, k);
    DeliveryFacts(cs[k], LogAfter(cs, es, k), i);
    ReadsAgainExact(cs, es, k, i);
    var l := LogAfter(cs, es, k + 1);
    MarkedPrint(cs[k].msg.verb, l.fills[l.delivered - 1], cs[k].msg.keepAlive);
  }

  lemma MarkedPrint(verb: Method, f: Fill, keepAlive: bool)
    ensures var own := OwnReply(f);
      Render(AnswerTo(verb, f, keepAlive).reply) == Render(own.(headers := own.headers + CloseMark(!keepAlive)))
  {
    hide AnswerTo, OwnReply, CloseMark;
    AnswerCarriesMark(verb, f, keepAlive);
  }

  lemma {:induction false} HeardMark(hs: seq<Header>, closing: bool)
    ensures Heard(hs + CloseMark(closing)) == Heard(hs) + CloseMark(closing)
  {
    if hs == [] {
      TrimOfUnblank("close");
      assert [] + CloseMark(closing) == CloseMark(closing);
      assert Heard(CloseMark(closing)) == CloseMark(closing);
    } else {
      HeardMark(hs[1..], closing);
      assert (hs + CloseMark(closing))[1..] == hs[1..] + CloseMark(closing);
    }
  }

  /**
   * A client that reads the stream hears, at the end of the headers of the last written reply, the header
   * "Connection: close" if no read is ever started again, and nothing but the handler's headers otherwise.
   */
  lemma CloseIsHeard(cs: seq<Conn>, es: seq<Event>, k: nat, i: nat)
    requires IsRun(cs, es) && k < |es| && es[k] == WriteDone(i, Written) && ContractKept(cs, es, k + 1)
    ensures var l := LogAfter(cs, es, k + 1);
      && 0 < l.delivered == |l.fills|
      && var heard := ParseReplies(VerbsOf(l.answers), l.wire);
      && heard.Some? && |heard.value.0| == l.delivered && heard.value.1 == []
      && heard.value.0[l.delivered - 1].headers ==
         Heard(OwnReply(l.fills[l.delivered - 1]).headers) +
         if NeverReadsAgain(cs, k) then [Header("Connection", "close")] else []
  {
    hide Step, NextLog, Sound, Enabled, NeverReadsAgain, OwnReply, AnswerTo, ContractKept, Heard, ParseReplies;
    var l := LogAfter(cs, es, k + 1);
    RunIsSound(cs, es, k);
    DeliveryFacts(cs[k], LogAfter(cs, es, k), i);
    ReadsAgainExact(cs, es, k, i);
    StreamDecodes(cs, es, k + 1);
    assert l.answers[..l.delivered] == l.answers;
    var f := l.fills[l.delivered - 1];
    AnswerCarriesMark(cs[k].msg.verb, f, cs[k].msg.keepAlive);
    HeardMark(OwnReply(f).headers, !cs[k].msg.keepAlive);
  }

  // ---- the ends of the stream

  predicate WritesSucceed(es: seq<Event>, k: nat)
    requires k <= |es|
  {
    forall j :: 0 <= j < k && es[j].WriteDone? ==> es[j].result.Written?
  }

  /** As long as no write has failed nothing is left over, and at most one reply is still on its way. */
  lemma {:induction false} NothingLeftOver(cs: seq<Conn>, es: seq<Event>, k: nat)
    requires IsRun(cs, es) && k <= |es| && WritesSucceed(es, k)
    ensures var l := LogAfter(cs, es, k);
      l.tail == [] && |l.answers| == l.delivered + |cs[k].writeOps|
  {
    hide Step, NextLog, Sound, Enabled;
    if k > 0 {
      NothingLeftOver(cs, es, k - 1);
      RunIsSound(cs, es, k - 1);
      StepDelivers(cs[k - 1], LogAfter(cs, es, k - 1), es[k - 1]);
    }
  }

  /** A write is started by every reply whose writing begins, and by nothing else. */
  lemma ParseStartsWrites(c: Conn, bad: bool, h: Handler)
    requires !c.waiting && !c.faulted
    ensures |AfterParse(c, bad, h).writeOps| == |c.writeOps| + if BegunByParse(c.msg, bad, h).Some? then 1 else 0
  {
  }

  lemma StepStartsWrites(c: Conn, l: Log, e: Event)
    requires Sound(c, l) && Enabled(c, e)
    ensures |Step(c, e).writeOps| + (if e.WriteDone? then 1 else 0)
         == |c.writeOps| + if Begun(c, l, e).Some? then 1 else 0
  {
    hide AnswerTo, Render, FillReply, OnWire, OnCallbacks, AfterParse;
    match e
    case ReadDone(i, ReadOk(ks, bad, h)) =>
      ParseStartsWrites(
        c.(readOps := Without(c.readOps, i), timer := Cancel(c.timer), msg := OnCallbacks(c.msg, ks)), bad, h);
    case _ =>
  }

  lemma StepDelivers(c: Conn, l: Log, e: Event)
    requires Sound(c, l) && Enabled(c, e) && (e.WriteDone? ==> e.result.Written?)
    requires l.tail == [] && |l.answers| == l.delivered + |c.writeOps|
    ensures var m := NextLog(c, l, e); m.tail == [] && |m.answers| == m.delivered + |Step(c, e).writeOps|
  {
    hide Step, Sound, Begun, AnswerTo;
    StepStartsWrites(c, l, e);
  }

  /** The header list of a filled reply. */
  function HeadersOf(f: Fill): seq<Header>
    requires f.extra <= |f.before|
  {
    f.before[..f.extra] + [Header("Content-Length", FormatInt(ToInt32(|f.body|)))]
    + (if f.body == [] then [] else [Header("Content-Type", f.contentType)])
    + f.after
  }

  lemma FilledHeaders(f: Fill)
    requires f.extra <= |f.before|
    ensures var r := FillReply(BLANK_REPLY, f);
      r.headers == HeadersOf(f) && r.content == Some(f.body) && r.status == f.status
  {
    hide Created, FormatInt;
    var filled := BLANK_REPLY.(headers := BLANK_REPLY.headers + f.before, content := Some([] + f.body));
    assert filled.headers == f.before && [] + f.body == f.body;
    CreateKeepsExtraHeaders(filled, f.status, f.contentType, f.extra);
    var created := Created(filled, f.status, f.contentType, f.extra);
    assert created.headers == created.headers[..f.extra] + created.headers[f.extra..];
  }

  /** What a client hears in an answer comes from that answer's own fill, and the close header if it was added. */
  lemma AnswerIsItsFill(verb: Method, f: Fill, keepAlive: bool)
    requires f.extra <= |f.before|
    ensures var m := MessageOf(AnswerTo(verb, f, keepAlive).reply);
      && m.status == PrintedStatus(f.status) && m.body == f.body
      && m.headers == Heard(HeadersOf(f) + if keepAlive then [] else [CloseHeader()])
  {
    hide FillReply, HeadersOf, Heard, PrintedStatus;
    FilledHeaders(f);
    assert HeadersOf(f) + [] == HeadersOf(f);
  }

  predicate AllClean(hs: seq<Header>) {
    forall h :: h in hs ==> IsCleanHeader(h)
  }

  /** What a request handler can check before it calls create and add. */
  predicate IsFittingFill(verb: Method, f: Fill) {
    && f.extra <= |f.before| && AllClean(f.before[..f.extra]) && AllClean(f.after)
    && (f.body != [] ==> IsClean(f.contentType))
    && if NoBody(verb, PrintedStatus(f.status)) then f.body == []
       else |f.body| < 0x8000_0000 && NoFraming(f.before[..f.extra]) && NoFraming(f.after)
  }

  lemma LengthHeaderIsClean(size: nat)
    ensures IsCleanHeader(LengthHeader(size))
  {
    hide ToInt32, FormatInt;
    FormattedSizeParses(size);
    assert IsToken(CONTENT_LENGTH);
  }

  lemma TypeHeaderIsClean(contentType: Octets)
    ensures IsCleanHeader(Header(CONTENT_TYPE, contentType)) <==> IsClean(contentType)
  {
    assert IsToken(CONTENT_TYPE);
  }

  lemma TypeHeaderIsNotFraming(contentType: Octets, after: seq<Header>)
    ensures NoFraming([Header(CONTENT_TYPE, contentType)] + after) <==> NoFraming(after)
  {
    assert |CONTENT_TYPE| == 12 && |CONTENT_LENGTH| == 14 && |TRANSFER_ENCODING| == 17;
    assert ([Header(CONTENT_TYPE, contentType)] + after)[1..] == after;
  }

  /** Asking create to keep more headers than there are leaves nameless ones, which no client accepts. */
  lemma PaddedHeadersNeverFit(verb: Method, f: Fill)
    requires f.extra > |f.before|
    ensures !Fits(verb, f)
  {
    var r := AnswerTo(verb, f, true).reply;
    FillHasLength(verb, f);
    assert r.headers[|f.before|] == Header("", "");
    assert !IsCleanHeader(r.headers[|f.before|]);
  }

  lemma AllCleanConcat(a: seq<Header>, h: Header, b: seq<Header>, c: seq<Header>)
    ensures AllClean(a + [h] + b + c) <==> AllClean(a) && IsCleanHeader(h) && AllClean(b) && AllClean(c)
  {
    var all := a + [h] + b + c;
    assert forall x :: x in all <==> x in a || x == h || x in b || x in c;
  }

  /** A fill delimits its own reply exactly when its parts pass the handler's check. */
  lemma FitsByFill(verb: Method, f: Fill)
    ensures Fits(verb, f) <==> IsFittingFill(verb, f)
  {
    if f.extra > |f.before| {
      PaddedHeadersNeverFit(verb, f);
    } else {
      FitsWithinHeaders(verb, f);
    }
  }

  lemma HeadersAround(f: Fill)
    requires f.extra <= |f.before|
    ensures var (kept, length, own) := (f.before[..f.extra], LengthHeader(|f.body|), TypeHeaders(f));
      && HeadersOf(f) == kept + [length] + own + f.after
      && HeadersOf(f)[..f.extra] == kept && HeadersOf(f)[f.extra + 1..] == own + f.after
  {
    hide FormatInt, ToInt32;
  }

  function TypeHeaders(f: Fill): seq<Header> {
    if f.body == [] then [] else [Header(CONTENT_TYPE, f.contentType)]
  }

  lemma TypeHeadersFit(f: Fill)
    ensures AllClean(TypeHeaders(f)) <==> (f.body != [] ==> IsClean(f.contentType))
    ensures NoFraming(TypeHeaders(f) + f.after) <==> NoFraming(f.after)
  {
    hide IsCleanHeader, NoFraming;
    TypeHeaderIsClean(f.contentType);
    TypeHeaderIsNotFraming(f.contentType, f.after);
    assert f.body == [] ==> TypeHeaders(f) + f.after == f.after;
  }

  lemma FitsWithinHeaders(verb: Method, f: Fill)
    requires f.extra <= |f.before|
    ensures Fits(verb, f) <==> IsFittingFill(verb, f)
  {
    hide FillReply, IsCleanHeader, LengthHeader, IsFraming, TypeHeaders, HeadersOf, NoFraming, AllClean;
    FilledHeaders(f);
    FillHasLength(verb, f);
    LengthHeaderIsClean(|f.body|);
    TypeHeadersFit(f);
    HeadersAround(f);
    AllCleanConcat(f.before[..f.extra], LengthHeader(|f.body|), TypeHeaders(f), f.after);
    FramableIsClean(verb, AnswerTo(verb, f, true).reply, f.extra);
  }

  lemma FramableIsClean(verb: Method, r: ReplyState, at: nat)
    requires HasLengthAt(r, at)
    ensures Framable(verb, r, at) <==>
      && AllClean(r.headers)
      && if NoBody(verb, PrintedStatus(r.status)) then r.content.value == []
         else |r.content.value| < 0x8000_0000 && NoFraming(r.headers[..at]) && NoFraming(r.headers[at + 1..])
  {
  }
}
