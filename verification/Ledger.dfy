/** Which requests are answered: the counts an observer keeps over a run. */
module Ledger {
  import opened Base
  import opened Replies
  import opened ResponseParser
  import opened Framing
  import opened Connection
  import opened Runs
  import opened Wire

  /**
   * `requests` counts chunks that were refused or handed to a request handler, `completions` the messages
   * the parser completed, `bads` the chunks it refused. `waits`, `notifies` and `asyncSent` count calls of
   * wait_for_async_reply, calls of notify_async_reply_done and replies sent on its behalf.
   */
  datatype Books = Books(
    requests: nat, completions: nat, bads: nat,
    waits: nat, notifies: nat, asyncSent: nat,
    inMessage: bool)

  function Completions(ks: seq<Callback>): nat {
    if ks == [] then 0 else Completions(ks[..|ks| - 1]) + if ks[|ks| - 1].MessageComplete? then 1 else 0
  }

  /** The parser is inside a message behind these callbacks. */
  function InMessage(start: bool, ks: seq<Callback>): bool {
    if ks == [] then start
    else
      match ks[|ks| - 1]
      case MessageBegin => true
      case HeadersComplete(_) => InMessage(start, ks[..|ks| - 1])
      case MessageComplete(_) => false
  }

  /** The parser reports a begin outside a message and everything else inside one. */
  predicate Alternates(start: bool, ks: seq<Callback>) {
    ks == [] || (
      && Alternates(start, ks[..|ks| - 1])
      && (ks[|ks| - 1].MessageBegin? <==> !InMessage(start, ks[..|ks| - 1])))
  }

  function NextBooks(c: Conn, b: Books, e: Event): Books {
    match e
    case ReadDone(_, ReadOk(ks, bad, h)) =>
      var m := OnCallbacks(c.msg, ks);
      var served := !bad && m.requestComplete;
      b.(requests := b.requests + One(bad || served),
         completions := b.completions + Completions(ks),
         bads := b.bads + One(bad),
         waits := b.waits + One(served && !h.Replies?),
         notifies := b.notifies + One(served && h.WaitsThenReplies?),
         inMessage := InMessage(b.inMessage, ks))
    case HandlerReplies(_) => b.(notifies := b.notifies + 1)
    case ReplyDone => b.(asyncSent := b.asyncSent + 1)
    case _ => b
  }

  function BooksAfter(cs: seq<Conn>, es: seq<Event>, k: nat): Books
    requires IsRun(cs, es) && k <= |es|
  {
    if k == 0 then Books(0, 0, 0, 0, 0, 0, false)
    else NextBooks(cs[k - 1], BooksAfter(cs, es, k - 1), es[k - 1])
  }

  // ---- every request is answered once

  predicate Balanced(c: Conn, l: Log, b: Books) {
    !c.faulted ==>
      && b.requests == |l.answers| + c.posted + c.owed
      && b.waits == b.notifies + c.owed
      && b.notifies == b.asyncSent + c.posted
  }

  lemma ParseBalances(c: Conn, bad: bool, h: Handler)
    requires !c.waiting && !c.faulted && c.posted == c.owed == 0
    ensures var d := AfterParse(c, bad, h);
      var served := !bad && c.msg.requestComplete;
      !d.faulted ==>
        && One(bad || served) == One(BegunByParse(c.msg, bad, h).Some?) + d.posted + d.owed
        && One(served && !h.Replies?) == One(served && h.WaitsThenReplies?) + d.owed
        && One(served && h.WaitsThenReplies?) == d.posted
  {
  }

  lemma StepBalances(c: Conn, l: Log, b: Books, e: Event)
    requires Sound(c, l) && Balanced(c, l, b) && Enabled(c, e)
    ensures Balanced(Step(c, e), NextLog(c, l, e), NextBooks(c, b, e))
  {
    hide AnswerTo, Render, FillReply, IsStable, OnWire, OnCallbacks;
    match e
    case ReadDone(i, ReadOk(ks, bad, h)) =>
      ParseBalances(
        c.(readOps := Without(c.readOps, i), timer := Cancel(c.timer), msg := OnCallbacks(c.msg, ks)), bad, h);
    case _ =>
  }

  /**
   * Every refused chunk and every dispatched request is answered by one reply: written, on its way, posted, or owed
   * by its handler. A waiting handler's reply is sent once for its one notification.
   */
  lemma RunBalances(cs: seq<Conn>, es: seq<Event>, k: nat)
    requires IsRun(cs, es) && k <= |es| && !cs[k].faulted
    ensures var l, b := LogAfter(cs, es, k), BooksAfter(cs, es, k);
      && b.requests == |l.answers| + cs[k].posted + cs[k].owed
      && b.waits == b.notifies + cs[k].owed
      && b.notifies == b.asyncSent + cs[k].posted
  {
    BalancedAt(cs, es, k);
  }

  lemma {:induction false} BalancedAt(cs: seq<Conn>, es: seq<Event>, k: nat)
    requires IsRun(cs, es) && k <= |es|
    ensures Balanced(cs[k], LogAfter(cs, es, k), BooksAfter(cs, es, k))
  {
    hide Step, NextLog, NextBooks, Enabled, Sound;
    if k > 0 {
      BalancedAt(cs, es, k - 1);
      RunIsSound(cs, es, k - 1);
      StepBalances(cs[k - 1], LogAfter(cs, es, k - 1), BooksAfter(cs, es, k - 1), es[k - 1]);
    }
  }

  // ---- asynchronous replies

  /** The step in which a handler says it will reply later. */
  predicate StartsWaiting(c: Conn, e: Event) {
    match e
    case ReadDone(_, ReadOk(ks, bad, h)) => !bad && OnCallbacks(c.msg, ks).requestComplete && h.Waits?
    case _ => false
  }

  lemma OwedStep(c: Conn, e: Event)
    requires Good(c) && Enabled(c, e) && ((c.owed == 1 && !e.HandlerReplies?) || StartsWaiting(c, e))
    ensures Step(c, e).owed == 1 && Step(c, e).writeOps == []
  {
  }

  /** Between a handler's wait_for_async_reply and its call back nothing is written, whatever the timer does. */
  lemma {:induction false} NothingWrittenWhileOwed(cs: seq<Conn>, es: seq<Event>, i: nat, k: nat)
    requires IsRun(cs, es) && i < k <= |es| && StartsWaiting(cs[i], es[i])
    requires forall j :: i < j < k ==> !es[j].HandlerReplies?
    ensures cs[k].owed == 1 && cs[k].writeOps == []
    ensures |LogAfter(cs, es, k).answers| == |LogAfter(cs, es, i).answers|
    decreases k
  {
    hide Step, NextLog, Sound, Enabled, StartsWaiting;
    if k - 1 > i {
      NothingWrittenWhileOwed(cs, es, i, k - 1);
    }
    WaitingStep(cs[k - 1], LogAfter(cs, es, k - 1), es[k - 1]) by {
      RunIsSound(cs, es, k - 1);
    }
  }

  lemma WaitingStep(c: Conn, l: Log, e: Event)
    requires Sound(c, l) && Enabled(c, e) && ((c.owed == 1 && !e.HandlerReplies?) || StartsWaiting(c, e))
    ensures Step(c, e).owed == 1 && Step(c, e).writeOps == []
    ensures NextLog(c, l, e).answers == l.answers
  {
    OwedStep(c, e);
  }

  // ---- answers and messages

  /** No message begins in a chunk in which one was completed before. */
  predicate NoBeginAfterComplete(ks: seq<Callback>) {
    forall i, j :: 0 <= i < j < |ks| ==> !(ks[i].MessageComplete? && ks[j].MessageBegin?)
  }

  /**
   * The chunks that are answered once for each message a client counts: a refused chunk completes nothing,
   * any other holds no second request, and one that carries no message does not follow a completed one.
   */
  predicate OneMessage(c: Conn, e: Event) {
    match e
    case ReadDone(_, ReadOk(ks, bad, _)) =>
      if bad then forall i :: 0 <= i < |ks| ==> !ks[i].MessageComplete?
      else NoBeginAfterComplete(ks) && (c.msg.requestComplete ==> ks != [])
    case _ => true
  }

  lemma {:induction false} CompletionsCounted(ks: seq<Callback>)
    ensures Completions(ks) == 0 <==> forall i :: 0 <= i < |ks| ==> !ks[i].MessageComplete?
  {
    if ks != [] {
      CompletionsCounted(ks[..|ks| - 1]);
    }
  }

  lemma {:induction false} ChunkCounts(m: Exchange, start: bool, ks: seq<Callback>)
    requires Alternates(start, ks) && (m.requestComplete ==> !start)
    ensures OnCallbacks(m, ks).requestComplete ==> !InMessage(start, ks)
    ensures NoBeginAfterComplete(ks) && (m.requestComplete ==> ks != []) ==>
      Completions(ks) == One(OnCallbacks(m, ks).requestComplete)
    ensures !NoBeginAfterComplete(ks) ==> Completions(ks) > One(OnCallbacks(m, ks).requestComplete)
  {
    if ks != [] {
      var before := ks[..|ks| - 1];
      ChunkCounts(m, start, before);
      CompletionsCounted(before);
    }
  }

  /** The callbacks of a run come in the order a parser makes them. */
  predicate ParserAlternates(cs: seq<Conn>, es: seq<Event>)
    requires IsRun(cs, es)
  {
    forall k {:trigger es[k]} :: 0 <= k < |es| && es[k].ReadDone? && es[k].got.ReadOk? ==>
      Alternates(BooksAfter(cs, es, k).inMessage, es[k].got.callbacks)
  }

  /** How far the answers due run ahead of the messages a client counts. */
  function Surplus(b: Books): int {
    b.requests - b.completions - b.bads
  }

  lemma ParseKeepsComplete(c: Conn, bad: bool, h: Handler)
    ensures AfterParse(c, bad, h).msg.requestComplete == c.msg.requestComplete
  {
  }

  lemma StepKeepsPhase(c: Conn, b: Books, e: Event)
    requires Enabled(c, e) && (c.msg.requestComplete ==> !b.inMessage)
    requires e.ReadDone? && e.got.ReadOk? ==> Alternates(b.inMessage, e.got.callbacks)
    ensures Step(c, e).msg.requestComplete ==> !NextBooks(c, b, e).inMessage
    ensures Surplus(NextBooks(c, b, e)) == Surplus(b) <==> OneMessage(c, e)
  {
    match e
    case ReadDone(i, ReadOk(ks, bad, h)) =>
      ChunkCounts(c.msg, b.inMessage, ks);
      CompletionsCounted(ks);
      ParseKeepsComplete(
        c.(readOps := Without(c.readOps, i), timer := Cancel(c.timer), msg := OnCallbacks(c.msg, ks)), bad, h);
    case _ =>
  }

  lemma {:induction false} RunKeepsPhase(cs: seq<Conn>, es: seq<Event>, k: nat)
    requires IsRun(cs, es) && k <= |es| && ParserAlternates(cs, es)
    ensures cs[k].msg.requestComplete ==> !BooksAfter(cs, es, k).inMessage
  {
    hide Step, NextBooks, Enabled, OneMessage, Alternates;
    if k > 0 {
      RunKeepsPhase(cs, es, k - 1);
      StepKeepsPhase(cs[k - 1], BooksAfter(cs, es, k - 1), es[k - 1]);
    }
  }

  lemma SurplusStep(cs: seq<Conn>, es: seq<Event>, k: nat)
    requires IsRun(cs, es) && k < |es| && ParserAlternates(cs, es)
    ensures Surplus(BooksAfter(cs, es, k + 1)) == Surplus(BooksAfter(cs, es, k)) <==> OneMessage(cs[k], es[k])
  {
    hide Step, NextBooks, Enabled, OneMessage, Alternates, Surplus;
    RunKeepsPhase(cs, es, k);
    StepKeepsPhase(cs[k], BooksAfter(cs, es, k), es[k]);
  }

  lemma {:induction false} NoSurplus(cs: seq<Conn>, es: seq<Event>, k: nat)
    requires IsRun(cs, es) && k <= |es| && ParserAlternates(cs, es)
    requires AllOneMessage(cs, es)
    ensures Surplus(BooksAfter(cs, es, k)) == 0
  {
    hide Step, Enabled, NextBooks, OneMessage, Alternates;
    if k > 0 {
      NoSurplus(cs, es, k - 1);
      SurplusStep(cs, es, k - 1);
    }
  }

  predicate AllOneMessage(cs: seq<Conn>, es: seq<Event>)
    requires |cs| == |es| + 1
  {
    forall k {:trigger es[k]} :: 0 <= k < |es| ==> OneMessage(cs[k], es[k])
  }

  predicate KeepsStep(cs: seq<Conn>, es: seq<Event>)
    requires IsRun(cs, es)
  {
    forall k: nat {:trigger BooksAfter(cs, es, k)} :: k <= |es| ==> Surplus(BooksAfter(cs, es, k)) == 0
  }

  lemma AllKeepStep(cs: seq<Conn>, es: seq<Event>)
    requires IsRun(cs, es) && ParserAlternates(cs, es) && AllOneMessage(cs, es)
    ensures KeepsStep(cs, es)
  {
    hide AllOneMessage, ParserAlternates, IsRun, Surplus;
    forall k: nat | k <= |es|
      ensures Surplus(BooksAfter(cs, es, k)) == 0
    {
      NoSurplus(cs, es, k);
    }
  }

  lemma StepInStep(cs: seq<Conn>, es: seq<Event>, k: nat)
    requires IsRun(cs, es) && ParserAlternates(cs, es) && KeepsStep(cs, es) && k < |es|
    ensures OneMessage(cs[k], es[k])
  {
    hide Step, NextBooks, OneMessage, Alternates, Surplus, ParserAlternates;
    SurplusStep(cs, es, k);
    assert Surplus(BooksAfter(cs, es, k)) == Surplus(BooksAfter(cs, es, k + 1));
  }

  /**
   * Answers keep step with the messages of a client all along a run exactly when every chunk of the run
   * holds one message at most and none is an empty chunk behind a completed message.
   */
  lemma AnswersKeepStepExact(cs: seq<Conn>, es: seq<Event>)
    requires IsRun(cs, es) && ParserAlternates(cs, es)
    ensures KeepsStep(cs, es) <==> AllOneMessage(cs, es)
  {
    if AllOneMessage(cs, es) {
      AllKeepStep(cs, es);
    }
    if KeepsStep(cs, es) {
      forall k {:trigger es[k]} | 0 <= k < |es|
        ensures OneMessage(cs[k], es[k])
      {
        StepInStep(cs, es, k);
      }
    }
  }

  /** In such a run every message and every refused chunk has one answer: begun, posted, or owed by its handler. */
  lemma OneAnswerPerMessage(cs: seq<Conn>, es: seq<Event>, k: nat)
    requires IsRun(cs, es) && ParserAlternates(cs, es) && k <= |es| && !cs[k].faulted
    requires AllOneMessage(cs, es)
    ensures var b := BooksAfter(cs, es, k);
      b.completions + b.bads == |LogAfter(cs, es, k).answers| + cs[k].posted + cs[k].owed
  {
    hide OneMessage, Alternates, NextBooks, NextLog;
    NoSurplus(cs, es, k);
    RunBalances(cs, es, k);
  }

  /**
   * Whenever the connection is ready for more data, the octets written so far are read as exactly one reply
   * for each completed message and each refused chunk, in order, with nothing left over.
   */
  lemma StreamAnswersEveryMessage(cs: seq<Conn>, es: seq<Event>, k: nat)
    requires IsRun(cs, es) && ParserAlternates(cs, es) && AllOneMessage(cs, es)
    requires k <= |es| && ContractKept(cs, es, k) && cs[k].readOps != []
    ensures var l, b := LogAfter(cs, es, k), BooksAfter(cs, es, k);
      && |l.answers| == b.completions + b.bads
      && AllHaveContent(l.answers)
      && ParseReplies(VerbsOf(l.answers), l.wire) == Some((MessagesOf(l.answers), []))
  {
    var l := LogAfter(cs, es, k);
    ReadingFacts(cs[k], l) by {
      RunIsSound(cs, es, k);
    }
    hide *;
    OneAnswerPerMessage(cs, es, k);
    StreamDecodes(cs, es, k);
    assert l.answers[..l.delivered] == l.answers;
  }

  lemma ReadingFacts(c: Conn, l: Log)
    requires Sound(c, l) && c.readOps != []
    ensures !c.faulted && c.posted == c.owed == 0 && |l.answers| == l.delivered && l.tail == []
  {
  }

  // ---- the chunks that are not answered so

  const ONE_REQUEST := [MessageBegin, MessageComplete(true)]

  lemma OneRequestFacts(m: Exchange)
    ensures OnCallbacks(m, ONE_REQUEST) == m.(requestComplete := true, keepAlive := true, reply := WasReset(m.reply))
    ensures Completions(ONE_REQUEST) == 1 && !InMessage(false, ONE_REQUEST) && Alternates(false, ONE_REQUEST)
  {
    assert ONE_REQUEST[..1] == [MessageBegin] && [MessageBegin][..0] == [];
    assert OnCallbacks(m, [MessageBegin]) == OnCallback(m, MessageBegin);
    assert Completions([MessageBegin]) == 0 && InMessage(false, [MessageBegin]) && Alternates(false, [MessageBegin]);
  }

  lemma {:induction false} CountsAppend(start: bool, a: seq<Callback>, b: seq<Callback>)
    ensures Completions(a + b) == Completions(a) + Completions(b)
    ensures InMessage(start, a + b) == InMessage(InMessage(start, a), b)
    ensures Alternates(start, a + b) <==> Alternates(start, a) && Alternates(InMessage(start, a), b)
  {
    if b == [] {
      assert a + b == a;
    } else {
      CountsAppend(start, a, b[..|b| - 1]);
      assert (a + b)[..|a + b| - 1] == a + b[..|b| - 1];
    }
  }

  /** Two requests in one chunk get one answer. */
  lemma PipelinedRequestIsLost(c: Conn, f: Fill)
    requires Started(c)
    ensures var e := ReadDone(0, ReadOk(ONE_REQUEST + ONE_REQUEST, false, Replies(f)));
      IsRun([c, Step(c, e)], [e]) && ParserAlternates([c, Step(c, e)], [e])
      && Surplus(BooksAfter([c, Step(c, e)], [e], 1)) == -1
  {
    hide AfterParse;
    OneRequestFacts(c.msg);
    OneRequestFacts(OnCallbacks(c.msg, ONE_REQUEST));
    CallbacksAreFolded(c.msg, ONE_REQUEST, ONE_REQUEST);
    CountsAppend(false, ONE_REQUEST, ONE_REQUEST);
    var e := ReadDone(0, ReadOk(ONE_REQUEST + ONE_REQUEST, false, Replies(f)));
    var cs := [c, Step(c, e)];
    assert BooksAfter(cs, [e], 0) == Books(0, 0, 0, 0, 0, 0, false);
    assert BooksAfter(cs, [e], 1) == Books(1, 2, 0, 0, 0, 0, false);
  }

  lemma CompleteRequestIsServed(c: Conn, f: Fill)
    requires c.msg.requestComplete && c.msg.reply.content.Some? && !c.waiting && !c.faulted
    ensures var d := AfterParse(c, false, Replies(f));
      && !d.faulted && |d.writeOps| == |c.writeOps| + 1 && d.readOps == c.readOps
      && d.msg.requestComplete && d.msg.keepAlive == c.msg.keepAlive
  {
    assert FillReply(c.msg.reply, f).content.Some?;
    hide Render, FillReply;
  }

  lemma RequestIsServed(c: Conn, ks: seq<Callback>, f: Fill)
    requires !c.faulted && !c.waiting && c.readOps == [false] && c.writeOps == []
    requires var m := OnCallbacks(c.msg, ks); m.requestComplete && m.keepAlive && m.reply.content.Some?
    ensures var e := ReadDone(0, ReadOk(ks, false, Replies(f)));
      && Enabled(c, e) && var d := Step(c, e);
      !d.faulted && |d.writeOps| == 1 && d.msg.requestComplete && d.msg.keepAlive
  {
    hide AfterParse, OnCallbacks;
    CompleteRequestIsServed(
      c.(readOps := Without(c.readOps, 0), timer := Cancel(c.timer), msg := OnCallbacks(c.msg, ks)), f);
  }

  lemma KeptAliveReadsAgain(c: Conn)
    requires !c.faulted && |c.writeOps| == 1 && c.msg.requestComplete && c.msg.keepAlive
    ensures var e := WriteDone(0, Written);
      && Enabled(c, e) && var d := Step(c, e);
      !d.faulted && d.readOps != [] && d.msg.requestComplete
  {
    hide AfterParse, OnCallbacks;
  }

  /** A chunk without a message, read behind a finished exchange, is served as a request and answered. */
  lemma EmptyChunkIsServed(c: Conn, f: Fill)
    requires Started(c)
    ensures var es := [
        ReadDone(0, ReadOk(ONE_REQUEST, false, Replies(f))), WriteDone(0, Written),
        ReadDone(0, ReadOk([], false, Replies(f)))];
      && Enabled(c, es[0]) && Enabled(Step(c, es[0]), es[1]) && Enabled(Step(Step(c, es[0]), es[1]), es[2])
      && var cs := [c, Step(c, es[0]), Step(Step(c, es[0]), es[1]), Step(Step(Step(c, es[0]), es[1]), es[2])];
      IsRun(cs, es) && Surplus(BooksAfter(cs, es, 3)) == 1
  {
    var es := [
      ReadDone(0, ReadOk(ONE_REQUEST, false, Replies(f))), WriteDone(0, Written),
      ReadDone(0, ReadOk([], false, Replies(f)))];
    hide AfterParse;
    OneRequestFacts(c.msg);
    RequestIsServed(c, ONE_REQUEST, f);
    var c1 := Step(c, es[0]);
    KeptAliveReadsAgain(c1);
    var c2 := Step(c1, es[1]);
    assert OnCallbacks(c2.msg, []) == c2.msg;
    var c3 := Step(c2, es[2]);
    var cs := [c, c1, c2, c3];
    assert IsRun(cs, es);
    assert BooksAfter(cs, es, 1) == Books(1, 1, 0, 0, 0, 0, false);
    assert BooksAfter(cs, es, 2) == Books(1, 1, 0, 0, 0, 0, false);
    assert BooksAfter(cs, es, 3) == Books(2, 1, 0, 0, 0, 0, false);
  }
}
