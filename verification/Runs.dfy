/** Whole runs of one connection: the single token of control, the timer, faults, and how a run ends. */
module Runs {
  import opened Base
  import opened Replies
  import opened ResponseParser
  import opened Framing
  import opened Connection

  /** A connection right after start(). */
  predicate Started(c: Conn) {
    c.readOps == [false] && Constructed(c.(readOps := []))
  }

  /** start() takes a constructed connection to where every run begins. */
  lemma StartBeginsRun(c: Conn)
    requires Constructed(c)
    ensures Started(Connection.Start(c)) && IsRun([Connection.Start(c)], [])
  {
    var d := Connection.Start(c);
    assert d.readOps == [false] && d.(readOps := []) == c.(readOps := []) == c;
  }

  /** States and the events between them; the environment picks every event. */
  predicate IsRun(cs: seq<Conn>, es: seq<Event>) {
    && |cs| == |es| + 1 && Started(cs[0])
    && forall k {:trigger es[k]} :: 0 <= k < |es| ==> Enabled(cs[k], es[k]) && cs[k + 1] == Step(cs[k], es[k])
  }

  // ---- what every step keeps

  /** Whoever may act next: a pending read, a pending write, a posted reply-done, or a handler that owes its call. */
  function Token(c: Conn): nat {
    |c.readOps| + |c.writeOps| + c.posted + c.owed
  }

  /** Nothing left in the reply from an earlier exchange. */
  predicate IsEmptyReply(r: ReplyState) {
    r.headers == [] && (r.content == None || r.content == Some([]))
  }

  predicate Good(c: Conn) {
    && Token(c) <= 1
    && (c.faulted ==> Token(c) == 0)
    && (!c.faulted ==> (c.waiting <==> c.owed + c.posted == 1))
    && c.timer.armed <= 1
    && (c.writeOps != [] ==> c.timer.armed == 0)
    && (c.readOps != [] || c.owed > 0 ==> IsEmptyReply(c.msg.reply))
    && (c.writeOps != [] || c.posted > 0 ==> c.msg.reply.content.Some?)
  }

  lemma {:induction false} CallbacksKeepBlank(m: Exchange, ks: seq<Callback>)
    ensures IsEmptyReply(m.reply) ==> IsEmptyReply(OnCallbacks(m, ks).reply)
    ensures OnCallbacks(m, ks).reply.content.None? <==> m.reply.content.None? && MessageBegin !in ks
  {
    if ks != [] {
      var n := |ks| - 1;
      CallbacksKeepBlank(m, ks[..n]);
      assert ks == ks[..n] + [ks[n]];
    }
  }

  /** The step that uses the null stream: a reply is made before any message has begun. */
  predicate Faults(c: Conn, e: Event) {
    match e
    case ReadDone(_, ReadOk(ks, bad, h)) =>
      var m := OnCallbacks(c.msg, ks);
      m.reply.content.None? && (bad || (m.requestComplete && !h.Waits?))
    case HandlerReplies(_) => c.msg.reply.content.None?
    case _ => false
  }

  /** The steps after which nothing but the timer is left. */
  predicate Ends(c: Conn, e: Event) {
    match e
    case ReadDone(_, got) => !got.ReadOk? || Faults(c, e)
    case WriteDone(_, result) => !(result.Written? && c.msg.keepAlive)
    case HandlerReplies(_) => Faults(c, e)
    case _ => false
  }

  lemma AfterParseKeepsGood(c: Conn, bad: bool, h: Handler)
    requires Token(c) == 0 && !c.faulted && !c.waiting && c.timer.armed == 0 && IsEmptyReply(c.msg.reply)
    ensures var d := AfterParse(c, bad, h);
      var fault := c.msg.reply.content.None? && (bad || (c.msg.requestComplete && !h.Waits?));
      Good(d) && d.faulted == fault && Token(d) == if fault then 0 else 1
  {
  }

  lemma ReadKeepsGood(c: Conn, i: nat, got: ReadOutcome)
    requires Good(c) && Enabled(c, ReadDone(i, got))
    ensures Good(OnRead(c, i, got))
    ensures Token(OnRead(c, i, got)) == if Ends(c, ReadDone(i, got)) then 0 else 1
    ensures OnRead(c, i, got).faulted == Faults(c, ReadDone(i, got))
  {
    match got
    case ReadOk(ks, bad, h) =>
      CallbacksKeepBlank(c.msg, ks);
      AfterParseKeepsGood(
        c.(readOps := Without(c.readOps, i), timer := Cancel(c.timer), msg := OnCallbacks(c.msg, ks)), bad, h);
    case _ =>
  }

  /** Every step keeps the invariant and says exactly what becomes of the token. */
  lemma StepKeepsGood(c: Conn, e: Event)
    requires Good(c) && Enabled(c, e)
    ensures Good(Step(c, e))
    ensures Token(Step(c, e)) == if Ends(c, e) then 0 else Token(c)
    ensures Step(c, e).faulted == Faults(c, e)
  {
    match e
    case ReadDone(i, got) => ReadKeepsGood(c, i, got);
    case _ =>
  }

  lemma {:induction false} RunIsGood(cs: seq<Conn>, es: seq<Event>, k: nat)
    requires IsRun(cs, es) && k <= |es|
    ensures Good(cs[k])
  {
    hide Step, Enabled, Ends, Faults;
    if k > 0 {
      RunIsGood(cs, es, k - 1);
      StepKeepsGood(cs[k - 1], es[k - 1]);
    }
  }

  predicate HasEnded(cs: seq<Conn>, es: seq<Event>, k: nat)
    requires k <= |es| < |cs|
  {
    exists j {:trigger es[j]} :: 0 <= j < k && Ends(cs[j], es[j])
  }

  lemma HasEndedStep(cs: seq<Conn>, es: seq<Event>, k: nat)
    requires k < |es| < |cs|
    ensures HasEnded(cs, es, k + 1) <==> HasEnded(cs, es, k) || Ends(cs[k], es[k])
  {
  }

  /**
   * One token from start() until the first ending step, none ever after: never two operations
   * on the socket, and a connection that has not ended is never stranded.
   */
  lemma {:induction false} TokenIsConserved(cs: seq<Conn>, es: seq<Event>, k: nat)
    requires IsRun(cs, es) && k <= |es|
    ensures Token(cs[k]) == if HasEnded(cs, es, k) then 0 else 1
  {
    hide Step, Enabled, Ends, Faults, Good;
    if k > 0 {
      TokenIsConserved(cs, es, k - 1);
      HasEndedStep(cs, es, k - 1);
      RunIsGood(cs, es, k - 1);
      StepKeepsGood(cs[k - 1], es[k - 1]);
    }
  }

  lemma {:induction false} TokenNeverReturns(cs: seq<Conn>, es: seq<Event>, j: nat, k: nat)
    requires IsRun(cs, es) && j <= k <= |es| && Token(cs[j]) == 0
    ensures Token(cs[k]) == 0
  {
    TokenIsConserved(cs, es, j);
    TokenIsConserved(cs, es, k);
  }

  // ---- what the parser reported

  function Reported(e: Event): seq<Callback> {
    if e.ReadDone? && e.got.ReadOk? then e.got.callbacks else []
  }

  /** All callbacks of the first k steps, in order. */
  function CallbacksOf(es: seq<Event>, k: nat): seq<Callback>
    requires k <= |es|
  {
    if k == 0 then [] else CallbacksOf(es, k - 1) + Reported(es[k - 1])
  }

  /** The last callback of the kind is the one at index i. */
  predicate IsLastComplete(ks: seq<Callback>, i: nat) {
    i < |ks| && ks[i].MessageComplete? && forall j :: i < j < |ks| ==> !ks[j].MessageComplete?
  }

  predicate IsLastHeaders(ks: seq<Callback>, i: nat) {
    i < |ks| && ks[i].HeadersComplete? && forall j :: i < j < |ks| ==> !ks[j].HeadersComplete?
  }

  lemma {:induction false} CallbacksAreFolded(m: Exchange, a: seq<Callback>, b: seq<Callback>)
    ensures OnCallbacks(m, a + b) == OnCallbacks(OnCallbacks(m, a), b)
  {
    if b == [] {
      assert a + b == a;
    } else {
      CallbacksAreFolded(m, a, b[..|b| - 1]);
      assert (a + b)[..|a + b| - 1] == a + b[..|b| - 1];
    }
  }

  lemma {:induction false} LastCompleteSetsKeepAlive(m: Exchange, ks: seq<Callback>, i: nat)
    requires IsLastComplete(ks, i)
    ensures OnCallbacks(m, ks).keepAlive == ks[i].keepAlive
    ensures OnCallbacks(m, ks).requestComplete <==> forall j :: i < j < |ks| ==> !ks[j].MessageBegin?
  {
    if i < |ks| - 1 {
      LastCompleteSetsKeepAlive(m, ks[..|ks| - 1], i);
    }
  }

  lemma {:induction false} LastHeadersSetVerb(m: Exchange, ks: seq<Callback>, i: nat)
    requires IsLastHeaders(ks, i)
    ensures OnCallbacks(m, ks).verb == ks[i].verb
  {
    if i < |ks| - 1 {
      LastHeadersSetVerb(m, ks[..|ks| - 1], i);
    }
  }

  lemma {:induction false} NoCompleteKeepsFlags(m: Exchange, ks: seq<Callback>)
    requires forall j :: 0 <= j < |ks| ==> !ks[j].MessageComplete?
    ensures OnCallbacks(m, ks).keepAlive == m.keepAlive
    ensures OnCallbacks(m, ks).requestComplete ==> m.requestComplete
  {
    if ks != [] {
      NoCompleteKeepsFlags(m, ks[..|ks| - 1]);
    }
  }

  predicate SameFlags(a: Exchange, b: Exchange) {
    a.keepAlive == b.keepAlive && a.requestComplete == b.requestComplete && a.verb == b.verb
  }

  lemma AfterParseKeepsFlags(c: Conn, bad: bool, h: Handler)
    ensures SameFlags(AfterParse(c, bad, h).msg, c.msg)
  {
    hide Render, FillReply;
  }

  lemma {:induction false} FlagsDependOnFlags(a: Exchange, b: Exchange, ks: seq<Callback>)
    requires SameFlags(a, b)
    ensures SameFlags(OnCallbacks(a, ks), OnCallbacks(b, ks))
  {
    if ks != [] {
      FlagsDependOnFlags(a, b, ks[..|ks| - 1]);
    }
  }

  lemma StepFoldsFlags(c: Conn, e: Event)
    requires Enabled(c, e)
    ensures SameFlags(Step(c, e).msg, OnCallbacks(c.msg, Reported(e)))
  {
    hide Render, FillReply, AfterParse;
    match e
    case ReadDone(i, ReadOk(ks, bad, h)) =>
      AfterParseKeepsFlags(
        c.(readOps := Without(c.readOps, i), timer := Cancel(c.timer), msg := OnCallbacks(c.msg, ks)), bad, h);
    case _ =>
  }

  lemma {:induction false} FlagsAreFolded(cs: seq<Conn>, es: seq<Event>, k: nat)
    requires IsRun(cs, es) && k <= |es|
    ensures SameFlags(cs[k].msg, OnCallbacks(cs[0].msg, CallbacksOf(es, k)))
  {
    hide Step, Enabled, OnCallback;
    if k > 0 {
      FlagsAreFolded(cs, es, k - 1);
      var ks := Reported(es[k - 1]);
      StepFoldsFlags(cs[k - 1], es[k - 1]);
      FlagsDependOnFlags(cs[k - 1].msg, OnCallbacks(cs[0].msg, CallbacksOf(es, k - 1)), ks);
      CallbacksAreFolded(cs[0].msg, CallbacksOf(es, k - 1), ks);
    }
  }

  /** Whatever happened in between, the method is the one the parser reported last. */
  lemma VerbFollowsParser(cs: seq<Conn>, es: seq<Event>, k: nat, i: nat)
    requires IsRun(cs, es) && k <= |es| && IsLastHeaders(CallbacksOf(es, k), i)
    ensures cs[k].msg.verb == CallbacksOf(es, k)[i].verb
  {
    hide Step, Enabled, OnCallbacks, CallbacksOf;
    FlagsAreFolded(cs, es, k);
    LastHeadersSetVerb(cs[0].msg, CallbacksOf(es, k), i);
  }

  /** Keep-alive is the last complete message's, which counts as complete until the next one begins. */
  lemma KeepAliveFollowsParser(cs: seq<Conn>, es: seq<Event>, k: nat, i: nat)
    requires IsRun(cs, es) && k <= |es| && IsLastComplete(CallbacksOf(es, k), i)
    ensures var ks := CallbacksOf(es, k);
      && cs[k].msg.keepAlive == ks[i].keepAlive
      && (cs[k].msg.requestComplete <==> forall j :: i < j < |ks| ==> !ks[j].MessageBegin?)
  {
    hide Step, Enabled, OnCallbacks, CallbacksOf;
    FlagsAreFolded(cs, es, k);
    LastCompleteSetsKeepAlive(cs[0].msg, CallbacksOf(es, k), i);
  }

  /** Before the first complete message keep-alive is off. */
  lemma KeepAliveStartsOff(cs: seq<Conn>, es: seq<Event>, k: nat)
    requires IsRun(cs, es) && k <= |es|
    requires forall j :: 0 <= j < |CallbacksOf(es, k)| ==> !CallbacksOf(es, k)[j].MessageComplete?
    ensures !cs[k].msg.keepAlive && !cs[k].msg.requestComplete
  {
    hide OnCallbacks, CallbacksOf, Step, Enabled;
    FlagsAreFolded(cs, es, k);
    NoCompleteKeepsFlags(cs[0].msg, CallbacksOf(es, k));
  }

  // ---- the null stream

  predicate BeginsMessage(e: Event) {
    e.ReadDone? && e.got.ReadOk? && MessageBegin in e.got.callbacks
  }

  lemma StepAllocatesStream(c: Conn, e: Event)
    requires Good(c) && Enabled(c, e)
    ensures Step(c, e).msg.reply.content.None? <==> c.msg.reply.content.None? && !BeginsMessage(e)
  {
    match e
    case ReadDone(i, ReadOk(ks, bad, h)) =>
      CallbacksKeepBlank(c.msg, ks);
      AfterParseKeepsStream(
        c.(readOps := Without(c.readOps, i), timer := Cancel(c.timer), msg := OnCallbacks(c.msg, ks)), bad, h);
    case _ =>
  }

  lemma AfterParseKeepsStream(c: Conn, bad: bool, h: Handler)
    ensures AfterParse(c, bad, h).msg.reply.content.None? <==> c.msg.reply.content.None?
  {
    hide Render;
  }

  lemma {:induction false} StreamIsNullUntilMessageBegins(cs: seq<Conn>, es: seq<Event>, k: nat)
    requires IsRun(cs, es) && k <= |es|
    ensures cs[k].msg.reply.content.None? <==> forall j :: 0 <= j < k ==> !BeginsMessage(es[j])
  {
    if k > 0 {
      StreamIsNullUntilMessageBegins(cs, es, k - 1);
      RunIsGood(cs, es, k - 1);
      StepAllocatesStream(cs[k - 1], es[k - 1]);
    }
  }

  /** Whether a step tries to make a reply from what the parser and the handler say. */
  predicate MakesReply(c: Conn, e: Event) {
    match e
    case ReadDone(_, ReadOk(ks, bad, h)) => bad || (OnCallbacks(c.msg, ks).requestComplete && !h.Waits?)
    case HandlerReplies(_) => true
    case _ => false
  }

  /** A run loses its defined behaviour exactly when it makes a reply before any message has begun. */
  lemma FaultExact(cs: seq<Conn>, es: seq<Event>, k: nat)
    requires IsRun(cs, es) && k < |es|
    ensures cs[k + 1].faulted <==>
            MakesReply(cs[k], es[k]) && forall j :: 0 <= j <= k ==> !BeginsMessage(es[j])
  {
    RunIsGood(cs, es, k);
    StepKeepsGood(cs[k], es[k]);
    StreamIsNullUntilMessageBegins(cs, es, k);
    StreamIsNullUntilMessageBegins(cs, es, k + 1);
    if es[k].ReadDone? && es[k].got.ReadOk? {
      CallbacksKeepBlank(cs[k].msg, es[k].got.callbacks);
    }
  }

  // ---- the timer

  /** A read or write that is delivered with operation_aborted. */
  predicate IsAborted(e: Event) {
    match e
    case ReadDone(_, got) => got.ReadAborted?
    case WriteDone(_, result) => result.WriteAborted?
    case _ => false
  }

  lemma GoodTimer(c: Conn)
    requires Good(c)
    ensures c.timer.armed <= 1 && (c.writeOps != [] ==> c.timer.armed == 0)
  {
  }

  /**
   * At most one wait runs, none while a reply is being written, and an aborted wait, read or write changes nothing
   * but its own queue when it is delivered.
   */
  lemma TimerDiscipline(cs: seq<Conn>, es: seq<Event>, k: nat)
    requires IsRun(cs, es) && k <= |es|
    ensures cs[k].timer.armed <= 1 && (cs[k].writeOps != [] ==> cs[k].timer.armed == 0)
    ensures k < |es| && es[k] == TimerDone(false) ==>
      cs[k + 1] == cs[k].(timer := cs[k].timer.(aborted := cs[k].timer.aborted - 1))
    ensures k < |es| && IsAborted(es[k]) ==>
      cs[k + 1].timer == cs[k].timer && cs[k + 1].msg == cs[k].msg && cs[k + 1].posted == cs[k].posted
      && |cs[k + 1].readOps| + |cs[k + 1].writeOps| + 1 == |cs[k].readOps| + |cs[k].writeOps|
  {
    hide Render, FillReply, AfterParse, Good;
    RunIsGood(cs, es, k);
    GoodTimer(cs[k]);
  }

  function One(b: bool): nat {
    if b then 1 else 0
  }

  /** Every wait that was started and has not been delivered. */
  function Waits(t: Timer): nat {
    t.armed + t.aborted + t.expired
  }

  /** How many waits a step starts. */
  function WaitsStarted(c: Conn, e: Event): nat {
    match e
    case ReadDone(_, ReadOk(ks, bad, h)) =>
      var m := OnCallbacks(c.msg, ks);
      if bad then 0
      else if !m.requestComplete then 1
      else (
        match h
        case Replies(_) => 0
        case Waits => 2
        case WaitsThenReplies(_) => if m.reply.content.None? then 1 else 2
      )
    case WriteDone(_, result) => One(c.msg.keepAlive && result.Written?)
    case _ => 0
  }

  lemma AfterParseStartsWaits(c: Conn, bad: bool, h: Handler)
    requires !c.waiting && !c.faulted
    ensures Waits(AfterParse(c, bad, h).timer) == Waits(c.timer) +
      if bad then 0
      else if !c.msg.requestComplete then 1
      else (
        match h
        case Replies(_) => 0
        case Waits => 2
        case WaitsThenReplies(_) => if c.msg.reply.content.None? then 1 else 2
      )
  {
    hide Render, FillReply;
  }

  /** No wait is lost by cancelling or re-arming: each is delivered once, as run out or as aborted. */
  lemma WaitsAreConserved(c: Conn, e: Event)
    requires Good(c) && Enabled(c, e)
    ensures Waits(Step(c, e).timer) + One(e.TimerDone?) == Waits(c.timer) + WaitsStarted(c, e)
    ensures e != TimerExpires && e != TimerDone(true) ==> Step(c, e).timer.expired == c.timer.expired
  {
    hide Render, FillReply;
    match e
    case ReadDone(i, ReadOk(ks, bad, h)) =>
      AfterParseStartsWaits(
        c.(readOps := Without(c.readOps, i), timer := Cancel(c.timer), msg := OnCallbacks(c.msg, ks)), bad, h);
    case _ =>
  }

  /** The ends that leave no running wait: a read error other than an abort, and the end of a write. */
  predicate EndsQuietly(c: Conn, e: Event) {
    (e.ReadDone? && e.got.ReadFailed?) || (e.WriteDone? && Ends(c, e))
  }

  lemma QuietStep(c: Conn, e: Event)
    requires Good(c) && Enabled(c, e)
    requires EndsQuietly(c, e) || (Token(c) == 0 && c.timer.armed == 0)
    ensures Token(Step(c, e)) == 0 && Step(c, e).timer.armed == 0
  {
    hide Render, FillReply, AfterParse;
  }

  /** A connection that a read error or its last write has ended is not held alive by a running wait. */
  lemma {:induction false} EndLeavesNoRunningWait(cs: seq<Conn>, es: seq<Event>, i: nat, k: nat)
    requires IsRun(cs, es) && i < k <= |es| && EndsQuietly(cs[i], es[i])
    ensures Token(cs[k]) == 0 && cs[k].timer.armed == 0
    decreases k
  {
    hide Step, Enabled, Good, Ends;
    if k - 1 > i {
      EndLeavesNoRunningWait(cs, es, i, k - 1);
    }
    RunIsGood(cs, es, k - 1);
    QuietStep(cs[k - 1], es[k - 1]);
  }

  predicate IsTimed(c: Conn) {
    c.timer.armed > 0 || c.timer.expired > 0 || !c.socketOpen
  }

  predicate HasRead(es: seq<Event>, k: nat)
    requires k <= |es|
  {
    exists j :: 0 <= j < k && es[j].ReadDone? && es[j].got.ReadOk?
  }

  /** Before any data arrives there is no timer and nothing to answer. */
  predicate IsUntouched(c: Conn) {
    && c.timer == Timer(0, 0, 0) && c.socketOpen && c.writeOps == [] && c.posted == 0 && c.owed == 0
  }

  lemma UntouchedStep(c: Conn, e: Event)
    requires IsUntouched(c) && Enabled(c, e) && !(e.ReadDone? && e.got.ReadOk?)
    ensures IsUntouched(Step(c, e))
  {
  }

  lemma {:induction false} UntouchedUntilRead(cs: seq<Conn>, es: seq<Event>, k: nat)
    requires IsRun(cs, es) && k <= |es| && !HasRead(es, k)
    ensures IsUntouched(cs[k])
  {
    if k > 0 {
      assert !HasRead(es, k - 1);
      UntouchedUntilRead(cs, es, k - 1);
      UntouchedStep(cs[k - 1], es[k - 1]);
    }
  }

  lemma {:induction false} TimedSinceRead(cs: seq<Conn>, es: seq<Event>, k: nat)
    requires IsRun(cs, es) && k <= |es| && HasRead(es, k)
    ensures cs[k].readOps != [] || cs[k].owed > 0 ==> IsTimed(cs[k])
  {
    hide Step, Enabled, Good, IsTimed;
    var c, e := cs[k - 1], es[k - 1];
    RunIsGood(cs, es, k - 1);
    if e.ReadDone? && e.got.ReadOk? {
      ReadIsTimed(c, e.read, e.got);
    } else {
      assert HasRead(es, k - 1);
      TimedSinceRead(cs, es, k - 1);
      StepIsTimed(c, e);
    }
  }

  lemma ReadIsTimed(c: Conn, i: nat, got: ReadOutcome)
    requires Good(c) && got.ReadOk? && Enabled(c, ReadDone(i, got))
    ensures var d := Step(c, ReadDone(i, got)); d.readOps != [] || d.owed > 0 ==> IsTimed(d)
  {
  }

  lemma StepIsTimed(c: Conn, e: Event)
    requires Good(c) && Enabled(c, e) && !(e.ReadDone? && e.got.ReadOk?)
    requires c.readOps != [] || c.owed > 0 ==> IsTimed(c)
    ensures var d := Step(c, e); d.readOps != [] || d.owed > 0 ==> IsTimed(d)
  {
  }

  /** A pending read on an open socket has a timeout exactly when some data has arrived before: the first read has none. */
  lemma ReadTimeoutExact(cs: seq<Conn>, es: seq<Event>, k: nat)
    requires IsRun(cs, es) && k <= |es| && cs[k].readOps != [] && cs[k].socketOpen
    ensures cs[k].timer.armed + cs[k].timer.expired > 0 <==> HasRead(es, k)
  {
    if HasRead(es, k) {
      TimedSinceRead(cs, es, k);
    } else {
      UntouchedUntilRead(cs, es, k);
    }
  }

  // ---- how runs end

  /** Operations started on a shut socket do not succeed. */
  predicate Respects(c: Conn, e: Event)
    requires Enabled(c, e)
  {
    match e
    case ReadDone(i, ReadOk(_, _, _)) => !c.readOps[i]
    case WriteDone(i, Written) => !c.writeOps[i].late
    case _ => true
  }


  /** What is left to happen once the socket is shut; operations started before that may still succeed once. */
  function Remaining(c: Conn): nat {
    (if c.readOps == [] then 0 else if c.readOps[0] then 1 else 7)
    + (if c.writeOps == [] then 0 else if c.writeOps[0].late then 1 else 4)
    + 3 * c.owed + 2 * c.posted + 2 * c.timer.armed + c.timer.expired + c.timer.aborted
  }

  lemma ShutParseIsBounded(c: Conn, bad: bool, h: Handler)
    requires Token(c) == 0 && !c.faulted && !c.waiting && !c.socketOpen && c.timer.armed == 0
    ensures var d := AfterParse(c, bad, h);
      !d.socketOpen && Remaining(d) <= 6 + c.timer.expired + c.timer.aborted
  {
  }

  lemma ShutStepDecreases(c: Conn, e: Event)
    requires Good(c) && !c.socketOpen && Enabled(c, e) && Respects(c, e)
    ensures !Step(c, e).socketOpen && Remaining(Step(c, e)) < Remaining(c)
  {
    match e
    case ReadDone(i, ReadOk(ks, bad, h)) =>
      ShutParseIsBounded(
        c.(readOps := Without(c.readOps, i), timer := Cancel(c.timer), msg := OnCallbacks(c.msg, ks)), bad, h);
    case _ =>
  }

  lemma {:induction false} ShutRunIsFinite(cs: seq<Conn>, es: seq<Event>, k: nat)
    requires IsRun(cs, es) && k <= |es| && !cs[k].socketOpen
    requires forall j {:trigger es[j]} :: k <= j < |es| ==> Respects(cs[j], es[j])
    ensures |es| - k <= Remaining(cs[k])
    decreases |es| - k
  {
    if k < |es| {
      RunIsGood(cs, es, k);
      ShutStepDecreases(cs[k], es[k]);
      ShutRunIsFinite(cs, es, k + 1);
    }
  }

  /** Once a timeout has shut the socket, the rest of the run is no longer than what was pending allows. */
  lemma TimeoutQuiesces(cs: seq<Conn>, es: seq<Event>, k: nat)
    requires IsRun(cs, es) && k < |es| && es[k] == TimerDone(true)
    requires forall j {:trigger es[j]} :: k < j < |es| ==> Respects(cs[j], es[j])
    ensures |es| - (k + 1) <= Remaining(cs[k + 1]) <= 7 + 2 + cs[k].timer.expired + cs[k].timer.aborted
  {
    RunIsGood(cs, es, k);
    ShutRunIsFinite(cs, es, k + 1);
  }

  predicate Drained(c: Conn) {
    Token(c) == 0 && c.timer == Timer(0, 0, 0)
  }

  /** Something that can happen next, whatever the environment wants. */
  function Pending(c: Conn): Event {
    if c.readOps != [] then ReadDone(0, ReadAborted)
    else if c.writeOps != [] then WriteDone(0, WriteAborted(0))
    else if c.posted > 0 then ReplyDone
    else if c.owed > 0 then HandlerReplies(BAD_REQUEST_FILL)
    else if c.timer.armed > 0 then TimerExpires
    else TimerDone(c.timer.expired > 0)
  }

  /** A run can always be continued until nothing is pending, which is when the connection is destroyed. */
  lemma StuckExact(c: Conn)
    requires !c.faulted
    ensures Drained(c) <==> forall e :: !Enabled(c, e)
    ensures !Drained(c) ==> Enabled(c, Pending(c)) && Respects(c, Pending(c))
  {
    if !Drained(c) {
      assert Enabled(c, Pending(c));
    }
  }
}
