/** When a printed reply delimits itself on a persistent connection. */
module Framing {
  import opened Base
  import opened Decimal
  import opened Replies
  import opened ResponseParser

  /** The header list as a client hears it: blanks around a value are not part of it. */
  function Heard(hs: seq<Header>): (r: seq<Header>)
    ensures |r| == |hs|
  {
    if hs == [] then [] else [Header(hs[0].name, Trim(hs[0].value))] + Heard(hs[1..])
  }

  function MessageOf(r: ReplyState): Message
    requires r.content.Some?
  {
    Message(PrintedStatus(r.status), Heard(r.headers), r.content.value)
  }

  /** The state create leaves behind: a length header, computed from the content, at index `at`. */
  predicate HasLengthAt(r: ReplyState, at: nat) {
    r.content.Some? && at < |r.headers| && r.headers[at] == LengthHeader(|r.content.value|)
  }

  predicate IsCleanHeader(h: Header) {
    IsToken(h.name) && IsClean(h.value)
  }

  predicate IsFraming(name: Octets) {
    SameName(name, LENGTH_FIELD) || SameName(name, TRANSFER_ENCODING)
  }

  /** What the code's caller can check before sending. */
  predicate Framable(verb: Method, r: ReplyState, at: nat)
    requires HasLengthAt(r, at)
  {
    && (forall h :: h in r.headers ==> IsCleanHeader(h))
    && if NoBody(verb, PrintedStatus(r.status)) then r.content.value == []
       else
         && |r.content.value| < 0x8000_0000
         && SoleLength(r.headers, at)
  }

  lemma CleanByIndex(s: Octets)
    requires forall i :: 0 <= i < |s| ==> s[i] != '\r' && s[i] != '\n'
    ensures IsClean(s)
  {
  }

  lemma {:induction false} SuccessPhraseIsClean(code: int)
    ensures IsClean(SuccessPhrase(code)) && SuccessPhrase(code) != []
  {
    CleanByIndex(SuccessPhrase(code));
  }

  lemma {:induction false} RedirectionPhraseIsClean(code: int)
    ensures IsClean(RedirectionPhrase(code)) && RedirectionPhrase(code) != []
  {
    CleanByIndex(RedirectionPhrase(code));
  }

  lemma {:induction false} ClientErrorPhraseIsClean(code: int)
    ensures IsClean(ClientErrorPhrase(code)) && ClientErrorPhrase(code) != []
  {
    CleanByIndex(ClientErrorPhrase(code));
  }

  lemma {:induction false} ServerErrorPhraseIsClean(code: int)
    ensures IsClean(ServerErrorPhrase(code)) && ServerErrorPhrase(code) != []
  {
    CleanByIndex(ServerErrorPhrase(code));
  }

  lemma {:induction false} ReasonIsClean(code: int)
    ensures IsClean(ReasonPhrase(code)) && ReasonPhrase(code) != []
  {
    SuccessPhraseIsClean(code);
    RedirectionPhraseIsClean(code);
    ClientErrorPhraseIsClean(code);
    ServerErrorPhraseIsClean(code);
  }

  lemma ThreeDigits(n: nat)
    requires 100 <= n < 1000
    ensures |FormatNat(n)| == 3
  {
    assert |FormatNat(n / 10)| == 2;
  }

  lemma StatusLineParses(status: int)
    ensures IsClean(StatusLine(status))
    ensures ParseStatusLine(StatusLine(status)) == Some(PrintedStatus(status))
  {
    var code := PrintedStatus(status);
    var reason := ReasonPhrase(code);
    ReasonIsClean(code);
    ThreeDigits(code);
    FormatNatIsDigits(code);
    ParseFormatNat(code);
    StatusLineShape("HTTP/1.1 ", FormatNat(code), reason);
    assert IsClean("HTTP/1.1 ");
    assert StatusLine(status) == "HTTP/1.1 " + (FormatNat(code) + [' '] + reason);
    assert |reason| > 0;
  }

  lemma StatusLineShape(version: Octets, digits: Octets, reason: Octets)
    requires |version| == 9 && |digits| == 3
    ensures var line := version + (digits + [' '] + reason);
      line[..9] == version && line[9..12] == digits && line[12] == ' '
  {
  }

  lemma ThreeDigitText(n: nat)
    requires 100 <= n < 1000
    ensures FormatNat(n) == [Digit(n / 100), Digit(n / 10 % 10), Digit(n % 10)]
  {
    assert FormatNat(n / 100) == [Digit(n / 100)];
    assert FormatNat(n / 10) == FormatNat(n / 100) + [Digit(n / 10 % 10)];
  }

  /** The success lines of the status table. */
  lemma SuccessTexts()
    ensures StatusPhrase(200) == "200" + [' '] + "OK"
    ensures StatusPhrase(201) == "201" + [' '] + "Created"
    ensures StatusPhrase(202) == "202" + [' '] + "Accepted"
    ensures StatusPhrase(204) == "204" + [' '] + "No Content"
  {
    ThreeDigitText(200);
    ThreeDigitText(201);
    ThreeDigitText(202);
    ThreeDigitText(204);
  }

  /** The redirection lines of the status table. */
  lemma RedirectionTexts()
    ensures StatusPhrase(300) == "300" + [' '] + "Multiple Choices"
    ensures StatusPhrase(301) == "301" + [' '] + "Moved Permanently"
    ensures StatusPhrase(302) == "302" + [' '] + "Moved Temporarily"
    ensures StatusPhrase(304) == "304" + [' '] + "Not Modified"
  {
    ThreeDigitText(300);
    ThreeDigitText(301);
    ThreeDigitText(302);
    ThreeDigitText(304);
  }

  /** The client error lines of the status table. */
  lemma ClientErrorTexts()
    ensures StatusPhrase(400) == "400" + [' '] + "Bad Request"
    ensures StatusPhrase(401) == "401" + [' '] + "Unauthorized"
    ensures StatusPhrase(403) == "403" + [' '] + "Forbidden"
    ensures StatusPhrase(404) == "404" + [' '] + "Not Found"
    ensures StatusPhrase(412) == "412" + [' '] + "Precondition Failed"
  {
    ThreeDigitText(400);
    ThreeDigitText(401);
    ThreeDigitText(403);
    ThreeDigitText(404);
    ThreeDigitText(412);
  }

  /** The server error lines of the status table. */
  lemma ServerErrorTexts()
    ensures StatusPhrase(500) == "500" + [' '] + "Internal Server Error"
    ensures StatusPhrase(501) == "501" + [' '] + "Not Implemented"
    ensures StatusPhrase(502) == "502" + [' '] + "Bad Gateway"
    ensures StatusPhrase(503) == "503" + [' '] + "Service Unavailable"
  {
    ThreeDigitText(500);
    ThreeDigitText(501);
    ThreeDigitText(502);
    ThreeDigitText(503);
  }

  lemma OtherStatusText(status: int)
    requires status !in {200, 201, 202, 204, 300, 301, 302, 304, 400, 401, 403, 404, 412, 500, 501, 502, 503}
    ensures StatusPhrase(status) == "500" + [' '] + "Internal Server Error"
  {
    ThreeDigitText(500);
  }

  /** A client reads each status of the table as itself, and every other status as 500. */
  lemma StatusIsRead(status: int)
    ensures status in {200, 201, 202, 204, 300, 301, 302, 304, 400, 401, 403, 404, 412, 500, 501, 502, 503} ==>
      ParseStatusLine(StatusLine(status)) == Some(status)
    ensures status !in {200, 201, 202, 204, 300, 301, 302, 304, 400, 401, 403, 404, 412, 500, 501, 502, 503} ==>
      ParseStatusLine(StatusLine(status)) == Some(500)
  {
    StatusLineParses(status);
  }

  lemma {:induction false} HeardAt(hs: seq<Header>, i: nat)
    requires i < |hs|
    ensures Heard(hs)[i] == Header(hs[i].name, Trim(hs[i].value))
  {
    if i > 0 {
      HeardAt(hs[1..], i - 1);
    }
  }

  lemma {:induction false} FieldsParse(hs: seq<Header>, rest: Octets)
    requires forall h :: h in hs ==> IsCleanHeader(h)
    ensures ParseFields(RenderHeaders(hs) + CRLF + rest) == Some((Heard(hs), rest))
  {
    var s := RenderHeaders(hs) + CRLF + rest;
    if hs == [] {
      TakeLineOfClean([], rest);
      assert s == [] + CRLF + rest;
    } else {
      var h := hs[0];
      assert IsCleanHeader(h);
      var line := h.name + [':', ' '] + h.value;
      var tail := RenderHeaders(hs[1..]) + CRLF + rest;
      TokenHasNoColon(h.name);
      assert s == line + CRLF + tail;
      TakeLineOfClean(line, tail);
      ParseRenderedField(h);
      FieldsParse(hs[1..], rest);
    }
  }

  predicate NoFraming(hs: seq<Header>) {
    hs == [] || (!IsFraming(hs[0].name) && NoFraming(hs[1..]))
  }

  /** No header of the list, other than the one at index `at`, takes part in framing. */
  predicate SoleLength(hs: seq<Header>, at: nat)
    requires at < |hs|
  {
    NoFraming(hs[..at]) && NoFraming(hs[at + 1..])
  }

  lemma {:induction false} NoFramingOfHeard(hs: seq<Header>)
    ensures NoFraming(Heard(hs)) <==> NoFraming(hs)
  {
    if hs != [] {
      NoFramingOfHeard(hs[1..]);
      assert Heard(hs)[1..] == Heard(hs[1..]);
    }
  }

  lemma {:induction false} NoFramingAppend(hs: seq<Header>, h: Header)
    requires NoFraming(hs) && !IsFraming(h.name)
    ensures NoFraming(hs + [h])
  {
    if hs == [] {
      assert [h][1..] == [];
    } else {
      NoFramingAppend(hs[1..], h);
      assert (hs + [h])[1..] == hs[1..] + [h];
    }
  }

  lemma {:induction false} HeardPrefix(hs: seq<Header>, at: nat)
    requires at <= |hs|
    ensures NoFraming(Heard(hs)[..at]) <==> NoFraming(hs[..at])
  {
    if at > 0 {
      HeardPrefix(hs[1..], at - 1);
      assert hs[..at][1..] == hs[1..][..at - 1];
      assert Heard(hs)[..at][1..] == Heard(hs[1..])[..at - 1];
    }
  }

  lemma {:induction false} HeardSuffix(hs: seq<Header>, at: nat)
    requires at <= |hs|
    ensures NoFraming(Heard(hs)[at..]) <==> NoFraming(hs[at..])
  {
    if at == 0 {
      NoFramingOfHeard(hs);
      assert Heard(hs)[0..] == Heard(hs) && hs[0..] == hs;
    } else {
      HeardSuffix(hs[1..], at - 1);
      assert hs[at..] == hs[1..][at - 1..];
      assert Heard(hs)[at..] == Heard(hs[1..])[at - 1..];
    }
  }

  lemma {:induction false} SoleLengthOfHeard(hs: seq<Header>, at: nat)
    requires at < |hs|
    ensures SoleLength(Heard(hs), at) <==> SoleLength(hs, at)
  {
    HeardPrefix(hs, at);
    HeardSuffix(hs, at + 1);
  }

  /** The values of one name, as seen from the header at index `at`. */
  lemma ValuesAround(hs: seq<Header>, at: nat, name: Octets)
    requires at < |hs|
    ensures ValuesOf(hs, name) == ValuesOf(hs[..at], name) + ValuesOf([hs[at]], name) + ValuesOf(hs[at + 1..], name)
  {
    var before, after := hs[..at], hs[at + 1..];
    assert hs == before + [hs[at]] + after;
    ValuesOfAppend(before + [hs[at]], after, name);
    ValuesOfAppend(before, [hs[at]], name);
  }

  lemma {:induction false} NoFramingValues(hs: seq<Header>)
    ensures NoFraming(hs) <==> ValuesOf(hs, LENGTH_FIELD) == [] && ValuesOf(hs, TRANSFER_ENCODING) == []
  {
    if hs != [] {
      NoFramingValues(hs[1..]);
    }
  }

  /** With a length header at index `at`, the body length is defined exactly when no other header interferes. */
  lemma {:induction false} OneLength(hs: seq<Header>, at: nat)
    requires at < |hs| && hs[at].name == LENGTH_FIELD
    ensures LengthOf(hs) != UntilClose
    ensures !SoleLength(hs, at) ==> LengthOf(hs) == Invalid
    ensures SoleLength(hs, at) ==>
      LengthOf(hs) == match ParseNat(hs[at].value) case None => Invalid case Some(n) => Fixed(n)
  {
    assert !SameName(LENGTH_FIELD, TRANSFER_ENCODING) by {
      assert |LENGTH_FIELD| == 14 && |TRANSFER_ENCODING| == 17;
    }
    SameNameIsReflexive(LENGTH_FIELD);
    assert ValuesOf([hs[at]], LENGTH_FIELD) == [hs[at].value];
    assert ValuesOf([hs[at]], TRANSFER_ENCODING) == [];
    ValuesAround(hs, at, LENGTH_FIELD);
    ValuesAround(hs, at, TRANSFER_ENCODING);
    NoFramingValues(hs[..at]);
    NoFramingValues(hs[at + 1..]);
  }

  lemma LengthOfHeard(hs: seq<Header>, at: nat, size: nat)
    requires at < |hs| && hs[at] == LengthHeader(size)
    ensures LengthOf(Heard(hs)) != UntilClose
    ensures LengthOf(Heard(hs)) == Fixed(size) <==> size < 0x8000_0000 && SoleLength(hs, at)
  {
    FormattedSizeParses(size);
    TrimOfUnblank(FormatInt(ToInt32(size)));
    HeardAt(hs, at);
    SoleLengthOfHeard(hs, at);
    OneLength(Heard(hs), at);
  }

  lemma ParseReplyOfParts(verb: Method, line: Octets, status: nat, fields: Octets, hs: seq<Header>, body: Octets, rest: Octets)
    requires IsClean(line) && ParseStatusLine(line) == Some(status)
    requires ParseFields(fields) == Some((hs, body + rest))
    requires if NoBody(verb, status) then body == [] else LengthOf(hs) == Fixed(|body|)
    ensures ParseReply(verb, line + CRLF + fields) == Some((Message(status, hs, body), rest))
  {
    TakeLineOfClean(line, fields);
    assert (body + rest)[..|body|] == body && (body + rest)[|body|..] == rest;
  }

  lemma RenderedParts(line: Octets, fields: Octets, body: Octets, rest: Octets)
    ensures (line + CRLF + fields + CRLF + body) + rest == line + CRLF + (fields + CRLF + (body + rest))
  {
  }

  /** Print, then parse: the message comes back and the parser stops where the next one starts. */
  lemma FramableRoundTrips(verb: Method, r: ReplyState, at: nat, rest: Octets)
    requires HasLengthAt(r, at) && Framable(verb, r, at)
    ensures ParseReply(verb, Render(r) + rest) == Some((MessageOf(r), rest))
  {
    var line := StatusLine(r.status);
    var body := r.content.value;
    var fields := RenderHeaders(r.headers) + CRLF + (body + rest);
    StatusLineParses(r.status);
    FieldsParse(r.headers, body + rest);
    LengthOfHeard(r.headers, at, |body|);
    ParseReplyOfParts(verb, line, PrintedStatus(r.status), fields, Heard(r.headers), body, rest);
    RenderedParts(line, RenderHeaders(r.headers), body, rest);
  }

  /** What the parser guarantees about any message it returns. */
  lemma ParseReplySound(verb: Method, s: Octets)
    requires ParseReply(verb, s).Some?
    ensures var m := ParseReply(verb, s).value.0;
      && (forall h :: h in m.headers ==> IsCleanHeader(h))
      && if NoBody(verb, m.status) then m.body == []
         else LengthOf(m.headers) == UntilClose || LengthOf(m.headers) == Fixed(|m.body|)
  {
    var Some((line, rest)) := TakeLine(s);
    ParsedFieldsAreClean(rest);
  }

  /** A header heard clean was sent clean: trimming drops neither CR nor LF. */
  lemma HeardCleanMeansClean(hs: seq<Header>)
    requires forall h :: h in Heard(hs) ==> IsCleanHeader(h)
    ensures forall h :: h in hs ==> IsCleanHeader(h)
  {
    forall h | h in hs
      ensures IsCleanHeader(h)
    {
      var i :| 0 <= i < |hs| && hs[i] == h;
      HeardAt(hs, i);
      assert IsCleanHeader(Heard(hs)[i]);
      TrimDropsOnlyBlanks(h.value);
    }
  }

  /** A reply made by create is self-delimiting exactly when it is framable. */
  lemma FramingExact(verb: Method, r: ReplyState, at: nat)
    requires HasLengthAt(r, at)
    ensures Framable(verb, r, at) <==>
            forall rest :: ParseReply(verb, Render(r) + rest) == Some((MessageOf(r), rest))
  {
    if Framable(verb, r, at) {
      forall rest
        ensures ParseReply(verb, Render(r) + rest) == Some((MessageOf(r), rest))
      {
        FramableRoundTrips(verb, r, at, rest);
      }
    }
    if forall rest :: ParseReply(verb, Render(r) + rest) == Some((MessageOf(r), rest)) {
      assert ParseReply(verb, Render(r) + []) == Some((MessageOf(r), []));
      ParseReplySound(verb, Render(r) + []);
      HeardCleanMeansClean(r.headers);
      LengthOfHeard(r.headers, at, |r.content.value|);
    }
  }

  /** create establishes the length header; appending headers keeps it. */
  lemma CreateSetsLength(r: ReplyState, status: int, contentType: Octets, extra: nat, after: seq<Header>)
    requires r.content.Some?
    ensures var c := Created(r, status, contentType, extra);
      HasLengthAt(c.(headers := c.headers + after), extra)
  {
    assert FormatInt(ToInt32(0)) == FormatNat(0) == "0";
  }

  /** "Connection: close" never spoils a framable reply. */
  lemma {:induction false} CloseKeepsFraming(verb: Method, r: ReplyState, at: nat)
    requires HasLengthAt(r, at) && Framable(verb, r, at)
    ensures var c := Added(r, CloseHeader()); HasLengthAt(c, at) && Framable(verb, c, at)
  {
    var c := Added(r, CloseHeader());
    assert |CloseHeader().name| == 10 && |LENGTH_FIELD| == 14 && |TRANSFER_ENCODING| == 17;
    assert IsCleanHeader(CloseHeader());
    assert c.headers[..at] == r.headers[..at];
    assert c.headers[at + 1..] == r.headers[at + 1..] + [CloseHeader()];
    if !NoBody(verb, PrintedStatus(r.status)) {
      NoFramingAppend(r.headers[at + 1..], CloseHeader());
    }
  }

  function CloseHeader(): Header {
    Header("Connection", "close")
  }

  /** The stock replies of the server are framable whatever the request method. */
  lemma StockRepliesAreFramable(verb: Method, status: int)
    ensures var r := Created(WasReset(ReplyState([], None, None, 0)), status, TEXT_HTML, 0);
      HasLengthAt(r, 0) && Framable(verb, r, 0)
  {
    var blank := WasReset(ReplyState([], None, None, 0));
    var r := Created(blank, status, TEXT_HTML, 0);
    CreateSetsLength(blank, status, TEXT_HTML, 0, []);
    assert r.headers == [Header(CONTENT_LENGTH, "0")];
    assert IsCleanHeader(Header(CONTENT_LENGTH, "0"));
  }

  /** A reply, the method it answers, and where its length header stands. */
  datatype Answer = Answer(verb: Method, reply: ReplyState, at: nat)

  predicate IsFramable(a: Answer) {
    HasLengthAt(a.reply, a.at) && Framable(a.verb, a.reply, a.at)
  }

  predicate AllHaveContent(answers: seq<Answer>) {
    forall a :: a in answers ==> a.reply.content.Some?
  }

  /** The octets of each answer. */
  function Printed(answers: seq<Answer>): (buffers: seq<Octets>)
    requires AllHaveContent(answers)
    ensures |buffers| == |answers|
  {
    seq(|answers|, i requires 0 <= i < |answers| => assert answers[i] in answers; Render(answers[i].reply))
  }

  function VerbsOf(answers: seq<Answer>): (verbs: seq<Method>)
    ensures |verbs| == |answers|
  {
    seq(|answers|, i requires 0 <= i < |answers| => answers[i].verb)
  }

  /** What a client should read: one message per answer. */
  function MessagesOf(answers: seq<Answer>): (messages: seq<Message>)
    requires AllHaveContent(answers)
    ensures |messages| == |answers|
  {
    seq(|answers|, i requires 0 <= i < |answers| => assert answers[i] in answers; MessageOf(answers[i].reply))
  }

  lemma FlattenLast(buffers: seq<Octets>, last: Octets, rest: Octets)
    ensures Flatten(buffers + [last]) + rest == Flatten(buffers) + (last + rest)
  {
    FlattenPush(buffers, last);
  }

  lemma ParseRepliesStep(verbs: seq<Method>, verb: Method, s: Octets,
                         ms: seq<Message>, rest: Octets, m: Message, end: Octets)
    requires ParseReplies(verbs, s) == Some((ms, rest)) && ParseReply(verb, rest) == Some((m, end))
    ensures ParseReplies(verbs + [verb], s) == Some((ms + [m], end))
  {
    assert (verbs + [verb])[..|verbs|] == verbs;
  }

  lemma PrintedAppend(answers: seq<Answer>, a: Answer)
    requires AllHaveContent(answers) && a.reply.content.Some?
    ensures AllHaveContent(answers + [a])
    ensures Printed(answers + [a]) == Printed(answers) + [Render(a.reply)]
    ensures VerbsOf(answers + [a]) == VerbsOf(answers) + [a.verb]
    ensures MessagesOf(answers + [a]) == MessagesOf(answers) + [MessageOf(a.reply)]
  {
  }

  /** Reading a stream of framable replies gives every message in order and leaves what follows them. */
  lemma {:induction false} StreamRoundTrips(answers: seq<Answer>, rest: Octets)
    requires AllHaveContent(answers)
    requires forall a :: a in answers ==> IsFramable(a)
    ensures ParseReplies(VerbsOf(answers), Flatten(Printed(answers)) + rest) == Some((MessagesOf(answers), rest))
    decreases |answers|, 1
  {
    var n := |answers|;
    if n == 0 {
      assert Flatten(Printed(answers)) + rest == rest;
    } else {
      var others, a := answers[..n - 1], answers[n - 1];
      assert IsFramable(a) && answers == others + [a];
      StreamRoundTripsStep(others, a, rest);
    }
  }

  lemma {:induction false} StreamRoundTripsStep(others: seq<Answer>, a: Answer, rest: Octets)
    requires AllHaveContent(others + [a])
    requires forall b :: b in others + [a] ==> IsFramable(b)
    ensures ParseReplies(VerbsOf(others + [a]), Flatten(Printed(others + [a])) + rest)
         == Some((MessagesOf(others + [a]), rest))
    decreases |others| + 1, 0
  {
    assert a in others + [a] && forall b :: b in others ==> b in others + [a];
    var last := Render(a.reply);
    PrintedAppend(others, a);
    StreamRoundTrips(others, last + rest);
    FramableRoundTrips(a.verb, a.reply, a.at, rest);
    FlattenLast(Printed(others), last, rest);
    ParseRepliesStep(VerbsOf(others), a.verb, Flatten(Printed(others + [a])) + rest,
                     MessagesOf(others), last + rest, MessageOf(a.reply), rest);
  }
}
