/** The reply object of csi_http/server/reply.cpp: its life cycle and its printed form. */
module Replies {
  import opened Base
  import opened Decimal

  datatype Header = Header(name: Octets, value: Octets)

  const CONTENT_LENGTH: Octets := "Content-Length"
  const CONTENT_TYPE: Octets := "Content-Type"
  const BAD_REQUEST := 400
  const NOT_FOUND := 404
  const TEXT_HTML: Octets := "text/html"

  /** The fields of a reply; content is None until the first reset allocates the stream. */
  datatype ReplyState = ReplyState(
    headers: seq<Header>,
    content: Option<Octets>,
    txBuffer: Option<Octets>,
    status: int)

  /** The code on the line that is printed for a status: anything outside the table becomes 500. */
  function PrintedStatus(status: int): (code: nat)
    ensures 100 <= code < 1000
  {
    if status in {200, 201, 202, 204, 300, 301, 302, 304, 400, 401, 403, 404, 412, 500, 501, 502, 503}
    then status else 500
  }

  const SERVER_ERROR: Octets := "Internal Server Error"

  function SuccessPhrase(code: int): Octets {
    match code
    case 200 => "OK"
    case 201 => "Created"
    case 202 => "Accepted"
    case 204 => "No Content"
    case _ => SERVER_ERROR
  }

  function RedirectionPhrase(code: int): Octets {
    match code
    case 300 => "Multiple Choices"
    case 301 => "Moved Permanently"
    case 302 => "Moved Temporarily"
    case 304 => "Not Modified"
    case _ => SERVER_ERROR
  }

  function ClientErrorPhrase(code: int): Octets {
    match code
    case 400 => "Bad Request"
    case 401 => "Unauthorized"
    case 403 => "Forbidden"
    case 404 => "Not Found"
    case 412 => "Precondition Failed"
    case _ => SERVER_ERROR
  }

  function ServerErrorPhrase(code: int): Octets {
    match code
    case 501 => "Not Implemented"
    case 502 => "Bad Gateway"
    case 503 => "Service Unavailable"
    case _ => SERVER_ERROR
  }

  function ReasonPhrase(code: int): Octets {
    if code < 300 then SuccessPhrase(code)
    else if code < 400 then RedirectionPhrase(code)
    else if code < 500 then ClientErrorPhrase(code)
    else ServerErrorPhrase(code)
  }

  /** The text of status_strings::to_buffer, without its line end. */
  function StatusPhrase(status: int): Octets {
    FormatNat(PrintedStatus(status)) + [' '] + ReasonPhrase(PrintedStatus(status))
  }

  /** vector::resize: cut the list, or pad it with default-constructed headers. */
  function Resize(hs: seq<Header>, n: nat): (r: seq<Header>)
    ensures |r| == n
    ensures forall i :: 0 <= i < n ==> r[i] == if i < |hs| then hs[i] else Header("", "")
  {
    seq(n, i requires 0 <= i < n => if i < |hs| then hs[i] else Header("", ""))
  }

  function LengthHeader(size: nat): Header {
    Header(CONTENT_LENGTH, FormatInt(ToInt32(size)))
  }

  function Created(r: ReplyState, status: int, contentType: Octets, extra: nat): ReplyState
    requires r.content.Some?
  {
    var size := |r.content.value|;
    if size == 0 then
      r.(status := status, headers := Resize(r.headers, 1 + extra)[extra := Header(CONTENT_LENGTH, "0")])
    else
      r.(status := status,
         headers := Resize(r.headers, 2 + extra)
                      [extra := LengthHeader(size)]
                      [extra + 1 := Header(CONTENT_TYPE, contentType)])
  }

  function Added(r: ReplyState, h: Header): ReplyState {
    r.(headers := r.headers + [h])
  }

  function WasReset(r: ReplyState): ReplyState {
    r.(headers := [], content := Some([]), txBuffer := None)
  }

  function RenderHeader(h: Header): Octets {
    h.name + [':', ' '] + h.value + CRLF
  }

  function RenderHeaders(hs: seq<Header>): Octets {
    if hs == [] then [] else RenderHeader(hs[0]) + RenderHeaders(hs[1..])
  }

  function StatusLine(status: int): Octets {
    "HTTP/1.1 " + StatusPhrase(status)
  }

  /** The octets a reply stands for on the wire. */
  function Render(r: ReplyState): Octets
    requires r.content.Some?
  {
    StatusLine(r.status) + CRLF + RenderHeaders(r.headers) + CRLF + r.content.value
  }

  /** The double copy that to_buffers leaves behind when there is a body. */
  function Buffered(r: ReplyState): ReplyState
    requires r.content.Some?
  {
    if |r.content.value| == 0 then r else r.(txBuffer := r.content)
  }

  function Flatten(buffers: seq<Octets>): Octets {
    if buffers == [] then [] else Flatten(buffers[..|buffers| - 1]) + buffers[|buffers| - 1]
  }

  lemma {:induction false} RenderHeadersAppend(hs: seq<Header>, h: Header)
    ensures RenderHeaders(hs + [h]) == RenderHeaders(hs) + RenderHeader(h)
  {
    if hs == [] {
      assert hs + [h] == [h] && RenderHeaders([]) == [];
    } else {
      RenderHeadersAppend(hs[1..], h);
      assert (hs + [h])[1..] == hs[1..] + [h];
      assert RenderHeader(hs[0]) + (RenderHeaders(hs[1..]) + RenderHeader(h)) == RenderHeaders(hs) + RenderHeader(h);
    }
  }

  lemma FlattenPush(buffers: seq<Octets>, b: Octets)
    ensures Flatten(buffers + [b]) == Flatten(buffers) + b
  {
    assert (buffers + [b])[..|buffers|] == buffers;
  }

  lemma FlattenPushHeader(buffers: seq<Octets>, h: Header)
    ensures Flatten(buffers + [h.name, [':', ' '], h.value, CRLF]) == Flatten(buffers) + RenderHeader(h)
  {
    var one := buffers + [h.name];
    var two := one + [[':', ' ']];
    var three := two + [h.value];
    FlattenPush(buffers, h.name);
    FlattenPush(one, [':', ' ']);
    FlattenPush(two, h.value);
    FlattenPush(three, CRLF);
    assert three + [CRLF] == buffers + [h.name, [':', ' '], h.value, CRLF];
    assert Flatten(buffers) + h.name + [':', ' '] + h.value + CRLF == Flatten(buffers) + RenderHeader(h);
  }

  lemma FlattenStart(status: int)
    ensures Flatten([] + ["HTTP/1.1 "] + [StatusPhrase(status) + CRLF]) == StatusLine(status) + CRLF
  {
    FlattenPush([], "HTTP/1.1 ");
    FlattenPush([] + ["HTTP/1.1 "], StatusPhrase(status) + CRLF);
  }

  lemma RenderHeadersStep(start: Octets, hs: seq<Header>, i: nat)
    requires i < |hs|
    ensures start + RenderHeaders(hs[..i]) + RenderHeader(hs[i]) == start + RenderHeaders(hs[..i + 1])
  {
    RenderHeadersAppend(hs[..i], hs[i]);
    assert hs[..i + 1] == hs[..i] + [hs[i]];
  }

  /** What create keeps: the first `extra` headers, the content, and a length header behind them. */
  lemma CreateKeepsExtraHeaders(r: ReplyState, status: int, contentType: Octets, extra: nat)
    requires r.content.Some? && extra <= |r.headers|
    ensures var c := Created(r, status, contentType, extra);
      && extra <= |c.headers| && c.headers[..extra] == r.headers[..extra]
      && c.headers[extra..] ==
         [Header("Content-Length", FormatInt(ToInt32(|r.content.value|)))]
         + (if r.content.value == [] then [] else [Header("Content-Type", contentType)])
      && c.content == r.content && c.status == status && c.txBuffer == r.txBuffer
  {
    assert FormatInt(ToInt32(0)) == FormatNat(0) == "0";
  }

  class Reply {
    var headers: seq<Header>
    var content: Option<Octets>
    var txBuffer: Option<Octets>
    var status: int

    ghost function View(): ReplyState
      reads this
    {
      ReplyState(headers, content, txBuffer, status)
    }

    /** No constructor is written in the source: null streams, no headers, any status. */
    constructor ()
      ensures headers == [] && content == None && txBuffer == None
    {
      headers := [];
      content := None;
      txBuffer := None;
    }

    method Create(s: int, contentType: Octets, extra: nat)
      requires content.Some?
      modifies this
      ensures View() == Created(old(View()), s, contentType, extra)
    {
      status := s;
      var size := |content.value|;
      if size == 0 {
        headers := Resize(headers, 1 + extra);
        headers := headers[extra := Header(CONTENT_LENGTH, "0")];
      } else {
        var text := FormatInt(ToInt32(size));
        headers := Resize(headers, 2 + extra);
        headers := headers[extra := Header(CONTENT_LENGTH, text)];
        headers := headers[extra + 1 := Header(CONTENT_TYPE, contentType)];
      }
    }

    method Add(h: Header)
      modifies this
      ensures View() == Added(old(View()), h)
    {
      headers := headers + [h];
    }

    method Reset()
      modifies this
      ensures View() == WasReset(old(View()))
      ensures headers == [] && content == Some([]) && txBuffer == None && status == old(status)
    {
      headers := [];
      content := Some([]);
      txBuffer := None;
    }

    method ToBuffers() returns (buffers: seq<Octets>)
      requires content.Some?
      modifies this`txBuffer
      ensures Flatten(buffers) == Render(old(View()))
      ensures View() == Buffered(old(View()))
    {
      buffers := [];
      buffers := buffers + ["HTTP/1.1 "];
      buffers := buffers + [StatusPhrase(status) + CRLF];
      ghost var start := StatusLine(status) + CRLF;
      FlattenStart(status);
      var i := 0;
      while i < |headers|
        invariant 0 <= i <= |headers| && txBuffer == old(txBuffer)
        invariant Flatten(buffers) == start + RenderHeaders(headers[..i])
      {
        var h := headers[i];
        FlattenPushHeader(buffers, h);
        RenderHeadersStep(start, headers, i);
        buffers := buffers + [h.name, [':', ' '], h.value, CRLF];
        i := i + 1;
      }
      assert headers[..i] == headers;
      FlattenPush(buffers, CRLF);
      buffers := buffers + [CRLF];
      if |content.value| != 0 {
        txBuffer := content;
        FlattenPush(buffers, txBuffer.value);
        buffers := buffers + [txBuffer.value];
      }
    }
  }
}
