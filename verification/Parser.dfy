/**
 * A client's view of a response: a reference parser after sections 3 and 3.3.3 of RFC 7230.
 * It knows no transfer codings and refuses a message that uses one.
 */
module ResponseParser {
  import opened Base
  import opened Decimal
  import opened Replies

  /** The request verbs that change where a response ends. */
  datatype Method = Head | Connect | Other

  datatype Message = Message(status: nat, headers: seq<Header>, body: Octets)

  /** Section 3.3.3, rules 1 and 2: the message ends at the first empty line. */
  predicate NoBody(verb: Method, status: int) {
    || verb == Head
    || status == 204 || status == 304 || 100 <= status < 200
    || (verb == Connect && 200 <= status < 300)
  }

  predicate IsClean(s: Octets) {
    forall c :: c in s ==> c != '\r' && c != '\n'
  }

  /** tchar of section 3.2.6. */
  predicate IsTokenChar(c: char) {
    || 'a' <= c <= 'z' || 'A' <= c <= 'Z' || IsDigit(c)
    || c in ['!', '#', '$', '%', '&', '\'', '*', '+', '-', '.', '^', '_', '`', '|', '~']
  }

  predicate IsToken(s: Octets) {
    s != [] && forall c :: c in s ==> IsTokenChar(c)
  }

  predicate IsBlank(c: char) {
    c == ' ' || c == '\t'
  }

  function TrimLeft(s: Octets): Octets {
    if s != [] && IsBlank(s[0]) then TrimLeft(s[1..]) else s
  }

  function TrimRight(s: Octets): Octets {
    if s != [] && IsBlank(s[|s| - 1]) then TrimRight(s[..|s| - 1]) else s
  }

  /** The optional white space around a field value is not part of it (section 3.2.4). */
  function Trim(s: Octets): Octets {
    TrimRight(TrimLeft(s))
  }

  /** The octets before the first CRLF and those behind it; a bare CR or LF is refused. */
  function TakeLine(s: Octets): (r: Option<(Octets, Octets)>)
    ensures r.Some? ==> IsClean(r.value.0) && s == r.value.0 + CRLF + r.value.1
  {
    if |s| < 2 then None
    else if s[0] == '\r' && s[1] == '\n' then Some(([], s[2..]))
    else if s[0] == '\r' || s[0] == '\n' then None
    else
      match TakeLine(s[1..])
      case None => None
      case Some((line, rest)) =>
        assert s == [s[0]] + s[1..];
        Some(([s[0]] + line, rest))
  }

  function ParseStatusLine(line: Octets): Option<nat> {
    if |line| < 13 || line[..9] != "HTTP/1.1 " || line[12] != ' ' then None
    else ParseNat(line[9..12])
  }

  function ParseField(line: Octets): Option<Header> {
    var i := IndexOf(line, ':');
    if i == |line| || !IsToken(line[..i]) then None
    else Some(Header(line[..i], Trim(line[i + 1..])))
  }

  /** Header fields up to and including the empty line. */
  function ParseFields(s: Octets): Option<(seq<Header>, Octets)>
    decreases |s|
  {
    match TakeLine(s)
    case None => None
    case Some((line, rest)) =>
      if line == [] then Some(([], rest))
      else
        match (ParseField(line), ParseFields(rest))
        case (Some(h), Some((hs, end))) => Some(([h] + hs, end))
        case _ => None
  }

  function ValueOf(h: Header, name: Octets): seq<Octets> {
    if SameName(h.name, name) then [h.value] else []
  }

  function ValuesOf(hs: seq<Header>, name: Octets): seq<Octets> {
    if hs == [] then []
    else ValueOf(hs[0], name) + ValuesOf(hs[1..], name)
  }

  const LENGTH_FIELD: Octets := "Content-Length"
  const TRANSFER_ENCODING: Octets := "Transfer-Encoding"

  /** How many octets of body follow: rules 3 to 7 of section 3.3.3. */
  datatype BodyLength = Invalid | UntilClose | Fixed(size: nat)

  function LengthOf(hs: seq<Header>): BodyLength {
    var lengths := ValuesOf(hs, LENGTH_FIELD);
    if ValuesOf(hs, TRANSFER_ENCODING) != [] || |lengths| > 1 then Invalid
    else if lengths == [] then UntilClose
    else
      match ParseNat(lengths[0])
      case None => Invalid
      case Some(n) => Fixed(n)
  }

  /** The first response in s, and the octets behind it. */
  function ParseReply(verb: Method, s: Octets): Option<(Message, Octets)> {
    match TakeLine(s)
    case None => None
    case Some((line, rest)) =>
      match (ParseStatusLine(line), ParseFields(rest))
      case (Some(status), Some((hs, body))) =>
        if NoBody(verb, status) then Some((Message(status, hs, []), body))
        else (
          match LengthOf(hs)
          case Invalid => None
          case UntilClose => Some((Message(status, hs, body), []))
          case Fixed(n) =>
            if n <= |body| then Some((Message(status, hs, body[..n]), body[n..])) else None
        )
      case _ => None
  }

  /** One response per request method, in order. */
  function ParseReplies(verbs: seq<Method>, s: Octets): Option<(seq<Message>, Octets)> {
    if verbs == [] then Some(([], s))
    else
      match ParseReplies(verbs[..|verbs| - 1], s)
      case None => None
      case Some((ms, rest)) =>
        match ParseReply(verbs[|verbs| - 1], rest)
        case None => None
        case Some((m, end)) => Some((ms + [m], end))
  }

  // ---- what the parser makes of a printed line

  lemma {:induction false} TakeLineOfClean(line: Octets, rest: Octets)
    requires IsClean(line)
    ensures TakeLine(line + CRLF + rest) == Some((line, rest))
  {
    var s := line + CRLF + rest;
    if line == [] {
      assert s[2..] == rest;
    } else {
      assert forall c :: c in line[1..] ==> c in line;
      TakeLineOfClean(line[1..], rest);
      assert s[1..] == line[1..] + CRLF + rest;
      assert s[0] == line[0] && line[0] in line;
      assert [line[0]] + line[1..] == line;
    }
  }

  lemma TokenHasNoColon(s: Octets)
    requires IsToken(s)
    ensures ':' !in s && IsClean(s)
  {
    assert forall c :: c in s ==> IsTokenChar(c);
  }

  lemma TrimDropsOnlyBlanks(s: Octets)
    ensures forall c :: c in Trim(s) ==> c in s
    ensures forall c :: c in s && !IsBlank(c) ==> c in Trim(s)
  {
    TrimLeftKeeps(s);
    TrimRightKeeps(TrimLeft(s));
  }

  lemma {:induction false} TrimLeftKeeps(s: Octets)
    ensures forall c :: c in TrimLeft(s) ==> c in s
    ensures forall c :: c in s && !IsBlank(c) ==> c in TrimLeft(s)
  {
    if s != [] && IsBlank(s[0]) {
      TrimLeftKeeps(s[1..]);
      assert s == [s[0]] + s[1..];
    }
  }

  lemma {:induction false} TrimRightKeeps(s: Octets)
    ensures forall c :: c in TrimRight(s) ==> c in s
    ensures forall c :: c in s && !IsBlank(c) ==> c in TrimRight(s)
  {
    if s != [] && IsBlank(s[|s| - 1]) {
      TrimRightKeeps(s[..|s| - 1]);
      assert s == s[..|s| - 1] + [s[|s| - 1]];
    }
  }

  lemma TrimOfUnblank(s: Octets)
    requires forall c :: c in s ==> !IsBlank(c)
    ensures Trim(s) == s
  {
    if s != [] {
      assert s[0] in s && s[|s| - 1] in s;
    }
  }

  lemma TrimIgnoresOneSpace(v: Octets)
    ensures Trim([' '] + v) == Trim(v)
  {
    assert ([' '] + v)[1..] == v;
  }

  /** A printed header is read back, without the blanks around its value. */
  lemma ParseRenderedField(h: Header)
    requires IsToken(h.name)
    ensures ParseField(h.name + [':', ' '] + h.value) == Some(Header(h.name, Trim(h.value)))
  {
    var line := h.name + [':', ' '] + h.value;
    TokenHasNoColon(h.name);
    IndexOfFirst(h.name, ':', [' '] + h.value);
    assert line == h.name + [':'] + ([' '] + h.value);
    assert line[..|h.name|] == h.name;
    assert line[|h.name| + 1..] == [' '] + h.value;
    TrimIgnoresOneSpace(h.value);
  }

  lemma Associates<T>(a: seq<T>, b: seq<T>, c: seq<T>)
    ensures a + (b + c) == (a + b) + c
  {
  }

  lemma {:induction false} ValuesOfAppend(a: seq<Header>, b: seq<Header>, name: Octets)
    ensures ValuesOf(a + b, name) == ValuesOf(a, name) + ValuesOf(b, name)
  {
    if a == [] {
      assert a + b == b;
    } else {
      ValuesOfAppend(a[1..], b, name);
      assert (a + b)[1..] == a[1..] + b && (a + b)[0] == a[0];
      Associates(ValueOf(a[0], name), ValuesOf(a[1..], name), ValuesOf(b, name));
    }
  }

  /** Nothing unclean comes out of the parser. */
  lemma {:induction false} ParsedFieldsAreClean(s: Octets)
    requires ParseFields(s).Some?
    ensures forall h :: h in ParseFields(s).value.0 ==> IsToken(h.name) && IsClean(h.value)
    decreases |s|
  {
    var Some((line, rest)) := TakeLine(s);
    if line != [] {
      ParsedFieldsAreClean(rest);
      var h := ParseField(line).value;
      var i := IndexOf(line, ':');
      TrimDropsOnlyBlanks(line[i + 1..]);
      assert forall c :: c in h.value ==> c in line[i + 1..] && c in line;
      assert ParseFields(s).value.0 == [h] + ParseFields(rest).value.0;
    }
  }
}
