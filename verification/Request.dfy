/** The request object of csi_http/server/request.cpp: header lookup and the id/uuid cache. */
module Requests {
  import opened Base
  import opened Replies
  import opened ResponseParser

  /** 128 bits; the all-zero value is the nil uuid. */
  type Uuid = n: nat | n < 0x1_0000_0000_0000_0000_0000_0000_0000_0000
  const NIL: Uuid := 0

  /** The text form of a uuid: boost's reader may refuse a text, but reads what its printer printed. */
  datatype UuidText = UuidText(parse: Octets -> Option<Uuid>, print_: Uuid -> Octets)

  ghost predicate Lawful(t: UuidText) {
    && t.parse([]) == None
    && forall u: Uuid :: t.parse(t.print_(u)) == Some(u)
  }

  /** The cached pair. */
  datatype Identity = Identity(id: Octets, uuid: Uuid)

  /** The value of the first header with a name, whatever the case of its letters; empty if there is none. */
  function Lookup(hs: seq<Header>, name: Octets): Octets {
    if hs == [] then []
    else if SameName(name, hs[0].name) then hs[0].value
    else Lookup(hs[1..], name)
  }

  predicate HasHeader(hs: seq<Header>, name: Octets) {
    exists h :: h in hs && SameName(name, h.name)
  }

  lemma {:induction false} LookupOfAbsent(hs: seq<Header>, name: Octets)
    requires !HasHeader(hs, name)
    ensures Lookup(hs, name) == []
  {
    if hs != [] {
      assert hs[0] in hs && forall h :: h in hs[1..] ==> h in hs;
      LookupOfAbsent(hs[1..], name);
    }
  }

  function FromRandom(t: UuidText, random: Uuid): Identity {
    Identity(t.print_(random), random)
  }

  function AfterId(s: Identity, t: UuidText, value: Octets, random: Uuid): Identity {
    if s.id != [] then s
    else if value == [] then FromRandom(t, random)
    else Identity(value, match t.parse(value) case Some(u) => u case None => NIL)
  }

  function AfterUuid(s: Identity, t: UuidText, value: Octets, random: Uuid): Identity {
    if s.uuid != NIL then s
    else if value == [] then FromRandom(t, random)
    else
      match t.parse(value)
      case Some(u) => Identity(value, u)
      case None => FromRandom(t, random)
  }

  const BLANK := Identity([], NIL)

  class Request {
    var id: Octets
    var uuid: Uuid
    var headers: seq<Header>
    var verb: Method

    ghost function View(): Identity
      reads this
    {
      Identity(id, uuid)
    }

    constructor ()
      ensures View() == BLANK && headers == []
    {
      id, uuid, headers := [], NIL, [];
    }

    /** The method survives a reset. */
    method Reset()
      modifies this
      ensures View() == BLANK && headers == [] && verb == old(verb)
    {
      uuid := NIL;
      id := [];
      headers := [];
    }

    method GetHeader(name: Octets) returns (value: Octets)
      ensures value == Lookup(headers, name)
      ensures !HasHeader(headers, name) ==> value == []
    {
      if !HasHeader(headers, name) {
        LookupOfAbsent(headers, name);
      }
      var i := 0;
      while i < |headers|
        invariant 0 <= i <= |headers|
        invariant Lookup(headers, name) == Lookup(headers[i..], name)
      {
        if SameName(name, headers[i].name) {
          return headers[i].value;
        }
        i := i + 1;
      }
      return [];
    }

    /** `random` is what the random generator would produce: never the nil uuid. */
    method RequestId(t: UuidText, header: Octets, random: Uuid) returns (r: Octets)
      requires random != NIL
      modifies this`id, this`uuid
      ensures View() == AfterId(old(View()), t, Lookup(headers, header), random)
      ensures r == id
      ensures old(id) != [] ==> id == old(id) && uuid == old(uuid)
      ensures old(id) == [] && !HasHeader(headers, header) ==> uuid == random && id == t.print_(random)
      ensures old(id) == [] && Lookup(headers, header) != [] ==>
        id == Lookup(headers, header) && (t.parse(id) == Some(uuid) || (t.parse(id) == None && uuid == 0))
    {
      if !HasHeader(headers, header) {
        LookupOfAbsent(headers, header);
      }
      if |id| != 0 {
        return id;
      }
      id := GetHeader(header);
      if |id| != 0 {
        match t.parse(id) {
          case Some(u) => uuid := u;
          case None => uuid := NIL;
        }
      } else {
        uuid := random;
        id := t.print_(uuid);
      }
      return id;
    }

    method RequestUuid(t: UuidText, header: Octets, random: Uuid) returns (r: Uuid)
      requires random != NIL
      modifies this`id, this`uuid
      ensures View() == AfterUuid(old(View()), t, Lookup(headers, header), random)
      ensures r == uuid
      ensures old(uuid) != 0 ==> id == old(id) && uuid == old(uuid)
      ensures old(uuid) == 0 && !HasHeader(headers, header) ==> uuid == random && id == t.print_(random)
      ensures old(uuid) == 0 && Lookup(headers, header) != [] ==>
        if t.parse(Lookup(headers, header)).Some?
        then id == Lookup(headers, header) && t.parse(id) == Some(uuid)
        else uuid == random && id == t.print_(random)
    {
      if !HasHeader(headers, header) {
        LookupOfAbsent(headers, header);
      }
      if uuid != NIL {
        return uuid;
      }
      id := GetHeader(header);
      if |id| != 0 {
        match t.parse(id) {
          case Some(u) => uuid := u;
          case None =>
            uuid := random;
            id := t.print_(uuid);
        }
        return uuid;
      }
      uuid := random;
      id := t.print_(uuid);
      return uuid;
    }
  }

  // ---- any order of calls

  /** The header a call names is only seen through its value. */
  datatype Call =
    | GetId(value: Octets, random: Uuid)
    | GetUuid(value: Octets, random: Uuid)
    | ResetAll

  predicate IsCall(c: Call) {
    !c.ResetAll? ==> c.random != NIL
  }

  predicate AreCalls(cs: seq<Call>) {
    forall c :: c in cs ==> IsCall(c)
  }

  function Apply(s: Identity, t: UuidText, c: Call): Identity {
    match c
    case GetId(value, random) => AfterId(s, t, value, random)
    case GetUuid(value, random) => AfterUuid(s, t, value, random)
    case ResetAll => BLANK
  }

  function ApplyAll(s: Identity, t: UuidText, cs: seq<Call>): Identity {
    if cs == [] then s else Apply(ApplyAll(s, t, cs[..|cs| - 1]), t, cs[|cs| - 1])
  }

  /** A known uuid is the one its text reads as. */
  predicate Consistent(s: Identity, t: UuidText) {
    s.uuid != NIL ==> t.parse(s.id) == Some(s.uuid)
  }

  lemma {:induction false} CallsStayConsistent(t: UuidText, cs: seq<Call>)
    requires Lawful(t)
    ensures Consistent(ApplyAll(BLANK, t, cs), t)
  {
    if cs != [] {
      CallsStayConsistent(t, cs[..|cs| - 1]);
    }
  }

  /** Once the uuid is known, neither getter changes anything until the next reset. */
  lemma {:induction false} KnownUuidIsFrozen(t: UuidText, cs: seq<Call>, more: seq<Call>)
    requires Lawful(t) && ApplyAll(BLANK, t, cs).uuid != NIL
    requires forall c :: c in more ==> !c.ResetAll?
    ensures ApplyAll(ApplyAll(BLANK, t, cs), t, more) == ApplyAll(BLANK, t, cs)
  {
    if more != [] {
      assert forall c :: c in more[..|more| - 1] ==> c in more;
      KnownUuidIsFrozen(t, cs, more[..|more| - 1]);
      CallsStayConsistent(t, cs);
      assert more[|more| - 1] in more;
    }
  }

  /** A known id is kept by every further request for the id. */
  lemma {:induction false} KnownIdIsKept(t: UuidText, s: Identity, more: seq<Call>)
    requires s.id != [] && forall c :: c in more ==> c.GetId?
    ensures ApplyAll(s, t, more) == s
  {
    if more != [] {
      assert forall c :: c in more[..|more| - 1] ==> c in more;
      KnownIdIsKept(t, s, more[..|more| - 1]);
      assert more[|more| - 1] in more;
    }
  }

  /** The uuid getter promises a uuid; it hands out the nil one exactly when the header spells it. */
  lemma UuidIsNilExactly(t: UuidText, s: Identity, value: Octets, random: Uuid)
    requires Lawful(t) && random != NIL
    ensures AfterUuid(s, t, value, random).uuid == NIL <==>
            s.uuid == NIL && value != [] && t.parse(value) == Some(NIL)
  {
  }

  /** The two getters agree only on a text that is a uuid: otherwise asking for the uuid replaces the id. */
  lemma UuidReplacesIdExactly(t: UuidText, value: Octets, random: Uuid, random': Uuid)
    requires Lawful(t) && value != [] && random' != NIL
    ensures var s := AfterId(BLANK, t, value, random);
      s.id == value && (AfterUuid(s, t, value, random').id == value <==>
                        t.parse(value).Some? || t.print_(random') == value)
  {
  }

  /** Either getter leaves an id, and asking for the uuid settles the id too. */
  lemma GettersAgree(t: UuidText, s: Identity, value: Octets, random: Uuid, value': Octets, random': Uuid)
    requires Lawful(t) && Consistent(s, t) && random != NIL
    ensures AfterId(s, t, value, random).id != [] && AfterUuid(s, t, value, random).id != []
    ensures AfterId(AfterUuid(s, t, value, random), t, value', random') == AfterUuid(s, t, value, random)
  {
    assert t.parse(t.print_(random)) == Some(random);
  }

  /** A blank request without the header gets the random uuid and its text, from either getter. */
  lemma BlankGetsRandom(t: UuidText, hs: seq<Header>, name: Octets, random: Uuid)
    requires !HasHeader(hs, name)
    ensures AfterId(BLANK, t, Lookup(hs, name), random) == Identity(t.print_(random), random)
    ensures AfterUuid(BLANK, t, Lookup(hs, name), random) == Identity(t.print_(random), random)
  {
    LookupOfAbsent(hs, name);
  }

  lemma {:induction false} LookupFindsFirst(hs: seq<Header>, name: Octets, i: nat)
    requires i < |hs| && SameName(name, hs[i].name)
    requires forall k :: 0 <= k < i ==> !SameName(name, hs[k].name)
    ensures Lookup(hs, name) == hs[i].value
  {
    if i > 0 {
      LookupFindsFirst(hs[1..], name, i - 1);
    }
  }
}
