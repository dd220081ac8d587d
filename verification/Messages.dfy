/** Messages as graphs of header objects (sip/message.go, sip/header.go). */
module Messages {
  import opened Searching
  import opened Wrappers
  import Uris
  import opened UriObjects
  import opened Vias
  import opened ViaStack

  /** A display name and a URI; nothing modelled here changes one in place. */
  datatype NameAddr = NameAddr(displayName: string, uri: Option<Uris.Uri>)

  datatype PartyView = PartyView(addr: Option<NameAddr>, rawParameter: string)

  datatype CallID = CallID(identifier: string, host: string)

  /** What a message holds itself. */
  datatype Fields = Fields(
    remoteAddr: string,
    request: bool,
    reqMethod: string,
    response: bool,
    statusCode: int,
    callId: Option<CallID>,
    header: map<string, seq<string>>,
    body: string,
    contentLength: int)

  datatype MessageView = MessageView(
    fields: Fields,
    requestURI: Option<Uris.Uri>,
    to: Option<PartyView>,
    from: Option<PartyView>,
    vias: Option<seq<ViaValue>>,
    maxForwards: Option<int>,
    cseq: Option<(int, string)>)

  function UriView(u: URI?): Option<Uris.Uri>
    reads u
  {
    if u == null then None else Some(u.View())
  }

  /** The To and From headers. */
  class Party {
    var addr: Option<NameAddr>
    var rawParameter: string

    constructor (addr: Option<NameAddr>, rawParameter: string)
      ensures this.addr == addr && this.rawParameter == rawParameter
    {
      this.addr, this.rawParameter := addr, rawParameter;
    }

    function View(): PartyView
      reads this
    {
      PartyView(addr, rawParameter)
    }

    method Clone() returns (cp: Party)
      ensures fresh(cp) && cp.View() == View()
    {
      cp := new Party(addr, rawParameter);
    }
  }

  class MaxForwards {
    var remains: int

    constructor (remains: int)
      ensures this.remains == remains
    {
      this.remains := remains;
    }

    method Clone() returns (cp: MaxForwards)
      ensures fresh(cp) && cp.remains == remains
    {
      cp := new MaxForwards(remains);
    }

    /** False when the count is used up. */
    method Decrement() returns (ok: bool)
      modifies this
      ensures ok <==> old(remains) > 1
      ensures remains == if ok then old(remains) - 1 else 0
    {
      remains := remains - 1;
      if remains <= 0 {
        remains := 0;
        return false;
      }
      return true;
    }
  }

  class CSeq {
    var sequence: int
    var cseqMethod: string

    constructor (sequence: int, cseqMethod: string)
      ensures this.sequence == sequence && this.cseqMethod == cseqMethod
    {
      this.sequence, this.cseqMethod := sequence, cseqMethod;
    }

    method Clone() returns (cp: CSeq)
      ensures fresh(cp) && cp.sequence == sequence && cp.cseqMethod == cseqMethod
    {
      cp := new CSeq(sequence, cseqMethod);
    }
  }

  // Views of parts that may be missing

  function ViewOfParty(p: Party?): Option<PartyView>
    reads p
  {
    if p == null then None else Some(p.View())
  }

  function ViewOfVias(v: ViaHeaders?): (vs: Option<seq<ViaValue>>)
    reads v, if v == null then [] else v.header
    ensures vs.Some? <==> v != null
    ensures v != null ==> (vs.value == [] <==> v.header == [])
  {
    if v == null then None else Some(v.Values())
  }

  function ViewOfCount(m: MaxForwards?): (n: Option<int>)
    reads m
    ensures n.Some? <==> m != null
  {
    if m == null then None else Some(m.remains)
  }

  function ViewOfCSeq(c: CSeq?): Option<(int, string)>
    reads c
  {
    if c == null then None else Some((c.sequence, c.cseqMethod))
  }

  class Message {
    var remoteAddr: string
    var request: bool
    var reqMethod: string
    var requestURI: URI?
    var response: bool
    var statusCode: int
    var to: Party?
    var from: Party?
    var via: ViaHeaders?
    var maxForwards: MaxForwards?
    var cseq: CSeq?
    var callId: Option<CallID>
    var header: map<string, seq<string>>
    var body: string
    var contentLength: int

    function Own(): Fields
      reads this
    {
      Fields(remoteAddr, request, reqMethod, response, statusCode, callId, header, body, contentLength)
    }

    function View(): MessageView
      reads this, requestURI, to, from, via, maxForwards, cseq, if via == null then [] else via.header
    {
      MessageView(Own(), UriView(requestURI), ViewOfParty(to), ViewOfParty(from), ViewOfVias(via), ViewOfCount(maxForwards), ViewOfCSeq(cseq))
    }

    constructor (remoteAddr: string)
      ensures Own() == Fields(remoteAddr, false, "", false, 0, None, map[], "", 0)
      ensures requestURI == null && to == null && from == null && via == null && maxForwards == null && cseq == null
    {
      this.remoteAddr, request, reqMethod, requestURI, response, statusCode := remoteAddr, false, "", null, false, 0;
      to, from, via, maxForwards, cseq, callId, header, body, contentLength := null, null, null, null, null, None, map[], "", 0;
    }

    /** A message made of given parts. */
    constructor Of(o: Fields, u: URI?, t: Party?, f: Party?, v: ViaHeaders?, n: MaxForwards?, s: CSeq?)
      ensures requestURI == u && to == t && from == f && via == v && maxForwards == n && cseq == s
      ensures Own() == o
    {
      remoteAddr, request, reqMethod, response, statusCode := o.remoteAddr, o.request, o.reqMethod, o.response, o.statusCode;
      callId, header, body, contentLength := o.callId, o.header, o.body, o.contentLength;
      requestURI, to, from, via, cseq, maxForwards := u, t, f, v, s, n;
    }

    /** A copy that shares no object with the original. */
    method Clone() returns (cp: Message)
      ensures cp.View() == View() && fresh(cp)
      ensures (cp.requestURI != null ==> fresh(cp.requestURI)) && (cp.to != null ==> fresh(cp.to)) && (cp.from != null ==> fresh(cp.from))
      ensures (cp.maxForwards != null ==> fresh(cp.maxForwards)) && (cp.cseq != null ==> fresh(cp.cseq))
      ensures cp.via != null ==> fresh(cp.via) && Distinct(cp.via.header) && forall x :: x in cp.via.header ==> fresh(x)
    {
      hide Views, Reverse, ViewOfVias, ViewOfParty, UriView, ViewOfCount, ViewOfCSeq;
      var u, t, f, n, s := CloneParts();
      var v := CloneVias(via);
      cp := new Message.Of(Own(), u, t, f, v, n, s);
    }

    method CloneParts() returns (u: URI?, t: Party?, f: Party?, n: MaxForwards?, s: CSeq?)
      ensures UriView(u) == UriView(requestURI) && (u != null ==> fresh(u))
      ensures ViewOfParty(t) == ViewOfParty(to) && (t != null ==> fresh(t))
      ensures ViewOfParty(f) == ViewOfParty(from) && (f != null ==> fresh(f))
      ensures ViewOfCount(n) == ViewOfCount(maxForwards) && (n != null ==> fresh(n))
      ensures ViewOfCSeq(s) == ViewOfCSeq(cseq) && (s != null ==> fresh(s))
    {
      hide ViewOfParty, UriView, ViewOfCount, ViewOfCSeq;
      u := CloneUri(requestURI);
      t := CloneParty(to);
      f := CloneParty(from);
      s := CloneCSeq(cseq);
      n := CloneCount(maxForwards);
    }
  }

  method CloneUri(u: URI?) returns (cp: URI?)
    ensures UriView(cp) == UriView(u) && (cp != null ==> fresh(cp))
  {
    cp := null;
    if u != null {
      cp := u.Clone();
    }
  }

  method CloneParty(p: Party?) returns (cp: Party?)
    ensures ViewOfParty(cp) == ViewOfParty(p) && (cp != null ==> fresh(cp))
  {
    cp := null;
    if p != null {
      cp := p.Clone();
    }
  }

  method CloneVias(v: ViaHeaders?) returns (cp: ViaHeaders?)
    ensures ViewOfVias(cp) == ViewOfVias(v)
    ensures cp != null ==> fresh(cp) && Distinct(cp.header) && forall x :: x in cp.header ==> fresh(x)
  {
    cp := null;
    if v != null {
      cp := v.Clone();
    }
  }

  method CloneCSeq(c: CSeq?) returns (cp: CSeq?)
    ensures ViewOfCSeq(cp) == ViewOfCSeq(c) && (cp != null ==> fresh(cp))
  {
    cp := null;
    if c != null {
      cp := c.Clone();
    }
  }

  method CloneCount(m: MaxForwards?) returns (cp: MaxForwards?)
    ensures ViewOfCount(cp) == ViewOfCount(m) && (cp != null ==> fresh(cp))
  {
    cp := null;
    if m != null {
      cp := m.Clone();
    }
  }
}
