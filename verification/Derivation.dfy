/** Messages made from other messages: the CANCEL and the ACK of an INVITE, responses
    (sip/message.go), and what the proxy forwards (proxy_request_controller.go,
    proxy_response_controller.go, sip/transaction.go). */
module Derivation {
  import opened Wrappers
  import opened ViaStack
  import Params
  import opened ResponseContexts
  import opened ReturnPath
  import opened Messages

  datatype Failure = NoFailure | MalformedMessage | HeaderParseError | MissingHeader | TooManyHops | Dereference

  function ServerKey(v: MessageView): KeyOutcome<ResponseContexts.ServerKey> {
    ServerKeyOf(v.fields.reqMethod, v.vias)
  }

  function ClientKey(v: MessageView): KeyOutcome<ResponseContexts.ClientKey> {
    ClientKeyOf(v.vias, if v.cseq.Some? then Some(v.cseq.value.1) else None)
  }

  // CANCEL

  /** The CANCEL of a request whose Via stack and CSeq are given. */
  function CancelOf(v: MessageView): MessageView
    requires v.vias.Some? && v.vias.value != [] && v.cseq.Some?
  {
    v.(fields := v.fields.(reqMethod := "CANCEL", header := v.fields.header - {"Require", "Proxy-Require"}, body := "", contentLength := 0),
       vias := Some(v.vias.value[..1]),
       cseq := Some((v.cseq.value.0, "CANCEL")))
  }

  /** The CANCEL matches the server transaction of its INVITE once the method is set to
      INVITE, and its client transaction is another one. */
  lemma CancelKeys(v: MessageView)
    requires v.vias.Some? && v.vias.value != [] && v.cseq.Some? && v.fields.reqMethod == "INVITE"
    ensures ServerKey(v).Key? <==> ServerKey(CancelOf(v)).Key?
    ensures ServerKey(v).Key? ==> ServerKey(CancelOf(v)).key.(reqMethod := "INVITE") == ServerKey(v).key
    ensures ClientKey(v).Key? ==>
              && ClientKey(CancelOf(v)).Key? && ClientKey(CancelOf(v)).key.viaBranch == ClientKey(v).key.viaBranch
              && (ClientKey(CancelOf(v)) == ClientKey(v) <==> v.cseq.value.1 == "CANCEL")
  {
  }

  /** A stack with the top value alone; null if there is none. */
  method TopOnly(v: ViaHeaders) returns (top: ViaHeaders?)
    ensures top == null <==> v.header == []
    ensures top != null ==> fresh(top) && top.header == [v.header[|v.header|-1]] && ViewOfVias(top) == Some(ViewOfVias(v).value[..1])
  {
    var via := v.TopMost();
    if via == null {
      return null;
    }
    top := new ViaHeaders();
    var _ := top.Insert(via);
    assert top.Stack() == [via] + [];
    assert top.Values() == [via.View()] == v.Values()[..1];
  }

  method TurnIntoCancel(c: Message, top: ViaHeaders)
    requires c.cseq != null
    modifies c, c.cseq
    ensures c.Own() == old(c.Own()).(reqMethod := "CANCEL", header := old(c.header) - {"Require", "Proxy-Require"}, body := "", contentLength := 0)
    ensures c.via == top && c.cseq == old(c.cseq) && ViewOfCSeq(c.cseq) == Some((old(c.cseq.sequence), "CANCEL"))
    ensures c.requestURI == old(c.requestURI) && c.to == old(c.to) && c.from == old(c.from) && c.maxForwards == old(c.maxForwards)
  {
    c.reqMethod := "CANCEL";
    c.via := top;
    c.cseq.cseqMethod := "CANCEL";
    c.header := c.header - {"Require", "Proxy-Require"};
    c.contentLength := 0;
    c.body := "";
  }

  method GenerateCancel(req: Message?) returns (cancel: Message?, failure: Failure)
    ensures failure == if req == null || !req.request || req.reqMethod != "INVITE" then MalformedMessage
                       else if req.via == null then Dereference
                       else if req.via.header == [] then HeaderParseError
                       else if req.cseq == null then Dereference
                       else NoFailure
    ensures failure == NoFailure <==> cancel != null
    ensures cancel != null ==> fresh(cancel) && cancel.View() == CancelOf(req.View())
  {
    hide Views, Reverse, ViewOfVias, ViewOfParty, UriView, ViewOfCount;
    cancel, failure := null, MalformedMessage;
    if req == null || !req.request || req.reqMethod != "INVITE" {
      return;
    }
    var c := req.Clone();
    ghost var was := req.View();
    assert ViewOfVias(c.via) == was.vias && ViewOfCSeq(c.cseq) == was.cseq;
    if c.via == null {
      return null, Dereference;
    }
    var top := TopOnly(c.via);
    if top == null {
      return null, HeaderParseError;
    }
    if c.cseq == null {
      return null, Dereference;
    }
    TurnIntoCancel(c, top);
    cancel, failure := c, NoFailure;
  }

  // ACK

  function Decimal(n: int): string
    decreases if n < 0 then 1 - n else n
  {
    if n < 0 then "-" + Decimal(-n) else if n < 10 then [(n + '0' as int) as char] else Decimal(n / 10) + [(n % 10 + '0' as int) as char]
  }

  /** The first Route value is taken over; the CSeq goes into the header alone. */
  function AckHeader(header: map<string, seq<string>>, sequence: int): map<string, seq<string>> {
    var cseq := [Decimal(sequence) + " ACK"];
    if "Route" in header && header["Route"] != [] && header["Route"][0] != "" then map["Route" := [header["Route"][0]], "Cseq" := cseq]
    else map["Cseq" := cseq]
  }

  /** The ACK belongs to the server transaction of its INVITE; it has no client key, as its
      CSeq is not parsed. */
  lemma AckKeys(invite: MessageView, ack: MessageView)
    requires invite.fields.reqMethod == "INVITE" && ack.fields.reqMethod == "ACK"
    requires invite.vias.Some? && invite.vias.value != [] && ack.vias == Some(invite.vias.value[..1]) && ack.cseq.None?
    ensures ServerKey(ack) == ServerKey(invite) && ClientKey(ack).Malformed?
  {
  }

  /** The ACK for a final response from 300 on.  It shares the From, Max-Forwards,
      Request-URI and top Via objects of the request and the To object of the response. */
  method GenerateAck(req: Message, res: Message?) returns (ack: Message?, failure: Failure)
    requires res != null ==> !(200 <= res.statusCode < 300)
    ensures failure == if res == null || !req.request || !res.response then MalformedMessage
                       else if req.via == null then Dereference
                       else if req.via.header == [] then HeaderParseError
                       else if req.cseq == null then MissingHeader
                       else NoFailure
    ensures failure == NoFailure <==> ack != null
    ensures ack != null ==>
              && fresh(ack)
              && ack.Own() == Fields(req.remoteAddr, true, "ACK", false, 0, req.callId, AckHeader(req.header, req.cseq.sequence), "", 0)
              && ack.requestURI == req.requestURI && ack.from == req.from && ack.maxForwards == req.maxForwards && ack.to == res.to
              && ack.via != null && ack.via.header == [req.via.header[|req.via.header|-1]]
              && ack.cseq == null && ViewOfVias(ack.via) == Some(ViewOfVias(req.via).value[..1])
              && (req.reqMethod == "INVITE" ==> ServerKey(ack.View()) == ServerKey(req.View()) && ClientKey(ack.View()).Malformed?)
  {
    hide Views, Reverse, ViewOfVias, Decimal;
    ack, failure := null, MalformedMessage;
    if res == null {
      return;
    }
    if !req.request || !res.response {
      return;
    }
    if req.via == null {
      return null, Dereference;
    }
    var top := TopOnly(req.via);
    if top == null {
      return null, HeaderParseError;
    }
    if req.cseq == null {
      return null, MissingHeader;
    }
    ack := new Message.Of(Fields(req.remoteAddr, true, "ACK", false, 0, req.callId, AckHeader(req.header, req.cseq.sequence), "", 0),
      req.requestURI, res.to, req.from, top, req.maxForwards, null);
    if req.reqMethod == "INVITE" {
      AckKeys(req.View(), ack.View());
    }
    failure := NoFailure;
  }

  // Responses

  const MANDATORY: set<string> := {"From", "To", "Call-Id", "Cseq", "Via", "Max-Forwards"}

  /** The response shares the header objects of the request. */
  method GenerateResponse(msg: Message) returns (resp: Message)
    ensures fresh(resp)
    ensures resp.Own() == Fields(msg.remoteAddr, false, "", true, 100, msg.callId, map k | k in msg.header && k in MANDATORY :: msg.header[k], "", 0)
    ensures resp.to == msg.to && resp.from == msg.from && resp.via == msg.via && resp.cseq == msg.cseq && resp.maxForwards == msg.maxForwards
    ensures resp.requestURI == null && ClientKey(resp.View()) == ClientKey(msg.View())
  {
    hide Views, Reverse, ViewOfVias, ClientKeyOf, ViewOfParty, UriView, ViewOfCount, ViewOfCSeq;
    var header := map k | k in msg.header && k in MANDATORY :: msg.header[k];
    resp := new Message.Of(Fields(msg.remoteAddr, false, "", true, 100, msg.callId, header, "", 0),
      null, msg.to, msg.from, msg.via, msg.maxForwards, msg.cseq);
  }

  function TrimSemicolons(s: string): (t: string)
    ensures |t| <= |s|
  {
    if s != "" && s[0] == ';' then TrimSemicolons(s[1..])
    else if s != "" && s[|s|-1] == ';' then TrimSemicolons(s[..|s|-1])
    else s
  }

  /** The parameters of a To header after a tag was asked for. */
  function Tagged(raw: string, tag: string): string {
    if Params.Get(Params.ParseQuery(raw), "tag") != "" then raw else TrimSemicolons("tag=" + tag + ";" + raw)
  }

  method AddToTag(to: Party, tag: string)
    modifies to
    ensures to.addr == old(to.addr) && to.rawParameter == Tagged(old(to.rawParameter), tag)
  {
    if Params.Get(Params.ParseQuery(to.rawParameter), "tag") != "" {
      return;
    }
    to.rawParameter := TrimSemicolons("tag=" + tag + ";" + to.rawParameter);
  }

  /** An error response.  The To header is the request's own, so the request gets the tag. */
  method ErrorResponse(msg: Message, status: int, tag: string) returns (resp: Message)
    requires msg.to != null
    modifies msg.to
    ensures fresh(resp) && resp.statusCode == status && resp.to == msg.to
    ensures msg.to.View() == old(msg.to.View()).(rawParameter := Tagged(old(msg.to.rawParameter), tag))
  {
    resp := GenerateResponse(msg);
    resp.statusCode := status;
    AddToTag(resp.to, tag);
  }

  lemma {:induction false} TrimKeepsStart(s: string, n: nat)
    requires 0 < n <= |s| && s[0] != ';' && s[n-1] != ';'
    ensures TrimSemicolons(s) == s[..|TrimSemicolons(s)|] && |TrimSemicolons(s)| >= n
    decreases |s|
  {
    if s[|s|-1] == ';' {
      assert n < |s|;
      TrimKeepsStart(s[..|s|-1], n);
    }
  }

  lemma {:induction false} FirstValueStays(m: Params.Values, q: string, key: string, value: string)
    requires key in m && m[key] != [] && m[key][0] == value
    ensures Params.Get(Params.ParseInto(m, q), key) == value
    decreases |q|
  {
    hide Params.QueryUnescape;
    if q != "" {
      var i := Params.PieceEnd(q);
      FirstValueStays(Params.AddPiece(m, q[..i]), if i < |q| then q[i+1..] else "", key, value);
    }
  }

  /** The tag is the first parameter. */
  lemma TaggedShape(raw: string, tag: string)
    requires Params.Clean(tag) && tag != ""
    ensures var start := Params.Pair(("tag", tag)); var q := TrimSemicolons("tag=" + tag + ";" + raw);
            |q| >= |start| && q[..|start|] == start && (|q| > |start| ==> q[|start|] == ';')
  {
    var start := Params.Pair(("tag", tag));
    var whole := "tag=" + tag + ";" + raw;
    assert whole == start + (";" + raw);
    TagIsClean(tag);
    assert start[|start|-1] == tag[|tag|-1] && whole[|start|-1] == start[|start|-1] && whole[0] == 't';
    TrimKeepsStart(whole, |start|);
    assert whole[..|start|] == start && whole[|start|] == ';';
  }

  /** A tag is given once: it can be read back, so that every later response made from the
      same request carries it too. */
  lemma TagStays(raw: string, tag: string, other: string)
    requires Params.Clean(tag) && tag != "" && Params.Get(Params.ParseQuery(raw), "tag") == ""
    ensures Params.Get(Params.ParseQuery(Tagged(raw, tag)), "tag") == tag
    ensures Tagged(Tagged(raw, tag), other) == Tagged(raw, tag)
  {
    hide Params.ParseInto, Params.Pair, TrimSemicolons, Params.Clean, Params.CleanPair, Params.Separator;
    var start := Params.Pair(("tag", tag));
    TaggedShape(raw, tag);
    TagIsClean(tag);
    var q := TrimSemicolons("tag=" + tag + ";" + raw);
    var rest := q[|start|..];
    assert q == start + rest;
    Params.PairAdded(map[], ("tag", tag));
    Params.FirstPiece(map[], start, rest);
    var m := Params.Added(map[], "tag", tag);
    FirstValueStays(m, if rest == "" then "" else rest[1..], "tag", tag);
  }

  lemma TagIsClean(tag: string)
    requires Params.Clean(tag)
    ensures Params.CleanPair(("tag", tag))
    ensures tag != "" ==> tag[|tag|-1] != ';'
  {
  }
}
