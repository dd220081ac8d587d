/** What the proxy makes of a request on the way there and of a response on the way back
    (proxy_request_controller.go, proxy_response_controller.go, sip/transaction.go). */
module Forwarding {
  import opened Percent
  import opened Searching
  import opened Wrappers
  import opened UriObjects
  import opened Uris
  import opened Vias
  import opened ViaStack
  import Params
  import ProxyCore
  import ResponseContexts
  import opened ReturnPath
  import opened Messages
  import opened Derivation

  /** The Via stack and the count of a message that has both. */
  ghost predicate Counted(v: MessageView) {
    v.vias.Some? && v.vias.value != [] && v.maxForwards.Some?
  }

  function CopyOf(v: MessageView): Copy
    requires v.vias.Some? && v.maxForwards.Some?
  {
    Copy(v.vias.value, v.maxForwards.value)
  }

  // The way there

  /** Records the source in the top value of a stack. */
  method StampTop(v: ViaHeaders, remote: string, order: seq<string>)
    requires v.header != [] && Distinct(v.header)
    requires Params.Order(Recorded(ViewOfVias(v).value[0], remote), order)
    modifies v.header[|v.header|-1]
    ensures ViewOfVias(v) == Some(Forwarded(old(ViewOfVias(v)).value, remote, order))
  {
    hide Params.ParseInto, Params.Pairs, Params.Text;
    var topmost := v.TopMost();
    ghost var was := v.Values();
    if topmost.sentBy != remote {
      var param := Params.ParseQuery(topmost.rawParameter)["received" := [remote]];
      var newParam := Params.WriteParameters(param, order);
      topmost.rawParameter := if newParam == "" then "" else newParam[1..];
    }
    assert forall i :: 0 < i < |was| ==> v.Stack()[i] != topmost;
    assert v.Values() == [Stamped(was[0], remote, order)] + was[1..];
  }

  /** A copy with one hop less to go. */
  method CountedDown(msg: Message) returns (c: Message?, failure: Failure)
    ensures failure == if msg.maxForwards == null then Dereference else if msg.maxForwards.remains <= 1 then TooManyHops else NoFailure
    ensures failure == NoFailure <==> c != null
    ensures c != null ==>
              && fresh(c) && c.View() == msg.View().(maxForwards := Some(msg.maxForwards.remains - 1))
              && (c.requestURI != null ==> fresh(c.requestURI))
              && (c.via != null ==> fresh(c.via) && Distinct(c.via.header) && forall x :: x in c.via.header ==> fresh(x))
  {
    hide Views, Reverse, ViewOfVias, ViewOfParty, UriView, ViewOfCSeq;
    c := msg.Clone();
    if c.maxForwards == null {
      return null, Dereference;
    }
    var ok := c.maxForwards.Decrement();
    if !ok {
      return null, TooManyHops;
    }
    failure := NoFailure;
  }

  /** `generateForwardingRequest`. */
  method ForwardingRequest(msg: Message, order: seq<string>) returns (fwd: Message?, failure: Failure)
    requires Counted(msg.View()) ==> Params.Order(Recorded(msg.View().vias.value[0], msg.remoteAddr), order)
    ensures failure == if msg.maxForwards == null then Dereference
                       else if msg.maxForwards.remains <= 1 then TooManyHops
                       else if msg.via == null || msg.via.header == [] then Dereference
                       else NoFailure
    ensures failure == NoFailure <==> fwd != null
    ensures fwd != null ==>
              && fresh(fwd) && fwd.via != null && fresh(fwd.via) && (fwd.requestURI != null ==> fresh(fwd.requestURI))
              && fwd.View() == msg.View().(vias := Some(Forwarded(msg.View().vias.value, msg.remoteAddr, order)),
                                           maxForwards := Some(msg.maxForwards.remains - 1))
  {
    hide Views, Reverse, ViewOfVias, ViewOfParty, UriView, ViewOfCSeq, ViewOfCount, Forwarded, Recorded, Params.Order;
    var c;
    c, failure := CountedDown(msg);
    if c == null {
      return null, failure;
    }
    if c.via == null || |c.via.header| == 0 {
      return null, Dereference;
    }
    assert c.via.header[|c.via.header|-1] in c.via.header;
    StampTop(c.via, msg.remoteAddr, order);
    return c, NoFailure;
  }

  function ViasOr(vias: Option<seq<ViaValue>>): seq<ViaValue> {
    if vias.Some? then vias.value else []
  }

  /** What the constructors of client transactions do first: the own value on top, and the
      key. */
  method InsertOwn(msg: Message, local: string, branch: string) returns (key: KeyOutcome<ResponseContexts.ClientKey>)
    modifies msg`via, if msg.via == null then {} else {msg.via}
    ensures msg.via != null && (old(msg.via) != null ==> msg.via == old(msg.via)) && (old(msg.via) == null ==> fresh(msg.via))
    ensures ViewOfVias(msg.via) == Some(WithOwn(ViasOr(old(ViewOfVias(msg.via))), local, branch))
    ensures msg.View() == old(msg.View()).(vias := ViewOfVias(msg.via))
    ensures key == ClientKey(msg.View())
  {
    hide ClientKey, ViewOfVias, WithOwn, ViewOfParty, UriView, ViewOfCSeq, ViewOfCount;
    var v := StackOf(msg);
    PutOwn(v, local, branch);
    msg.via := v;
    key := ClientKey(msg.View());
  }

  /** The stack of a message, or a new one. */
  method StackOf(msg: Message) returns (v: ViaHeaders)
    ensures if msg.via != null then v == msg.via else fresh(v)
    ensures ViewOfVias(v) == Some(ViasOr(ViewOfVias(msg.via)))
  {
    if msg.via != null {
      return msg.via;
    }
    v := new ViaHeaders();
    assert v.Values() == [];
  }

  method PutOwn(v: ViaHeaders, local: string, branch: string)
    modifies v
    ensures ViewOfVias(v) == Some(WithOwn(old(ViewOfVias(v)).value, local, branch))
  {
    var needed := LacksOwn(v, local);
    hide Reverse, Views, Own;
    if needed {
      ghost var stack := v.Stack();
      var own := NewOwn(local, branch);
      var _ := v.Insert(own);
      StackedOn([], own, stack);
    }
  }

  method LacksOwn(v: ViaHeaders, local: string) returns (needed: bool)
    ensures var vs := ViewOfVias(v).value; needed <==> vs == [] || vs[0].sentBy != local
  {
    var top := v.TopMost();
    return top == null || top.sentBy != local;
  }

  method NewOwn(local: string, branch: string) returns (own: Via)
    ensures fresh(own) && own.View() == Own(local, branch)
  {
    own := new Via("SIP/2.0/UDP", local, "branch=" + branch);
    assert Trimmed("SIP/2.0/UDP", ' ');
  }

  /** The start of `forwardRedirection`: a copy of the request sent last, counted down, for
      the contact, without the own value. */
  method Redirection(sent: Message, contact: URI) returns (fwd: Message?, failure: Failure)
    ensures failure == if sent.maxForwards == null then Dereference
                       else if sent.maxForwards.remains <= 1 then TooManyHops
                       else if sent.via == null then Dereference
                       else NoFailure
    ensures failure == NoFailure <==> fwd != null
    ensures fwd != null ==>
              && fresh(fwd) && fwd.via != null && fresh(fwd.via) && fwd.requestURI == contact
              && fwd.View() == sent.View().(requestURI := Some(contact.View()), vias := Some(Popped(sent.View().vias.value)),
                                            maxForwards := Some(sent.maxForwards.remains - 1))
  {
    hide Views, Reverse, ViewOfVias, ViewOfParty, ViewOfCSeq, ViewOfCount;
    var c;
    c, failure := CountedDown(sent);
    if c == null {
      return null, failure;
    }
    c.requestURI := contact;
    if c.via == null {
      return null, Dereference;
    }
    PopTop(c.via);
    return c, NoFailure;
  }

  method PopTop(v: ViaHeaders)
    modifies v
    ensures ViewOfVias(v) == Some(Popped(old(ViewOfVias(v)).value))
  {
    ghost var was := v.Values();
    var _ := v.Pop();
    assert v.Values() == Popped(was);
  }

  // The way back

  method WithoutTop(msg: Message) returns (c: Message?)
    ensures c == null <==> msg.via == null
    ensures c != null ==>
              && fresh(c) && c.via != null
              && c.View() == msg.View().(vias := Some(Popped(msg.View().vias.value)))
  {
    hide Views, Reverse, ViewOfVias, ViewOfParty, ViewOfCSeq, UriView, ViewOfCount, Popped;
    c := msg.Clone();
    if c.via == null {
      return null;
    }
    PopTop(c.via);
  }

  /** `forwardingResponse`: null without a failure when no value is left below the own. */
  method ForwardingResponse(msg: Message) returns (sent: Message?, failure: Failure)
    ensures failure == if msg.via == null then Dereference else NoFailure
    ensures sent != null <==> msg.via != null && Popped(msg.View().vias.value) != []
    ensures sent != null ==>
              var back := Popped(msg.View().vias.value);
              fresh(sent) && sent.View() == msg.View().(vias := Some(back), fields := msg.Own().(remoteAddr := Destination(back[0])))
  {
    hide Views, Reverse, ViewOfVias, ViewOfParty, ViewOfCSeq, UriView, ViewOfCount, Popped, Destination;
    var c := WithoutTop(msg);
    if c == null {
      return null, Dereference;
    }
    var destination := TopDestination(c.via);
    if destination.None? {
      return null, NoFailure;
    }
    c.remoteAddr := destination.value;
    return c, NoFailure;
  }

  method TopDestination(v: ViaHeaders) returns (d: Option<string>)
    ensures d == if ViewOfVias(v).value == [] then None else Some(Destination(ViewOfVias(v).value[0]))
  {
    hide Params.ParseInto;
    var top := v.TopMost();
    if top == null {
      return None;
    }
    var received := Params.Get(Params.ParseQuery(top.rawParameter), "received");
    return Some(if received != "" then received else top.sentBy);
  }

  // A call

  /** Where a request goes: the address it is sent to, and the host of its URI. */
  datatype Target = Target(address: string, domain: Bytes)

  /** What the core gets to know about it. */
  function RoutingOf(uri: Option<Uri>, target: Option<Target>): ProxyCore.Routing {
    if uri.None? then ProxyCore.NoUri
    else if uri.value.scheme != "sip" && uri.value.scheme != "tel" then ProxyCore.BadScheme
    else if target.None? then ProxyCore.NoRoute
    else ProxyCore.Routed
  }

  /** A message on its way to a target. */
  function Aimed(v: MessageView, target: Target): MessageView
    requires v.requestURI.Some?
  {
    v.(fields := v.fields.(remoteAddr := target.address), requestURI := Some(v.requestURI.value.(host := target.domain)))
  }

  /** `inviteRouted`: the target is what the routes say about the URI, if anything. */
  method InviteRouted(fwd: Message, target: Option<Target>) returns (status: int)
    modifies fwd`remoteAddr, if fwd.requestURI == null then {} else {fwd.requestURI}
    ensures status == ProxyCore.RouteStatus(RoutingOf(old(UriView(fwd.requestURI)), target))
    ensures fwd.View() == if status == 0 then Aimed(old(fwd.View()), target.value) else old(fwd.View())
  {
    hide ViewOfVias, ViewOfParty, ViewOfCSeq, ViewOfCount;
    if fwd.requestURI == null {
      return ProxyCore.BAD_REQUEST;
    }
    if fwd.requestURI.scheme != "sip" && fwd.requestURI.scheme != "tel" {
      return ProxyCore.UNSUPPORTED_URI_SCHEME;
    }
    if target.None? {
      return ProxyCore.NOT_FOUND;
    }
    fwd.requestURI.host := target.value.domain;
    fwd.remoteAddr := target.value.address;
    status := 0;
  }

  /** The proxy's own value in front of those that came in. */
  function RecordRouted(header: map<string, seq<string>>, local: string): map<string, seq<string>> {
    header["Record-Route" := ["<sip:" + local + ";lr>"] + (if "Record-Route" in header then header["Record-Route"] else [])]
  }

  /** An INVITE on its way, with the proxy in its route. */
  function RoutedFirst(v: MessageView, target: Target, local: string): MessageView
    requires v.requestURI.Some?
  {
    var u := Aimed(v, target);
    u.(fields := u.fields.(header := RecordRouted(u.fields.header, local)))
  }

  method RouteFirst(fwd: Message, local: string, target: Option<Target>) returns (status: int)
    modifies fwd`remoteAddr, fwd`header, if fwd.requestURI == null then {} else {fwd.requestURI}
    ensures status == ProxyCore.RouteStatus(RoutingOf(old(UriView(fwd.requestURI)), target))
    ensures fwd.View() == if status == 0 then RoutedFirst(old(fwd.View()), target.value, local) else old(fwd.View())
  {
    hide ViewOfVias, ViewOfParty, ViewOfCSeq, ViewOfCount, UriView, ProxyCore.RouteStatus, RoutingOf, RecordRouted;
    status := InviteRouted(fwd, target);
    if status == 0 {
      fwd.header := RecordRouted(fwd.header, local);
    }
  }

  /** The copy gets its target, its Record-Route value and its own Via. */
  method Outbound(fwd: Message, local: string, branch: string, target: Option<Target>) returns (status: int)
    requires fwd.via != null
    modifies fwd, fwd.via, if fwd.requestURI == null then {} else {fwd.requestURI}
    ensures status == ProxyCore.RouteStatus(RoutingOf(old(UriView(fwd.requestURI)), target))
    ensures status == 0 ==>
              && fwd.via == old(fwd.via) && fwd.requestURI == old(fwd.requestURI)
              && fwd.View() == RoutedFirst(old(fwd.View()), target.value, local).(
                   vias := Some(WithOwn(old(ViewOfVias(fwd.via)).value, local, branch)))
  {
    hide ViewOfVias, WithOwn, ViewOfParty, UriView, ViewOfCSeq, ViewOfCount, ClientKey, ProxyCore.RouteStatus, RoutingOf, RecordRouted;
    status := RouteFirst(fwd, local, target);
    if status != 0 {
      return;
    }
    var _ := InsertOwn(fwd, local, branch);
  }

  /** The first copy of an INVITE without a Route header, as the proxy sends it. */
  method SendFirst(msg: Message, order: seq<string>, local: string, branch: string, target: Option<Target>)
    returns (copy: Message?, status: int)
    requires Counted(msg.View()) && Params.Order(Recorded(msg.View().vias.value[0], msg.remoteAddr), order)
    ensures var expected := FirstCopy(CopyOf(msg.View()), msg.remoteAddr, order, local, branch);
            && status == (if expected.None? then ProxyCore.TOO_MANY_HOPS
                          else ProxyCore.RouteStatus(RoutingOf(msg.View().requestURI, target)))
            && (copy != null <==> status == 0)
            && (copy != null ==>
                  && fresh(copy) && Counted(copy.View()) && CopyOf(copy.View()) == expected.value
                  && copy.View() == RoutedFirst(msg.View(), target.value, local).(
                       vias := Some(expected.value.vias), maxForwards := Some(expected.value.remains)))
  {
    hide Forwarded, Recorded, Params.Order, ViewOfVias, WithOwn, ViewOfParty, UriView, ViewOfCSeq, ProxyCore.RouteStatus, RecordRouted;
    ghost var v := msg.View();
    var fwd, _ := ForwardingRequest(msg, order);
    if fwd == null {
      return null, ProxyCore.TOO_MANY_HOPS;
    }
    assert msg.View() == v;
    OwnNotEmpty(ViewOfVias(fwd.via).value, local, branch);
    status := Outbound(fwd, local, branch, target);
    assert msg.View() == v;
    copy := if status == 0 then fwd else null;
  }

  lemma OwnNotEmpty(vs: seq<ViaValue>, local: string, branch: string)
    ensures WithOwn(vs, local, branch) != []
  {
  }

  /** The copy for a redirection.  Its URI is the contact itself, so that the contact of the
      response gets the new host as well. */
  method SendNext(sent: Message, contact: URI, local: string, branch: string, target: Option<Target>)
    returns (copy: Message?, status: int)
    requires Counted(sent.View())
    modifies contact
    ensures var expected := NextCopy(CopyOf(old(sent.View())), local, branch);
            && status == (if expected.None? then ProxyCore.TOO_MANY_HOPS
                          else ProxyCore.RouteStatus(RoutingOf(Some(old(contact.View())), target)))
            && (copy != null <==> status == 0)
            && contact.View() == (if status == 0 then old(contact.View()).(host := target.value.domain) else old(contact.View()))
            && (copy != null ==>
                  && fresh(copy) && copy.requestURI == contact && Counted(copy.View()) && CopyOf(copy.View()) == expected.value
                  && copy.View() == old(sent.View()).(
                       fields := old(sent.Own()).(remoteAddr := target.value.address), requestURI := Some(contact.View()),
                       vias := Some(expected.value.vias), maxForwards := Some(expected.value.remains)))
  {
    hide ViewOfVias, WithOwn, Popped, ViewOfParty, ViewOfCSeq, ClientKey, ProxyCore.RouteStatus;
    var fwd, _ := Redirection(sent, contact);
    if fwd == null {
      return null, ProxyCore.TOO_MANY_HOPS;
    }
    status := InviteRouted(fwd, target);
    if status != 0 {
      return null, status;
    }
    OwnNotEmpty(ViewOfVias(fwd.via).value, local, branch);
    var _ := InsertOwn(fwd, local, branch);
    copy := fwd;
  }
}
