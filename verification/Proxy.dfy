/** The proxy's handlers in the form the program has them: objects whose tables are
    updated in place.  Each handler is proved to take the step of `ProxyCore` that the
    safety results are about. */
module Proxy {
  import opened Wrappers
  import opened ResponseContexts
  import opened ProxyCore
  import ProxySafety
  import ProxyRuns

  /** The channels made so far, and which of them are closed. */
  class Channels {
    var made: seq<ChanUse>
    var closed: set<nat>

    constructor ()
      ensures made == [] && closed == {}
    {
      made, closed := [], {};
    }

    method Make(use: ChanUse) returns (c: nat)
      modifies this`made
      ensures c == |old(made)| && made == old(made) + [use]
    {
      c := |made|;
      made := made + [use];
    }
  }

  class TimerCHandlers {
    var update: map<ClientKey, nat>
    var destroy: map<ClientKey, nat>

    constructor ()
      ensures update == map[] && destroy == map[]
    {
      update, destroy := map[], map[];
    }

    method Add(txn: ClientKey, chans: Channels) returns (chanU: nat, chanD: nat)
      modifies this, chans`made
      ensures chanU == |old(chans.made)| && chanD == chanU + 1
      ensures chans.made == old(chans.made) + [UpdateOf(txn), DestroyOf(txn)]
      ensures update == old(update)[txn := chanU] && destroy == old(destroy)[txn := chanD]
    {
      chanU := chans.Make(UpdateOf(txn));
      update := update[txn := chanU];
      chanD := chans.Make(DestroyOf(txn));
      destroy := destroy[txn := chanD];
      assert [UpdateOf(txn)] + [DestroyOf(txn)] == [UpdateOf(txn), DestroyOf(txn)];
    }

    method Get(txn: ClientKey) returns (r: Option<(nat, nat)>)
      ensures r == if txn in update && txn in destroy then Some((update[txn], destroy[txn])) else None
    {
      if txn !in update { return None; }
      if txn !in destroy { return None; }
      r := Some((update[txn], destroy[txn]));
    }

    method Remove(txn: ClientKey) returns (ok: bool)
      modifies this
      ensures update == old(update) - {txn} && destroy == old(destroy) - {txn}
      ensures ok <==> txn in old(update) || txn in old(destroy)
    {
      var okU, okD := txn in update, txn in destroy;
      if okU { update := update - {txn}; }
      if okD { destroy := destroy - {txn}; }
      assert !okU ==> update == update - {txn};
      assert !okD ==> destroy == destroy - {txn};
      ok := okU || okD;
    }
  }

  class Proxy {
    const responseContexts: ResponseCtxs
    const timerCHandler: TimerCHandlers
    const chans: Channels
    var waiting: map<ClientKey, Watch>
    var cancels: set<PendingCancel>
    var callStates: map<string, Entry>
    var servers: map<ServerKey, nat>
    var clients: set<ClientKey>
    var keys: seq<ServerKey>
    var callIds: seq<string>
    var handed: seq<seq<int>>
    var crashed: bool
    var panicked: bool
    var blocked: bool
    ghost var latest: map<ServerKey, nat>
    ghost var used: set<ClientKey>
    ghost var callOf: map<ClientKey, string>
    ghost var dropped: seq<nat>

    ghost predicate Valid()
      reads this, responseContexts
    {
      Exact(responseContexts.View())
    }

    ghost function CallsView(): Calls
      reads this, responseContexts
    {
      Calls(responseContexts.ctToSt, latest, servers, clients, cancels, callStates, used, callOf, keys, callIds, handed, dropped)
    }

    ghost function TimersView(): Timers
      reads this, timerCHandler, chans
    {
      Timers(timerCHandler.update, timerCHandler.destroy, waiting, chans.closed, chans.made, panicked, blocked)
    }

    ghost function View(): Core
      reads this, responseContexts, timerCHandler, chans
    {
      Core(CallsView(), TimersView(), crashed)
    }

    constructor ()
      ensures Valid() && View() == Init
      ensures fresh(responseContexts) && fresh(timerCHandler) && fresh(chans)
    {
      responseContexts := new ResponseCtxs();
      timerCHandler := new TimerCHandlers();
      chans := new Channels();
      waiting, cancels, callStates, servers, clients := map[], {}, map[], map[], {};
      keys, callIds, handed, crashed, panicked, blocked := [], [], [], false, false, false;
      latest, used, callOf, dropped := map[], {}, map[], [];
    }

    // Shared pieces

    method NewServerTransaction(st: ServerKey, call: string) returns (txn: nat)
      requires Valid()
      modifies this`servers, this`keys, this`callIds, this`handed, this`latest, this`dropped
      ensures Valid() && txn == |old(handed)|
      ensures CallsView() == Open(old(CallsView()), st).(callIds := old(callIds) + [call]) && TimersView() == old(TimersView())
    {
      txn := |handed|;
      OpenTables(st);
      callIds := callIds + [call];
    }

    method OpenTables(st: ServerKey)
      requires Valid()
      modifies this`servers, this`keys, this`handed, this`latest, this`dropped
      ensures Valid()
      ensures CallsView() == Open(old(CallsView()), st) && TimersView() == old(TimersView())
    {
      var txn := |handed|;
      servers := servers[st := txn];
      keys := keys + [st];
      handed := handed + [[]];
      latest, dropped := latest[st := txn], dropped + [0];
    }

    /** A message written to server transaction `txn`. */
    method WriteMessage(txn: nat, status: int)
      requires Valid()
      modifies this`handed
      ensures Valid() && CallsView() == Hand(old(CallsView()), txn, status) && TimersView() == old(TimersView())
    {
      if txn < |handed| {
        handed := handed[txn := handed[txn] + [status]];
      }
    }

    /** A forwarded request: its client transaction enters the index and the table. */
    method NewClientTransaction(st: ServerKey, ct: ClientKey, call: string)
      requires Valid() && ct !in responseContexts.ctToSt
      modifies this`clients, this`used, this`callOf, responseContexts
      ensures Valid() && CallsView() == Branch(old(CallsView()), st, ct, call) && TimersView() == old(TimersView())
    {
      var ok := responseContexts.Add(st, ct);
      clients := clients + {ct};
      used, callOf := used + {ct}, callOf[ct := call];
    }

    /** The entry of `call`, whatever it was before. */
    method RecordCall(call: string, entry: Entry)
      requires Valid()
      modifies this`callStates
      ensures Valid() && CallsView() == Record(old(CallsView()), call, entry) && TimersView() == old(TimersView())
    {
      if call != "" {
        callStates := callStates[call := entry];
      }
    }

    /** Prints the entry of `call`, if there is one, and closes it. */
    method CloseCall(call: string)
      requires Valid() && !crashed
      modifies this`callStates, this`crashed
      ensures Valid() && TimersView() == old(TimersView()) && (crashed <==> Misprinted(old(CallsView()), call))
      ensures !crashed ==> CallsView() == old(CallsView()).(callStates := Shut(old(callStates), call))
    {
      if call != "" && call in callStates {
        if !callStates[call].prints {
          crashed := true;
          return;
        }
        callStates := callStates[call := callStates[call].(closed := true)];
      }
    }

    /** An error goes to transaction `txn`, whose request belongs to `call`. */
    method MakeErrorResponse(txn: nat, status: int, call: string)
      requires Valid() && !crashed
      modifies this`handed, this`callStates, this`crashed
      ensures Valid() && TimersView() == old(TimersView()) && (crashed <==> Misprinted(old(CallsView()), call))
      ensures !crashed ==> CallsView() == Hand(old(CallsView()), txn, status).(callStates := Shut(old(callStates), call))
    {
      WriteMessage(txn, status);
      CloseCall(call);
    }

    method StartTimerC(txn: nat, ct: ClientKey)
      requires Valid()
      modifies this`waiting, timerCHandler, chans`made
      ensures Valid() && CallsView() == old(CallsView()) && TimersView() == Start(old(TimersView()), txn, ct)
    {
      var update, destroy := timerCHandler.Add(ct, chans);
      waiting := waiting[ct := Watch(txn, update, destroy)];
    }

    method CloseChan(c: nat)
      requires Valid()
      modifies this`panicked, chans`closed
      ensures Valid() && CallsView() == old(CallsView()) && TimersView() == Close(old(TimersView()), c)
    {
      if c in chans.closed {
        panicked := true;
      } else {
        chans.closed := chans.closed + {c};
      }
    }

    /** The binding of `ct` goes; `last` tells whether its server key has none left. */
    method Unbind(ct: ClientKey) returns (last: bool)
      requires Valid()
      modifies responseContexts
      ensures Valid() && last == LastBranch(old(CallsView()), ct)
      ensures CallsView() == Drop(old(CallsView()), ct) && TimersView() == old(TimersView())
    {
      var complete, found;
      complete, found, last := responseContexts.Remove(ct);
    }

    method ResponseContextCloser(txn: nat, ct: ClientKey, status: int)
      requires Valid()
      modifies this`handed, responseContexts
      ensures Valid() && CallsView() == CloseContext(old(CallsView()), txn, ct, status) && TimersView() == old(TimersView())
    {
      var deleteSt := Unbind(ct);
      if !deleteSt {
        return;
      }
      WriteMessage(txn, status);
    }

    method ForwardingResponse(txn: nat, status: int, hasVia: bool)
      requires Valid()
      modifies this`handed, this`dropped
      ensures Valid() && CallsView() == PassOn(old(CallsView()), txn, status, hasVia) && TimersView() == old(TimersView())
    {
      if !hasVia {
        if status >= 200 && txn < |dropped| {
          dropped := dropped[txn := dropped[txn] + 1];
        }
        return;
      }
      WriteMessage(txn, status);
    }

    // Requests

    method InviteRouted(routing: Routing) returns (status: int)
      ensures status == RouteStatus(routing)
    {
      match routing
      case NoUri => status := BAD_REQUEST;
      case BadScheme => status := UNSUPPORTED_URI_SCHEME;
      case NoRoute => status := NOT_FOUND;
      case Routed => status := 0;
    }

    /** `broken` when going through the Route values panics. */
    method GenerateForwardingRequest(maxForwards: int, hop: NextHop) returns (status: int, broken: bool)
      ensures broken <==> BreaksRoute(maxForwards, hop)
      ensures !broken ==> status == ForwardStatus(maxForwards, hop)
    {
      broken := false;
      if maxForwards - 1 <= 0 {
        return TOO_MANY_HOPS, false;
      }
      match hop
      case ByRouteHeader(route) =>
        if route.Broken? {
          return 0, true;
        }
        status := if route.Followed? then 0 else INTERNAL_ERROR;
      case ByRequestUri(routing) => status := InviteRouted(routing);
    }

    method InviteHandler(e: Event, txn: nat) returns (status: int)
      requires Valid() && !crashed && e.Invite? && e.ct !in responseContexts.ctToSt
      modifies this, responseContexts, timerCHandler, chans
      ensures Valid() && (crashed <==> !e.contactsOk || BreaksRoute(e.maxForwards, e.hop))
      ensures crashed || status == ForwardStatus(e.maxForwards, e.hop)
      ensures crashed || CallsView() == if status != 0 then Record(old(CallsView()), e.call, Entry(false, false, e.partiesOk))
                             else Branch(Record(old(CallsView()), e.call, Entry(true, false, e.partiesOk)), e.st, e.ct, e.call)
      ensures crashed || TimersView() == if status != 0 then old(TimersView()) else Start(old(TimersView()), txn, e.ct)
      ensures panicked == old(panicked) && blocked == old(blocked)
    {
      hide Record, Branch, Exact, ForwardStatus, BreaksRoute;
      status := 0;
      RecordTwice(CallsView(), e.st, e.ct, e.call, e.partiesOk);
      if !e.contactsOk {
        crashed := true;
        return;
      }
      RecordCall(e.call, Entry(false, false, e.partiesOk));
      var broken;
      status, broken := GenerateForwardingRequest(e.maxForwards, e.hop);
      if broken {
        crashed := true;
        return;
      }
      if status != 0 {
        return;
      }
      NewClientTransaction(e.st, e.ct, e.call);
      RecordCall(e.call, Entry(true, false, e.partiesOk));
      StartTimerC(txn, e.ct);
    }

    method NonInviteHandler(e: Event) returns (status: int)
      requires Valid() && !crashed && e.InDialog? && e.ct !in responseContexts.ctToSt
      modifies this, responseContexts
      ensures Valid() && TimersView() == old(TimersView())
      ensures crashed <==> e.call in old(callStates) && BreaksRoute(e.maxForwards, ByRouteHeader(e.route))
      ensures crashed || status == if e.call !in old(callStates) then NO_CALL_LEG else ForwardStatus(e.maxForwards, ByRouteHeader(e.route))
      ensures crashed || CallsView() == if status != 0 then old(CallsView()) else Branch(old(CallsView()), e.st, e.ct, e.call)
    {
      if e.call !in callStates {
        return NO_CALL_LEG;
      }
      var broken;
      status, broken := GenerateForwardingRequest(e.maxForwards, ByRouteHeader(e.route));
      if broken {
        crashed := true;
        return;
      }
      if status != 0 {
        return;
      }
      NewClientTransaction(e.st, e.ct, e.call);
    }

    /** Runs with the CANCEL's own transaction `txn` already in the server table. */
    method CancelHandler(e: Event, txn: nat) returns (status: int)
      requires Valid() && e.Cancel? && e.st in servers && !crashed
      modifies this`handed, this`cancels, this`crashed
      ensures Valid() && TimersView() == old(TimersView())
      ensures var c := old(CallsView());
              var cts := Branches(c.bindings, CancelTarget(e.st));
              if cts == {} then status == NO_CALL_LEG && !crashed && CallsView() == c
              else
                && status == 0
                && (crashed <==> CancelCrashes(c, e))
                && (!crashed ==> CancelTarget(e.st) in c.servers && CallsView() == Hand(c, txn, OK).(
                     cancels := c.cancels + CancelsFor(cts, e.last, c.servers[CancelTarget(e.st)])))
    {
      var lookupTxnKey := CancelTarget(e.st);
      var ctKeys := responseContexts.GetCtFromSt(lookupTxnKey);
      if ctKeys.None? {
        return NO_CALL_LEG;
      }
      WriteMessage(txn, OK);
      status := 0;
      var rest := ctKeys.value;
      ghost var done: set<ClientKey> := {};
      while rest != {}
        invariant done + rest == ctKeys.value
        invariant Valid() && !crashed && TimersView() == old(TimersView())
        invariant done <= clients
        invariant done != {} ==> e.cancelOk && lookupTxnKey in servers
        invariant CallsView() == Hand(old(CallsView()), txn, OK)
        decreases rest
      {
        var ctKey :| ctKey in rest;
        rest := rest - {ctKey};
        if ctKey !in clients || lookupTxnKey !in servers || !e.cancelOk {
          crashed := true;
          return;
        }
        done := done + {ctKey};
      }
      cancels := cancels + CancelsFor(ctKeys.value, e.last, servers[lookupTxnKey]);
    }

    /** A request whose key is not in the server table. */
    method RequestHandler(e: Event)
      requires Valid() && !Halted(View()) && IsRequest(e) && e.st !in servers
      requires e.Invite? || e.InDialog? ==> e.ct !in responseContexts.ctToSt
      modifies this, responseContexts, timerCHandler, chans
      ensures Valid() && Same(View(), Step(old(View()), e))
    {
      hide Step, BreaksRoute, Start, Branches, ForwardStatus, CancelsFor, CancelCrashes, Shut, Exact, Open, Hand, Branch, Record,
        Misprinted;
      match e {
        case Invite(_, _, _, _, _, _, _) => StepOnInvite(View(), e);
        case InDialog(_, _, _, _, _) => StepOnInDialog(View(), e);
        case Cancel(_, _, _, _) => StepOnCancel(View(), e);
        case Immediate(_, _, _, _) => StepOnImmediate(View(), e);
      }
      Opened(CallsView(), e.st, e.call);
      var txn := NewServerTransaction(e.st, e.call);
      MisprintedSame(old(CallsView()), CallsView());
      var status: int;
      match e {
        case Invite(_, _, _, _, _, _, _) => status := InviteHandler(e, txn);
        case InDialog(_, _, _, _, _) => status := NonInviteHandler(e);
        case Cancel(_, _, _, _) => status := CancelHandler(e, txn);
        case Immediate(_, _, answer, isError) =>
          status := 0;
          if isError {
            MakeErrorResponse(txn, answer, e.call);
          } else {
            WriteMessage(txn, answer);
          }
      }
      if !crashed && status != 0 {
        MakeErrorResponse(txn, status, e.call);
      }
    }

    /** An ACK that no transaction took; there is none to answer it in. */
    method AckHandler(e: Event)
      requires Valid() && !Halted(View()) && e.Ack?
      modifies this`crashed
      ensures Valid() && Same(View(), Step(old(View()), e))
    {
      if e.st in servers {
        return;
      }
      var status, broken := GenerateForwardingRequest(e.maxForwards, ByRouteHeader(e.route));
      if broken || status != 0 || !e.contactsOk {
        crashed := true;
      }
    }

    // Responses

    method ForwardRedirection(r: Redirect, st: ServerKey, txn: nat, call: string)
      requires Valid() && r.ct !in responseContexts.ctToSt && call in callStates && !crashed
      modifies this, responseContexts, timerCHandler, chans
      ensures Valid() && panicked == old(panicked) && blocked == old(blocked)
      ensures crashed <==> (r.contactOk && !old(callStates)[call].sent)
                           || (RedirectFails(r) && Misprinted(old(CallsView()), CallOfTxn(old(CallsView()), txn)))
      ensures !crashed ==>
                var n := Redirected(old(View()), st, txn, call, r);
                View() == n.(calls := n.calls.(callStates :=
                  Shut(old(callStates), if RedirectFails(r) then CallOfTxn(old(CallsView()), txn) else "")))
    {
      hide Shut, Start, Exact;
      var requestCall := if txn < |callIds| then callIds[txn] else "";
      if !r.contactOk {
        MakeErrorResponse(txn, NOT_FOUND, requestCall);
        return;
      }
      if !callStates[call].sent {
        crashed := true;
        return;
      }
      if r.maxForwards - 1 <= 0 {
        MakeErrorResponse(txn, TOO_MANY_HOPS, requestCall);
        return;
      }
      var status := InviteRouted(r.routing);
      if status != 0 {
        MakeErrorResponse(txn, status, requestCall);
        return;
      }
      ShutNone();
      NewClientTransaction(st, r.ct, call);
      StartTimerC(txn, r.ct);
    }

    /** The channels of Timer C, as a response of `status` moves them. */
    method MoveTimerC(ct: ClientKey, status: int)
      requires Valid() && !Halted(View())
      modifies this`panicked, this`blocked, chans`closed
      ensures Valid() && CallsView() == old(CallsView())
      ensures var t := old(TimersView());
              var n := if 100 < status < 200 then SendUpdate(t, ct) else if status >= 200 then StopBoth(t, ct) else t;
              TimersView() == n || (Halted(View()) && (n.panicked || n.blocked))
    {
      var timerC := timerCHandler.Get(ct);
      if timerC.None? {
        return;
      }
      if 100 < status < 200 {
        var update := timerC.value.0;
        if update in chans.closed {
          panicked := true;
        } else if !(ct in waiting && waiting[ct].update == update) {
          blocked := true;
        }
      } else if status >= 200 {
        CloseChan(timerC.value.1);
        if panicked { return; }
        CloseChan(timerC.value.0);
      }
    }

    method InviteResponseHandler(e: Event, st: ServerKey, txn: nat)
      requires Valid() && !Halted(View()) && e.Response? && e.redirect.ct !in responseContexts.ctToSt
      requires !Ignored(CallsView(), e) && OfInvite(e.ct) && st == responseContexts.ctToSt[e.ct] && txn == servers[st]
      modifies this, responseContexts, timerCHandler, chans
      ensures Valid() && Same(View(), Step(old(View()), e))
    {
      hide Step, PassOn, LastBranch, Exact, StopBoth, SendUpdate, Shut, RedirectFails, Redirected, Misprinted, CallOfTxn;
      StepOnInviteResponse(View(), e);
      MisprintedSame(CallsView(), Drop(CallsView(), e.ct));
      if e.status == TRYING {
        return;
      }
      MoveTimerC(e.ct, e.status);
      if panicked || blocked { return; }
      if e.status >= 200 {
        var last := Unbind(e.ct);
        if e.status < 300 {
          // recorded as established
          if !callStates[e.call].closed && !e.contactsOk {
            crashed := true;
            return;
          }
        } else if e.status < 400 {
          ForwardRedirection(e.redirect, st, txn, e.call);
          return;
        } else {
          CloseCall(e.call);
          if crashed { return; }
        }
      }
      ForwardingResponse(txn, e.status, e.hasVia);
    }

    method OtherResponseHandler(e: Event, txn: nat)
      requires Valid() && !Halted(View()) && e.Response? && !Ignored(CallsView(), e) && !OfInvite(e.ct)
      requires txn == servers[responseContexts.ctToSt[e.ct]]
      modifies this, responseContexts
      ensures Valid() && Same(View(), Step(old(View()), e))
    {
      hide PassOn, LastBranch, Exact, Shut;
      ShutNone();
      TableKept(Drop(CallsView(), e.ct), txn, e.status, e.hasVia, Shut(callStates, e.call));
      TableKept(CallsView(), txn, e.status, e.hasVia, Shut(callStates, e.call));
      if e.status == TRYING {
        return;
      } else if e.status >= 200 {
        var last := Unbind(e.ct);
        if e.ct.cseqMethod == "BYE" && e.status < 300 {
          CloseCall(e.call);
          if crashed { return; }
        }
      }
      ForwardingResponse(txn, e.status, e.hasVia);
    }

    method ResponseHandler(e: Event)
      requires Valid() && !Halted(View()) && e.Response? && e.redirect.ct !in responseContexts.ctToSt
      modifies this, responseContexts, timerCHandler, chans
      ensures Valid() && Same(View(), Step(old(View()), e))
    {
      hide OnInviteResponse, OnOtherResponse;
      ShutNone();
      if e.call !in callStates {
        return;
      }
      var srvTxnKey := responseContexts.GetStFromCt(e.ct);
      if srvTxnKey.None? || srvTxnKey.value !in servers {
        return;
      }
      var srvTxn := servers[srvTxnKey.value];
      if OfInvite(e.ct) {
        InviteResponseHandler(e, srvTxnKey.value, srvTxn);
      } else {
        OtherResponseHandler(e, srvTxn);
      }
    }

    // Failures and timers

    /** A client transaction ends with an error and calls back. */
    method ClientTransactionErrorHandler(e: Event)
      requires Valid() && !Halted(View()) && e.ClientFailed?
      modifies this, responseContexts, chans
      ensures Valid() && Same(View(), Step(old(View()), e))
    {
      hide Step, Hand, Exact, Shut, Close, Misprinted, LastBranch;
      StepOnFailure(View(), e);
      if e.ct !in clients {
        return;
      }
      clients := clients - {e.ct};
      var stKey := responseContexts.GetStFromCt(e.ct);
      if stKey.None? {
        return;
      }
      var timerC := timerCHandler.Get(e.ct);
      if timerC.Some? {
        CloseChan(timerC.value.1);
        if panicked { return; }
      }
      if stKey.value !in servers {
        crashed := true;
        return;
      }
      var srvTxn := servers[stKey.value];
      var removeSt := Unbind(e.ct);
      if removeSt {
        var status := if e.timedOut then REQUEST_TIMEOUT else INTERNAL_ERROR;
        MisprintedSame(old(CallsView()), CallsView());
        MakeErrorResponse(srvTxn, status, if srvTxn < |callIds| then callIds[srvTxn] else "");
      }
    }

    method FireTimerC(e: Event, txn: nat)
      requires Valid() && e.TimerCFires? && !crashed
      modifies this, responseContexts
      ensures Valid() && TimersView() == old(TimersView())
      ensures crashed <==> e.provisional && !e.cancelOk && e.ct !in old(clients)
      ensures var c := old(CallsView());
              crashed || CallsView() ==
                if e.provisional && e.cancelOk then c.(cancels := c.cancels + {PendingCancel(e.ct, e.ct, txn)})
                else if e.provisional then CloseContext(c.(clients := c.clients - {e.ct}), txn, e.ct, REQUEST_TIMEOUT)
                else CloseContext(c, txn, e.ct, REQUEST_TIMEOUT)
    {
      if e.provisional {
        if !e.cancelOk {
          if e.ct !in clients {
            crashed := true;
            return;
          }
          clients := clients - {e.ct};
          ResponseContextCloser(txn, e.ct, REQUEST_TIMEOUT);
          return;
        }
        cancels := cancels + {PendingCancel(e.ct, e.ct, txn)};
      } else {
        ResponseContextCloser(txn, e.ct, REQUEST_TIMEOUT);
      }
    }

    /** One turn of the Timer C goroutine of `e.ct`: the timer fires, or `destroy` is closed. */
    method TimerCTurn(e: Event)
      requires Valid() && !Halted(View()) && (e.TimerCFires? || e.TimerCStops?)
      modifies this, responseContexts, timerCHandler
      ensures Valid() && Same(View(), Step(old(View()), e))
    {
      if e.ct !in waiting {
        return;
      }
      if e.TimerCFires? {
        FireTimerC(e, waiting[e.ct].txn);
        if crashed { return; }
      } else if waiting[e.ct].destroy !in chans.closed {
        return;
      }
      var ok := timerCHandler.Remove(e.ct);
      waiting := waiting - {e.ct};
    }

    method CancelErrorHandler(e: Event)
      requires Valid() && !Halted(View()) && e.CancelFails?
      modifies this, responseContexts
      ensures Valid() && Same(View(), Step(old(View()), e))
    {
      var p := e.cancel;
      if p !in cancels {
        return;
      }
      cancels := cancels - {p};
      ResponseContextCloser(p.txn, p.aim, if e.timedOut then REQUEST_TIMEOUT else REQUEST_TERMINATED);
    }

    /** A transaction leaves its table, or the call table forgets a closed call. */
    method Delete(e: Event)
      requires Valid() && !Halted(View()) && (e.ClientGone? || e.ServerGone? || e.CallForgotten?)
      modifies this
      ensures Valid() && Same(View(), Step(old(View()), e))
    {
      if e.ClientGone? {
        clients := clients - {e.ct};
      } else if e.ServerGone? {
        servers := servers - {e.st};
      } else {
        callStates := callStates - {e.call};
      }
    }

    /** Any event, dispatched to its handler. */
    method Handle(e: Event)
      requires Valid() && !Halted(View())
      requires e.Invite? || e.InDialog? ==> e.ct !in responseContexts.ctToSt
      requires e.Response? ==> e.redirect.ct !in responseContexts.ctToSt
      modifies this, responseContexts, timerCHandler, chans
      ensures Valid() && Same(View(), Step(old(View()), e))
    {
      if IsRequest(e) {
        if e.st in servers {
          return;
        }
        RequestHandler(e);
      } else if e.Ack? {
        AckHandler(e);
      } else if e.Response? {
        ResponseHandler(e);
      } else if e.ClientFailed? {
        ClientTransactionErrorHandler(e);
      } else if e.CancelFails? {
        CancelErrorHandler(e);
      } else if e.TimerCFires? || e.TimerCStops? {
        TimerCTurn(e);
      } else {
        Delete(e);
      }
    }
  }

  /** The entry is made first and the sent request recorded in it at the end. */
  lemma RecordTwice(c: Calls, st: ServerKey, ct: ClientKey, call: string, partiesOk: bool)
    ensures Record(Branch(Record(c, call, Entry(false, false, partiesOk)), st, ct, call), call, Entry(true, false, partiesOk))
            == Branch(Record(c, call, Entry(true, false, partiesOk)), st, ct, call)
  {
    var e0, e1 := Entry(false, false, partiesOk), Entry(true, false, partiesOk);
    assert c.callStates[call := e0][call := e1] == c.callStates[call := e1];
  }

  lemma MisprintedSame(c: Calls, n: Calls)
    requires c.callStates == n.callStates
    ensures forall call :: Misprinted(c, call) == Misprinted(n, call)
    ensures c.callIds == n.callIds ==> forall txn :: CallOfTxn(c, txn) == CallOfTxn(n, txn)
  {
  }

  /** The tables once the request's own transaction is there. */
  function Begun(c: Calls, e: Event): Calls
    requires IsRequest(e)
  {
    Open(c, e.st).(callIds := c.callIds + [e.call])
  }

  lemma Opened(c: Calls, st: ServerKey, call: string)
    ensures var n := Open(c, st).(callIds := c.callIds + [call]);
            && n.callStates == c.callStates && n.bindings == c.bindings && n.clients == c.clients && n.cancels == c.cancels
            && n.servers == c.servers[st := |c.handed|]
  {
  }

  /** What a request comes to, seen from the tables with its own transaction. */
  lemma StepOnInvite(s: Core, e: Event)
    requires !Halted(s) && e.Invite? && !Absorbed(s.calls, e)
    ensures var n, txn, status := Step(s, e), |s.calls.handed|, ForwardStatus(e.maxForwards, e.hop);
            var r := Record(Begun(s.calls, e), e.call, Entry(status == 0, false, e.partiesOk));
            if !e.contactsOk || BreaksRoute(e.maxForwards, e.hop) || (status != 0 && Misprinted(r, e.call)) then Halted(n)
            else if status != 0 then n == s.(calls := Hand(r, txn, status).(callStates := Shut(r.callStates, e.call)))
            else n == Core(Branch(r, e.st, e.ct, e.call), Start(s.timers, txn, e.ct), false)
  {
    hide Start, Shut, BreaksRoute, ForwardStatus;
    ShutNone();
  }

  lemma StepOnInDialog(s: Core, e: Event)
    requires !Halted(s) && e.InDialog? && !Absorbed(s.calls, e)
    ensures var c, b, n, route := s.calls, Begun(s.calls, e), Step(s, e), ByRouteHeader(e.route);
            var status := if e.call !in c.callStates then NO_CALL_LEG else ForwardStatus(e.maxForwards, route);
            if (e.call in c.callStates && BreaksRoute(e.maxForwards, route)) || (status != 0 && Misprinted(c, e.call)) then Halted(n)
            else if status != 0 then n == s.(calls := Hand(b, |c.handed|, status).(callStates := Shut(c.callStates, e.call)))
            else n == s.(calls := Branch(b, e.st, e.ct, e.call))
  {
    hide Shut, BreaksRoute, ForwardStatus;
    ShutNone();
  }

  lemma StepOnImmediate(s: Core, e: Event)
    requires !Halted(s) && e.Immediate? && !Absorbed(s.calls, e)
    ensures var c, b, n := s.calls, Begun(s.calls, e), Step(s, e);
            if e.isError && Misprinted(c, e.call) then Halted(n)
            else n == s.(calls := Hand(b, |c.handed|, e.status).(callStates := if e.isError then Shut(c.callStates, e.call) else c.callStates))
  {
    hide Shut;
    ShutNone();
  }

  lemma StepOnCancel(s: Core, e: Event)
    requires !Halted(s) && e.Cancel? && !Absorbed(s.calls, e)
    ensures var c, b, n, txn, target := s.calls, Begun(s.calls, e), Step(s, e), |s.calls.handed|, CancelTarget(e.st);
            var cts := Branches(c.bindings, target);
            if cts == {} then
              if Misprinted(c, e.call) then Halted(n)
              else n == s.(calls := Hand(b, txn, NO_CALL_LEG).(callStates := Shut(c.callStates, e.call)))
            else if CancelCrashes(b, e) then Halted(n)
            else
              && target in b.servers
              && n == s.(calls := Hand(b, txn, OK).(cancels := c.cancels + CancelsFor(cts, e.last, b.servers[target])))
  {
    hide Shut, Branches, CancelsFor;
    ShutNone();
  }

  /** What a response to an INVITE comes to, by its status. */
  lemma StepOnInviteResponse(s: Core, e: Event)
    requires !Halted(s) && e.Response? && !Ignored(s.calls, e) && OfInvite(e.ct)
    ensures var c, n := s.calls, Step(s, e);
            var st, d, t := c.bindings[e.ct], Drop(c, e.ct), StopBoth(s.timers, e.ct);
            var txn := c.servers[st];
            var closed := if RedirectFails(e.redirect) then CallOfTxn(c, txn) else "";
            if e.status == TRYING then n == s
            else if e.status < 200 then
              n == Core(PassOn(c, txn, e.status, e.hasVia), if 100 < e.status then SendUpdate(s.timers, e.ct) else s.timers, false)
            else if e.status < 300 then
              if !c.callStates[e.call].closed && !e.contactsOk then Halted(n)
              else n == Core(PassOn(d, txn, e.status, e.hasVia), t, false)
            else if e.status < 400 then
              if (e.redirect.contactOk && !c.callStates[e.call].sent) || (RedirectFails(e.redirect) && Misprinted(c, CallOfTxn(c, txn))) then Halted(n)
              else
                var r := Redirected(Core(d, t, false), st, txn, e.call, e.redirect);
                n == r.(calls := r.calls.(callStates := Shut(c.callStates, closed)))
            else if Misprinted(c, e.call) then Halted(n)
            else n == Core(PassOn(d.(callStates := Shut(c.callStates, e.call)), txn, e.status, e.hasVia), t, false)
    ensures e.status >= 200 && (StopBoth(s.timers, e.ct).panicked || StopBoth(s.timers, e.ct).blocked) ==> Halted(Step(s, e))
  {
    hide PassOn, StopBoth, SendUpdate, Shut, RedirectFails, Redirected;
    var c := s.calls;
    var st, d, t := c.bindings[e.ct], Drop(c, e.ct), StopBoth(s.timers, e.ct);
    ShutNone();
    TableKept(d, c.servers[st], e.status, e.hasVia, Shut(c.callStates, e.call));
    TableKept(c, c.servers[st], e.status, e.hasVia, Shut(c.callStates, e.call));
    RedirectedTable(Core(d, t, false), st, c.servers[st], e.call, e.redirect);
    if !RedirectFails(e.redirect) { ContactMatters(e.redirect); }
  }

  lemma ContactMatters(r: Redirect)
    requires !RedirectFails(r)
    ensures r.contactOk
  {
  }

  /** What the failure of a client transaction comes to. */
  lemma StepOnFailure(s: Core, e: Event)
    requires !Halted(s) && e.ClientFailed?
    ensures var n, c := Step(s, e), s.calls.(clients := s.calls.clients - {e.ct});
            if e.ct !in s.calls.clients then n == s
            else if e.ct !in c.bindings then n == s.(calls := c)
            else
              var t, st := StopOne(s.timers, e.ct), c.bindings[e.ct];
              if st !in c.servers then Halted(n)
              else if !LastBranch(c, e.ct) then n == Core(Drop(c, e.ct), t, false)
              else
                var txn := c.servers[st];
                if Misprinted(s.calls, CallOfTxn(c, txn)) then Halted(n)
                else n == Core(Hand(Drop(c, e.ct), txn, if e.timedOut then REQUEST_TIMEOUT else INTERNAL_ERROR).(
                                 callStates := Shut(c.callStates, CallOfTxn(c, txn))), t, false)
  {
    hide Shut, StopOne, Hand;
    ShutNone();
    var c := s.calls.(clients := s.calls.clients - {e.ct});
    if e.ct in c.bindings && c.bindings[e.ct] in c.servers {
      var d := Drop(c, e.ct);
      HandTable(d, c.servers[c.bindings[e.ct]], if e.timedOut then REQUEST_TIMEOUT else INTERNAL_ERROR);
    }
  }

  /** Handing on a response and the call table have nothing to do with each other. */
  lemma TableKept(c: Calls, txn: nat, status: int, hasVia: bool, states: map<string, Entry>)
    ensures PassOn(c, txn, status, hasVia).callStates == c.callStates
    ensures PassOn(c.(callStates := states), txn, status, hasVia) == PassOn(c, txn, status, hasVia).(callStates := states)
    ensures PassOn(c, txn, status, hasVia).callIds == c.callIds
  {
    hide Hand;
    HandTable(c, txn, status);
    HandMoves(c, txn, status, states);
  }

  lemma HandTable(c: Calls, txn: nat, status: int)
    ensures Hand(c, txn, status).callStates == c.callStates && Hand(c, txn, status).callIds == c.callIds
  {
  }

  lemma HandMoves(c: Calls, txn: nat, status: int, states: map<string, Entry>)
    ensures Hand(c.(callStates := states), txn, status) == Hand(c, txn, status).(callStates := states)
  {
  }

  lemma RedirectedTable(s: Core, st: ServerKey, txn: nat, call: string, r: Redirect)
    ensures var n := Redirected(s, st, txn, call, r);
            n.calls.callStates == s.calls.callStates && n.calls.callIds == s.calls.callIds && (Halted(s) ==> Halted(n))
  {
    hide Hand, RouteStatus;
    HandTable(s.calls, txn, NOT_FOUND);
    HandTable(s.calls, txn, TOO_MANY_HOPS);
    HandTable(s.calls, txn, RouteStatus(r.routing));
  }

  lemma ShutNone()
    ensures forall states :: Shut(states, "") == states
    ensures forall states, call :: call !in states ==> Shut(states, call) == states
  {
  }

  /** Two states agree, or the program has stopped in both. */
  ghost predicate Same(a: Core, b: Core) {
    a == b || (Halted(a) && Halted(b))
  }

  lemma StartOfRun(es: seq<Event>)
    ensures Run(Init, es[..0]) == Init && !Halted(Init)
  {
  }

  /** The next event of a conforming run is one `Handle` takes, and it does not halt. */
  lemma NextEvent(es: seq<Event>, i: nat)
    requires ProxyRuns.ConformingRun(es) && i < |es|
    ensures var s, e := Run(Init, es[..i]), es[i];
            && !Halted(Step(s, e)) && Run(Init, es[..i + 1]) == Step(s, e)
            && (e.Invite? || e.InDialog? ==> e.ct !in s.calls.bindings)
            && (e.Response? ==> e.redirect.ct !in s.calls.bindings)
  {
    hide Step, Halted, ProxySafety.Good, ProxyRuns.Served, ProxyRuns.TimersOk;
    ProxyRuns.ConformingPrefix(es, i);
    ProxyRuns.ConformingPrefix(es, i + 1);
    ProxyRuns.ConformingRunSafe(es[..i]);
    ProxyRuns.ConformingRunSafe(es[..i + 1]);
    assert es[..i + 1] == es[..i] + [es[i]];
    ProxyRuns.RunAppend(es[..i], es[i]);
    assert ProxyRuns.Conforming(Run(Init, es[..i]), es[i]);
  }

  /** The handlers, fed one event after the other: the object's state is the run's state at
      every point, so no transaction is answered twice and no handler meets a panic
      of `ProxyCore.Panics`. */
  method Serve(es: seq<Event>) returns (p: Proxy)
    requires ProxyRuns.ConformingRun(es)
    ensures p.Valid() && p.View() == Run(Init, es) && !Halted(p.View())
    ensures forall txn :: 0 <= txn < |p.handed| ==>
              ProxySafety.ProvisionalsThenFinal(p.handed[txn]) && ProxySafety.Finals(p.handed[txn]) <= 1
  {
    hide Step, Run, ProxyRuns.ConformingRun, ProxySafety.ProvisionalsThenFinal, ProxySafety.Finals;
    p := new Proxy();
    StartOfRun(es);
    for i := 0 to |es|
      invariant p.Valid() && fresh(p) && fresh(p.responseContexts) && fresh(p.timerCHandler) && fresh(p.chans)
      invariant p.View() == Run(Init, es[..i]) && !Halted(p.View())
    {
      NextEvent(es, i);
      p.Handle(es[i]);
    }
    assert es[..|es|] == es;
    ProxyRuns.AnsweredAtMostOnce(es);
  }
}
