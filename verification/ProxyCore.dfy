/** The proxy core as a state machine (proxy_core.go, proxy_request_controller.go,
    proxy_response_controller.go, and the call table of proxy_server.go).  One step is one handler run to its end: an
    incoming request or response, a client transaction's error callback, a firing
    or a stopping of Timer C, or a transaction leaving its table.  `Proxy` in
    Proxy.dfy is the imperative form; its handlers refine `Step`. */
module ProxyCore {
  import opened ResponseContexts

  const OK := 200
  const BAD_REQUEST := 400
  const NOT_FOUND := 404
  const REQUEST_TIMEOUT := 408
  const UNSUPPORTED_URI_SCHEME := 416
  const NO_CALL_LEG := 481
  const TOO_MANY_HOPS := 483
  const REQUEST_TERMINATED := 487
  const INTERNAL_ERROR := 500
  const TRYING := 100

  /** What the route lookup says about a request URI. */
  datatype Routing = NoUri | BadScheme | NoRoute | Routed

  /** What becomes of the Route values: they are followed, the second one has no URI, or
      going through them panics, as the second one has no address or a later one that is
      kept cannot be printed. */
  datatype Route = Followed | NoNext | Broken

  /** How a request that is to be forwarded picks its next hop. */
  datatype NextHop = ByRequestUri(routing: Routing) | ByRouteHeader(route: Route)

  /** What `forwardRedirection` needs to know about a 3xx response and the request sent last. */
  datatype Redirect = Redirect(contactOk: bool, maxForwards: int, routing: Routing, ct: ClientKey)

  /** `contactsOk` and `partiesOk` tell whether every Contact value, and whether From and To,
      can be printed.  `isError` tells whether a request answered on the spot is answered by
      `makeErrorResponse`.  `last` is the branch that the loop of a CANCEL comes to last. */
  datatype Event =
    | Invite(st: ServerKey, call: string, maxForwards: int, hop: NextHop, ct: ClientKey, contactsOk: bool, partiesOk: bool)
    | InDialog(st: ServerKey, call: string, maxForwards: int, route: Route, ct: ClientKey)
    | Immediate(st: ServerKey, call: string, status: int, isError: bool)
    | Cancel(st: ServerKey, call: string, cancelOk: bool, last: ClientKey)
    | Ack(st: ServerKey, maxForwards: int, route: Route, contactsOk: bool)
    | Response(ct: ClientKey, call: string, status: int, hasVia: bool, contactsOk: bool, redirect: Redirect)
    | ClientFailed(ct: ClientKey, timedOut: bool)
    | ClientGone(ct: ClientKey)
    | TimerCFires(ct: ClientKey, provisional: bool, cancelOk: bool)
    | TimerCStops(ct: ClientKey)
    | CancelFails(cancel: PendingCancel, timedOut: bool)
    | ServerGone(st: ServerKey)
    | CallForgotten(call: string)

  /** A Timer C goroutine: the server transaction it answers and its two channels. */
  datatype Watch = Watch(txn: nat, update: nat, destroy: nat)

  /** A CANCEL transaction for the branch `ct` whose failure callback is still pending; the
      callback takes away the branch `aim`. */
  datatype PendingCancel = PendingCancel(ct: ClientKey, aim: ClientKey, txn: nat)

  /** What is known of a call: whether a request sent for it is recorded, whether it was
      closed, and whether its From and To can be printed. */
  datatype Entry = Entry(sent: bool, closed: bool, prints: bool)

  /** What each channel made so far was made for; its index is the channel. */
  datatype ChanUse = UpdateOf(ct: ClientKey) | DestroyOf(ct: ClientKey)

  /** Server transactions are numbered in order of creation; `keys[i]` is the key of
      transaction `i`, `callIds[i]` the Call-ID of its request, and `handed[i]` lists the
      response statuses written to it.  `callStates` has an entry for every Call-ID that is
      known.  `latest`, `used`, `callOf` and `dropped` are
      history: the newest transaction of a key, every client key made so far, the Call-ID
      of every forwarded request, and how many final responses were consumed without being
      written because no Via was left to send them to. */
  datatype Calls = Calls(
    bindings: map<ClientKey, ServerKey>,
    latest: map<ServerKey, nat>,
    servers: map<ServerKey, nat>,
    clients: set<ClientKey>,
    cancels: set<PendingCancel>,
    callStates: map<string, Entry>,
    used: set<ClientKey>,
    callOf: map<ClientKey, string>,
    keys: seq<ServerKey>,
    callIds: seq<string>,
    handed: seq<seq<int>>,
    dropped: seq<nat>)

  datatype Timers = Timers(
    update: map<ClientKey, nat>,
    destroy: map<ClientKey, nat>,
    waiting: map<ClientKey, Watch>,
    closed: set<nat>,
    made: seq<ChanUse>,
    panicked: bool,
    blocked: bool)

  datatype Core = Core(calls: Calls, timers: Timers, crashed: bool)

  const Init := Core(Calls(map[], map[], map[], {}, {}, map[], {}, map[], [], [], [], []),
                     Timers(map[], map[], map[], {}, [], false, false), false)

  predicate Halted(s: Core) {
    s.crashed || s.timers.panicked || s.timers.blocked
  }

  // Building blocks of the handlers

  function RouteStatus(routing: Routing): int {
    match routing
    case NoUri => BAD_REQUEST
    case BadScheme => UNSUPPORTED_URI_SCHEME
    case NoRoute => NOT_FOUND
    case Routed => 0
  }

  /** The error status of a request that is not forwarded, or 0. */
  function ForwardStatus(maxForwards: int, hop: NextHop): int {
    if maxForwards - 1 <= 0 then TOO_MANY_HOPS
    else match hop
      case ByRouteHeader(route) => if route.Followed? then 0 else INTERNAL_ERROR
      case ByRequestUri(routing) => RouteStatus(routing)
  }

  function Open(c: Calls, st: ServerKey): Calls {
    c.(servers := c.servers[st := |c.handed|], latest := c.latest[st := |c.handed|],
       keys := c.keys + [st], handed := c.handed + [[]], dropped := c.dropped + [0])
  }

  function Hand(c: Calls, txn: nat, status: int): Calls {
    if txn < |c.handed| then c.(handed := c.handed[txn := c.handed[txn] + [status]]) else c
  }

  function Drop(c: Calls, ct: ClientKey): Calls {
    c.(bindings := c.bindings - {ct})
  }

  /** Whether `ct` is the only branch left of its server key. */
  predicate LastBranch(c: Calls, ct: ClientKey) {
    ct in c.bindings && Branches(c.bindings - {ct}, c.bindings[ct]) == {}
  }

  function Branch(c: Calls, st: ServerKey, ct: ClientKey, call: string): Calls {
    c.(bindings := c.bindings[ct := st], clients := c.clients + {ct}, used := c.used + {ct}, callOf := c.callOf[ct := call])
  }

  /** The call table's entry for `call`; there is none without a Call-ID. */
  function Record(c: Calls, call: string, entry: Entry): Calls {
    if call == "" then c else c.(callStates := c.callStates[call := entry])
  }

  /** The entry of `call`, if there is one, is closed. */
  function Shut(states: map<string, Entry>, call: string): map<string, Entry> {
    if call != "" && call in states then states[call := states[call].(closed := true)] else states
  }

  /** `responseContextCloser`: whoever removes the last branch answers. */
  function CloseContext(c: Calls, txn: nat, ct: ClientKey, status: int): Calls {
    if LastBranch(c, ct) then Hand(Drop(c, ct), txn, status) else Drop(c, ct)
  }

  /** `forwardingResponse`: hand on the copy unless no Via is left under our own. */
  function PassOn(c: Calls, txn: nat, status: int, hasVia: bool): Calls {
    if hasVia then Hand(c, txn, status)
    else if status >= 200 && txn < |c.dropped| then c.(dropped := c.dropped[txn := c.dropped[txn] + 1])
    else c
  }

  // Timer C

  function Start(t: Timers, txn: nat, ct: ClientKey): Timers {
    var n := |t.made|;
    t.(update := t.update[ct := n], destroy := t.destroy[ct := n + 1],
       waiting := t.waiting[ct := Watch(txn, n, n + 1)],
       made := t.made + [UpdateOf(ct), DestroyOf(ct)])
  }

  /** The goroutine for `ct` takes its entries out of the tables and ends. */
  function End(t: Timers, ct: ClientKey): Timers {
    t.(update := t.update - {ct}, destroy := t.destroy - {ct}, waiting := t.waiting - {ct})
  }

  /** Closing a channel twice is a run-time panic. */
  function Close(t: Timers, c: nat): Timers {
    if c in t.closed then t.(panicked := true) else t.(closed := t.closed + {c})
  }

  predicate HasTimer(t: Timers, ct: ClientKey) {
    ct in t.update && ct in t.destroy
  }

  /** Sending on a closed channel is a panic; without a receiver it blocks for ever. */
  function SendUpdate(t: Timers, ct: ClientKey): Timers {
    if !HasTimer(t, ct) then t
    else if t.update[ct] in t.closed then t.(panicked := true)
    else if ct in t.waiting && t.waiting[ct].update == t.update[ct] then t
    else t.(blocked := true)
  }

  /** A final response stops the goroutine and closes both channels. */
  function StopBoth(t: Timers, ct: ClientKey): Timers {
    if HasTimer(t, ct) then Close(Close(t, t.destroy[ct]), t.update[ct]) else t
  }

  /** A failed client transaction only closes `destroy`. */
  function StopOne(t: Timers, ct: ClientKey): Timers {
    if HasTimer(t, ct) then Close(t, t.destroy[ct]) else t
  }

  // The handlers

  /** The call's old entry is replaced before it is known whether the INVITE can be
      forwarded. */
  function OnInvite(s: Core, e: Event): Core
    requires e.Invite?
  {
    var status, txn := ForwardStatus(e.maxForwards, e.hop), |s.calls.handed|;
    var c := Open(Record(s.calls, e.call, Entry(status == 0, false, e.partiesOk)), e.st);
    if status != 0 then s.(calls := Hand(c, txn, status))
    else s.(calls := Branch(c, e.st, e.ct, e.call), timers := Start(s.timers, txn, e.ct))
  }

  function OnInDialog(c: Calls, e: Event): Calls
    requires e.InDialog?
  {
    var c1, txn := Open(c, e.st), |c.handed|;
    if e.call !in c.callStates then Hand(c1, txn, NO_CALL_LEG)
    else
      var status := ForwardStatus(e.maxForwards, ByRouteHeader(e.route));
      if status != 0 then Hand(c1, txn, status) else Branch(c1, e.st, e.ct, e.call)
  }

  /** The key of the INVITE that a CANCEL with key `st` is about. */
  function CancelTarget(st: ServerKey): ServerKey {
    st.(reqMethod := "INVITE")
  }

  /** A CANCEL finds the branches of the INVITE it names.  It panics when one of their
      client transactions, or the INVITE's server transaction, is gone. */
  predicate CancelCrashes(c: Calls, e: Event)
    requires e.Cancel?
  {
    var cts := Branches(c.bindings, CancelTarget(e.st));
    cts != {} && (!e.cancelOk || !(cts <= c.clients) || (CancelTarget(e.st) !in c.servers && CancelTarget(e.st) != e.st))
  }

  function OnCancel(s: Core, e: Event): Core
    requires e.Cancel?
  {
    var c, txn := Open(s.calls, e.st), |s.calls.handed|;
    var cts := Branches(s.calls.bindings, CancelTarget(e.st));
    if CancelCrashes(s.calls, e) then s.(crashed := true)
    else if cts == {} then s.(calls := Hand(c, txn, NO_CALL_LEG))
    else s.(calls := Hand(c, txn, OK).(
        cancels := c.cancels + CancelsFor(cts, e.last, c.servers[CancelTarget(e.st)])))
  }

  /** All callbacks of one CANCEL share the variable of the loop, which ends at `last`. */
  function CancelsFor(cts: set<ClientKey>, last: ClientKey, txn: nat): set<PendingCancel> {
    set ct | ct in cts :: PendingCancel(ct, if last in cts then last else ct, txn)
  }

  /** An ACK that no transaction takes is forwarded without one.  If it cannot be, the
      error goes to a server transaction that is not there. */
  predicate AckCrashes(c: Calls, e: Event)
    requires e.Ack?
  {
    e.st !in c.servers && ForwardStatus(e.maxForwards, ByRouteHeader(e.route)) != 0
  }

  /** A redirection clones the request sent last.  There is none when the last INVITE with
      this Call-ID could not be forwarded. */
  predicate RedirectCrashes(c: Calls, e: Event)
    requires e.Response?
  {
    300 <= e.status < 400 && e.redirect.contactOk && e.call in c.callStates && !c.callStates[e.call].sent
  }

  function Redirected(s: Core, st: ServerKey, txn: nat, call: string, r: Redirect): Core {
    if !r.contactOk then s.(calls := Hand(s.calls, txn, NOT_FOUND))
    else if r.maxForwards - 1 <= 0 then s.(calls := Hand(s.calls, txn, TOO_MANY_HOPS))
    else if RouteStatus(r.routing) != 0 then s.(calls := Hand(s.calls, txn, RouteStatus(r.routing)))
    else s.(calls := Branch(s.calls, st, r.ct, call), timers := Start(s.timers, txn, r.ct))
  }

  function OnInviteResponse(s: Core, e: Event, st: ServerKey, txn: nat): Core
    requires e.Response?
  {
    if e.status == TRYING then s
    else if 100 < e.status < 200 then
      Core(PassOn(s.calls, txn, e.status, e.hasVia), SendUpdate(s.timers, e.ct), s.crashed)
    else if RedirectCrashes(s.calls, e) then s.(crashed := true)
    else if e.status >= 200 then
      var s1 := Core(Drop(s.calls, e.ct), StopBoth(s.timers, e.ct), s.crashed);
      if 300 <= e.status < 400 then Redirected(s1, st, txn, e.call, e.redirect)
      else s1.(calls := PassOn(s1.calls, txn, e.status, e.hasVia))
    else s.(calls := PassOn(s.calls, txn, e.status, e.hasVia))
  }

  function OnOtherResponse(c: Calls, e: Event, txn: nat): Calls
    requires e.Response?
  {
    if e.status == TRYING then c
    else PassOn(if e.status >= 200 then Drop(c, e.ct) else c, txn, e.status, e.hasVia)
  }

  /** Responses for unknown calls, unbound branches or vanished server transactions
      are ignored. */
  predicate Ignored(c: Calls, e: Event)
    requires e.Response?
  {
    e.call !in c.callStates || e.ct !in c.bindings || c.bindings[e.ct] !in c.servers
  }

  /** The method of the CSeq header, which is part of the key, picks the handler. */
  predicate OfInvite(ct: ClientKey) {
    ct.cseqMethod == "INVITE"
  }

  function OnResponse(s: Core, e: Event): Core
    requires e.Response?
  {
    if Ignored(s.calls, e) then s
    else
      var st := s.calls.bindings[e.ct];
      var txn := s.calls.servers[st];
      if OfInvite(e.ct) then OnInviteResponse(s, e, st, txn)
      else s.(calls := OnOtherResponse(s.calls, e, txn))
  }

  function OnClientFailed(s: Core, e: Event): Core
    requires e.ClientFailed?
  {
    var c := s.calls.(clients := s.calls.clients - {e.ct});
    if e.ct !in s.calls.clients then s
    else if e.ct !in c.bindings then s.(calls := c)
    else
      var t, st := StopOne(s.timers, e.ct), c.bindings[e.ct];
      if st !in c.servers then Core(c, t, true)
      else
        var status := if e.timedOut then REQUEST_TIMEOUT else INTERNAL_ERROR;
        Core(CloseContext(c, c.servers[st], e.ct, status), t, s.crashed)
  }

  /** Without a CANCEL the client transaction is destroyed; once gone it has no channel
      left to close. */
  predicate DestroyCrashes(s: Core, e: Event)
    requires e.TimerCFires?
  {
    e.ct in s.timers.waiting && e.provisional && !e.cancelOk && e.ct !in s.calls.clients
  }

  function OnTimerC(s: Core, e: Event): Core
    requires e.TimerCFires?
  {
    if e.ct !in s.timers.waiting then s
    else if DestroyCrashes(s, e) then s.(crashed := true)
    else
      var c, txn := s.calls, s.timers.waiting[e.ct].txn;
      var c1 :=
        if e.provisional && e.cancelOk then c.(cancels := c.cancels + {PendingCancel(e.ct, e.ct, txn)})
        else if e.provisional then CloseContext(c.(clients := c.clients - {e.ct}), txn, e.ct, REQUEST_TIMEOUT)
        else CloseContext(c, txn, e.ct, REQUEST_TIMEOUT);
      Core(c1, End(s.timers, e.ct), s.crashed)
  }

  function OnCancelFails(c: Calls, e: Event): Calls
    requires e.CancelFails?
  {
    var p := e.cancel;
    if p !in c.cancels then c
    else CloseContext(c.(cancels := c.cancels - {p}), p.txn, p.aim,
                      if e.timedOut then REQUEST_TIMEOUT else REQUEST_TERMINATED)
  }

  predicate IsRequest(e: Event) {
    e.Invite? || e.InDialog? || e.Immediate? || e.Cancel?
  }

  /** A request whose key is still in the server table is absorbed by the transaction
      layer and never reaches the handlers. */
  predicate Absorbed(c: Calls, e: Event) {
    IsRequest(e) && e.st in c.servers
  }

  /** What the handler of an event does to contexts, transactions and channels. */
  function Handled(s: Core, e: Event): Core {
    match e
    case Invite(_, _, _, _, _, _, _) => OnInvite(s, e)
    case InDialog(_, _, _, _, _) => s.(calls := OnInDialog(s.calls, e))
    case Immediate(st, _, status, _) => s.(calls := Hand(Open(s.calls, st), |s.calls.handed|, status))
    case Cancel(_, _, _, _) => OnCancel(s, e)
    case Ack(_, _, _, _) => s.(crashed := AckCrashes(s.calls, e))
    case Response(_, _, _, _, _, _) => OnResponse(s, e)
    case ClientFailed(_, _) => OnClientFailed(s, e)
    case ClientGone(ct) => s.(calls := s.calls.(clients := s.calls.clients - {ct}))
    case TimerCFires(_, _, _) => OnTimerC(s, e)
    case TimerCStops(ct) =>
      if ct in s.timers.waiting && s.timers.waiting[ct].destroy in s.timers.closed
      then s.(timers := End(s.timers, ct)) else s
    case CancelFails(_, _) => s.(calls := OnCancelFails(s.calls, e))
    case ServerGone(st) => s.(calls := s.calls.(servers := s.calls.servers - {st}))
    case CallForgotten(call) => s.(calls := s.calls.(callStates := s.calls.callStates - {call}))
  }

  // Call records

  function CallOfTxn(c: Calls, txn: nat): string {
    if txn < |c.callIds| then c.callIds[txn] else ""
  }

  /** Whether the redirection of a call is answered instead. */
  predicate RedirectFails(r: Redirect) {
    !r.contactOk || r.maxForwards - 1 <= 0 || RouteStatus(r.routing) != 0
  }

  /** The Call-ID whose entry the handler closes, or none: `makeErrorResponse` closes that of
      the request, a failing INVITE response and a successful BYE response their own. */
  function Closes(c: Calls, e: Event): string {
    match e
    case Invite(_, call, maxForwards, hop, _, _, _) => if ForwardStatus(maxForwards, hop) != 0 then call else ""
    case InDialog(_, call, maxForwards, route, _) =>
      if call in c.callStates && ForwardStatus(maxForwards, ByRouteHeader(route)) != 0 then call else ""
    case Immediate(_, call, _, isError) => if isError then call else ""
    case Cancel(st, call, _, _) => if Branches(c.bindings, CancelTarget(st)) == {} then call else ""
    case Response(ct, call, status, _, _, redirect) =>
      if Ignored(c, e) then ""
      else if OfInvite(ct) then
        if status >= 400 then call
        else if 300 <= status && RedirectFails(redirect) then CallOfTxn(c, c.servers[c.bindings[ct]])
        else ""
      else if ct.cseqMethod == "BYE" && 200 <= status < 300 then call
      else ""
    case ClientFailed(ct, _) =>
      if ct in c.clients && LastBranch(c, ct) && c.bindings[ct] in c.servers then CallOfTxn(c, c.servers[c.bindings[ct]]) else ""
    case _ => ""
  }

  predicate BreaksRoute(maxForwards: int, hop: NextHop) {
    maxForwards - 1 > 0 && hop.ByRouteHeader? && hop.route.Broken?
  }

  /** Whether the handler prints what cannot be printed: a Contact when it records a caller or
      an answer or forwards an ACK, a Route value, or From and To when it closes an entry. */
  predicate Misprints(c: Calls, e: Event) {
    match e
    case Invite(_, call, maxForwards, hop, _, contactsOk, partiesOk) =>
      !contactsOk || BreaksRoute(maxForwards, hop) || (Closes(c, e) != "" && !partiesOk)
    case InDialog(_, call, maxForwards, route, _) =>
      (call in c.callStates && BreaksRoute(maxForwards, ByRouteHeader(route))) || Misprinted(c, Closes(c, e))
    case Ack(st, maxForwards, route, contactsOk) =>
      st !in c.servers && (BreaksRoute(maxForwards, ByRouteHeader(route)) || (!contactsOk && !AckCrashes(c, e)))
    case Response(ct, call, status, _, contactsOk, _) =>
      || (!Ignored(c, e) && OfInvite(ct) && 200 <= status < 300 && !c.callStates[call].closed && !contactsOk)
      || Misprinted(c, Closes(c, e))
    case _ => Misprinted(c, Closes(c, e))
  }

  predicate Misprinted(c: Calls, call: string) {
    call != "" && call in c.callStates && !c.callStates[call].prints
  }

  /** The new state with the call's entry closed and the Call-ID of a new transaction noted. */
  function Noted(c: Calls, e: Event, n: Core): Core {
    n.(calls := n.calls.(callStates := Shut(n.calls.callStates, Closes(c, e)),
                         callIds := if IsRequest(e) then c.callIds + [e.call] else c.callIds))
  }

  function Step(s: Core, e: Event): Core {
    if Halted(s) || Absorbed(s.calls, e) then s
    else if Misprints(s.calls, e) then s.(crashed := true)
    else Noted(s.calls, e, Handled(s, e))
  }

  /** Whether the handler uses something that is not there: a transaction that left its
      table, the request of a call that was never sent, the transaction of an ACK, or a
      channel of a client transaction that is gone. */
  predicate Misses(s: Core, e: Event) {
    var c := s.calls;
    || (e.Cancel? && CancelCrashes(c, e))
    || (e.ClientFailed? && e.ct in c.clients && e.ct in c.bindings && c.bindings[e.ct] !in c.servers)
    || (e.Response? && !Ignored(c, e) && OfInvite(e.ct) && RedirectCrashes(c, e))
    || (e.Ack? && AckCrashes(c, e))
    || (e.TimerCFires? && DestroyCrashes(s, e))
  }

  predicate Panics(s: Core, e: Event) {
    !Absorbed(s.calls, e) && (Misses(s, e) || Misprints(s.calls, e))
  }

  function Run(s: Core, es: seq<Event>): Core {
    if es == [] then s else Step(Run(s, es[..|es|-1]), es[|es|-1])
  }
}
