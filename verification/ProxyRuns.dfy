/** Timer C and whole runs of the proxy core: the tables stay consistent, no channel is
    misused, handlers panic exactly where `Panics` says, and every server transaction is
    answered at most once. */
module ProxyRuns {
  import opened ResponseContexts
  import opened ProxyCore
  import opened ProxySafety

  /** Both channel tables and the goroutines have the same keys, every channel was made
      for its one use, and a closed `destroy` belongs to a client key no longer bound. */
  ghost predicate TimersOk(t: Timers, bound: set<ClientKey>) {
    && t.update.Keys == t.destroy.Keys == t.waiting.Keys
    && (forall ct :: ct in t.waiting ==> ChannelsOk(t, ct, bound))
    && (forall ch :: ch in t.closed ==> ch < |t.made|)
  }

  ghost predicate ChannelsOk(t: Timers, ct: ClientKey, bound: set<ClientKey>)
    requires ct in t.waiting && ct in t.update && ct in t.destroy
  {
    && t.waiting[ct].update == t.update[ct] < |t.made| && t.made[t.update[ct]] == UpdateOf(ct)
    && t.waiting[ct].destroy == t.destroy[ct] < |t.made| && t.made[t.destroy[ct]] == DestroyOf(ct)
    && (t.update[ct] in t.closed ==> t.destroy[ct] in t.closed)
    && (t.destroy[ct] in t.closed ==> ct !in bound)
  }

  ghost predicate CTimersOk(s: Core) {
    && TimersOk(s.timers, s.calls.bindings.Keys)
    && s.calls.bindings.Keys <= s.calls.used
    && s.timers.waiting.Keys <= s.calls.used
  }

  lemma FewerBound(t: Timers, bound: set<ClientKey>, fewer: set<ClientKey>)
    requires TimersOk(t, bound) && fewer <= bound
    ensures TimersOk(t, fewer)
  {
  }

  lemma OneMoreBound(t: Timers, bound: set<ClientKey>, ct: ClientKey)
    requires TimersOk(t, bound) && ct !in t.waiting
    ensures TimersOk(t, bound + {ct})
  {
  }

  lemma Started(t: Timers, bound: set<ClientKey>, txn: nat, ct: ClientKey)
    requires TimersOk(t, bound) && ct !in t.waiting
    ensures TimersOk(Start(t, txn, ct), bound + {ct})
    ensures Start(t, txn, ct).waiting.Keys == t.waiting.Keys + {ct}
    ensures Start(t, txn, ct).panicked == t.panicked && Start(t, txn, ct).blocked == t.blocked
  {
    var n := Start(t, txn, ct);
    assert n.update.Keys == t.update.Keys + {ct};
    assert n.destroy.Keys == t.destroy.Keys + {ct};
    forall k | k in n.waiting ensures ChannelsOk(n, k, bound + {ct}) {
      if k != ct { assert ChannelsOk(t, k, bound); }
    }
  }

  lemma Ended(t: Timers, bound: set<ClientKey>, ct: ClientKey)
    requires TimersOk(t, bound)
    ensures TimersOk(End(t, ct), bound) && End(t, ct).waiting.Keys <= t.waiting.Keys
    ensures End(t, ct).panicked == t.panicked && End(t, ct).blocked == t.blocked
  {
  }

  /** Closing one or both channels of a bound client key, which loses its binding in the
      same step, never closes a channel twice. */
  lemma Stopped(t: Timers, bound: set<ClientKey>, ct: ClientKey)
    requires TimersOk(t, bound) && ct in bound
    ensures TimersOk(StopBoth(t, ct), bound - {ct}) && StopBoth(t, ct).panicked == t.panicked
    ensures TimersOk(StopOne(t, ct), bound - {ct}) && StopOne(t, ct).panicked == t.panicked
    ensures StopOne(t, ct).waiting == StopBoth(t, ct).waiting == t.waiting
    ensures StopOne(t, ct).blocked == StopBoth(t, ct).blocked == t.blocked
  {
    if HasTimer(t, ct) {
      var one, both := StopOne(t, ct), StopBoth(t, ct);
      assert ChannelsOk(t, ct, bound);
      forall k | k in t.waiting ensures ChannelsOk(one, k, bound - {ct}) && ChannelsOk(both, k, bound - {ct}) {
        assert ChannelsOk(t, k, bound);
      }
    } else {
      FewerBound(t, bound, bound - {ct});
    }
  }

  lemma CloseContextBound(c: Calls, txn: nat, ct: ClientKey, status: int)
    ensures CloseContext(c, txn, ct, status).bindings == c.bindings - {ct}
    ensures CloseContext(c, txn, ct, status).used == c.used
    ensures CloseContext(c, txn, ct, status).servers == c.servers
    ensures CloseContext(c, txn, ct, status).clients == c.clients
  {
  }

  /** `n` keeps the tables consistent and adds no panic, failure or wait to those of `s`. */
  ghost predicate SafeAfter(s: Core, n: Core) {
    && CTimersOk(n) && n.crashed == s.crashed
    && n.timers.panicked == s.timers.panicked && n.timers.blocked == s.timers.blocked
  }

  lemma TimersResponse(s: Core, e: Event)
    requires CTimersOk(s) && Fresh(s, e) && e.Response? && !Misses(s, e)
    ensures SafeAfter(s, OnResponse(s, e))
  {
    hide CTimersOk, PassOn, StopBoth, SendUpdate, Redirected, End;
    var c, n := s.calls, OnResponse(s, e);
    if Ignored(c, e) || e.status == TRYING { Frames(s, n); return; }
    var st := c.bindings[e.ct];
    var txn := c.servers[st];
    if e.status < 200 {
      BoundUpdateSafe(s, e.ct);
      PassOnBound(c, txn, e.status, e.hasVia);
      Frames(s, n);
    } else {
      Dropped(s, e.ct);
      var s1 := s.(calls := Drop(c, e.ct), timers := if OfInvite(e.ct) then StopBoth(s.timers, e.ct) else s.timers);
      PassOnBound(s1.calls, txn, e.status, e.hasVia);
      if OfInvite(e.ct) && 300 <= e.status < 400 {
        TimersRedirected(s1, st, txn, e.call, e.redirect);
      } else {
        Frames(s1, n);
      }
    }
  }

  lemma BoundUpdateSafe(s: Core, ct: ClientKey)
    requires CTimersOk(s) && ct in s.calls.bindings
    ensures SendUpdate(s.timers, ct) == s.timers
  {
  }

  /** A bound branch goes, with or without its channels being closed. */
  lemma Dropped(s: Core, ct: ClientKey)
    requires CTimersOk(s) && ct in s.calls.bindings
    ensures SafeAfter(s, s.(calls := Drop(s.calls, ct)))
    ensures SafeAfter(s, s.(calls := Drop(s.calls, ct), timers := StopBoth(s.timers, ct)))
    ensures SafeAfter(s, s.(calls := Drop(s.calls, ct), timers := StopOne(s.timers, ct)))
    ensures SafeAfter(s, s.(calls := Drop(s.calls, ct), timers := End(s.timers, ct)))
  {
    hide TimersOk, StopBoth, StopOne, End;
    var bound := s.calls.bindings.Keys;
    assert Drop(s.calls, ct).bindings.Keys == bound - {ct};
    FewerBound(s.timers, bound, bound - {ct});
    Stopped(s.timers, bound, ct);
    Ended(s.timers, bound - {ct}, ct);
  }

  lemma Frames(s: Core, n: Core)
    requires CTimersOk(s) && n.timers == s.timers && n.crashed == s.crashed
    requires n.calls.bindings == s.calls.bindings && n.calls.used == s.calls.used
    ensures SafeAfter(s, n)
  {
  }

  lemma PassOnBound(c: Calls, txn: nat, status: int, hasVia: bool)
    ensures PassOn(c, txn, status, hasVia).bindings == c.bindings
    ensures PassOn(c, txn, status, hasVia).used == c.used
  {
  }

  lemma TimersRedirected(s: Core, st: ServerKey, txn: nat, call: string, r: Redirect)
    requires CTimersOk(s) && r.ct !in s.calls.used
    ensures SafeAfter(s, Redirected(s, st, txn, call, r))
  {
    hide CTimersOk, Start;
    Branched(s, s.(calls := Branch(s.calls, st, r.ct, call), timers := Start(s.timers, txn, r.ct)), st, txn, r.ct);
    Frames(s, s.(calls := Hand(s.calls, txn, NOT_FOUND)));
    Frames(s, s.(calls := Hand(s.calls, txn, TOO_MANY_HOPS)));
    Frames(s, s.(calls := Hand(s.calls, txn, RouteStatus(r.routing))));
    hide Hand, Branch;
  }

  /** A fresh branch and its goroutine. */
  lemma Branched(s: Core, n: Core, st: ServerKey, txn: nat, ct: ClientKey)
    requires CTimersOk(s) && ct !in s.calls.used && n.crashed == s.crashed
    requires n.calls.bindings == s.calls.bindings[ct := st] && n.calls.used == s.calls.used + {ct}
    requires n.timers == Start(s.timers, txn, ct)
    ensures SafeAfter(s, n)
  {
    hide TimersOk, Start;
    Started(s.timers, s.calls.bindings.Keys, txn, ct);
    assert s.calls.bindings[ct := st].Keys == s.calls.bindings.Keys + {ct};
  }

  lemma TimersInvite(s: Core, e: Event)
    requires CTimersOk(s) && e.Invite? && e.ct !in s.calls.used
    ensures SafeAfter(s, OnInvite(s, e))
  {
    hide CTimersOk, Start;
    var n := OnInvite(s, e);
    if ForwardStatus(e.maxForwards, e.hop) == 0 {
      Branched(s, n, e.st, |s.calls.handed|, e.ct);
    } else {
      Frames(s, n);
    }
  }

  lemma TimersInDialog(s: Core, e: Event)
    requires CTimersOk(s) && e.InDialog? && e.ct !in s.calls.used
    ensures SafeAfter(s, s.(calls := OnInDialog(s.calls, e)))
  {
    var n := s.(calls := OnInDialog(s.calls, e));
    if e.ct in n.calls.bindings && e.ct !in s.calls.bindings {
      OneMoreBound(s.timers, s.calls.bindings.Keys, e.ct);
      hide TimersOk;
      assert s.calls.bindings[e.ct := e.st].Keys == s.calls.bindings.Keys + {e.ct};
    } else {
      Frames(s, n);
      hide TimersOk;
    }
  }

  lemma TimersRequest(s: Core, e: Event)
    requires CTimersOk(s) && Fresh(s, e) && IsRequest(e) && !Halted(s)
    ensures (!Halted(Handled(s, e)) ==> CTimersOk(Handled(s, e))) && (Halted(Handled(s, e)) <==> Misses(s, e))
  {
    hide CTimersOk, OnInvite, OnInDialog, CancelCrashes, Open, Hand, Branches, CancelsFor;
    match e {
      case Invite(_, _, _, _, _, _, _) => TimersInvite(s, e);
      case InDialog(_, _, _, _, _) => TimersInDialog(s, e);
      case Immediate(st, _, status, _) => OpenBound(s.calls, st, status); Frames(s, Handled(s, e));
      case Cancel(st, _, _, _) =>
        if !CancelCrashes(s.calls, e) {
          OpenBound(s.calls, st, OK);
          OpenBound(s.calls, st, NO_CALL_LEG);
          Frames(s, Handled(s, e));
        }
    }
  }

  lemma OpenBound(c: Calls, st: ServerKey, status: int)
    ensures var n := Hand(Open(c, st), |c.handed|, status); n.bindings == c.bindings && n.used == c.used
  {
  }

  lemma TimersClosed(s: Core, txn: nat, ct: ClientKey, status: int)
    requires CTimersOk(s)
    ensures SafeAfter(s, s.(calls := CloseContext(s.calls, txn, ct, status)))
    ensures SafeAfter(s, s.(calls := CloseContext(s.calls, txn, ct, status), timers := End(s.timers, ct)))
    ensures ct in s.calls.bindings ==>
      SafeAfter(s, s.(calls := CloseContext(s.calls, txn, ct, status), timers := StopOne(s.timers, ct)))
  {
    var c, n := s.calls, CloseContext(s.calls, txn, ct, status);
    CloseContextBound(c, txn, ct, status);
    var bound := c.bindings.Keys;
    if ct in bound {
      Dropped(s, ct);
      assert Drop(c, ct).bindings == n.bindings;
    } else {
      assert n.bindings == c.bindings;
      Ended(s.timers, bound, ct);
    }
    hide TimersOk, CloseContext, End, StopOne;
  }

  lemma TimersFailed(s: Core, e: Event)
    requires CTimersOk(s) && e.ClientFailed? && !Misses(s, e)
    ensures SafeAfter(s, OnClientFailed(s, e))
  {
    var c := s.calls.(clients := s.calls.clients - {e.ct});
    Frames(s, s.(calls := c));
    if e.ct in c.bindings && e.ct in s.calls.clients {
      TimersClosed(s.(calls := c), c.servers[c.bindings[e.ct]], e.ct,
                   if e.timedOut then REQUEST_TIMEOUT else INTERNAL_ERROR);
    }
    hide TimersOk, CloseContext, StopOne;
  }

  lemma TimersFired(s: Core, e: Event)
    requires CTimersOk(s) && e.TimerCFires? && !Misses(s, e)
    ensures SafeAfter(s, OnTimerC(s, e))
  {
    if e.ct !in s.timers.waiting { return; }
    var c, txn := s.calls, s.timers.waiting[e.ct].txn;
    var gone := c.(clients := c.clients - {e.ct});
    Frames(s, s.(calls := gone));
    TimersClosed(s.(calls := gone), txn, e.ct, REQUEST_TIMEOUT);
    TimersClosed(s, txn, e.ct, REQUEST_TIMEOUT);
    Ended(s.timers, c.bindings.Keys, e.ct);
    hide TimersOk, CloseContext, End;
  }

  lemma TimersCancelFailed(s: Core, e: Event)
    requires CTimersOk(s) && e.CancelFails?
    ensures SafeAfter(s, s.(calls := OnCancelFails(s.calls, e)))
  {
  }

  lemma TimersHandled(s: Core, e: Event)
    requires CTimersOk(s) && !Halted(s) && Fresh(s, e)
    ensures Halted(Handled(s, e)) <==> Misses(s, e)
    ensures !Halted(Handled(s, e)) ==> CTimersOk(Handled(s, e))
  {
    hide TimersOk;
    match e {
      case Ack(_, _, _, _) =>
      case Response(_, _, _, _, _, _) => if !Misses(s, e) { TimersResponse(s, e); }
      case ClientFailed(_, _) => if !Misses(s, e) { TimersFailed(s, e); }
      case TimerCFires(_, _, _) => if !Misses(s, e) { TimersFired(s, e); }
      case TimerCStops(ct) => Ended(s.timers, s.calls.bindings.Keys, ct);
      case CancelFails(_, _) => TimersCancelFailed(s, e);
      case ClientGone(_) =>
      case ServerGone(_) =>
      case CallForgotten(_) =>
      case _ => TimersRequest(s, e);
    }
  }

  /** Timer C is safe whatever the environment does, as long as client keys are fresh: the
      tables stay consistent, no channel is closed twice or written after being closed,
      and no write waits for ever.  A step halts exactly where `Panics` says. */
  lemma TimerCSafe(s: Core, e: Event)
    requires CTimersOk(s) && !Halted(s) && Fresh(s, e)
    ensures Halted(Step(s, e)) <==> Panics(s, e)
    ensures !Halted(Step(s, e)) ==> CTimersOk(Step(s, e))
  {
    hide CTimersOk, Handled, Misses, Misprints, Closes, Shut;
    TimersHandled(s, e);
    var n := Handled(s, e);
    if CTimersOk(n) { Frames(n, Noted(s.calls, e, n)); }
  }

  // Whole runs

  /** Every live branch has its server transaction and its client transaction in the
      tables; if it is one of an INVITE whose call is known, its request is recorded.  What
      is known of a call can be printed. */
  ghost predicate Served(c: Calls) {
    && "" !in c.callStates
    && (forall call :: call in c.callStates ==> c.callStates[call].prints)
    && forall ct :: ct in c.bindings ==>
         && c.bindings[ct] in c.servers && ct in c.clients
         && (OfInvite(ct) ==> ct in c.callOf && (c.callOf[ct] in c.callStates ==> c.callStates[c.callOf[ct]].sent))
  }

  /** Whether an INVITE of `call` has a live branch. */
  ghost predicate LiveInvite(c: Calls, call: string) {
    exists ct :: ct in c.bindings && OfInvite(ct) && ct in c.callOf && c.callOf[ct] == call
  }

  /** What a run needs from its surroundings: fresh client keys; a server transaction leaves
      its table only after it was handed a final response (it would leave earlier on an ACK
      that comes before one); a client transaction that ends without an error has had its
      final response processed; a CANCEL can be built for a forwarded INVITE; methods and
      Call-IDs are those of section 8.1 of RFC 3261, that is, CSeq names the method of the
      request and a response echoes the Call-ID; an INVITE that cannot be forwarded does
      not use the Call-ID of a call whose INVITE has a live branch; an ACK can be forwarded; and what is
      to be printed can be. */
  ghost predicate Conforming(s: Core, e: Event) {
    var c := s.calls;
    && Fresh(s, e)
    && (e.ServerGone? && e.st in c.servers && c.servers[e.st] < |c.handed| ==> Finals(c.handed[c.servers[e.st]]) >= 1)
    && (e.ClientGone? ==> e.ct !in c.bindings)
    && (e.Cancel? || (e.TimerCFires? && e.provisional) ==> e.cancelOk)
    && (e.InDialog? ==> !OfInvite(e.ct))
    && (e.Response? && e.ct in c.bindings && e.ct in c.callOf ==> e.call == c.callOf[e.ct])
    && (e.Invite? && e.st !in c.servers && ForwardStatus(e.maxForwards, e.hop) != 0 ==> !LiveInvite(c, e.call))
    && (e.Ack? && e.st !in c.servers ==> ForwardStatus(e.maxForwards, ByRouteHeader(e.route)) == 0)
    && Printable(e)
  }

  /** Every Contact, Route, From and To value of a message can be printed. */
  predicate Printable(e: Event) {
    && (e.Invite? ==> e.contactsOk && e.partiesOk && (e.hop.ByRouteHeader? ==> !e.hop.route.Broken?))
    && (e.InDialog? ==> !e.route.Broken?)
    && (e.Ack? ==> e.contactsOk && !e.route.Broken?)
    && (e.Response? ==> e.contactsOk)
  }


  ghost predicate ConformingRun(es: seq<Event>) {
    forall i :: 0 <= i < |es| ==> Conforming(Run(Init, es[..i]), es[i])
  }

  ghost predicate FreshRun(es: seq<Event>) {
    forall i :: 0 <= i < |es| ==> Fresh(Run(Init, es[..i]), es[i])
  }

  ghost predicate ReuseFree(es: seq<Event>) {
    forall i :: 0 <= i < |es| ==> !Reuses(Run(Init, es[..i]), es[i])
  }

  lemma ServedMeans(s: Core, e: Event)
    requires Served(s.calls) && Conforming(s, e)
    ensures !Reuses(s, e) && !Panics(s, e)
  {
    hide Closes;
  }

  /** A server transaction that was answered has no branch left. */
  lemma AnsweredUnbound(c: Calls, st: ServerKey)
    requires Balanced(c) && st in c.servers && Finals(c.handed[c.servers[st]]) >= 1
    ensures forall ct :: ct in c.bindings ==> c.bindings[ct] != st
  {
    forall ct | ct in c.bindings ensures c.bindings[ct] != st {
      if c.bindings[ct] == st { SingleBranch(c, ct); }
    }
  }

  lemma ServedFrame(c: Calls, n: Calls)
    requires Served(c) && n.bindings == c.bindings && n.callOf == c.callOf
    requires c.servers.Keys <= n.servers.Keys && c.clients <= n.clients && n.callStates == c.callStates
    ensures Served(n)
  {
  }

  /** One branch may go, with its client transaction. */
  lemma ServedLess(c: Calls, n: Calls, ct: ClientKey)
    requires Served(c) && n.bindings == c.bindings - {ct} && n.servers == c.servers && c.clients - {ct} <= n.clients
    requires n.callOf == c.callOf && n.callStates == c.callStates
    ensures Served(n)
  {
  }

  lemma ServedBranch(c: Calls, st: ServerKey, ct: ClientKey, call: string)
    requires Served(c) && st in c.servers && (OfInvite(ct) && call in c.callStates ==> c.callStates[call].sent)
    ensures Served(Branch(c, st, ct, call))
  {
  }

  lemma ServedRecord(c: Calls, call: string, entry: Entry)
    requires Served(c) && entry.prints && (entry.sent || !LiveInvite(c, call))
    ensures Served(Record(c, call, entry))
    ensures var n := Record(c, call, entry); call in n.callStates ==> n.callStates[call] == entry
  {
  }

  lemma ServedInvite(s: Core, e: Event)
    requires Served(s.calls) && e.Invite? && e.partiesOk
    requires ForwardStatus(e.maxForwards, e.hop) == 0 || !LiveInvite(s.calls, e.call)
    ensures Served(OnInvite(s, e).calls)
  {
    hide Served, Branch;
    var status := ForwardStatus(e.maxForwards, e.hop);
    var entry := Entry(status == 0, false, e.partiesOk);
    var c := Record(s.calls, e.call, entry);
    ServedRecord(s.calls, e.call, entry);
    ServedFrame(c, Open(c, e.st));
    if status == 0 {
      ServedBranch(Open(c, e.st), e.st, e.ct, e.call);
    } else {
      ServedFrame(c, OnInvite(s, e).calls);
    }
  }

  lemma HandServed(c: Calls, txn: nat, status: int, hasVia: bool)
    requires Served(c)
    ensures Served(Hand(c, txn, status)) && Served(PassOn(c, txn, status, hasVia))
  {
    hide Served;
    ServedFrame(c, Hand(c, txn, status));
    ServedFrame(c, PassOn(c, txn, status, hasVia));
  }

  lemma ServedRedirected(s: Core, st: ServerKey, txn: nat, call: string, r: Redirect)
    requires Served(s.calls) && st in s.calls.servers
    requires r.contactOk && call in s.calls.callStates ==> s.calls.callStates[call].sent
    ensures Served(Redirected(s, st, txn, call, r).calls)
  {
    hide Served, Hand, Branch, Start;
    HandServed(s.calls, txn, NOT_FOUND, true);
    HandServed(s.calls, txn, TOO_MANY_HOPS, true);
    HandServed(s.calls, txn, RouteStatus(r.routing), true);
    if r.contactOk { ServedBranch(s.calls, st, r.ct, call); }
  }

  lemma ServedResponse(s: Core, e: Event)
    requires Served(s.calls) && e.Response?
    ensures Served(OnResponse(s, e).calls)
  {
    hide Served, PassOn, StopBoth, SendUpdate, Redirected;
    var c := s.calls;
    if Ignored(c, e) || (OfInvite(e.ct) && RedirectCrashes(c, e)) { return; }
    var st := c.bindings[e.ct];
    ServedLess(c, Drop(c, e.ct), e.ct);
    HandServed(c, c.servers[st], e.status, e.hasVia);
    HandServed(Drop(c, e.ct), c.servers[st], e.status, e.hasVia);
    if OfInvite(e.ct) && 300 <= e.status < 400 {
      ServedRedirected(Core(Drop(c, e.ct), StopBoth(s.timers, e.ct), s.crashed), st, c.servers[st], e.call, e.redirect);
    }
  }

  lemma ServedClosed(c: Calls, txn: nat, ct: ClientKey, status: int, n: Calls)
    requires Served(c) && n.bindings == c.bindings && n.callOf == c.callOf && n.callStates == c.callStates
    requires n.servers == c.servers && c.clients - {ct} <= n.clients
    ensures Served(CloseContext(n, txn, ct, status))
  {
    hide Served;
    CloseContextBound(n, txn, ct, status);
    ServedLess(c, CloseContext(n, txn, ct, status), ct);
  }

  lemma ServedTimerC(s: Core, e: Event)
    requires Served(s.calls) && e.TimerCFires?
    ensures Served(OnTimerC(s, e).calls)
  {
    hide Served, CloseContext;
    if e.ct in s.timers.waiting {
      var c, txn := s.calls, s.timers.waiting[e.ct].txn;
      ServedClosed(c, txn, e.ct, REQUEST_TIMEOUT, c);
      ServedClosed(c, txn, e.ct, REQUEST_TIMEOUT, c.(clients := c.clients - {e.ct}));
      ServedFrame(c, c.(cancels := c.cancels + {PendingCancel(e.ct, e.ct, txn)}));
    }
  }

  lemma ServedRequest(s: Core, e: Event)
    requires Served(s.calls) && Conforming(s, e) && IsRequest(e) && !Absorbed(s.calls, e)
    ensures Served(Handled(s, e).calls)
  {
    match e {
      case Invite(_, _, _, _, _, _, _) => ServedInvite(s, e);
      case InDialog(st, call, _, _, ct) =>
        var c := Open(s.calls, st);
        ServedFrame(s.calls, c);
        if Handled(s, e).calls.bindings == s.calls.bindings { ServedFrame(s.calls, Handled(s, e).calls); }
      case Immediate(_, _, _, _) => ServedFrame(s.calls, Handled(s, e).calls);
      case Cancel(_, _, _, _) => ServedFrame(s.calls, Handled(s, e).calls);
    }
  }

  lemma ServedHandled(s: Core, e: Event)
    requires Good(s) && Served(s.calls) && Conforming(s, e) && !Absorbed(s.calls, e)
    ensures Served(Handled(s, e).calls)
  {
    hide Good, Balanced, Aimed, Served;
    var c := s.calls;
    match e {
      case Ack(_, _, _, _) =>
      case Response(_, _, _, _, _, _) => ServedResponse(s, e);
      case ServerGone(st) => ServedGone(s, st);
      case ClientGone(ct) => ServedUnboundClient(s, ct);
      case ClientFailed(ct, timedOut) => ServedFailed(s, e);
      case TimerCFires(ct, _, _) => ServedTimerC(s, e);
      case TimerCStops(_) =>
      case CancelFails(p, timedOut) =>
        ServedClosed(c, p.txn, p.aim, if timedOut then REQUEST_TIMEOUT else REQUEST_TERMINATED, c.(cancels := c.cancels - {p}));
      case CallForgotten(call) => ServedForgotten(s.calls, call);
      case _ => ServedRequest(s, e);
    }
    hide CloseContext;
  }

  /** Closing an entry keeps what it tells of the call. */
  lemma ServedNoted(c: Calls, e: Event, n: Core)
    requires Served(n.calls)
    ensures Served(Noted(c, e, n).calls)
  {
    hide Closes;
  }

  lemma ServedStep(s: Core, e: Event)
    requires Good(s) && Served(s.calls) && !Halted(s) && Conforming(s, e)
    ensures Served(Step(s, e).calls)
  {
    hide Good, Served, Conforming, Handled, Misprints, Noted;
    if !Absorbed(s.calls, e) && !Misprints(s.calls, e) {
      ServedHandled(s, e);
      ServedNoted(s.calls, e, Handled(s, e));
    }
  }

  lemma ServedFailed(s: Core, e: Event)
    requires Served(s.calls) && e.ClientFailed?
    ensures Served(OnClientFailed(s, e).calls)
  {
    hide CloseContext, StopOne;
    var c := s.calls;
    if e.ct in c.clients && e.ct in c.bindings {
      ServedClosed(c, c.servers[c.bindings[e.ct]], e.ct, if e.timedOut then REQUEST_TIMEOUT else INTERNAL_ERROR,
                   c.(clients := c.clients - {e.ct}));
    } else if e.ct !in c.bindings {
      ServedUnboundClient(s, e.ct);
    }
  }

  lemma ServedForgotten(c: Calls, call: string)
    requires Served(c)
    ensures Served(c.(callStates := c.callStates - {call}))
  {
  }

  lemma ServedUnboundClient(s: Core, ct: ClientKey)
    requires Served(s.calls) && ct !in s.calls.bindings
    ensures Served(s.calls.(clients := s.calls.clients - {ct}))
  {
  }

  lemma ServedGone(s: Core, st: ServerKey)
    requires Good(s) && Served(s.calls) && Conforming(s, ServerGone(st))
    ensures Served(s.calls.(servers := s.calls.servers - {st}))
  {
    hide Good;
    if st in s.calls.servers { GoneUnbound(s, st); } else { assert s.calls.servers - {st} == s.calls.servers; }
  }

  lemma GoneUnbound(s: Core, st: ServerKey)
    requires Good(s) && st in s.calls.servers && Conforming(s, ServerGone(st))
    ensures forall ct :: ct in s.calls.bindings ==> s.calls.bindings[ct] != st
  {
    AnsweredUnbound(s.calls, st);
  }

  lemma InitOk()
    ensures Good(Init) && CTimersOk(Init) && Served(Init.calls)
  {
  }

  lemma ConformingPrefix(es: seq<Event>, n: nat)
    requires ConformingRun(es) && n <= |es|
    ensures ConformingRun(es[..n])
  {
    forall i | 0 <= i < n ensures es[..n][..i] == es[..i] && es[..n][i] == es[i] {}
  }

  lemma RunPrefix(es: seq<Event>, i: nat)
    requires |es| > 0 && i <= |es| - 1
    ensures es[..|es|-1][..i] == es[..i]
  {
  }

  /** Every state of a conforming run is consistent; no handler met a panic of `Panics`, or
      waits for ever on a channel of Timer C. */
  lemma {:induction false} ConformingRunSafe(es: seq<Event>)
    requires ConformingRun(es)
    ensures var s := Run(Init, es); Good(s) && CTimersOk(s) && Served(s.calls) && !Halted(s)
  {
    if es == [] {
      InitOk();
    } else {
      var before, e := es[..|es|-1], es[|es|-1];
      forall i | 0 <= i < |before| ensures before[..i] == es[..i] && before[i] == es[i] { RunPrefix(es, i); }
      ConformingRunSafe(before);
      var s := Run(Init, before);
      hide Good, CTimersOk, Served;
      assert Conforming(s, e) by { assert es[..|es|-1] == before; }
      ServedMeans(s, e);
      GoodStep(s, e);
      TimerCSafe(s, e);
      ServedStep(s, e);
    }
  }

  /** No call is answered twice: in every reachable state of a conforming run, each server
      transaction was handed provisional responses followed by at most one final response,
      and the final responses handed to it, those lost, and its live branches add up to
      exactly one.  Racing finals, redirects, client errors, Timer C and failing CANCELs
      are all steps of such a run. */
  lemma AnsweredAtMostOnce(es: seq<Event>)
    requires ConformingRun(es)
    ensures var s := Run(Init, es);
            && !Halted(s)
            && |s.calls.handed| == |s.calls.dropped|
            && (forall txn :: 0 <= txn < |s.calls.handed| ==>
                 ProvisionalsThenFinal(s.calls.handed[txn]) && Finals(s.calls.handed[txn]) <= 1)
            && (forall st :: st in s.calls.servers ==>
                 var txn := s.calls.servers[st];
                 && txn < |s.calls.handed|
                 && Finals(s.calls.handed[txn]) + s.calls.dropped[txn] + |Branches(s.calls.bindings, st)| == 1)
  {
    ConformingRunSafe(es);
    var s := Run(Init, es);
    forall txn | 0 <= txn < |s.calls.handed|
      ensures ProvisionalsThenFinal(s.calls.handed[txn]) && Finals(s.calls.handed[txn]) <= 1 {
      assert Settled(s.calls, txn);
    }
    forall st | st in s.calls.servers
      ensures var txn := s.calls.servers[st];
              && txn < |s.calls.handed|
              && Finals(s.calls.handed[txn]) + s.calls.dropped[txn] + |Branches(s.calls.bindings, st)| == 1 {
      BranchesOwned(s.calls, st);
      assert Settled(s.calls, s.calls.servers[st]);
    }
    hide Good, CTimersOk, Served;
  }

  lemma BranchesOwned(c: Calls, st: ServerKey)
    requires Linked(c) && st in c.servers
    ensures Branches(c.bindings, st) == Owned(c, c.servers[st])
  {
  }

  /** Without any assumption but fresh client keys, Timer C stays sound in every run: only
      the handlers' own panics can end it. */
  lemma {:induction false} FreshTimersSafe(es: seq<Event>)
    requires FreshRun(es)
    ensures var s := Run(Init, es); (!Halted(s) ==> CTimersOk(s)) && !s.timers.blocked && !s.timers.panicked
  {
    if es == [] {
      InitOk();
    } else {
      var before, e := es[..|es|-1], es[|es|-1];
      forall i | 0 <= i < |before| ensures before[..i] == es[..i] && before[i] == es[i] { RunPrefix(es, i); }
      FreshTimersSafe(before);
      var s := Run(Init, before);
      hide CTimersOk, Panics;
      assert Fresh(s, e) by { assert es[..|es|-1] == before; }
      if !Halted(s) {
        TimerCSafe(s, e);
        if Halted(Step(s, e)) { PanicsAlone(s, e); }
      }
    }
  }

  /** And the accounts stay balanced for as long as no key with a live branch is taken over. */
  lemma {:induction false} FreshRunSafe(es: seq<Event>)
    requires FreshRun(es) && ReuseFree(es)
    ensures Good(Run(Init, es))
  {
    if es == [] {
      InitOk();
    } else {
      var before, e := es[..|es|-1], es[|es|-1];
      forall i | 0 <= i < |before| ensures before[..i] == es[..i] && before[i] == es[i] { RunPrefix(es, i); }
      FreshRunSafe(before);
      var s := Run(Init, before);
      hide Good;
      assert Fresh(s, e) && !Reuses(s, e) by { assert es[..|es|-1] == before; }
      GoodStep(s, e);
    }
  }

  lemma PanicsAlone(s: Core, e: Event)
    requires CTimersOk(s) && !Halted(s) && Panics(s, e)
    ensures !Step(s, e).timers.blocked && !Step(s, e).timers.panicked
  {
  }

  /** An INVITE is forwarded, its server transaction is destroyed by an early ACK, the same
      key arrives once more and is forwarded again, and both branches answer. */
  function LateRun(k: ServerKey, call: string, c1: ClientKey, c2: ClientKey, c3: ClientKey): seq<Event> {
    var r := Redirect(true, 70, Routed, c3);
    [Invite(k, call, 70, ByRequestUri(Routed), c1, true, true), ServerGone(k),
     Invite(k, call, 70, ByRequestUri(Routed), c2, true, true),
     Response(c1, call, 486, true, true, r), Response(c2, call, 200, true, true, r)]
  }

  /** An INVITE that nothing holds up. */
  lemma ForwardedInvite(s: Core, e: Event)
    requires !Halted(s) && e.Invite? && !Absorbed(s.calls, e) && e.contactsOk && e.partiesOk
    requires e.maxForwards > 1 && e.hop == ByRequestUri(Routed) && e.call != ""
    ensures var n, txn, ch := Step(s, e), |s.calls.handed|, |s.timers.made|;
            && !Halted(n)
            && n.calls.bindings == s.calls.bindings[e.ct := e.st] && n.calls.servers == s.calls.servers[e.st := txn]
            && n.calls.used == s.calls.used + {e.ct} && n.calls.callOf == s.calls.callOf[e.ct := e.call]
            && n.calls.handed == s.calls.handed + [[]]
            && n.calls.callStates == s.calls.callStates[e.call := Entry(true, false, true)]
            && n.timers.update == s.timers.update[e.ct := ch] && n.timers.destroy == s.timers.destroy[e.ct := ch + 1]
            && n.timers.closed == s.timers.closed && |n.timers.made| == ch + 2
            && n.calls.keys == s.calls.keys + [e.st]
  {
    assert ForwardStatus(e.maxForwards, e.hop) == 0;
    assert !Misprints(s.calls, e) && Closes(s.calls, e) == "";
    hide Misprints, Closes, ForwardStatus;
  }

  lemma GoneStep(s: Core, st: ServerKey)
    requires !Halted(s)
    ensures var n := Step(s, ServerGone(st));
            n == s.(calls := s.calls.(servers := s.calls.servers - {st}))
  {
  }

  lemma LateSetup(k: ServerKey, call: string, c1: ClientKey, c2: ClientKey, c3: ClientKey)
    requires c1 != c2 && c2 != c3 && c1 != c3 && OfInvite(c1) && OfInvite(c2) && call != ""
    ensures var es := LateRun(k, call, c1, c2, c3);
            var s1 := Step(Init, es[0]);
            var s2 := Step(s1, es[1]);
            var s3 := Step(s2, es[2]);
            && Fresh(Init, es[0]) && Fresh(s1, es[1]) && Fresh(s2, es[2])
            && !Halted(s3) && s3.calls.used == {c1, c2} && s3.calls.handed == [[], []]
            && c1 in s3.calls.bindings && s3.calls.bindings[c1] == k
            && c2 in s3.calls.bindings && s3.calls.bindings[c2] == k
            && k in s3.calls.servers && s3.calls.servers[k] == 1
            && call in s3.calls.callStates && s3.calls.callStates[call].prints
            && s3.timers.closed == {} && s3.timers.update == map[c1 := 0, c2 := 2]
            && s3.timers.destroy == map[c1 := 1, c2 := 3]
  {
    hide Step;
    var es := LateRun(k, call, c1, c2, c3);
    ForwardedInvite(Init, es[0]);
    var s1 := Step(Init, es[0]);
    GoneStep(s1, k);
    var s2 := Step(s1, es[1]);
    ForwardedInvite(s2, es[2]);
  }

  /** A final response on a live branch whose channels are open goes straight through. */
  lemma FinalPasses(s: Core, e: Event)
    requires e.Response? && OfInvite(e.ct) && e.contactsOk && e.hasVia && !Halted(s)
    requires e.call in s.calls.callStates && s.calls.callStates[e.call].prints
    requires 200 <= e.status < 300 || e.status >= 400
    requires e.ct in s.calls.bindings && s.calls.bindings[e.ct] in s.calls.servers
    requires HasTimer(s.timers, e.ct) && s.timers.update[e.ct] != s.timers.destroy[e.ct]
    requires s.timers.update[e.ct] !in s.timers.closed && s.timers.destroy[e.ct] !in s.timers.closed
    ensures var n, m, txn := Step(s, e), Hand(Drop(s.calls, e.ct), s.calls.servers[s.calls.bindings[e.ct]], e.status),
                             s.calls.servers[s.calls.bindings[e.ct]];
            && !Halted(n) && n.calls == m.(callStates := n.calls.callStates)
            && e.call in n.calls.callStates && n.calls.callStates[e.call].prints
            && n.timers == s.timers.(closed := s.timers.closed + {s.timers.destroy[e.ct], s.timers.update[e.ct]})
  {
    hide RedirectFails;
  }

  /** The assumption is needed: two different final responses reach one transaction.  The
      486 leaves it in its table, so that it is there for the 200. */
  lemma ReuseAnswersTwice(k: ServerKey, call: string, c1: ClientKey, c2: ClientKey, c3: ClientKey)
    requires c1 != c2 && c2 != c3 && c1 != c3 && OfInvite(c1) && OfInvite(c2) && call != ""
    ensures FreshRun(LateRun(k, call, c1, c2, c3))
    ensures Run(Init, LateRun(k, call, c1, c2, c3)).calls.handed == [[], [486, 200]]
  {
    hide Step;
    var es := LateRun(k, call, c1, c2, c3);
    LateSetup(k, call, c1, c2, c3);
    var s3 := Step(Step(Step(Init, es[0]), es[1]), es[2]);
    FinalPasses(s3, es[3]);
    var s4 := Step(s3, es[3]);
    FinalPasses(s4, es[4]);
    var none: seq<int> := [];
    assert none + [486] == [486] && [486] + [200] == [486, 200];
    assert s4.calls.handed == [none, none + [486]];
    var s5 := Step(s4, es[4]);
    assert s5.calls.handed == s4.calls.handed[1 := s4.calls.handed[1] + [200]];
    assert s5.calls.handed == [[], [486, 200]];
    assert es[..0] == [] && es[..1] == es[..0] + [es[0]] && es[..2] == es[..1] + [es[1]] && es[..3] == es[..2] + [es[2]]
           && es[..4] == es[..3] + [es[3]] && es[..5] == es[..4] + [es[4]] && es[..5] == es;
    RunAppend(es[..0], es[0]); RunAppend(es[..1], es[1]); RunAppend(es[..2], es[2]);
    RunAppend(es[..3], es[3]); RunAppend(es[..4], es[4]);
  }

  lemma RunAppend(es: seq<Event>, e: Event)
    ensures Run(Init, es + [e]) == Step(Run(Init, es), e)
  {
  }
}
