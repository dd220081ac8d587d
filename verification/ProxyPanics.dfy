/** Where the handlers of the proxy core panic: what the entry of a call tells, and runs
    that show each condition on a conforming run to be needed. */
module ProxyPanics {
  import opened ResponseContexts
  import opened ProxyCore
  import opened ProxySafety
  import opened ProxyRuns

  /** How the last INVITE with a Call-ID fared: whether it was forwarded and whether its From
      and To can be printed; or none was handled since the call was forgotten. */
  datatype Fate = NoInvite | Made(forwarded: bool, partiesOk: bool)

  function LastInvite(es: seq<Event>, call: string): Fate {
    if es == [] then NoInvite
    else
      var before, e := es[..|es|-1], es[|es|-1];
      if Halted(Run(Init, es)) then LastInvite(before, call)
      else if e.Invite? && e.call == call && call != "" && !Absorbed(Run(Init, before).calls, e) then
        Made(ForwardStatus(e.maxForwards, e.hop) == 0, e.partiesOk)
      else if e.CallForgotten? && e.call == call then NoInvite
      else LastInvite(before, call)
  }

  /** The entry of `call` tells this. */
  predicate Tells(states: map<string, Entry>, call: string, fate: Fate) {
    match fate
    case NoInvite => call !in states
    case Made(forwarded, partiesOk) => call in states && states[call].sent == forwarded && states[call].prints == partiesOk
  }

  lemma BlocksKeep(c: Calls, txn: nat, ct: ClientKey, status: int, hasVia: bool)
    ensures Hand(c, txn, status).callStates == c.callStates
    ensures PassOn(c, txn, status, hasVia).callStates == c.callStates
    ensures CloseContext(c, txn, ct, status).callStates == c.callStates
  {
    hide LastBranch;
  }

  lemma ResponseKeeps(s: Core, e: Event)
    requires e.Response?
    ensures OnResponse(s, e).calls.callStates == s.calls.callStates
  {
    hide PassOn, Hand, StopBoth, SendUpdate, Start, RouteStatus;
    if !Ignored(s.calls, e) {
      var d, txn, r := Drop(s.calls, e.ct), s.calls.servers[s.calls.bindings[e.ct]], e.redirect;
      BlocksKeep(s.calls, txn, e.ct, e.status, e.hasVia);
      BlocksKeep(d, txn, e.ct, e.status, e.hasVia);
      BlocksKeep(d, txn, e.ct, NOT_FOUND, true);
      BlocksKeep(d, txn, e.ct, TOO_MANY_HOPS, true);
      BlocksKeep(d, txn, e.ct, RouteStatus(r.routing), true);
    }
  }

  lemma FailureKeeps(s: Core, e: Event)
    requires e.ClientFailed? || e.TimerCFires? || e.CancelFails?
    ensures Handled(s, e).calls.callStates == s.calls.callStates
  {
    hide CloseContext, StopOne, End;
    var c := s.calls;
    match e {
      case ClientFailed(ct, timedOut) =>
        if ct in c.bindings && c.bindings[ct] in c.servers {
          BlocksKeep(c.(clients := c.clients - {ct}), c.servers[c.bindings[ct]], ct,
                     if timedOut then REQUEST_TIMEOUT else INTERNAL_ERROR, true);
        }
      case TimerCFires(ct, _, _) =>
        if ct in s.timers.waiting {
          BlocksKeep(c, s.timers.waiting[ct].txn, ct, REQUEST_TIMEOUT, true);
          BlocksKeep(c.(clients := c.clients - {ct}), s.timers.waiting[ct].txn, ct, REQUEST_TIMEOUT, true);
        }
      case CancelFails(p, timedOut) =>
        BlocksKeep(c.(cancels := c.cancels - {p}), p.txn, p.aim, if timedOut then REQUEST_TIMEOUT else REQUEST_TERMINATED, true);
    }
  }

  /** Only an INVITE, or the end of a call, changes more of the call table than whether its
      entries are closed. */
  lemma CallTableKept(s: Core, e: Event)
    requires !e.CallForgotten? && !e.Invite?
    ensures Handled(s, e).calls.callStates == s.calls.callStates
  {
    hide OnResponse, CancelCrashes, Branches, Hand, CancelsFor;
    if e.Response? { ResponseKeeps(s, e); }
    else if e.ClientFailed? || e.TimerCFires? || e.CancelFails? { FailureKeeps(s, e); }
    else if IsRequest(e) {
      var c, txn := Open(s.calls, e.st), |s.calls.handed|;
      BlocksKeep(c, txn, ClientKey("", ""), OK, true);
      BlocksKeep(c, txn, ClientKey("", ""), NO_CALL_LEG, true);
      if e.Immediate? { BlocksKeep(c, txn, ClientKey("", ""), e.status, true); }
      if e.InDialog? { BlocksKeep(c, txn, ClientKey("", ""), ForwardStatus(e.maxForwards, ByRouteHeader(e.route)), true); }
    }
  }

  lemma InviteEnters(s: Core, e: Event)
    requires e.Invite?
    ensures OnInvite(s, e).calls.callStates
            == Record(s.calls, e.call, Entry(ForwardStatus(e.maxForwards, e.hop) == 0, false, e.partiesOk)).callStates
  {
    hide ForwardStatus;
  }

  lemma ShutTells(states: map<string, Entry>, closed: string, call: string, fate: Fate)
    ensures Tells(Shut(states, closed), call, fate) <==> Tells(states, call, fate)
  {
  }

  /** One step, seen by the entry of `call`. */
  lemma TellsStep(s: Core, e: Event, call: string, fate: Fate)
    requires Tells(s.calls.callStates, call, fate) && !Halted(s)
    ensures var fate' := if !Halted(Step(s, e)) && e.Invite? && e.call == call && call != "" && !Absorbed(s.calls, e)
                         then Made(ForwardStatus(e.maxForwards, e.hop) == 0, e.partiesOk)
                         else if e.CallForgotten? && e.call == call then NoInvite else fate;
            Tells(Step(s, e).calls.callStates, call, fate')
  {
    if Absorbed(s.calls, e) || Misprints(s.calls, e) { return; }
    ShutTells(Handled(s, e).calls.callStates, Closes(s.calls, e), call, fate);
    if e.Invite? {
      InviteEnters(s, e);
      InviteRuns(s, e);
      ShutTells(Handled(s, e).calls.callStates, Closes(s.calls, e), call, Made(ForwardStatus(e.maxForwards, e.hop) == 0, e.partiesOk));
    } else if e.CallForgotten? {
      ShutTells(Handled(s, e).calls.callStates, Closes(s.calls, e), call, NoInvite);
    } else {
      CallTableKept(s, e);
    }
    hide Handled, Misprints, Closes, Shut, ForwardStatus, OnInvite;
  }

  lemma InviteRuns(s: Core, e: Event)
    requires e.Invite? && !Halted(s)
    ensures Handled(s, e) == OnInvite(s, e) && !Halted(OnInvite(s, e))
  {
  }

  /** The entry of a call tells how its last INVITE fared, whatever its branches did since. */
  lemma {:induction false} EntryTells(es: seq<Event>, call: string)
    ensures Tells(Run(Init, es).calls.callStates, call, LastInvite(es, call))
  {
    if es != [] {
      hide Step, Tells, Absorbed, ForwardStatus;
      var before, e := es[..|es|-1], es[|es|-1];
      EntryTells(before, call);
      var s := Run(Init, before);
      if Halted(s) {
        StaysHalted(s, e);
      } else {
        TellsStep(s, e, call, LastInvite(before, call));
        if Halted(Step(s, e)) { ForgettingRuns(s, e); }
      }
    } else {
      assert Init.calls.callStates == map[];
    }
  }

  lemma StaysHalted(s: Core, e: Event)
    requires Halted(s)
    ensures Step(s, e) == s
  {
  }

  lemma ForgettingRuns(s: Core, e: Event)
    requires !Halted(s) && Halted(Step(s, e))
    ensures !e.CallForgotten?
  {
  }

  /** So a redirection panics if and only if it meets a live branch of a known call, and
      either it has a usable contact and the last INVITE with its Call-ID was refused, or it
      is answered and the last INVITE of the call that is closed cannot be printed. */
  lemma RedirectionPanics(es: seq<Event>, e: Event)
    requires FreshRun(es + [e]) && !Halted(Run(Init, es))
    requires e.Response? && OfInvite(e.ct) && 300 <= e.status < 400
    ensures var c, fate := Run(Init, es).calls, LastInvite(es, e.call);
            Halted(Run(Init, es + [e])) <==>
              && e.ct in c.bindings && c.bindings[e.ct] in c.servers && fate.Made?
              && (|| (e.redirect.contactOk && !fate.forwarded)
                  || (RedirectFails(e.redirect)
                      && LastInvite(es, CallOfTxn(c, c.servers[c.bindings[e.ct]])).Made?
                      && !LastInvite(es, CallOfTxn(c, c.servers[c.bindings[e.ct]])).partiesOk))
  {
    hide Step, CTimersOk, Good, Fresh, Reuses, Panics, Halted, LastInvite;
    var all := es + [e];
    forall i | 0 <= i < |es| ensures all[..i] == es[..i] && all[i] == es[i] {}
    assert all[..|es|] == es && all[|es|] == e;
    FreshTimersSafe(es);
    RunAppend(es, e);
    var s := Run(Init, es);
    EntryTells(es, e.call);
    TimerCSafe(s, e);
    PanicsMeans(s, e);
    if e.ct in s.calls.bindings && s.calls.bindings[e.ct] in s.calls.servers {
      var closed := CallOfTxn(s.calls, s.calls.servers[s.calls.bindings[e.ct]]);
      EntryTells(es, closed);
      if closed == "" { NoneForEmpty(es); }
    }
  }

  lemma {:induction false} NoneForEmpty(es: seq<Event>)
    ensures LastInvite(es, "").NoInvite?
  {
    if es != [] { NoneForEmpty(es[..|es|-1]); }
  }

  lemma PanicsMeans(s: Core, e: Event)
    requires e.Response? && OfInvite(e.ct) && 300 <= e.status < 400
    ensures Panics(s, e) <==>
              && e.ct in s.calls.bindings && s.calls.bindings[e.ct] in s.calls.servers && e.call in s.calls.callStates
              && (|| (e.redirect.contactOk && !s.calls.callStates[e.call].sent)
                  || (RedirectFails(e.redirect) && Misprinted(s.calls, CallOfTxn(s.calls, s.calls.servers[s.calls.bindings[e.ct]]))))
  {
    hide RedirectFails, CallOfTxn;
  }

  /** INVITE A is forwarded, INVITE B of the same call has no hops left, and A is redirected. */
  function RefusedRun(k1: ServerKey, k2: ServerKey, call: string, c1: ClientKey, c2: ClientKey, c3: ClientKey): seq<Event> {
    [Invite(k1, call, 70, ByRequestUri(Routed), c1, true, true), Invite(k2, call, 1, ByRequestUri(Routed), c2, true, true),
     Response(c1, call, 302, true, true, Redirect(true, 70, Routed, c3))]
  }

  lemma FirstForwarded(k: ServerKey, call: string, ct: ClientKey)
    requires call != ""
    ensures var e := Invite(k, call, 70, ByRequestUri(Routed), ct, true, true);
            var n := Step(Init, e);
            && !Halted(n)
            && n.calls.bindings == map[ct := k] && n.calls.servers == map[k := 0] && n.calls.used == {ct}
            && n.calls.handed == [[]] && n.calls.keys == [k] && n.calls.callOf == map[ct := call]
            && n.calls.callStates == map[call := Entry(true, false, true)]
            && n.timers.update == map[ct := 0] && n.timers.destroy == map[ct := 1] && n.timers.closed == {}
  {
    hide Step;
    ForwardedInvite(Init, Invite(k, call, 70, ByRequestUri(Routed), ct, true, true));
    var none: seq<seq<int>> := [];
    var keys: seq<ServerKey> := [];
    assert none + [[]] == [[]] && keys + [k] == [k];
  }

  /** An INVITE without hops left gets 483 and takes over the entry of its call. */
  lemma SecondRefused(s: Core, k: ServerKey, call: string, ct: ClientKey)
    requires !Halted(s) && k !in s.calls.servers && call != "" && s.calls.handed == [[]]
    ensures var n := Step(s, Invite(k, call, 1, ByRequestUri(Routed), ct, true, true));
            && !Halted(n) && n.calls.bindings == s.calls.bindings && n.calls.used == s.calls.used
            && s.calls.servers.Keys <= n.calls.servers.Keys
            && call in n.calls.callStates && !n.calls.callStates[call].sent
            && n.calls.handed == [[], [TOO_MANY_HOPS]]
  {
    hide Start, Branches;
    var none: seq<int> := [];
    assert none + [TOO_MANY_HOPS] == [TOO_MANY_HOPS];
  }

  lemma ThirdPanics(s: Core, e: Event)
    requires !Halted(s) && e.Response? && OfInvite(e.ct) && !Ignored(s.calls, e) && RedirectCrashes(s.calls, e)
    ensures Step(s, e).crashed
  {
  }

  lemma RefusedSetup(k1: ServerKey, k2: ServerKey, call: string, c1: ClientKey, c2: ClientKey, c3: ClientKey)
    requires k1 != k2 && c1 != c2 && c2 != c3 && c1 != c3 && OfInvite(c1) && call != ""
    ensures var es := RefusedRun(k1, k2, call, c1, c2, c3);
            var s1 := Step(Init, es[0]);
            var s2 := Step(s1, es[1]);
            && Fresh(Init, es[0]) && Fresh(s1, es[1]) && Fresh(s2, es[2])
            && !Reuses(Init, es[0]) && !Reuses(s1, es[1]) && !Reuses(s2, es[2])
            && !Halted(s2) && s2.calls.handed == [[], [TOO_MANY_HOPS]]
            && Conforming(Init, es[0]) && Step(s2, es[2]).crashed
  {
    hide Step;
    FirstForwarded(k1, call, c1);
    var s1 := Step(Init, Invite(k1, call, 70, ByRequestUri(Routed), c1, true, true));
    assert Fresh(Init, RefusedRun(k1, k2, call, c1, c2, c3)[0]);
    SecondRefused(s1, k2, call, c2);
    ThirdPanics(Step(s1, Invite(k2, call, 1, ByRequestUri(Routed), c2, true, true)),
                Response(c1, call, 302, true, true, Redirect(true, 70, Routed, c3)));
  }

  /** The condition on the Call-ID of an INVITE is needed. */
  lemma RefusedInvitePanics(k1: ServerKey, k2: ServerKey, call: string, c1: ClientKey, c2: ClientKey, c3: ClientKey)
    requires k1 != k2 && c1 != c2 && c2 != c3 && c1 != c3 && OfInvite(c1) && call != ""
    ensures var es := RefusedRun(k1, k2, call, c1, c2, c3);
            && FreshRun(es) && ReuseFree(es)
            && ConformingRun(es[..1]) && !Halted(Run(Init, es[..2])) && Run(Init, es[..2]).calls.handed == [[], [TOO_MANY_HOPS]]
            && Run(Init, es).crashed
  {
    hide Step, Fresh, Reuses, Conforming;
    var es := RefusedRun(k1, k2, call, c1, c2, c3);
    RefusedSetup(k1, k2, call, c1, c2, c3);
    assert es[..0] == [] && es[..1] == es[..0] + [es[0]] && es[..2] == es[..1] + [es[1]] && es[..3] == es[..2] + [es[2]] && es[..3] == es;
    RunAppend(es[..0], es[0]); RunAppend(es[..1], es[1]); RunAppend(es[..2], es[2]);
    assert es[..1][..0] == es[..0];
  }

  /** So are those on ACKs and on what is printed: the first message of a run can be an ACK
      that has no hops left, or an INVITE with a Contact that cannot be printed. */
  lemma FirstPanics(k: ServerKey, call: string, maxForwards: int, route: Route, hop: NextHop, ct: ClientKey, contactsOk: bool)
    ensures Run(Init, [Ack(k, maxForwards, route, contactsOk)]).crashed <==> maxForwards <= 1 || !route.Followed? || !contactsOk
    ensures Run(Init, [Invite(k, call, maxForwards, hop, ct, contactsOk, true)]).crashed <==>
              !contactsOk || (maxForwards > 1 && hop.ByRouteHeader? && hop.route.Broken?)
  {
    hide Start, Open, Branch, Hand, Record, Shut;
  }
}
