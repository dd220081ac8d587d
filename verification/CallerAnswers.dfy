/** From the core to the wire: what is handed to an INVITE server transaction in a
    conforming run, fed to that transaction's machine. */
module CallerAnswers {
  import opened ProxyCore
  import ProxyPanics
  import ProxyRuns
  import ProxySafety
  import opened ResponseContexts
  import S = ServerTransactions
  import T = Transactions

  /** Responses that come in have a status of section 21 of RFC 3261, and so have those made
      on the spot. */
  predicate StatusOk(e: Event) {
    (e.Response? ==> 100 <= e.status < 700) && (e.Immediate? ==> 200 <= e.status < 700)
  }

  predicate Handable(status: int) {
    100 < status < 700
  }

  ghost predicate HandedOk(c: Calls) {
    forall txn, i :: 0 <= txn < |c.handed| && 0 <= i < |c.handed[txn]| ==> Handable(c.handed[txn][i])
  }

  lemma HandedBlocks(c: Calls, txn: nat, st: ServerKey, ct: ClientKey, status: int, hasVia: bool)
    requires HandedOk(c) && Handable(status)
    ensures HandedOk(Hand(c, txn, status)) && HandedOk(PassOn(c, txn, status, hasVia)) && HandedOk(Open(c, st))
    ensures HandedOk(CloseContext(c, txn, ct, status))
  {
    hide LastBranch;
  }

  lemma SameHanded(c: Calls, n: Calls)
    requires HandedOk(c) && n.handed == c.handed
    ensures HandedOk(n)
  {
  }

  lemma HandedRequest(s: Core, e: Event)
    requires HandedOk(s.calls) && IsRequest(e) && StatusOk(e)
    ensures HandedOk(Handled(s, e).calls)
  {
    hide HandedOk, Hand, Open, CancelCrashes, Branches, Start, CancelsFor;
    var txn, none := |s.calls.handed|, ClientKey("", "");
    var c := if e.Invite? then Record(s.calls, e.call, Entry(ForwardStatus(e.maxForwards, e.hop) == 0, false, e.partiesOk)) else s.calls;
    SameHanded(s.calls, c);
    HandedBlocks(c, txn, e.st, none, OK, true);
    HandedBlocks(Open(c, e.st), txn, e.st, none, OK, true);
    match e {
      case Invite(st, _, maxForwards, hop, ct, _, _) =>
        if ForwardStatus(maxForwards, hop) != 0 { HandedBlocks(Open(c, st), txn, st, none, ForwardStatus(maxForwards, hop), true); }
        else { SameHanded(Open(c, st), Handled(s, e).calls); }
      case InDialog(st, call, maxForwards, route, ct) =>
        var status := ForwardStatus(maxForwards, ByRouteHeader(route));
        if call !in c.callStates { HandedBlocks(Open(c, st), txn, st, none, NO_CALL_LEG, true); }
        else if status != 0 { HandedBlocks(Open(c, st), txn, st, none, status, true); }
        else { SameHanded(Open(c, st), Handled(s, e).calls); }
      case Immediate(st, _, status, _) => HandedBlocks(Open(c, st), txn, st, none, status, true);
      case Cancel(st, _, _, _) =>
        HandedBlocks(Open(c, st), txn, st, none, NO_CALL_LEG, true);
        var cts := Branches(c.bindings, CancelTarget(st));
        if !CancelCrashes(c, e) && cts != {} { SameHanded(Hand(Open(c, st), txn, OK), Handled(s, e).calls); }
    }
  }

  lemma HandedResponse(s: Core, e: Event)
    requires HandedOk(s.calls) && e.Response? && StatusOk(e)
    ensures HandedOk(OnResponse(s, e).calls)
  {
    hide HandedOk, Hand, PassOn, StopBoth, SendUpdate, Start;
    var c := s.calls;
    if Ignored(c, e) || e.status == TRYING { return; }
    var st, txn, d := c.bindings[e.ct], c.servers[c.bindings[e.ct]], Drop(c, e.ct);
    SameHanded(c, d);
    HandedBlocks(c, txn, st, e.ct, e.status, e.hasVia);
    HandedBlocks(d, txn, st, e.ct, e.status, e.hasVia);
    if OfInvite(e.ct) && 300 <= e.status < 400 {
      HandedBlocks(d, txn, st, e.ct, NOT_FOUND, true);
      HandedBlocks(d, txn, st, e.ct, TOO_MANY_HOPS, true);
      if RouteStatus(e.redirect.routing) != 0 { HandedBlocks(d, txn, st, e.ct, RouteStatus(e.redirect.routing), true); }
      SameHanded(d, Branch(d, st, e.redirect.ct, e.call));
    }
  }

  lemma HandedFailure(s: Core, e: Event)
    requires HandedOk(s.calls) && (e.ClientFailed? || e.TimerCFires? || e.CancelFails?)
    ensures HandedOk(Handled(s, e).calls)
  {
    hide HandedOk, CloseContext, StopOne, End, Hand, PassOn, Open;
    var c := s.calls;
    match e {
      case ClientFailed(ct, timedOut) =>
        var n := c.(clients := c.clients - {ct});
        SameHanded(c, n);
        if ct in n.bindings && n.bindings[ct] in n.servers {
          HandedBlocks(n, n.servers[n.bindings[ct]], n.bindings[ct], ct, if timedOut then REQUEST_TIMEOUT else INTERNAL_ERROR, true);
        }
      case TimerCFires(ct, _, _) =>
        if ct in s.timers.waiting {
          var n, txn, p := c.(clients := c.clients - {ct}), s.timers.waiting[ct].txn, PendingCancel(ct, ct, s.timers.waiting[ct].txn);
          SameHanded(c, n);
          SameHanded(c, c.(cancels := c.cancels + {p}));
          HandedBlocks(n, txn, ServerKey("", "", ""), ct, REQUEST_TIMEOUT, true);
          HandedBlocks(c, txn, ServerKey("", "", ""), ct, REQUEST_TIMEOUT, true);
        }
      case CancelFails(p, timedOut) =>
        var n := c.(cancels := c.cancels - {p});
        SameHanded(c, n);
        HandedBlocks(n, p.txn, ServerKey("", "", ""), p.aim, if timedOut then REQUEST_TIMEOUT else REQUEST_TERMINATED, true);
    }
  }

  lemma HandedStep(s: Core, e: Event)
    requires HandedOk(s.calls) && StatusOk(e)
    ensures HandedOk(Step(s, e).calls)
  {
    hide HandedOk, OnResponse, StatusOk, Misprints, Closes, Shut;
    if Halted(s) || Absorbed(s.calls, e) || Misprints(s.calls, e) { return; }
    if IsRequest(e) { HandedRequest(s, e); }
    else if e.Response? { HandedResponse(s, e); }
    else if e.ClientFailed? || e.TimerCFires? || e.CancelFails? { HandedFailure(s, e); }
    else { SameHanded(s.calls, Handled(s, e).calls); }
    SameHanded(Handled(s, e).calls, Step(s, e).calls);
  }

  /** Nothing but 101 to 699 is ever handed over. */
  lemma {:induction false} HandedAlways(es: seq<Event>)
    requires forall i :: 0 <= i < |es| ==> StatusOk(es[i])
    ensures HandedOk(Run(Init, es).calls)
  {
    if es != [] {
      HandedAlways(es[..|es|-1]);
      HandedStep(Run(Init, es[..|es|-1]), es[|es|-1]);
    }
  }

  // What the server transaction makes of it

  /** The statuses of the messages among the events. */
  function Statuses(feed: seq<S.Event>): seq<int> {
    if feed == [] then []
    else
      var last := feed[|feed|-1];
      Statuses(feed[..|feed|-1]) + (if last.FromUser? then [last.msg.status] else [])
  }

  /** The transaction gets the responses handed to it, in order, and its own timers; the
      last response is the last event. */
  ghost predicate Feeds(feed: seq<S.Event>, handed: seq<int>) {
    && (forall i :: 0 <= i < |feed| ==> feed[i].Timer? || (feed[i].FromUser? && feed[i].msg.response))
    && feed != [] && feed[|feed|-1].FromUser?
    && Statuses(feed) == handed
  }

  lemma {:induction false} StatusIn(feed: seq<S.Event>, i: nat)
    requires i < |feed| && feed[i].FromUser?
    ensures feed[i].msg.status in Statuses(feed)
  {
    if i < |feed| - 1 { StatusIn(feed[..|feed|-1], i); }
  }

  /** A caller whose INVITE was handed a final response in a conforming run gets exactly that
      one, or, if it is above 600 and a provisional response or the transaction's own 100
      went out before it, no final response at all, whatever follows. */
  lemma CallerGetsFinal(tm: T.Timing, es: seq<Event>, txn: nat, feed: seq<S.Event>, after: seq<S.Event>)
    requires ProxyRuns.ConformingRun(es) && forall i :: 0 <= i < |es| ==> StatusOk(es[i])
    requires txn < |Run(Init, es).calls.keys| && Run(Init, es).calls.keys[txn].reqMethod == "INVITE"
    requires txn < |Run(Init, es).calls.handed| && Feeds(feed, Run(Init, es).calls.handed[txn])
    requires ProxySafety.Finals(Run(Init, es).calls.handed[txn]) == 1
    ensures var handed, c := Run(Init, es).calls.handed[txn], S.InviteRun(tm, feed + after);
            var final := handed[|handed|-1];
            && final >= 200
            && (c.finalRes.Some? <==> |feed| == 1 || final <= 600)
            && (c.finalRes.Some? ==> c.finalRes.value.status == final && c.finalRes.value in c.sent)
            && (c.finalRes.None? ==> forall i :: 0 <= i < |c.sent| ==> T.Provisional(c.sent[i]))
  {
    hide ProxySafety.Finals;
    ProxyRuns.AnsweredAtMostOnce(es);
    HandedAlways(es);
    var handed := Run(Init, es).calls.handed[txn];
    var before, last := feed[..|feed|-1], feed[|feed|-1];
    assert handed == Statuses(before) + [last.msg.status];
    OneFinalIsLast(Statuses(before), last.msg.status);
    assert Handable(handed[|handed|-1]);
    forall i | 0 <= i < |before| ensures S.Waits(before[i]) {
      if before[i].FromUser? {
        StatusIn(before, i);
        var k :| 0 <= k < |Statuses(before)| && Statuses(before)[k] == before[i].msg.status;
        assert handed[k] == before[i].msg.status && Handable(handed[k]);
      }
    }
    assert feed == before + [S.FromUser(last.msg)];
    S.CallerAnswered(tm, before, last.msg, after);
  }

  lemma OneFinalIsLast(statuses: seq<int>, status: int)
    requires ProxySafety.ProvisionalsThenFinal(statuses + [status]) && ProxySafety.Finals(statuses + [status]) == 1
    ensures status >= 200 && forall i :: 0 <= i < |statuses| ==> statuses[i] < 200
  {
    forall i | 0 <= i < |statuses| ensures statuses[i] < 200 {
      assert (statuses + [status])[i] == statuses[i];
    }
    NoneBelow(statuses);
    ProxySafety.FinalsAppend(statuses, status);
  }

  lemma {:induction false} NoneBelow(statuses: seq<int>)
    requires forall i :: 0 <= i < |statuses| ==> statuses[i] < 200
    ensures ProxySafety.Finals(statuses) == 0
  {
    if statuses != [] { NoneBelow(statuses[..|statuses|-1]); }
  }

  /** Both happen: in this conforming run the call is declined, the transaction's own 100
      went out before, and the caller never hears of it. */
  lemma DeclinedUnheard(tm: T.Timing, k: ServerKey, call: string, ct: ClientKey, next: ClientKey, after: seq<S.Event>)
    requires OfInvite(ct) && call != "" && next != ct && k.reqMethod == "INVITE"
    ensures var es := [Invite(k, call, 70, ByRequestUri(Routed), ct, true, true),
                       Response(ct, call, 603, true, true, Redirect(false, 0, Routed, next))];
            var feed := [S.Timer(T.First), S.FromUser(T.Message(false, true, "INVITE", 603, 0))];
            && ProxyRuns.ConformingRun(es) && Run(Init, es).calls.handed == [[603]] && Run(Init, es).calls.keys == [k] && Feeds(feed, [603])
            && S.InviteRun(tm, feed + after).sent == [S.Trying100]
  {
    var e1, e2 := Invite(k, call, 70, ByRequestUri(Routed), ct, true, true), Response(ct, call, 603, true, true, Redirect(false, 0, Routed, next));
    var es := [e1, e2];
    DeclinedRun(k, call, ct, next);
    S.DeclineIsLost(tm, 0, after);
    var feed := [S.Timer(T.First), S.FromUser(T.Message(false, true, "INVITE", 603, 0))];
    assert feed[..1] == [feed[0]] && feed[..1][..0] == [];
    assert Statuses(feed[..1]) == [];
  }

  lemma DeclinedRun(k: ServerKey, call: string, ct: ClientKey, next: ClientKey)
    requires OfInvite(ct) && call != "" && next != ct
    ensures var es := [Invite(k, call, 70, ByRequestUri(Routed), ct, true, true),
                       Response(ct, call, 603, true, true, Redirect(false, 0, Routed, next))];
            ProxyRuns.ConformingRun(es) && Run(Init, es).calls.handed == [[603]] && Run(Init, es).calls.keys == [k]
  {
    hide Step;
    var e1, e2 := Invite(k, call, 70, ByRequestUri(Routed), ct, true, true), Response(ct, call, 603, true, true, Redirect(false, 0, Routed, next));
    var es := [e1, e2];
    assert es[..0] == [] && es[..1] == es[..0] + [e1] && es == es[..1] + [e2];
    ProxyRuns.RunAppend(es[..0], e1);
    ProxyRuns.RunAppend(es[..1], e2);
    ProxyPanics.FirstForwarded(k, call, ct);
    var s1 := Step(Init, e1);
    ProxyRuns.FinalPasses(s1, e2);
    var none: seq<int> := [];
    assert none + [603] == [603];
    assert ProxyRuns.Conforming(Init, e1);
    assert ProxyRuns.Conforming(s1, e2);
  }
}
