/** Safety of the proxy core over whole runs: no server transaction is ever answered
    twice, Timer C never panics or blocks, and exactly which step can break this. */
module ProxySafety {
  import opened ResponseContexts
  import opened ProxyCore

  /** The number of final responses in a list of statuses. */
  function Finals(statuses: seq<int>): nat {
    if statuses == [] then 0
    else Finals(statuses[..|statuses|-1]) + (if statuses[|statuses|-1] >= 200 then 1 else 0)
  }

  /** Provisional responses, then at most one final one, as the very last. */
  ghost predicate ProvisionalsThenFinal(statuses: seq<int>) {
    forall i :: 0 <= i < |statuses| - 1 ==> statuses[i] < 200
  }

  lemma {:induction false} NoFinalMeansProvisional(statuses: seq<int>)
    requires Finals(statuses) == 0
    ensures forall i :: 0 <= i < |statuses| ==> statuses[i] < 200
  {
    if statuses != [] {
      NoFinalMeansProvisional(statuses[..|statuses|-1]);
    }
  }

  lemma FinalsAppend(statuses: seq<int>, status: int)
    ensures Finals(statuses + [status]) == Finals(statuses) + (if status >= 200 then 1 else 0)
    ensures Finals(statuses) == 0 ==> ProvisionalsThenFinal(statuses + [status])
  {
    assert (statuses + [status])[..|statuses|] == statuses;
    if Finals(statuses) == 0 { NoFinalMeansProvisional(statuses); }
  }

  /** The live branches of transaction `txn`. */
  ghost function Owned(c: Calls, txn: nat): set<ClientKey> {
    set ct | ct in c.bindings && c.bindings[ct] in c.latest && c.latest[c.bindings[ct]] == txn
  }

  /** One transaction's account: it has been given its one final response, or lost it for
      want of a Via, or still has its one live branch. */
  ghost predicate Settled(c: Calls, txn: nat)
    requires txn < |c.handed| == |c.dropped|
  {
    && Finals(c.handed[txn]) + c.dropped[txn] + |Owned(c, txn)| == 1
    && ProvisionalsThenFinal(c.handed[txn])
  }

  ghost predicate Ledger(c: Calls) {
    |c.dropped| == |c.handed| &&
    forall txn :: 0 <= txn < |c.handed| ==> Settled(c, txn)
  }

  /** A branch belongs to the newest transaction of its server key, which is the one in
      the server table, if any is. */
  ghost predicate Linked(c: Calls) {
    && (forall ct :: ct in c.bindings ==> ct in c.used && c.bindings[ct] in c.latest)
    && |c.keys| == |c.handed|
    && (forall st :: st in c.latest ==> c.latest[st] < |c.handed| && c.keys[c.latest[st]] == st)
    && (forall st :: st in c.servers ==> st in c.latest && c.servers[st] == c.latest[st])
  }

  /** Timer C goroutines and pending CANCELs answer the transaction their branch serves. */
  ghost predicate Aimed(c: Calls, t: Timers) {
    && (forall ct :: ct in t.waiting ==> AimedAt(c, ct, t.waiting[ct].txn))
    && (forall p :: p in c.cancels ==> AimedAt(c, p.aim, p.txn))
  }

  ghost predicate AimedAt(c: Calls, ct: ClientKey, txn: nat) {
    && ct in c.used
    && (ct in c.bindings && c.bindings[ct] in c.latest ==> c.latest[c.bindings[ct]] == txn)
  }

  ghost predicate Balanced(c: Calls) {
    Ledger(c) && Linked(c)
  }

  ghost predicate Good(s: Core) {
    Balanced(s.calls) && Aimed(s.calls, s.timers)
  }

  /** Whatever was aimed right in `c` still is in `n`. */
  ghost predicate KeepsAim(c: Calls, n: Calls) {
    && n.cancels <= c.cancels
    && forall ct, txn :: AimedAt(c, ct, txn) ==> AimedAt(n, ct, txn)
  }

  /** Client keys are drawn at random and never repeat; a request answered on the spot
      is answered with a final status. */
  predicate Fresh(s: Core, e: Event) {
    && (e.Invite? || e.InDialog? ==> e.ct !in s.calls.used)
    && (e.Response? ==> e.redirect.ct !in s.calls.used)
    && (e.Immediate? ==> e.status >= 200)
  }

  /** A request takes the key of a server transaction that has left its table while one
      of that transaction's branches is still live. */
  predicate Reuses(s: Core, e: Event) {
    IsRequest(e) && e.st !in s.calls.servers && e.st in s.calls.bindings.Values
  }

  // One lemma per way a handler moves a branch or an answer

  lemma {:induction false} SubsetSize(a: set<ClientKey>, b: set<ClientKey>)
    requires a <= b
    ensures |a| <= |b|
    decreases a
  {
    if a != {} {
      var x :| x in a;
      SubsetSize(a - {x}, b - {x});
    }
  }

  /** A live branch is its transaction's only one, and nothing final was handed yet. */
  lemma SingleBranch(c: Calls, ct: ClientKey)
    requires Balanced(c) && ct in c.bindings
    ensures var mine := c.latest[c.bindings[ct]];
            Owned(c, mine) == {ct} && LastBranch(c, ct)
            && Finals(c.handed[mine]) == 0 == c.dropped[mine]
  {
    var mine := c.latest[c.bindings[ct]];
    var own := Owned(c, mine);
    assert Settled(c, mine);
    forall b | b in own && b != ct ensures false {
      assert |{b, ct}| == 2;
      SubsetSize({b, ct}, own);
    }
    assert own == {ct};
    assert Branches(c.bindings - {ct}, c.bindings[ct]) <= own - {ct};
  }

  /** A new transaction, still without branch or answer. */
  lemma Opened(c: Calls, st: ServerKey)
    requires Balanced(c) && st !in c.bindings.Values
    ensures var n := Open(c, st);
            && Linked(n)
            && (forall txn :: 0 <= txn < |c.handed| ==> Settled(n, txn))
            && Owned(n, |c.handed|) == {} && Finals(n.handed[|c.handed|]) == 0
            && n.dropped[|c.handed|] == 0
  {
    var n := Open(c, st);
    forall txn | 0 <= txn < |c.handed| ensures Settled(n, txn) {
      assert Settled(c, txn);
      forall ct | ct in c.bindings ensures c.bindings[ct] != st { assert c.bindings[ct] in c.bindings.Values; }
      assert Owned(n, txn) == Owned(c, txn);
    }
    forall ct | ct in c.bindings ensures c.bindings[ct] != st { assert c.bindings[ct] in c.bindings.Values; }
    assert Owned(n, |c.handed|) == {};
  }

  /** A request rejected or answered on the spot. */
  lemma AnswerAtOnce(c: Calls, st: ServerKey, status: int)
    requires Balanced(c) && st !in c.bindings.Values && status >= 200
    ensures var n := Hand(Open(c, st), |c.handed|, status);
            Balanced(n) && KeepsAim(c, n)
  {
    Opened(c, st);
    var m, n := Open(c, st), Hand(Open(c, st), |c.handed|, status);
    FinalsAppend([], status);
    forall txn | 0 <= txn < |n.handed| ensures Settled(n, txn) {
      assert Owned(n, txn) == Owned(m, txn);
      if txn < |c.handed| { assert Settled(m, txn); } else { assert n.handed[txn] == [] + [status]; }
    }
  }

  /** A request forwarded on a fresh branch. */
  lemma OpenBranch(c: Calls, st: ServerKey, ct: ClientKey, call: string)
    requires Balanced(c) && st !in c.bindings.Values && ct !in c.used
    ensures var n := Branch(Open(c, st), st, ct, call);
            Balanced(n) && KeepsAim(c, n) && AimedAt(n, ct, |c.handed|)
  {
    Opened(c, st);
    var m, n := Open(c, st), Branch(Open(c, st), st, ct, call);
    assert Linked(n);
    OwnedBranch(m, st, ct, call);
    forall txn | 0 <= txn < |n.handed| ensures Settled(n, txn) {
      if txn < |c.handed| { assert Settled(m, txn); } else { assert n.handed[txn] == []; }
    }
  }

  lemma OwnedBranch(c: Calls, st: ServerKey, ct: ClientKey, call: string)
    requires ct !in c.bindings && st in c.latest
    ensures forall txn: nat :: Owned(Branch(c, st, ct, call), txn) == Owned(c, txn) + (if txn == c.latest[st] then {ct} else {})
  {
  }

  lemma OwnedDrop(c: Calls, ct: ClientKey, txn: nat)
    ensures Owned(Drop(c, ct), txn) == Owned(c, txn) - {ct}
  {
  }

  /** The branch goes and its transaction gets the final response. */
  lemma AnswerBranch(c: Calls, ct: ClientKey, status: int)
    requires Balanced(c) && ct in c.bindings && status >= 200
    ensures var n := Hand(Drop(c, ct), c.latest[c.bindings[ct]], status);
            Balanced(n) && KeepsAim(c, n)
  {
    SingleBranch(c, ct);
    var mine := c.latest[c.bindings[ct]];
    var n := Hand(Drop(c, ct), mine, status);
    FinalsAppend(c.handed[mine], status);
    forall txn | 0 <= txn < |n.handed| ensures Settled(n, txn) {
      assert Settled(c, txn);
      OwnedDrop(c, ct, txn);
      assert Owned(n, txn) == Owned(Drop(c, ct), txn);
    }
  }

  /** The branch goes with its final response, which cannot be handed on. */
  lemma LoseBranch(c: Calls, ct: ClientKey, status: int)
    requires Balanced(c) && ct in c.bindings && status >= 200
    ensures var n := PassOn(Drop(c, ct), c.latest[c.bindings[ct]], status, false);
            Balanced(n) && KeepsAim(c, n)
  {
    SingleBranch(c, ct);
    var n := PassOn(Drop(c, ct), c.latest[c.bindings[ct]], status, false);
    forall txn | 0 <= txn < |n.handed| ensures Settled(n, txn) {
      assert Settled(c, txn);
      OwnedDrop(c, ct, txn);
      assert Owned(n, txn) == Owned(Drop(c, ct), txn);
    }
  }

  lemma LinkedReplace(c: Calls, ct: ClientKey, next: ClientKey, call: string)
    requires Linked(c) && ct in c.bindings && next !in c.used
    ensures var n := Branch(Drop(c, ct), c.bindings[ct], next, call);
            Linked(n) && KeepsAim(c, n) && AimedAt(n, next, c.latest[c.bindings[ct]])
  {
  }

  /** A redirected call: the branch is replaced by a fresh one. */
  lemma ReplaceBranch(c: Calls, ct: ClientKey, next: ClientKey, call: string)
    requires Balanced(c) && ct in c.bindings && next !in c.used
    ensures var n := Branch(Drop(c, ct), c.bindings[ct], next, call);
            Balanced(n) && KeepsAim(c, n) && AimedAt(n, next, c.latest[c.bindings[ct]])
  {
    SingleBranch(c, ct);
    LinkedReplace(c, ct, next, call);
    assert next !in c.bindings && c.bindings[ct] in c.latest;
    var n := Branch(Drop(c, ct), c.bindings[ct], next, call);
    OwnedBranch(Drop(c, ct), c.bindings[ct], next, call);
    hide Linked, KeepsAim, AimedAt;
    forall txn | 0 <= txn < |n.handed| ensures Settled(n, txn) {
      assert Settled(c, txn);
      OwnedDrop(c, ct, txn);
    }
  }

  /** A provisional response passes to the transaction of its live branch. */
  lemma PassProvisional(c: Calls, ct: ClientKey, status: int, hasVia: bool)
    requires Balanced(c) && ct in c.bindings && status < 200
    ensures var n := PassOn(c, c.latest[c.bindings[ct]], status, hasVia);
            Balanced(n) && KeepsAim(c, n)
  {
    SingleBranch(c, ct);
    var mine := c.latest[c.bindings[ct]];
    var n := PassOn(c, mine, status, hasVia);
    FinalsAppend(c.handed[mine], status);
    forall txn | 0 <= txn < |n.handed| ensures Settled(n, txn) {
      assert Settled(c, txn);
      assert Owned(n, txn) == Owned(c, txn);
    }
  }

  /** Steps that only touch the client table, pending CANCELs, or take server entries away. */
  lemma Frame(c: Calls, n: Calls)
    requires Balanced(c)
    requires n.bindings == c.bindings && n.latest == c.latest && n.handed == c.handed && n.dropped == c.dropped
    requires n.used == c.used && n.keys == c.keys
    requires forall st :: st in n.servers ==> st in c.servers && n.servers[st] == c.servers[st]
    ensures Balanced(n) && (n.cancels <= c.cancels ==> KeepsAim(c, n))
  {
    forall txn | 0 <= txn < |n.handed| ensures Settled(n, txn) {
      assert Settled(c, txn);
      assert Owned(n, txn) == Owned(c, txn);
    }
  }

  lemma CloseContextBalanced(c: Calls, txn: nat, ct: ClientKey, status: int)
    requires Balanced(c) && status >= 200 && AimedAt(c, ct, txn)
    ensures Balanced(CloseContext(c, txn, ct, status)) && KeepsAim(c, CloseContext(c, txn, ct, status))
  {
    if ct in c.bindings {
      SingleBranch(c, ct);
      AnswerBranch(c, ct, status);
    } else {
      assert c.bindings - {ct} == c.bindings;
      Frame(c, Drop(c, ct));
    }
  }

  lemma Retarget(c: Calls, n: Calls, t: Timers)
    requires Aimed(c, t) && KeepsAim(c, n)
    ensures Aimed(n, t)
  {
  }

  lemma RetargetStart(c: Calls, n: Calls, t: Timers, txn: nat, ct: ClientKey)
    requires Aimed(c, t) && KeepsAim(c, n) && AimedAt(n, ct, txn)
    ensures Aimed(n, Start(t, txn, ct))
  {
  }

  lemma RetargetCancels(c: Calls, n: Calls, t: Timers, more: set<PendingCancel>)
    requires Aimed(c, t) && KeepsAim(c, n)
    requires forall p :: p in more ==> AimedAt(n, p.aim, p.txn)
    ensures Aimed(n.(cancels := n.cancels + more), t)
  {
  }

  // One lemma per handler

  lemma GoodInvite(s: Core, e: Event)
    requires Good(s) && Fresh(s, e) && e.Invite? && e.st !in s.calls.bindings.Values
    ensures Good(OnInvite(s, e))
  {
    hide Balanced, Aimed, AimedAt, KeepsAim;
    var n, status := OnInvite(s, e), ForwardStatus(e.maxForwards, e.hop);
    var c := Record(s.calls, e.call, Entry(status == 0, false, e.partiesOk));
    Frame(s.calls, c);
    Retarget(s.calls, c, s.timers);
    if status != 0 {
      AnswerAtOnce(c, e.st, status);
      Retarget(c, n.calls, s.timers);
    } else {
      OpenBranch(c, e.st, e.ct, e.call);
      RetargetStart(c, n.calls, s.timers, |c.handed|, e.ct);
    }
  }

  lemma GoodInDialog(s: Core, e: Event)
    requires Good(s) && Fresh(s, e) && e.InDialog? && e.st !in s.calls.bindings.Values
    ensures Good(s.(calls := OnInDialog(s.calls, e)))
  {
    hide Balanced, Aimed, AimedAt, KeepsAim;
    var c, n, status := s.calls, OnInDialog(s.calls, e), ForwardStatus(e.maxForwards, ByRouteHeader(e.route));
    if e.call !in c.callStates { AnswerAtOnce(c, e.st, NO_CALL_LEG); }
    else if status != 0 { AnswerAtOnce(c, e.st, status); }
    else { OpenBranch(c, e.st, e.ct, e.call); }
    Retarget(c, n, s.timers);
  }

  /** The branches a CANCEL finds belong to the newest transaction of the INVITE's key. */
  lemma CancelledAimed(c: Calls, n: Calls, st: ServerKey, cts: set<ClientKey>)
    requires Balanced(c) && KeepsAim(c, n) && st in c.servers && cts == Branches(c.bindings, st)
    ensures forall ct :: ct in cts ==> AimedAt(n, ct, c.servers[st])
  {
  }

  lemma GoodCancel(s: Core, e: Event)
    requires Good(s) && e.Cancel? && e.st !in s.calls.bindings.Values
    ensures Good(OnCancel(s, e))
  {
    hide Balanced, Aimed, AimedAt, KeepsAim;
    var c, target, n := s.calls, CancelTarget(e.st), OnCancel(s, e);
    var cts := Branches(c.bindings, target);
    if CancelCrashes(c, e) {
    } else if cts == {} {
      AnswerAtOnce(c, e.st, NO_CALL_LEG);
      Retarget(c, n.calls, s.timers);
    } else {
      var ct0 :| ct0 in cts;
      assert c.bindings[ct0] in c.bindings.Values;
      AnswerAtOnce(c, e.st, OK);
      var mid := Hand(Open(c, e.st), |c.handed|, OK);
      CancelledAimed(c, mid, target, cts);
      var more := CancelsFor(cts, e.last, c.servers[target]);
      assert n.calls == mid.(cancels := mid.cancels + more);
      RetargetCancels(c, mid, s.timers, more);
      Frame(mid, n.calls);
    }
  }

  lemma GoodRedirected(s: Core, ct: ClientKey, call: string, r: Redirect)
    requires Good(s) && ct in s.calls.bindings && s.calls.bindings[ct] in s.calls.latest && r.ct !in s.calls.used
    ensures Good(Redirected(s.(calls := Drop(s.calls, ct)), s.calls.bindings[ct], s.calls.latest[s.calls.bindings[ct]], call, r))
  {
    hide Balanced, Aimed, AimedAt, KeepsAim;
    var c, st := s.calls, s.calls.bindings[ct];
    var n := Redirected(s.(calls := Drop(c, ct)), st, c.latest[st], call, r);
    if !r.contactOk { AnswerBranch(c, ct, NOT_FOUND); Retarget(c, n.calls, s.timers); }
    else if r.maxForwards - 1 <= 0 { AnswerBranch(c, ct, TOO_MANY_HOPS); Retarget(c, n.calls, s.timers); }
    else if RouteStatus(r.routing) != 0 { AnswerBranch(c, ct, RouteStatus(r.routing)); Retarget(c, n.calls, s.timers); }
    else {
      ReplaceBranch(c, ct, r.ct, call);
      RetargetStart(c, n.calls, s.timers, c.latest[st], r.ct);
    }
  }

  /** A response that is not ignored finds its branch's own transaction in the table. */
  lemma NotIgnored(c: Calls, e: Event)
    requires Balanced(c) && e.Response? && !Ignored(c, e)
    ensures e.ct in c.bindings && c.bindings[e.ct] in c.servers && c.bindings[e.ct] in c.latest
    ensures c.servers[c.bindings[e.ct]] == c.latest[c.bindings[e.ct]]
  {
  }

  lemma GoodStopped(s: Core, ct: ClientKey, n: Calls)
    requires Balanced(n) && Aimed(n, s.timers)
    ensures Good(Core(n, StopBoth(s.timers, ct), s.crashed)) && Good(Core(n, SendUpdate(s.timers, ct), s.crashed))
    ensures Good(s.(calls := n))
  {
    hide Balanced, AimedAt;
  }

  lemma GoodPassed(s: Core, ct: ClientKey, n: Calls)
    requires Good(s) && Balanced(n) && KeepsAim(s.calls, n)
    ensures Good(Core(n, StopBoth(s.timers, ct), s.crashed)) && Good(Core(n, SendUpdate(s.timers, ct), s.crashed))
    ensures Good(s.(calls := n))
  {
    hide Balanced, Aimed, AimedAt, KeepsAim, StopBoth, SendUpdate;
    Retarget(s.calls, n, s.timers);
    GoodStopped(s, ct, n);
  }

  lemma GoodResponse(s: Core, e: Event)
    requires Good(s) && e.Response? && Fresh(s, e)
    ensures Good(OnResponse(s, e))
  {
    hide Balanced, Aimed, AimedAt, KeepsAim, StopBoth, SendUpdate, Hand, Redirected;
    var c := s.calls;
    if Ignored(c, e) || e.status == TRYING || (OfInvite(e.ct) && RedirectCrashes(c, e)) { return; }
    NotIgnored(c, e);
    var txn := c.latest[c.bindings[e.ct]];
    if e.status < 200 {
      PassProvisional(c, e.ct, e.status, e.hasVia);
      GoodPassed(s, e.ct, PassOn(c, txn, e.status, e.hasVia));
    } else if OfInvite(e.ct) && 300 <= e.status < 400 {
      GoodStopped(s, e.ct, c);
      GoodRedirected(s.(timers := StopBoth(s.timers, e.ct)), e.ct, e.call, e.redirect);
    } else {
      if e.hasVia { AnswerBranch(c, e.ct, e.status); } else { LoseBranch(c, e.ct, e.status); }
      GoodPassed(s, e.ct, PassOn(Drop(c, e.ct), txn, e.status, e.hasVia));
    }
  }

  lemma GoodClientFailed(s: Core, e: Event)
    requires Good(s) && e.ClientFailed?
    ensures Good(OnClientFailed(s, e))
  {
    var c := s.calls.(clients := s.calls.clients - {e.ct});
    Frame(s.calls, c);
    Retarget(s.calls, c, s.timers);
    if e.ct in s.calls.clients && e.ct in c.bindings && c.bindings[e.ct] in c.servers {
      assert AimedAt(c, e.ct, c.servers[c.bindings[e.ct]]);
      FailedContext(s.(calls := c), e);
    }
  }

  lemma FailedContext(s: Core, e: Event)
    requires Good(s) && e.ClientFailed? && e.ct in s.calls.bindings && s.calls.bindings[e.ct] in s.calls.servers
    requires AimedAt(s.calls, e.ct, s.calls.servers[s.calls.bindings[e.ct]])
    ensures Good(Core(CloseContext(s.calls, s.calls.servers[s.calls.bindings[e.ct]], e.ct,
                        if e.timedOut then REQUEST_TIMEOUT else INTERNAL_ERROR),
                      StopOne(s.timers, e.ct), s.crashed))
  {
    hide Balanced, AimedAt, KeepsAim;
    var c := s.calls;
    var txn, status := c.servers[c.bindings[e.ct]], if e.timedOut then REQUEST_TIMEOUT else INTERNAL_ERROR;
    CloseContextBalanced(c, txn, e.ct, status);
    Retarget(c, CloseContext(c, txn, e.ct, status), s.timers);
  }

  lemma GoodTimerC(s: Core, e: Event)
    requires Good(s) && e.TimerCFires?
    ensures Good(OnTimerC(s, e))
  {
    hide Balanced, AimedAt, KeepsAim;
    if e.ct !in s.timers.waiting || DestroyCrashes(s, e) { return; }
    var c, txn, n := s.calls, s.timers.waiting[e.ct].txn, OnTimerC(s, e);
    if e.provisional && e.cancelOk {
      Frame(c, c);
      RetargetCancels(c, c, s.timers, {PendingCancel(e.ct, e.ct, txn)});
      Frame(c, n.calls);
    } else if e.provisional {
      var gone := c.(clients := c.clients - {e.ct});
      Frame(c, gone);
      Retarget(c, gone, s.timers);
      CloseContextBalanced(gone, txn, e.ct, REQUEST_TIMEOUT);
      Retarget(gone, n.calls, s.timers);
    } else {
      CloseContextBalanced(c, txn, e.ct, REQUEST_TIMEOUT);
      Retarget(c, n.calls, s.timers);
    }
  }

  lemma GoodCancelFails(s: Core, e: Event)
    requires Good(s) && e.CancelFails?
    ensures Good(s.(calls := OnCancelFails(s.calls, e)))
  {
    hide Balanced, AimedAt, KeepsAim;
    var p := e.cancel;
    if p in s.calls.cancels {
      var c := s.calls.(cancels := s.calls.cancels - {p});
      var status := if e.timedOut then REQUEST_TIMEOUT else REQUEST_TERMINATED;
      Frame(s.calls, c);
      Retarget(s.calls, c, s.timers);
      StillAimed(s.calls, c, p);
      CloseContextBalanced(c, p.txn, p.aim, status);
      Retarget(c, CloseContext(c, p.txn, p.aim, status), s.timers);
    }
  }

  lemma StillAimed(c: Calls, n: Calls, p: PendingCancel)
    requires KeepsAim(c, n) && AimedAt(c, p.aim, p.txn)
    ensures AimedAt(n, p.aim, p.txn)
  {
  }

  lemma GoodHandled(s: Core, e: Event)
    requires Good(s) && Fresh(s, e) && !Reuses(s, e) && !Absorbed(s.calls, e)
    ensures Good(Handled(s, e))
  {
    hide Balanced, AimedAt, KeepsAim;
    match e {
      case Invite(_, _, _, _, _, _, _) => GoodInvite(s, e);
      case InDialog(_, _, _, _, _) => GoodInDialog(s, e);
      case Immediate(st, _, status, _) =>
        AnswerAtOnce(s.calls, st, status);
        Retarget(s.calls, Handled(s, e).calls, s.timers);
      case Cancel(_, _, _, _) => GoodCancel(s, e);
      case Ack(_, _, _, _) =>
      case Response(_, _, _, _, _, _) => GoodResponse(s, e);
      case ClientFailed(_, _) => GoodClientFailed(s, e);
      case ClientGone(_) =>
        Frame(s.calls, Handled(s, e).calls);
        Retarget(s.calls, Handled(s, e).calls, s.timers);
      case TimerCFires(_, _, _) => GoodTimerC(s, e);
      case TimerCStops(_) =>
      case CancelFails(_, _) => GoodCancelFails(s, e);
      case ServerGone(_) =>
        Frame(s.calls, Handled(s, e).calls);
        Retarget(s.calls, Handled(s, e).calls, s.timers);
      case CallForgotten(_) =>
        Frame(s.calls, Handled(s, e).calls);
        Retarget(s.calls, Handled(s, e).calls, s.timers);
    }
  }

  /** The call table has no part in the accounts. */
  lemma GoodNoted(c: Calls, e: Event, n: Core)
    requires Good(n)
    ensures Good(Noted(c, e, n))
  {
    hide Balanced, Aimed, AimedAt, KeepsAim;
    Frame(n.calls, Noted(c, e, n).calls);
    Retarget(n.calls, Noted(c, e, n).calls, n.timers);
  }

  lemma GoodStep(s: Core, e: Event)
    requires Good(s) && Fresh(s, e) && !Reuses(s, e)
    ensures Good(Step(s, e))
  {
    hide Balanced, Aimed, Handled, Misprints, Noted, Reuses;
    if !Halted(s) && !Absorbed(s.calls, e) && !Misprints(s.calls, e) {
      GoodHandled(s, e);
      GoodNoted(s.calls, e, Handled(s, e));
    }
  }

  /** `n` has one transaction more than `c`, the newest of key `st`, with an answer, or with
      the branch `ct` besides all those that were there. */
  ghost predicate Opens(c: Calls, n: Calls, st: ServerKey, ct: ClientKey) {
    && |n.handed| == |c.handed| + 1
    && st in n.latest && n.latest[st] == |c.handed|
    && (forall k :: k in c.bindings ==> k in n.bindings && n.bindings[k] == c.bindings[k])
    && if n.handed[|c.handed|] == []
       then ct !in c.bindings && ct in n.bindings && n.bindings[ct] == st
       else |n.handed[|c.handed|]| == 1 && n.handed[|c.handed|][0] >= 200
  }

  lemma AnswerOpens(c: Calls, st: ServerKey, status: int, ct: ClientKey)
    requires status >= 200
    ensures Opens(c, Hand(Open(c, st), |c.handed|, status), st, ct)
  {
  }

  lemma BranchOpens(c: Calls, st: ServerKey, ct: ClientKey, call: string)
    requires ct !in c.bindings
    ensures Opens(c, Branch(Open(c, st), st, ct, call), st, ct)
  {
  }

  lemma InviteOpens(s: Core, e: Event)
    requires e.Invite? && e.ct !in s.calls.bindings
    ensures Opens(s.calls, OnInvite(s, e).calls, e.st, e.ct)
  {
    hide Open, Hand, Branch;
    var status := ForwardStatus(e.maxForwards, e.hop);
    var c := Record(s.calls, e.call, Entry(status == 0, false, e.partiesOk));
    if status != 0 { AnswerOpens(c, e.st, status, e.ct); } else { BranchOpens(c, e.st, e.ct, e.call); }
  }

  lemma RequestOpens(s: Core, e: Event, ct: ClientKey)
    requires IsRequest(e) && Fresh(s, e) && !s.crashed && !Handled(s, e).crashed
    requires e.Invite? || e.InDialog? ==> ct == e.ct
    requires forall k :: k in s.calls.bindings ==> k in s.calls.used
    ensures Opens(s.calls, Handled(s, e).calls, e.st, ct)
  {
    hide Open, Hand, Branch;
    var c := s.calls;
    match e {
      case Invite(_, _, _, _, _, _, _) => InviteOpens(s, e);
      case InDialog(st, call, maxForwards, route, _) =>
        var status := ForwardStatus(maxForwards, ByRouteHeader(route));
        if call !in c.callStates { AnswerOpens(c, st, NO_CALL_LEG, ct); }
        else if status != 0 { AnswerOpens(c, st, status, ct); }
        else { BranchOpens(c, st, ct, call); }
      case Immediate(st, _, status, _) => AnswerOpens(c, st, status, ct);
      case Cancel(st, _, _, _) => AnswerOpens(c, st, OK, ct); AnswerOpens(c, st, NO_CALL_LEG, ct);
    }
  }

  /** A live branch of the key beside the new transaction's own answer or branch. */
  lemma OneTooMany(c: Calls, n: Calls, st: ServerKey, ct: ClientKey, live: ClientKey)
    requires Opens(c, n, st, ct) && live in c.bindings && c.bindings[live] == st
    ensures !Ledger(n)
  {
    if Ledger(n) {
      var txn, own := |c.handed|, Owned(n, |c.handed|);
      assert live in own;
      assert Settled(n, txn);
      SubsetSize({live}, own);
      if n.handed[txn] == [] {
        assert {live, ct} <= own && |{live, ct}| == 2;
        SubsetSize({live, ct}, own);
      }
      assert false;
    }
  }

  /** A key taken over while a branch is live leaves the new transaction with more than
      its one answer, branch or loss; only a panic stops before that. */
  lemma ReuseBreaks(s: Core, e: Event)
    requires Good(s) && Fresh(s, e) && Reuses(s, e) && !Halted(s)
    ensures Panics(s, e) || !Ledger(Step(s, e).calls)
  {
    hide Misprints, Closes, Shut, Ledger;
    if !Panics(s, e) {
      var live :| live in s.calls.bindings && s.calls.bindings[live] == e.st;
      var other := if e.Invite? || e.InDialog? then e.ct else live;
      NotCrashed(s, e);
      RequestOpens(s, e, other);
      hide Handled, Aimed;
      assert Opens(s.calls, Step(s, e).calls, e.st, other);
      OneTooMany(s.calls, Step(s, e).calls, e.st, other, live);
    }
  }

  lemma NotCrashed(s: Core, e: Event)
    requires IsRequest(e) && !Absorbed(s.calls, e) && !s.crashed && !Panics(s, e)
    ensures !Handled(s, e).crashed
  {
  }

  /** The exact condition, step by step: with fresh client keys the account of every
      server transaction stays balanced if and only if the step is not a request that
      takes over a key whose branch is still live (unless it panics on the way). */
  lemma GoodExactly(s: Core, e: Event)
    requires Good(s) && !Halted(s) && Fresh(s, e)
    ensures Good(Step(s, e)) <==> (Reuses(s, e) ==> Panics(s, e))
  {
    if Reuses(s, e) {
      ReuseBreaks(s, e);
      if Panics(s, e) { PanickedRequest(s, e); }
    } else {
      GoodStep(s, e);
    }
  }

  lemma PanickedRequest(s: Core, e: Event)
    requires Good(s) && IsRequest(e) && !Halted(s) && !Absorbed(s.calls, e) && Panics(s, e)
    ensures Good(Step(s, e))
  {
    hide Balanced, Aimed, Misprints, Closes, Shut;
    if !Misprints(s.calls, e) {
      assert Handled(s, e) == s.(crashed := true);
      GoodNoted(s.calls, e, s.(crashed := true));
    }
  }
}
