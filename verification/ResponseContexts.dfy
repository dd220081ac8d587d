/** The proxy's two-way index between server transactions and the client
    transactions forwarded on their behalf (proxy_core.go). */
module ResponseContexts {
  import opened Wrappers

  datatype ClientKey = ClientKey(viaBranch: string, cseqMethod: string)

  datatype ServerKey = ServerKey(viaBranch: string, sentBy: string, reqMethod: string)

  /** The two maps as one value. */
  datatype Index = Index(stToCt: map<ServerKey, set<ClientKey>>, ctToSt: map<ClientKey, ServerKey>)

  const EmptyIndex := Index(map[], map[])

  /** The client keys bound to `st`. */
  function Branches(bindings: map<ClientKey, ServerKey>, st: ServerKey): set<ClientKey> {
    set ct | ct in bindings && bindings[ct] == st
  }

  /** The one `stToCt` that agrees with `bindings`. */
  function Inverse(bindings: map<ClientKey, ServerKey>): map<ServerKey, set<ClientKey>> {
    map st | st in bindings.Values :: Branches(bindings, st)
  }

  ghost predicate Exact(ix: Index) {
    ix.stToCt == Inverse(ix.ctToSt)
  }

  function Bind(ix: Index, st: ServerKey, ct: ClientKey): Index {
    var before := if st in ix.stToCt then ix.stToCt[st] else {};
    Index(ix.stToCt[st := before + {ct}], ix.ctToSt[ct := st])
  }

  function Unbind(ix: Index, ct: ClientKey): Index {
    if ct !in ix.ctToSt then ix
    else
      var st := ix.ctToSt[ct];
      var rest := if st in ix.stToCt then ix.stToCt[st] - {ct} else {};
      Index(if rest == {} then ix.stToCt - {st} else ix.stToCt[st := rest], ix.ctToSt - {ct})
  }

  /** What `Remove` reports as `removeServerTransaction`. */
  predicate IsLast(ix: Index, ct: ClientKey) {
    ct in ix.ctToSt &&
    (ix.ctToSt[ct] in ix.stToCt ==> ix.stToCt[ix.ctToSt[ct]] - {ct} == {})
  }

  lemma InverseAt(bindings: map<ClientKey, ServerKey>, st: ServerKey)
    ensures st in Inverse(bindings) <==> Branches(bindings, st) != {}
    ensures st in Inverse(bindings) ==> Inverse(bindings)[st] == Branches(bindings, st)
  {
    if st in bindings.Values {
      var ct :| ct in bindings && bindings[ct] == st;
      assert ct in Branches(bindings, st);
    }
  }

  /** `Add` keeps the two maps inverse to each other exactly when the client key
      is not already bound to some other server key. */
  lemma BindExact(ix: Index, st: ServerKey, ct: ClientKey)
    requires Exact(ix)
    ensures Exact(Bind(ix, st, ct)) <==> (ct in ix.ctToSt ==> ix.ctToSt[ct] == st)
  {
    var next := Bind(ix, st, ct);
    if ct in ix.ctToSt && ix.ctToSt[ct] != st {
      var other := ix.ctToSt[ct];
      InverseAt(ix.ctToSt, other);
      assert ct in Branches(ix.ctToSt, other);
      assert ct in next.stToCt[other];
      InverseAt(next.ctToSt, other);
      assert ct !in Branches(next.ctToSt, other);
    } else {
      forall k ensures (k in next.stToCt <==> k in Inverse(next.ctToSt))
               && (k in next.stToCt ==> next.stToCt[k] == Inverse(next.ctToSt)[k]) {
        InverseAt(ix.ctToSt, k);
        InverseAt(next.ctToSt, k);
        assert Branches(next.ctToSt, k) == Branches(ix.ctToSt, k) + (if k == st then {ct} else {});
      }
    }
  }

  /** `Remove` keeps the maps inverse, and reports the last branch exactly when no
      other client key is bound to the same server key. */
  lemma UnbindExact(ix: Index, ct: ClientKey)
    requires Exact(ix)
    ensures Exact(Unbind(ix, ct)) && Unbind(ix, ct).ctToSt == ix.ctToSt - {ct}
    ensures IsLast(ix, ct) <==> ct in ix.ctToSt && ix.ctToSt[ct] !in (ix.ctToSt - {ct}).Values
    ensures IsLast(ix, ct) <==> ct in ix.ctToSt && ix.ctToSt[ct] !in Unbind(ix, ct).stToCt
  {
    if ct in ix.ctToSt {
      var st, next := ix.ctToSt[ct], Unbind(ix, ct);
      InverseAt(ix.ctToSt, st);
      assert ct in Branches(ix.ctToSt, st);
      forall k ensures (k in next.stToCt <==> k in Inverse(next.ctToSt))
               && (k in next.stToCt ==> next.stToCt[k] == Inverse(next.ctToSt)[k]) {
        InverseAt(ix.ctToSt, k);
        InverseAt(next.ctToSt, k);
        assert Branches(next.ctToSt, k) == Branches(ix.ctToSt, k) - {ct};
      }
      InverseAt(next.ctToSt, st);
    } else {
      assert ix.ctToSt - {ct} == ix.ctToSt;
    }
  }

  /** Every stored branch set is non-empty and made of keys bound to its server key. */
  lemma ExactMeans(ix: Index)
    requires Exact(ix)
    ensures forall st :: st in ix.stToCt ==> ix.stToCt[st] != {}
    ensures forall st, ct :: (st in ix.stToCt && ct in ix.stToCt[st]) <==> (ct in ix.ctToSt && ix.ctToSt[ct] == st)
  {
    forall st ensures st in ix.stToCt ==> ix.stToCt[st] != {} { InverseAt(ix.ctToSt, st); }
    forall st, ct ensures (st in ix.stToCt && ct in ix.stToCt[st]) <==> (ct in ix.ctToSt && ix.ctToSt[ct] == st) {
      InverseAt(ix.ctToSt, st);
      assert ct in Branches(ix.ctToSt, st) <==> (ct in ix.ctToSt && ix.ctToSt[ct] == st);
    }
  }

  /** The number of branches stored under the server keys in `keys`. */
  ghost function TotalBranches(stToCt: map<ServerKey, set<ClientKey>>, keys: set<ServerKey>): nat
    requires keys <= stToCt.Keys
  {
    if keys == {} then 0
    else
      var st :| st in keys;
      |stToCt[st]| + TotalBranches(stToCt, keys - {st})
  }

  lemma {:induction false} TotalIsBound(ix: Index, keys: set<ServerKey>)
    requires Exact(ix) && keys <= ix.stToCt.Keys
    ensures TotalBranches(ix.stToCt, keys) == |set ct | ct in ix.ctToSt && ix.ctToSt[ct] in keys|
    decreases keys
  {
    var bound := set ct | ct in ix.ctToSt && ix.ctToSt[ct] in keys;
    if keys == {} {
      assert bound == {};
    } else {
      var st :| st in keys && TotalBranches(ix.stToCt, keys) == |ix.stToCt[st]| + TotalBranches(ix.stToCt, keys - {st});
      TotalIsBound(ix, keys - {st});
      var rest := set ct | ct in ix.ctToSt && ix.ctToSt[ct] in keys - {st};
      assert ix.stToCt[st] == Branches(ix.ctToSt, st);
      assert bound == rest + Branches(ix.ctToSt, st) && rest !! Branches(ix.ctToSt, st);
    }
  }

  /** The sizes of the two halves agree. */
  lemma SizesAgree(ix: Index)
    requires Exact(ix)
    ensures TotalBranches(ix.stToCt, ix.stToCt.Keys) == |ix.ctToSt|
  {
    TotalIsBound(ix, ix.stToCt.Keys);
    var bound := set ct | ct in ix.ctToSt && ix.ctToSt[ct] in ix.stToCt.Keys;
    forall ct | ct in ix.ctToSt ensures ct in bound { assert ix.ctToSt[ct] in ix.ctToSt.Values; }
    assert bound == ix.ctToSt.Keys;
  }

  // Runs of index operations

  datatype Op = AddOp(st: ServerKey, ct: ClientKey) | RemoveOp(ct: ClientKey)

  function Apply(ix: Index, op: Op): Index {
    match op
    case AddOp(st, ct) => Bind(ix, st, ct)
    case RemoveOp(ct) => Unbind(ix, ct)
  }

  function Replay(ops: seq<Op>): Index {
    if ops == [] then EmptyIndex else Apply(Replay(ops[..|ops|-1]), ops[|ops|-1])
  }

  /** No step of the run rebinds a client key to another server key. */
  ghost predicate Admissible(ops: seq<Op>) {
    forall i :: 0 <= i < |ops| && ops[i].AddOp? && ops[i].ct in Replay(ops[..i]).ctToSt
      ==> Replay(ops[..i]).ctToSt[ops[i].ct] == ops[i].st
  }

  /** How often the run created an entry for `st`. */
  function Created(ops: seq<Op>, st: ServerKey): nat {
    if ops == [] then 0
    else
      var before, op := ops[..|ops|-1], ops[|ops|-1];
      Created(before, st) + (if op.AddOp? && op.st == st && st !in Replay(before).stToCt then 1 else 0)
  }

  /** How often `Remove` reported the last branch of `st`. */
  function LastReports(ops: seq<Op>, st: ServerKey): nat {
    if ops == [] then 0
    else
      var before, op := ops[..|ops|-1], ops[|ops|-1];
      var ix := Replay(before);
      LastReports(before, st) + (if op.RemoveOp? && IsLast(ix, op.ct) && ix.ctToSt[op.ct] == st then 1 else 0)
  }

  /** Over every admissible run the maps stay inverse, and each creation of a server
      key is matched by one "last branch" report, except one still outstanding. */
  lemma {:induction false} LastReportsMatchCreations(ops: seq<Op>, st: ServerKey)
    requires Admissible(ops)
    ensures Exact(Replay(ops))
    ensures Created(ops, st) == LastReports(ops, st) + (if st in Replay(ops).stToCt then 1 else 0)
  {
    if ops == [] {
      assert Inverse(map[]) == map[];
    } else {
      var before, op := ops[..|ops|-1], ops[|ops|-1];
      forall i | 0 <= i < |before| ensures before[..i] == ops[..i] {}
      LastReportsMatchCreations(before, st);
      var ix := Replay(before);
      match op {
        case AddOp(k, ct) =>
          BindExact(ix, k, ct);
        case RemoveOp(ct) =>
          UnbindExact(ix, ct);
      }
    }
  }

  class ResponseCtxs {
    var stToCt: map<ServerKey, set<ClientKey>>
    var ctToSt: map<ClientKey, ServerKey>

    function View(): Index
      reads this
    {
      Index(stToCt, ctToSt)
    }

    constructor ()
      ensures View() == EmptyIndex && Exact(View())
    {
      stToCt, ctToSt := map[], map[];
      new;
      assert Inverse(map[]) == map[];
    }

    method GetStFromCt(ct: ClientKey) returns (st: Option<ServerKey>)
      ensures st == if ct in ctToSt then Some(ctToSt[ct]) else None
    {
      st := if ct in ctToSt then Some(ctToSt[ct]) else None;
    }

    method GetCtFromSt(st: ServerKey) returns (cts: Option<set<ClientKey>>)
      requires Exact(View())
      ensures cts == if Branches(ctToSt, st) == {} then None else Some(Branches(ctToSt, st))
    {
      InverseAt(ctToSt, st);
      cts := if st in stToCt then Some(stToCt[st]) else None;
    }

    method Add(st: ServerKey, ct: ClientKey) returns (ok: bool)
      modifies this
      ensures ok && View() == Bind(old(View()), st, ct)
      ensures old(Exact(View())) ==>
                (Exact(View()) <==> (ct in old(ctToSt) ==> old(ctToSt)[ct] == st))
    {
      ghost var ix := View();
      if st !in stToCt {
        stToCt := stToCt[st := {}];
      }
      stToCt := stToCt[st := stToCt[st] + {ct}];
      ctToSt := ctToSt[ct := st];
      if Exact(ix) { BindExact(ix, st, ct); }
      ok := true;
    }

    method Remove(ct: ClientKey) returns (complete: bool, found: bool, removeServerTransaction: bool)
      requires Exact(View())
      modifies this
      ensures Exact(View()) && View() == Unbind(old(View()), ct)
      ensures ctToSt == old(ctToSt) - {ct}
      ensures complete == found == (ct in old(ctToSt))
      ensures removeServerTransaction <==>
                ct in old(ctToSt) && Branches(ctToSt, old(ctToSt)[ct]) == {}
    {
      ghost var ix := View();
      UnbindExact(ix, ct);
      complete, found, removeServerTransaction := false, ct in ctToSt, false;
      if !found {
        return;
      }
      var st := ctToSt[ct];
      InverseAt(ctToSt, st);
      assert ct in Branches(ctToSt, st);
      ctToSt := ctToSt - {ct};
      complete := true;
      stToCt := stToCt[st := stToCt[st] - {ct}];
      removeServerTransaction := stToCt[st] == {};
      if removeServerTransaction {
        stToCt := stToCt - {st};
      }
      assert stToCt == Unbind(ix, ct).stToCt;
      InverseAt(ctToSt, st);
    }
  }
}
