/** What happens to the Via stack and the Max-Forwards count of a request on its way
    through the proxy, and where its responses go (proxy_request_controller.go,
    proxy_response_controller.go, sip/transaction.go). */
module ReturnPath {
  import opened Wrappers
  import opened Vias
  import opened Params
  import opened ResponseContexts

  function Parameters(v: ViaValue): Values {
    ParseQuery(v.rawParameter)
  }

  // Keys

  /** The error cases of the key generators; a stack without a top value is dereferenced. */
  datatype KeyOutcome<K> = Key(key: K) | Malformed | NullDereference

  function Branch(v: ViaValue): Option<string> {
    var m := Parameters(v);
    if "branch" in m && m["branch"] != [] then Some(m["branch"][0]) else None
  }

  /** An ACK has the key of its INVITE. */
  function ServerKeyOf(reqMethod: string, vias: Option<seq<ViaValue>>): KeyOutcome<ServerKey> {
    match vias
    case None => Malformed
    case Some(vs) =>
      if vs == [] then NullDereference
      else if Branch(vs[0]).None? then Malformed
      else Key(ServerKey(Branch(vs[0]).value, vs[0].sentBy, if reqMethod == "ACK" then "INVITE" else reqMethod))
  }

  function ClientKeyOf(vias: Option<seq<ViaValue>>, cseqMethod: Option<string>): KeyOutcome<ClientKey> {
    match vias
    case None => Malformed
    case Some(vs) =>
      if vs == [] then NullDereference
      else if Branch(vs[0]).None? || cseqMethod.None? then Malformed
      else Key(ClientKey(Branch(vs[0]).value, cseqMethod.value))
  }

  // The way there

  /** The parameters of the top value once the source address is recorded. */
  function Recorded(v: ViaValue, remote: string): Values {
    Parameters(v)["received" := [remote]]
  }

  /** The top value of a forwarded request; `order` is the order in which the parameters
      happen to be written. */
  function Stamped(v: ViaValue, remote: string, order: seq<string>): ViaValue
    requires Order(Recorded(v, remote), order)
  {
    if v.sentBy == remote then v
    else
      var s := Params.Text(Pairs(Recorded(v, remote), order));
      v.(rawParameter := if s == "" then "" else s[1..])
  }

  function Forwarded(vs: seq<ViaValue>, remote: string, order: seq<string>): seq<ViaValue>
    requires vs != [] && Order(Recorded(vs[0], remote), order)
  {
    [Stamped(vs[0], remote, order)] + vs[1..]
  }

  /** The proxy's own value. */
  function Own(local: string, branch: string): ViaValue {
    ViaValue("SIP/2.0/UDP", Trim(local, ' '), Trim("branch=" + branch, ';'))
  }

  /** The own value is put on top unless it seems to be there. */
  function WithOwn(vs: seq<ViaValue>, local: string, branch: string): seq<ViaValue> {
    if vs == [] || vs[0].sentBy != local then [Own(local, branch)] + vs else vs
  }

  /** `Decrement`: the count, and whether it is still positive. */
  function Decremented(remains: int): (int, bool) {
    if remains - 1 <= 0 then (0, false) else (remains - 1, true)
  }

  /** A copy on its way: the Via stack and the Max-Forwards count. */
  datatype Copy = Copy(vias: seq<ViaValue>, remains: int)

  /** The first copy: counted down, source recorded, own value on top. */
  function FirstCopy(c: Copy, remote: string, order: seq<string>, local: string, branch: string): Option<Copy>
    requires c.vias != [] && Order(Recorded(c.vias[0], remote), order)
  {
    var (remains, ok) := Decremented(c.remains);
    if ok then Some(Copy(WithOwn(Forwarded(c.vias, remote, order), local, branch), remains)) else None
  }

  function Popped(vs: seq<ViaValue>): seq<ViaValue> {
    if vs == [] then [] else vs[1..]
  }

  /** The copy for a redirection, made from the copy sent last. */
  function NextCopy(c: Copy, local: string, branch: string): Option<Copy> {
    var (remains, ok) := Decremented(c.remains);
    if ok then Some(Copy(WithOwn(Popped(c.vias), local, branch), remains)) else None
  }

  /** The last copy of a call: the first one and a redirection for each further branch. */
  function LastCopy(c: Copy, remote: string, order: seq<string>, local: string, branches: seq<string>): Option<Copy>
    requires c.vias != [] && Order(Recorded(c.vias[0], remote), order) && branches != []
  {
    if |branches| == 1 then FirstCopy(c, remote, order, local, branches[0])
    else
      match LastCopy(c, remote, order, local, branches[..|branches|-1])
      case None => None
      case Some(previous) => NextCopy(previous, local, branches[|branches|-1])
  }

  // The way back

  /** Where a response is sent. */
  function Destination(v: ViaValue): string {
    var received := Get(Parameters(v), "received");
    if received != "" then received else v.sentBy
  }

  /** Copies can be sent while the count lasts: no more than Max-Forwards - 1, the first and
      all redirections together.  Each carries exactly one value of the proxy's own, and
      below it what came in. */
  lemma {:induction false} CopiesExactly(c: Copy, remote: string, order: seq<string>, local: string, branches: seq<string>)
    requires c.vias != [] && Order(Recorded(c.vias[0], remote), order) && branches != []
    requires c.vias[0].sentBy != local && Trimmed(local, ' ')
    ensures var last := LastCopy(c, remote, order, local, branches);
            && (last.Some? <==> |branches| <= c.remains - 1)
            && (last.Some? ==> last.value == Copy([Own(local, branches[|branches|-1])] + Forwarded(c.vias, remote, order), c.remains - |branches|))
    decreases |branches|
  {
    hide Stamped, Own;
    assert Stamped(c.vias[0], remote, order).sentBy == c.vias[0].sentBy by { StampedKeeps(c.vias[0], remote, order); }
    if |branches| > 1 {
      var front := branches[..|branches|-1];
      CopiesExactly(c, remote, order, local, front);
      var last := LastCopy(c, remote, order, local, front);
      if last.Some? {
        assert Popped(last.value.vias) == Forwarded(c.vias, remote, order);
      }
    }
  }

  lemma StampedKeeps(v: ViaValue, remote: string, order: seq<string>)
    requires Order(Recorded(v, remote), order)
    ensures var w := Stamped(v, remote, order); w.sentBy == v.sentBy && w.sentProtocol == v.sentProtocol
  {
  }

  /** The number of values with this sent-by part. */
  function CountSentBy(vs: seq<ViaValue>, sentBy: string): nat {
    if vs == [] then 0 else (if vs[0].sentBy == sentBy then 1 else 0) + CountSentBy(vs[1..], sentBy)
  }

  lemma OneOwn(c: Copy, remote: string, order: seq<string>, local: string, branches: seq<string>, last: Copy)
    requires c.vias != [] && Order(Recorded(c.vias[0], remote), order) && branches != []
    requires c.vias[0].sentBy != local && Trimmed(local, ' ')
    requires LastCopy(c, remote, order, local, branches) == Some(last)
    ensures CountSentBy(last.vias, local) == 1 + CountSentBy(c.vias, local)
  {
    hide LastCopy, Stamped;
    CopiesExactly(c, remote, order, local, branches);
    StampedKeeps(c.vias[0], remote, order);
    var f := Forwarded(c.vias, remote, order);
    assert f[0] == Stamped(c.vias[0], remote, order) && f[1..] == c.vias[1..];
    var own := Own(local, branches[|branches|-1]);
    assert last.vias[0] == own && last.vias[1..] == f;
  }

  /** A recorded source is read back, and decides where a response goes. */
  lemma StampedBack(was: ViaValue, remote: string, order: seq<string>)
    requires Order(Recorded(was, remote), order)
    requires CleanValues(Parameters(was)) && Clean(remote) && remote != ""
    ensures var top := Stamped(was, remote, order);
            && Parameters(top) == (if was.sentBy == remote then Parameters(was) else Recorded(was, remote))
            && (Destination(top) == remote <==>
                  was.sentBy != remote || Get(Parameters(was), "received") == "" || Get(Parameters(was), "received") == remote)
  {
    hide Params.Text, Pairs, ParseInto, Clean, CleanValues;
    if was.sentBy != remote {
      assert Clean("received") by { ReceivedIsClean(); }
      SetWrittenRead(was.rawParameter, "received", remote, order);
    }
  }

  /** A response that echoes the stack of the last copy goes back, once the own value is
      popped, with the stack of the request: below the top value unchanged, the top value
      with its parameters and the recorded source.  It goes to the source of the request
      if and only if that differs from the sent-by part, or no other source was recorded
      before. */
  lemma ReturnsToCaller(c: Copy, remote: string, order: seq<string>, local: string, branches: seq<string>, last: Copy)
    requires c.vias != [] && Order(Recorded(c.vias[0], remote), order) && branches != []
    requires c.vias[0].sentBy != local && Trimmed(local, ' ')
    requires CleanValues(Parameters(c.vias[0])) && Clean(remote) && remote != ""
    requires LastCopy(c, remote, order, local, branches) == Some(last)
    ensures Popped(last.vias) != [] && Popped(last.vias)[1..] == c.vias[1..]
    ensures var top, was := Popped(last.vias)[0], c.vias[0];
            && top.sentProtocol == was.sentProtocol && top.sentBy == was.sentBy
            && Parameters(top) == (if was.sentBy == remote then Parameters(was) else Recorded(was, remote))
            && (Destination(top) == remote <==>
                  was.sentBy != remote || Get(Parameters(was), "received") == "" || Get(Parameters(was), "received") == remote)
  {
    CopiesExactly(c, remote, order, local, branches);
    StampedKeeps(c.vias[0], remote, order);
    StampedBack(c.vias[0], remote, order);
    ForwardedParts(c.vias, remote, order, Own(local, branches[|branches|-1]));
    hide LastCopy, Stamped, Forwarded, Popped, Own, Clean, CleanValues, Destination, Parameters, Recorded, Order, Trimmed;
    assert Popped(last.vias) == Forwarded(c.vias, remote, order);
  }

  lemma ForwardedParts(vs: seq<ViaValue>, remote: string, order: seq<string>, own: ViaValue)
    requires vs != [] && Order(Recorded(vs[0], remote), order)
    ensures var f := Forwarded(vs, remote, order);
            f != [] && f[0] == Stamped(vs[0], remote, order) && f[1..] == vs[1..] && Popped([own] + f) == f
  {
  }

  lemma OwnParameter(branch: string)
    requires branch != "" && Trimmed(branch, ';')
    ensures Trim("branch=" + branch, ';') == Pair(("branch", branch))
  {
    hide TrimLeft, TrimRight;
    var s := "branch=" + branch;
    assert s == "branch" + ("=" + branch);
    assert s[|s|-1] == branch[|branch|-1] && s[0] == 'b';
    assert Trimmed(s, ';');
  }

  lemma BranchIsClean(branch: string)
    requires Clean(branch)
    ensures CleanPair(("branch", branch))
  {
  }

  /** The own value carries the branch it was made with. */
  lemma OwnBranch(local: string, branch: string)
    requires Clean(branch) && branch != "" && Trimmed(branch, ';')
    ensures Branch(Own(local, branch)) == Some(branch)
  {
    OwnParameter(branch);
    BranchIsClean(branch);
    hide ParseQuery, Pair, CleanPair, Clean, Trim, Trimmed;
    OnePair(("branch", branch));
  }

  /** A copy, and a response that echoes its stack, have the client key made of the branch
      of the copy: fresh branches give fresh keys. */
  lemma CopyKey(c: Copy, remote: string, order: seq<string>, local: string, branches: seq<string>, last: Copy, branch: string,
                cseqMethod: string)
    requires c.vias != [] && Order(Recorded(c.vias[0], remote), order) && branches != []
    requires c.vias[0].sentBy != local && Trimmed(local, ' ')
    requires LastCopy(c, remote, order, local, branches) == Some(last)
    requires branch == branches[|branches|-1] && Clean(branch) && branch != "" && Trimmed(branch, ';')
    ensures ClientKeyOf(Some(last.vias), Some(cseqMethod)) == Key(ClientKey(branch, cseqMethod))
  {
    hide LastCopy, Own, Forwarded, Branch, Clean, Trimmed, Order, Recorded;
    CopiesExactly(c, remote, order, local, branches);
    OwnBranch(local, branch);
    assert last.vias[0] == Own(local, branch);
  }

  lemma ReceivedIsClean()
    ensures Clean("received")
  {
  }

  /** Recording the source does not change the branch, so the key stays. */
  lemma StampedKey(reqMethod: string, vs: seq<ViaValue>, remote: string, order: seq<string>)
    requires vs != [] && Order(Recorded(vs[0], remote), order)
    requires CleanValues(Parameters(vs[0])) && Clean(remote)
    ensures ServerKeyOf(reqMethod, Some(Forwarded(vs, remote, order))) == ServerKeyOf(reqMethod, Some(vs))
  {
    hide Params.Text, Pairs, ParseInto, Clean, CleanValues;
    if vs[0].sentBy != remote {
      assert Clean("received") by { ReceivedIsClean(); }
      SetWrittenRead(vs[0].rawParameter, "received", remote, order);
    }
  }
}
