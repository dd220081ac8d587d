/** The routing table of proxy_routing.go: a trie of heap nodes with parent links that
    answers the longest stored prefix of a dialled string.  Keys are the code points of
    the strings. */
module PrefixTries {
  import opened Wrappers

  type Key = seq<char>

  datatype Fwd = Fwd(addr: string, domain: string)

  // The plain table

  /** `found` is the longest key of `m` that is a prefix of `s`, if there is any. */
  ghost predicate IsLongest(m: map<Key, Fwd>, s: Key, found: Option<Key>) {
    match found
    case Some(k) => k in m && k <= s && forall q :: q in m && q <= s ==> |q| <= |k|
    case None => forall q :: q in m ==> !(q <= s)
  }

  /** The same by shortening `s`. */
  function Longest(m: map<Key, Fwd>, s: Key): Option<Key> {
    if s in m then Some(s) else if s == [] then None else Longest(m, s[..|s|-1])
  }

  lemma {:induction false} LongestIsLongest(m: map<Key, Fwd>, s: Key, found: Option<Key>)
    ensures IsLongest(m, s, found) <==> found == Longest(m, s)
  {
    if s !in m && s != [] {
      LongestIsLongest(m, s[..|s|-1], found);
      assert forall q :: q in m ==> (q <= s <==> q <= s[..|s|-1]) by {
        forall q | q in m && q <= s ensures q <= s[..|s|-1] {
          assert q != s;
        }
      }
    } else if found.Some? {
      assert found.value <= s && |found.value| == |s| ==> found.value == s;
    }
  }

  /** Adding a key changes the answer exactly for the strings it is a longer prefix of;
      removing it gives them back the answer they had. */
  lemma AddShadows(m: map<Key, Fwd>, k: Key, fwd: Fwd, s: Key)
    requires k !in m
    ensures Longest(m[k := fwd], s) == if k <= s && (Longest(m, s).None? || |Longest(m, s).value| < |k|) then Some(k) else Longest(m, s)
    ensures Longest(m[k := fwd] - {k}, s) == Longest(m, s)
  {
    var before := Longest(m, s);
    var after := if k <= s && (before.None? || |before.value| < |k|) then Some(k) else before;
    LongestIsLongest(m, s, before);
    assert k <= s && before.Some? ==> before.value != k && before.value == s[..|before.value|] && k == s[..|k|];
    LongestIsLongest(m[k := fwd], s, after);
    assert m[k := fwd] - {k} == m;
  }

  // The trie

  /** `tree` gives the node at every path. */
  type Tree = map<Key, PrefixTrie>

  ghost predicate Shape(tree: Tree)
    reads tree.Values
  {
    Linked(tree) && Labelled(tree)
  }

  /** Parents and children agree with the paths, and no node has two paths. */
  ghost predicate Linked(tree: Tree)
    reads tree.Values`parent, tree.Values`children
  {
    && [] in tree && tree[[]].parent == null
    && (forall p :: p in tree ==> tree[p].path == p)
    && (forall p, c {:trigger Leads(tree, p, c)} :: p in tree && c in tree[p].children ==> Leads(tree, p, c))
    && (forall p {:trigger Hangs(tree, p)} :: p in tree && p != [] ==> Hangs(tree, p))
  }

  ghost predicate Leads(tree: Tree, p: Key, c: char)
    requires p in tree && c in tree[p].children
    reads tree.Values`children
  {
    p + [c] in tree && tree[p].children[c] == tree[p + [c]]
  }

  /** The node at `p` is the child of the node one code point up. */
  ghost predicate Hangs(tree: Tree, p: Key)
    requires p in tree && p != []
    reads tree.Values`parent, tree.Values`children
  {
    var up := p[..|p|-1];
    up in tree && tree[p].parent == tree[up] && p[|p|-1] in tree[up].children
  }

  /** A node that has a target knows its own path. */
  ghost predicate Labelled(tree: Tree)
    reads tree.Values`prefix, tree.Values`fwd
  {
    forall p :: p in tree && tree[p].fwd.Some? ==> tree[p].prefix == p
  }

  ghost function Stored(tree: Tree): map<Key, Fwd>
    reads tree.Values`fwd
  {
    map p | p in tree && tree[p].fwd.Some? :: tree[p].fwd.value
  }

  /** The node of the longest stored prefix. */
  ghost function Holder(tree: Tree, s: Key): PrefixTrie?
    reads tree.Values`fwd
  {
    var at := Longest(Stored(tree), s);
    if at.Some? && at.value in tree then tree[at.value] else null
  }

  lemma {:induction false} PrefixClosed(tree: Tree, p: Key, q: Key)
    requires Shape(tree) && q in tree && p <= q
    ensures p in tree
    decreases |q|
  {
    if p == q {
    } else {
      assert Hangs(tree, q);
      PrefixClosed(tree, p, q[..|q|-1]);
    }
  }

  class PrefixTrie {
    var prefix: Key
    var parent: PrefixTrie?
    var children: map<char, PrefixTrie>
    var fwd: Option<Fwd>
    ghost const path: Key

    constructor (parent: PrefixTrie?, ghost path: Key)
      ensures this.path == path && this.parent == parent && children == map[] && fwd == None
    {
      this.prefix, this.parent, this.children, this.fwd := [], parent, map[], None;
      this.path := path;
    }

    /** A new leaf stores nothing. */
    method NewChild(r: char, ghost tree: Tree, ghost path: Key) returns (child: PrefixTrie, ghost grown: Tree)
      requires Shape(tree) && path in tree && tree[path] == this && r !in children
      modifies this
      ensures fresh(child) && path + [r] !in tree && grown == tree[path + [r] := child]
      ensures Shape(grown) && Stored(grown) == old(Stored(tree))
    {
      ghost var next := path + [r];
      assert next[..|next|-1] == path && next[|path|] == r;
      assert next !in tree by {
        hide Leads;
        assert next in tree ==> Hangs(tree, next);
      }
      child := new PrefixTrie(this, next);
      children := children[r := child];
      grown := tree[next := child];
      assert Labelled(grown) && Stored(grown) == old(Stored(tree)) by {
        hide Hangs, Leads, Linked;
      }
      assert Linked(grown) by {
        hide Labelled, Stored;
        forall p, c | p in grown && c in grown[p].children ensures Leads(grown, p, c) {
          hide Hangs;
          assert p != next;
          assert p != path || c != r ==> old(Leads(tree, p, c));
        }
        forall p | p in grown && p != [] ensures Hangs(grown, p) {
          hide Leads;
          assert p != next ==> old(Hangs(tree, p));
        }
      }
    }

    /** Sets or clears the target of the last node of the path. */
    method SetTarget(prefix: Key, fwd: Option<Fwd>, ghost tree: Tree)
      requires Shape(tree) && prefix in tree && tree[prefix] == this
      modifies this`prefix, this`fwd
      ensures Shape(tree)
      ensures Stored(tree) == if fwd.Some? then old(Stored(tree))[prefix := fwd.value] else old(Stored(tree)) - {prefix}
    {
      this.prefix := prefix;
      this.fwd := fwd;
      assert Linked(tree);
    }

    method AddAt(prefix: Key, s: Key, fwd: Option<Fwd>, ghost tree: Tree, ghost path: Key) returns (ghost grown: Tree)
      requires Shape(tree) && path in tree && tree[path] == this && prefix == path + s
      modifies tree.Values
      ensures Shape(grown) && grown.Keys >= tree.Keys
      ensures forall p :: p in tree ==> grown[p] == tree[p]
      ensures forall p :: p in grown && p !in tree ==> fresh(grown[p])
      ensures Stored(grown) == if fwd.Some? then old(Stored(tree))[prefix := fwd.value] else old(Stored(tree)) - {prefix}
      decreases |s|
    {
      if s == [] {
        assert path == prefix;
        SetTarget(prefix, fwd, tree);
        grown := tree;
        return;
      }
      var r := s[0];
      var child;
      ghost var next := path + [r];
      grown := tree;
      if r in children {
        assert Leads(tree, path, r);
        child := children[r];
      } else {
        child, grown := NewChild(r, tree, path);
      }
      assert next + s[1..] == prefix;
      grown := child.AddAt(prefix, s[1..], fwd, grown, next);
    }

    /** The nearest node with a target on the way up. */
    method SearchToTop(ghost tree: Tree, ghost path: Key) returns (r: PrefixTrie?)
      requires Shape(tree) && path in tree && tree[path] == this
      ensures r == Holder(tree, path)
    {
      var pp := this;
      ghost var p := path;
      while pp.fwd.None?
        invariant p in tree && tree[p] == pp && p <= path
        invariant forall q :: q in Stored(tree) && q <= path ==> q <= p
        decreases |p|
      {
        assert forall q :: q in Stored(tree) && q <= p ==> |q| < |p| by {
          forall q | q in Stored(tree) && q <= p ensures |q| < |p| {
            assert q != p;
          }
        }
        if pp.parent == null {
          assert p != [] ==> Hangs(tree, p);
          LongestIsLongest(Stored(tree), path, None);
          return null;
        }
        assert Hangs(tree, p);
        pp := pp.parent;
        p := p[..|p|-1];
      }
      LongestIsLongest(Stored(tree), path, Some(p));
      return pp;
    }

    method SearchAt(s: Key, ghost tree: Tree, ghost path: Key) returns (r: PrefixTrie?)
      requires Shape(tree) && path in tree && tree[path] == this
      ensures r == Holder(tree, path + s)
      decreases |s|
    {
      if s == [] {
        r := SearchToTop(tree, path);
        assert path + s == path;
        return;
      }
      if s[0] !in children {
        r := SearchToTop(tree, path);
        NothingBelow(tree, path, s);
        SameHolder(tree, path, s);
        return;
      }
      assert Leads(tree, path, s[0]);
      assert path + [s[0]] + s[1..] == path + s;
      r := children[s[0]].SearchAt(s[1..], tree, path + [s[0]]);
    }

    /** Stores the target; no target takes a stored one away. */
    method Add(prefix: Key, fwd: Option<Fwd>, ghost tree: Tree) returns (r: Option<Fwd>, ghost grown: Tree)
      requires Shape(tree) && tree[[]] == this
      modifies tree.Values
      ensures r == fwd && Shape(grown) && grown.Keys >= tree.Keys
      ensures forall p :: p in tree ==> grown[p] == tree[p]
      ensures forall p :: p in grown && p !in tree ==> fresh(grown[p])
      ensures Stored(grown) == if fwd.Some? then old(Stored(tree))[prefix := fwd.value] else old(Stored(tree)) - {prefix}
    {
      grown := AddAt(prefix, prefix, fwd, tree, []);
      r := fwd;
    }

    /** The node of the longest stored prefix, or null. */
    method Search(s: Key, ghost tree: Tree) returns (r: PrefixTrie?)
      requires Shape(tree) && tree[[]] == this
      ensures r == null <==> Longest(Stored(tree), s).None?
      ensures r != null ==>
                var k := Longest(Stored(tree), s).value;
                k in Stored(tree) && r == tree[k] && r.prefix == k && r.fwd == Some(Stored(tree)[k])
    {
      r := SearchAt(s, tree, []);
      assert [] + s == s;
      LongestIsLongest(Stored(tree), s, Longest(Stored(tree), s));
    }

    /** Takes a stored key away and prunes its node if it is a leaf.  It dereferences null
        when nothing stored is a prefix of the key, and when the root itself is the leaf. */
    method Remove(s: Key, ghost tree: Tree) returns (panics: bool, r: Option<Fwd>, ghost pruned: Tree)
      requires Shape(tree) && tree[[]] == this
      modifies tree.Values
      ensures panics <==> Longest(old(Stored(tree)), s).None? || (s == [] && s in old(Stored(tree)) && old(children) == map[])
      ensures Shape(pruned) && Stored(pruned) == old(Stored(tree)) - {s}
      ensures pruned == if s != [] && s in old(Stored(tree)) && old(tree[s].children) == map[] then tree - {s} else tree
      ensures !panics ==> r == if s in old(Stored(tree)) then Some(old(Stored(tree))[s]) else None
    {
      var pp := Search(s, tree);
      LongestIsLongest(Stored(tree), s, Longest(Stored(tree), s));
      pruned := tree;
      if pp == null {
        return true, None, tree;
      }
      if pp.prefix != s {
        return false, None, tree;
      }
      panics, r := false, pp.fwd;
      pp.SetTarget(s, None, tree);
      if pp.children == map[] {
        panics, pruned := pp.Prune(s, tree);
      }
    }

    /** Unhooks a leaf that stores nothing. */
    method Prune(s: Key, ghost tree: Tree) returns (panics: bool, ghost pruned: Tree)
      requires Shape(tree) && s in tree && tree[s] == this && children == map[] && fwd.None?
      modifies tree.Values
      ensures panics <==> s == []
      ensures Shape(pruned) && pruned == (if s == [] then tree else tree - {s})
      ensures Stored(pruned) == old(Stored(tree))
    {
      pruned := tree;
      assert s != [] ==> Hangs(tree, s);
      if parent == null {
        return true, tree;
      }
      ghost var up, last := s[..|s|-1], s[|s|-1];
      parent.children := parent.children - {s[|s|-1]};
      pruned := tree - {s};
      panics := false;
      assert Stored(pruned) == old(Stored(tree));
      assert Linked(pruned) by {
        forall p, c | p in pruned && c in pruned[p].children ensures Leads(pruned, p, c) {
          hide Hangs;
          assert old(Leads(tree, p, c));
          assert (p + [c])[..|p|] == p && (p + [c])[|p|] == c;
          assert p == up ==> c != last;
        }
        forall p | p in pruned && p != [] ensures Hangs(pruned, p) {
          hide Leads;
          assert old(Hangs(tree, p));
          assert p == p[..|p|-1] + [p[|p|-1]] && s == up + [last];
        }
      }
    }
  }

  lemma SameHolder(tree: Tree, path: Key, s: Key)
    requires forall q :: q in tree && q <= path + s ==> q <= path
    ensures Holder(tree, path + s) == Holder(tree, path)
  {
    var found := Longest(Stored(tree), path);
    LongestIsLongest(Stored(tree), path, found);
    assert path <= path + s;
    LongestIsLongest(Stored(tree), path + s, found);
  }

  /** Where a child is missing, no path goes on. */
  lemma NothingBelow(tree: Tree, path: Key, s: Key)
    requires Shape(tree) && path in tree && s != [] && s[0] !in tree[path].children
    ensures forall q :: q in tree && q <= path + s ==> q <= path
  {
    var next := path + [s[0]];
    assert next[..|next|-1] == path;
    assert next in tree ==> Hangs(tree, next);
    forall q | q in tree && q <= path + s ensures q <= path {
      if |q| > |path| {
        assert next <= q;
        PrefixClosed(tree, next, q);
      }
    }
  }

  // The table in use

  /** What a user of the table does. */
  datatype Op = Put(key: Key, fwd: Option<Fwd>) | Drop(key: Key) | Find(key: Key)

  /** The plain table after the operations. */
  function After(m: map<Key, Fwd>, ops: seq<Op>): map<Key, Fwd> {
    if ops == [] then m else
    var before := After(m, ops[..|ops|-1]);
    match ops[|ops|-1]
    case Put(k, Some(fwd)) => before[k := fwd]
    case Put(k, None) => before - {k}
    case Drop(k) => before - {k}
    case Find(_) => before
  }

  /** What the plain table answers. */
  function Answer(m: map<Key, Fwd>, op: Op): Option<Fwd> {
    match op
    case Put(_, fwd) => fwd
    case Drop(k) => if k in m then Some(m[k]) else None
    case Find(s) =>
      LongestIsLongest(m, s, Longest(m, s));
      if Longest(m, s).Some? then Some(m[Longest(m, s).value]) else None
  }

  /** The rows that get into the table: those before the first that has not three fields. */
  function Rows(rows: seq<seq<string>>): seq<Op> {
    if rows == [] || |rows[0]| != 3 then [] else [Put(rows[0][0], Some(Fwd(rows[0][1], rows[0][2])))] + Rows(rows[1..])
  }

  lemma {:induction false} RowsUpTo(rows: seq<seq<string>>, n: nat)
    requires n <= |rows| && forall i :: 0 <= i < n ==> |rows[i]| == 3
    ensures |Rows(rows)| >= n && |Rows(rows[..n])| == n && Rows(rows)[..n] == Rows(rows[..n])
    ensures forall i :: 0 <= i < n ==> Rows(rows)[i] == Put(rows[i][0], Some(Fwd(rows[i][1], rows[i][2])))
    ensures |Rows(rows)| == n <==> n == |rows| || |rows[n]| != 3
  {
    if n > 0 {
      RowsUpTo(rows[1..], n - 1);
      assert rows[..n][1..] == rows[1..][..n-1];
    }
  }

  class Translater {
    const table: PrefixTrie
    ghost var tree: Tree

    ghost predicate Valid()
      reads this, tree.Values
    {
      Shape(tree) && tree[[]] == table
    }

    ghost function Contents(): map<Key, Fwd>
      reads this, tree.Values
    {
      Stored(tree)
    }

    constructor ()
      ensures Valid() && Contents() == map[] && fresh(tree.Values)
    {
      var root := new PrefixTrie(null, []);
      table, tree := root, map[[] := root];
    }

    /** One operation; `panics` when the removal dereferences null. */
    method Do(op: Op) returns (panics: bool, r: Option<Fwd>)
      requires Valid()
      modifies this, tree.Values
      ensures Valid() && fresh(tree.Values - old(tree.Values))
      ensures Contents() == After(old(Contents()), [op])
      ensures !panics ==> r == Answer(old(Contents()), op)
      ensures panics ==> op.Drop? && (op.key == [] || Longest(old(Contents()), op.key).None?)
      ensures op.Drop? && Longest(old(Contents()), op.key).None? ==> panics
    {
      assert [] in tree && [op][..0] == [];
      hide Shape;
      panics := false;
      match op {
        case Put(k, fwd) =>
          r, tree := table.Add(k, fwd, tree);
        case Drop(k) =>
          panics, r, tree := table.Remove(k, tree);
        case Find(s) =>
          var node := table.Search(s, tree);
          r := if node == null then None else node.fwd;
      }
    }

    /** Any run of operations answers as the plain table does, until a removal of a string
        without a stored prefix ends it (or of the empty string at a lone root). */
    method Run(ops: seq<Op>) returns (answers: seq<Option<Fwd>>)
      requires Valid()
      modifies this, tree.Values
      ensures Valid() && |answers| <= |ops|
      ensures forall i :: 0 <= i < |answers| ==> answers[i] == Answer(After(old(Contents()), ops[..i]), ops[i])
      ensures |answers| == |ops| ==> Contents() == After(old(Contents()), ops)
      ensures forall i :: 0 <= i < |answers| && ops[i].Drop? ==> Longest(After(old(Contents()), ops[..i]), ops[i].key).Some?
      ensures |answers| < |ops| ==> var op := ops[|answers|];
              op.Drop? && (op.key == [] || Longest(After(old(Contents()), ops[..|answers|]), op.key).None?)
    {
      hide Shape, Longest, Stored, Answer, After;
      ghost var m := Contents();
      answers := [];
      assert ops[..0] == [];
      AfterNone(m);
      while |answers| < |ops|
        invariant Valid() && |answers| <= |ops| && fresh(tree.Values - old(tree.Values))
        invariant Contents() == After(m, ops[..|answers|])
        invariant forall i :: 0 <= i < |answers| ==> answers[i] == Answer(After(m, ops[..i]), ops[i])
        invariant forall i :: 0 <= i < |answers| && ops[i].Drop? ==> Longest(After(m, ops[..i]), ops[i].key).Some?
      {
        var n := |answers|;
        var panics, r := Do(ops[n]);
        AfterMore(m, ops, n);
        if panics {
          return;
        }
        answers := answers + [r];
      }
      assert ops[..|ops|] == ops;
    }

    /** Reads the rows into the table; false when a row has not three fields. */
    method Load(rows: seq<seq<string>>) returns (ok: bool)
      requires Valid()
      modifies this, tree.Values
      ensures Valid()
      ensures ok <==> forall row :: row in rows ==> |row| == 3
      ensures Contents() == After(old(Contents()), Rows(rows))
    {
      hide Shape, Stored, After;
      ghost var m := Contents();
      var i := 0;
      assert Rows(rows)[..0] == [];
      AfterNone(m);
      while i < |rows|
        invariant Valid() && i <= |rows| && fresh(tree.Values - old(tree.Values))
        invariant forall j :: 0 <= j < i ==> |rows[j]| == 3
        invariant |Rows(rows)| >= i && Contents() == After(m, Rows(rows)[..i])
      {
        var line := rows[i];
        RowsUpTo(rows, i);
        if |line| != 3 {
          assert Rows(rows)[..i] == Rows(rows);
          return false;
        }
        RowsUpTo(rows, i + 1);
        AfterMore(m, Rows(rows), i);
        var _, _ := Do(Put(line[0], Some(Fwd(line[1], line[2]))));
        i := i + 1;
      }
      RowsUpTo(rows, |rows|);
      assert Rows(rows)[..|rows|] == Rows(rows);
      return true;
    }
  }

  lemma AfterNone(m: map<Key, Fwd>)
    ensures After(m, []) == m
  {
  }

  lemma AfterMore(m: map<Key, Fwd>, ops: seq<Op>, n: nat)
    requires n < |ops|
    ensures After(After(m, ops[..n]), [ops[n]]) == After(m, ops[..n+1])
  {
    assert ops[..n+1][..n] == ops[..n];
    assert [ops[n]][..0] == [];
  }
}
