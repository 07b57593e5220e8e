/**
 The trusted-proxy coverage check (common/trusted_proxy.go): a binary trie over address bits,
 updated in place, decides whether a list of CIDR prefixes trusts a whole address family.
*/
module TrustedProxy {
  import opened Options
  import opened GoStrings

  type Path = seq<bool>

  /** A parsed entry: the first `length` bits of `ip`, an address of `bits` bits. */
  datatype Prefix = Prefix(ip: seq<bv8>, bits: nat, length: nat)

  predicate WellFormed(p: Prefix) {
    p.bits == 8 * |p.ip| && p.length <= p.bits
  }

  // ----- Address bits, most significant first

  function BitOf(b: bv8, offset: nat): bool
    requires offset < 8
  {
    match offset
    case 0 => b & 1 == 1
    case 1 => (b >> 1) & 1 == 1
    case 2 => (b >> 2) & 1 == 1
    case 3 => (b >> 3) & 1 == 1
    case 4 => (b >> 4) & 1 == 1
    case 5 => (b >> 5) & 1 == 1
    case 6 => (b >> 6) & 1 == 1
    case _ => (b >> 7) & 1 == 1
  }

  function LeadingBit(b: bv8, i: nat): bool
    requires i < 8
  {
    BitOf(b, 7 - i)
  }

  function Bit(ip: seq<bv8>, i: nat): bool
    requires i < 8 * |ip|
  {
    LeadingBit(ip[i / 8], i % 8)
  }

  function Bits(ip: seq<bv8>): (p: Path)
    ensures |p| == 8 * |ip|
    ensures forall i :: 0 <= i < |p| ==> p[i] == Bit(ip, i)
  {
    seq(8 * |ip|, i requires 0 <= i < 8 * |ip| => Bit(ip, i))
  }

  function ByteOf(p: Path): (b: bv8)
    requires |p| == 8
    ensures forall i :: 0 <= i < 8 ==> LeadingBit(b, i) == p[i]
  {
    (if p[0] then 128 else 0) | (if p[1] then 64 else 0) | (if p[2] then 32 else 0) | (if p[3] then 16 else 0)
    | (if p[4] then 8 else 0) | (if p[5] then 4 else 0) | (if p[6] then 2 else 0) | (if p[7] then 1 else 0)
  }

  /** Every bit path of whole bytes is the bits of an address. */
  function Address(p: Path): (ip: seq<bv8>)
    requires |p| % 8 == 0
    ensures 8 * |ip| == |p| && Bits(ip) == p
  {
    var ip := seq(|p| / 8, k requires 0 <= k < |p| / 8 => ByteOf(p[8 * k..8 * k + 8]));
    assert forall i {:trigger p[i]} :: 0 <= i < |p| ==> i == 8 * (i / 8) + i % 8 && Bit(ip, i) == p[i];
    ip
  }

  // ----- What a list of prefixes trusts

  /** A byte of a netmask: its first `n` bits, the most significant ones. */
  function MaskByte(n: nat): bv8
    requires n <= 8
  {
    match n
    case 0 => 0
    case 1 => 128
    case 2 => 192
    case 3 => 224
    case 4 => 240
    case 5 => 248
    case 6 => 252
    case 7 => 254
    case _ => 255
  }

  /** How many of the first `length` bits of an address lie in its byte `k`. */
  function BitsInByte(length: nat, k: nat): (n: nat)
    ensures n <= 8
  {
    if length <= 8 * k then 0 else if length >= 8 * k + 8 then 8 else length - 8 * k
  }

  predicate SameUnder(mask: bv8, a: bv8, b: bv8) {
    a & mask == b & mask
  }

  /** CIDR membership: same family, and the same address under the netmask. */
  predicate Matches(p: Prefix, addr: seq<bv8>)
    requires WellFormed(p)
  {
    p.bits == 8 * |addr|
    && forall k :: 0 <= k < |addr| ==> SameUnder(MaskByte(BitsInByte(p.length, k)), addr[k], p.ip[k])
  }

  predicate Trusts(prefixes: seq<Prefix>, addr: seq<bv8>)
    requires forall p :: p in prefixes ==> WellFormed(p)
  {
    exists j :: 0 <= j < |prefixes| && Matches(prefixes[j], addr)
  }

  ghost predicate TrustsFamily(prefixes: seq<Prefix>, bits: nat)
    requires forall p :: p in prefixes ==> WellFormed(p)
  {
    forall addr: seq<bv8> :: 8 * |addr| == bits ==> Trusts(prefixes, addr)
  }

  function PathOf(p: Prefix): Path
    requires WellFormed(p)
  {
    Bits(p.ip)[..p.length]
  }

  /** Two bytes are the same under a mask exactly when their bits under it agree. */
  lemma {:induction false} MaskedByte(n: nat, a: bv8, b: bv8)
    requires n <= 8
    ensures SameUnder(MaskByte(n), a, b) <==> forall i :: 0 <= i < n ==> LeadingBit(a, i) == LeadingBit(b, i)
  {
    if n > 0 {
      MaskedByte(n - 1, a, b);
      OneMoreBit(n, a, b);
      LeadingBitsStep(n, a, b);
    }
  }

  lemma LeadingBitsStep(n: nat, a: bv8, b: bv8)
    requires 0 < n <= 8
    ensures (forall i :: 0 <= i < n ==> LeadingBit(a, i) == LeadingBit(b, i)) <==>
      (forall i :: 0 <= i < n - 1 ==> LeadingBit(a, i) == LeadingBit(b, i))
      && LeadingBit(a, n - 1) == LeadingBit(b, n - 1)
  {
  }

  lemma OneMoreBit(n: nat, a: bv8, b: bv8)
    requires 0 < n <= 8
    ensures SameUnder(MaskByte(n), a, b)
      <==> SameUnder(MaskByte(n - 1), a, b) && LeadingBit(a, n - 1) == LeadingBit(b, n - 1)
  {
    match n
    case 1 =>
    case 2 =>
    case 3 =>
    case 4 =>
    case 5 =>
    case 6 =>
    case 7 =>
    case _ =>
  }

  /** So an address matches a network exactly when the leading bits agree. */
  lemma MatchesIsPrefix(p: Prefix, addr: seq<bv8>)
    requires WellFormed(p) && p.bits == 8 * |addr|
    ensures Matches(p, addr) <==> PathOf(p) <= Bits(addr)
  {
    var a, q := Bits(addr), PathOf(p);
    if Matches(p, addr) {
      forall i | 0 <= i < p.length
        ensures a[i] == q[i]
      {
        var n := BitsInByte(p.length, i / 8);
        assert SameUnder(MaskByte(n), addr[i / 8], p.ip[i / 8]);
        MaskedByte(n, addr[i / 8], p.ip[i / 8]);
      }
    }
    if q <= a {
      forall k | 0 <= k < |addr|
        ensures SameUnder(MaskByte(BitsInByte(p.length, k)), addr[k], p.ip[k])
      {
        ByteOfPath(p, addr, k);
      }
    }
  }

  lemma ByteOfPath(p: Prefix, addr: seq<bv8>, k: nat)
    requires WellFormed(p) && p.bits == 8 * |addr| && k < |addr| && PathOf(p) <= Bits(addr)
    ensures SameUnder(MaskByte(BitsInByte(p.length, k)), addr[k], p.ip[k])
  {
    var n := BitsInByte(p.length, k);
    forall i | 0 <= i < n
      ensures LeadingBit(addr[k], i) == LeadingBit(p.ip[k], i)
    {
      assert Bits(addr)[8 * k + i] == PathOf(p)[8 * k + i];
    }
    MaskedByte(n, addr[k], p.ip[k]);
  }

  function Parent(p: Path): Path {
    if p == [] then p else p[..|p| - 1]
  }

  lemma ParentOfChild(p: Path, b: bool)
    ensures Parent(p + [b]) == p
  {
  }

  lemma SameChild(r: Path, c: bool, p: Path, b: bool)
    ensures r + [c] == p + [b] <==> r == p && c == b
  {
    if r + [c] == p + [b] {
      assert |r| == |p| && (r + [c])[..|r|] == r && (p + [b])[..|p|] == p;
      assert (r + [c])[|r|] == c && (p + [b])[|p|] == b;
    }
  }

  /** Some prefix of `a` that is at least `from` bits long is in `s`. */
  ghost predicate PrefixIn(a: Path, from: nat, s: set<Path>) {
    exists k :: from <= k <= |a| && a[..k] in s
  }

  // ----- The trie

  class Node {
    var covered: bool
    var zero: Node?
    var one: Node?

    constructor ()
      ensures !covered && zero == null && one == null
    {
      covered := false;
      zero, one := null, null;
    }

    function Child(b: bool): Node?
      reads this
    {
      if b then one else zero
    }

    method SetChild(b: bool, n: Node)
      modifies this
      ensures Child(b) == n && Child(!b) == old(Child(!b)) && covered == old(covered)
    {
      if b {
        one := n;
      } else {
        zero := n;
      }
    }
  }

  class Trie {
    const root: Node
    const depth: nat
    ghost var nodes: map<Path, Node>  // the node reached along each bit path

    ghost function Objects(): set<object>
      reads this
    {
      set p | p in nodes :: nodes[p]
    }

    ghost predicate Valid()
      reads this, Objects()
    {
      && [] in nodes && nodes[[]] == root
      && (forall p :: p in nodes ==> |p| <= depth)
      && (forall p {:trigger Parent(p)} :: p in nodes && p != [] ==> Parent(p) in nodes)
      && (forall p, q {:trigger nodes[p], nodes[q]} :: p in nodes && q in nodes && p != q ==> nodes[p] != nodes[q])
      && (forall p, b :: p in nodes ==> Linked(p, b))
    }

    /** The children of a node are the nodes one bit further, null where there is none. */
    ghost predicate Linked(p: Path, b: bool)
      requires p in nodes
      reads this, Objects()
    {
      nodes[p].Child(b) == if p + [b] in nodes then nodes[p + [b]] else null
    }

    ghost function Covered(): set<Path>
      reads this, Objects()
    {
      set p | p in nodes && nodes[p].covered
    }

    constructor (depth: nat)
      ensures Valid() && fresh(Objects()) && Covered() == {}
      ensures this.depth == depth
    {
      var r := new Node();
      this.root, this.depth := r, depth;
      this.nodes := map[[] := r];
    }

    /** addTrustedProxyPrefix: walk down the prefix's bits, stopping early at a covered node. */
    method Add(prefix: Prefix)
      requires Valid() && WellFormed(prefix) && prefix.length <= depth
      modifies this, Objects()
      ensures Valid() && fresh(Objects() - old(Objects()))
      ensures var q := PathOf(prefix);
              Covered() == if PrefixIn(q, 0, old(Covered())) then old(Covered()) else old(Covered()) + {q}
    {
      ghost var q := PathOf(prefix);
      if root.covered {
        assert q[..0] in old(Covered());
        return;
      }
      if prefix.length == 0 {
        assert q == [] && q[..0] == [];
        Mark(q, root);
        return;
      }
      var stopped, node := Walk(q, prefix);
      if stopped {
        return;
      }
      Mark(q, node);
    }

    /** Down the bits of the prefix, to its own node or to the first covered one. */
    method Walk(ghost q: Path, prefix: Prefix) returns (stopped: bool, node: Node)
      requires Valid() && WellFormed(prefix) && prefix.length <= depth && q == PathOf(prefix) && !root.covered
      modifies this, Objects()
      ensures Valid() && fresh(Objects() - old(Objects())) && Covered() == old(Covered())
      ensures stopped <==> PrefixIn(q, 0, Covered())
      ensures !stopped ==> q in nodes && nodes[q] == node
    {
      node := root;
      var i := 0;
      while i < prefix.length
        invariant 0 <= i <= prefix.length
        invariant Valid() && fresh(Objects() - old(Objects()))
        invariant q[..i] in nodes && nodes[q[..i]] == node
        invariant Covered() == old(Covered())
        invariant forall k :: 0 <= k <= i ==> q[..k] !in Covered()
      {
        assert q[..i + 1] == q[..i] + [Bit(prefix.ip, i)];
        node := Descend(q[..i], Bit(prefix.ip, i), node);
        i := i + 1;
        assert node.covered <==> q[..i] in Covered();
        if node.covered {
          return true, node;
        }
      }
      assert q[..i] == q;
      stopped := false;
    }

    /** One level down, creating an uncovered child where there is none. */
    method Descend(ghost p: Path, b: bool, node: Node) returns (next: Node)
      requires Valid() && p in nodes && nodes[p] == node && |p| < depth
      modifies this`nodes, node
      ensures Valid() && fresh(Objects() - old(Objects()))
      ensures p + [b] in nodes && nodes[p + [b]] == next
      ensures Covered() == old(Covered())
    {
      assert Linked(p, b);
      if node.Child(b) == null {
        AddChild(p, b, node);
        assert Linked(p, b);
      }
      next := node.Child(b);
    }

    method Mark(ghost q: Path, node: Node)
      requires Valid() && q in nodes && nodes[q] == node
      modifies node
      ensures Valid() && Covered() == old(Covered()) + {q}
    {
      node.covered := true;
      forall p, b | p in nodes
        ensures Linked(p, b)
      {
        assert old(Linked(p, b));
      }
      forall p | p in nodes
        ensures nodes[p].covered == (p == q || old(nodes[p].covered))
      {
        assert nodes[p] == nodes[q] ==> p == q;
      }
    }

    method AddChild(ghost p: Path, b: bool, node: Node)
      requires Valid() && p in nodes && nodes[p] == node && |p| < depth && node.Child(b) == null
      modifies this`nodes, node
      ensures Valid() && p + [b] in nodes && nodes == old(nodes)[p + [b] := nodes[p + [b]]]
      ensures fresh(nodes[p + [b]]) && !nodes[p + [b]].covered && node.covered == old(node.covered)
    {
      NewPathIsLeaf(p, b);
      ghost var was := nodes;
      forall r, c | r in was
        ensures was[r].Child(c) == if r + [c] in was then was[r + [c]] else null
      {
        assert Linked(r, c);
      }
      var n := Attach(b, node);
      assert forall r :: r in was ==> was[r] != n && (r != p ==> was[r] != node);
      nodes := nodes[p + [b] := n];
      ParentOfChild(p, b);
      Relinked(was, p, b);
    }

    static method Attach(b: bool, node: Node) returns (n: Node)
      modifies node
      ensures fresh(n) && !n.covered && n.zero == null && n.one == null
      ensures node.Child(b) == n && node.Child(!b) == old(node.Child(!b)) && node.covered == old(node.covered)
    {
      n := new Node();
      node.SetChild(b, n);
    }

    lemma Relinked(was: map<Path, Node>, p: Path, b: bool)
      requires p in was && p + [b] !in was && (forall c :: p + [b] + [c] !in was)
      requires p + [b] in nodes && nodes == was[p + [b] := nodes[p + [b]]]
      requires forall c :: nodes[p + [b]].Child(c) == null
      requires nodes[p].Child(b) == nodes[p + [b]]
      requires forall r, c {:trigger was[r].Child(c)} :: r in was && (r != p || c != b) ==>
        was[r].Child(c) == if r + [c] in was then was[r + [c]] else null
      ensures forall r, c :: r in nodes ==> Linked(r, c)
    {
      forall r, c | r in nodes
        ensures Linked(r, c)
      {
        SameChild(r, c, p, b);
        SameChild(r, c, p + [b], c);
        if r != p + [b] {
          assert r in was && nodes[r] == was[r];
        }
      }
    }

    /** A path that is not in the trie has nothing below it. */
    lemma NewPathIsLeaf(p: Path, b: bool)
      requires Valid() && p in nodes && nodes[p].Child(b) == null
      ensures p + [b] !in nodes && forall c :: p + [b] + [c] !in nodes
    {
      assert Linked(p, b);
      forall c
        ensures p + [b] + [c] !in nodes
      {
        ParentOfChild(p + [b], c);
      }
    }

    /** trustedProxyCoverageComplete, at the node reached along `path`. */
    function Complete(ghost path: Path, node: Node?): bool
      reads this, Objects()
      requires Valid() && |path| <= depth + 1
      requires node == if path in nodes then nodes[path] else null
      decreases depth + 1 - |path|
    {
      if node == null then false
      else if node.covered then true
      else
        assert Linked(path, false) && Linked(path, true);
        Complete(path + [false], node.Child(false)) && Complete(path + [true], node.Child(true))
    }

    /** All the addresses below `path` have a covered node at or below it. */
    ghost predicate CoveredBelow(path: Path)
      reads this, Objects()
    {
      forall a: Path :: |a| == depth && path <= a ==>
        PrefixIn(a, |path|, Covered())
    }

    lemma {:induction false} NoDescendants(path: Path, a: Path, k: nat)
      requires Valid() && path !in nodes && path <= a && |path| <= k <= |a|
      ensures a[..k] !in nodes
      decreases k
    {
      if k == |path| {
        assert a[..k] == path;
      } else {
        NoDescendants(path, a, k - 1);
        assert Parent(a[..k]) == a[..k - 1];
      }
    }

    lemma {:induction false} CompleteIffCoveredBelow(path: Path)
      requires Valid() && |path| <= depth
      ensures Complete(path, if path in nodes then nodes[path] else null) <==> CoveredBelow(path)
      decreases depth - |path|
    {
      if path !in nodes {
        MissingIsUncovered(path);
      } else if nodes[path].covered {
        forall a: Path | |a| == depth && path <= a
          ensures PrefixIn(a, |path|, Covered())
        {
          assert a[..|path|] == path;
        }
      } else if |path| == depth {
        assert Linked(path, false);
        assert path <= path && forall k :: |path| <= k <= depth ==> path[..k] == path;
        assert !CoveredBelow(path);
      } else {
        assert Linked(path, false) && Linked(path, true);
        CompleteIffCoveredBelow(path + [false]);
        CompleteIffCoveredBelow(path + [true]);
        SplitCoverage(path);
      }
    }

    lemma MissingIsUncovered(path: Path)
      requires Valid() && |path| <= depth && path !in nodes
      ensures !CoveredBelow(path)
    {
      var a := path + seq(depth - |path|, _ => false);
      forall k | |path| <= k <= depth
        ensures a[..k] !in Covered()
      {
        NoDescendants(path, a, k);
      }
      assert |a| == depth && path <= a;
    }

    /** An uncovered inner node covers what lies below it through its two children. */
    lemma SplitCoverage(path: Path)
      requires Valid() && |path| < depth && path in nodes && !nodes[path].covered
      ensures CoveredBelow(path) <==> CoveredBelow(path + [false]) && CoveredBelow(path + [true])
    {
      if CoveredBelow(path) {
        forall b, a: Path | |a| == depth && path + [b] <= a
          ensures PrefixIn(a, |path| + 1, Covered())
        {
          assert a[..|path|] == path;
          var k :| |path| <= k <= depth && a[..k] in Covered();
        }
      }
      if CoveredBelow(path + [false]) && CoveredBelow(path + [true]) {
        forall a: Path | |a| == depth && path <= a
          ensures PrefixIn(a, |path|, Covered())
        {
          var b := a[|path|];
          assert path + [b] <= a;
          assert CoveredBelow(path + [b]);
        }
      }
    }
  }

  // ----- The decision

  function FamilyPaths(prefixes: seq<Prefix>, bits: nat): set<Path>
    requires forall p :: p in prefixes ==> WellFormed(p)
  {
    set p | p in prefixes && p.bits == bits :: PathOf(p)
  }

  /** The trie need not hold every added path: one below a covered node is left out. */
  ghost predicate Represents(covered: set<Path>, added: set<Path>) {
    covered <= added && forall q :: q in added ==> PrefixIn(q, 0, covered)
  }

  lemma AddRepresents(was: set<Path>, added: set<Path>, q: Path)
    requires Represents(was, added)
    ensures Represents(if PrefixIn(q, 0, was) then was else was + {q}, added + {q})
  {
    var now := if PrefixIn(q, 0, was) then was else was + {q};
    forall r | r in added + {q}
      ensures PrefixIn(r, 0, now)
    {
      if r == q {
        assert q[..|q|] == q;
      } else {
        var k :| 0 <= k <= |r| && r[..k] in was;
      }
    }
  }

  lemma SamePrefixes(covered: set<Path>, added: set<Path>, a: Path)
    requires Represents(covered, added)
    ensures PrefixIn(a, 0, covered) <==> PrefixIn(a, 0, added)
  {
    if PrefixIn(a, 0, added) {
      var k :| 0 <= k <= |a| && a[..k] in added;
      var m :| 0 <= m <= k && a[..k][..m] in covered;
      assert a[..k][..m] == a[..m];
    }
  }

  lemma TrustIsPrefix(prefixes: seq<Prefix>, bits: nat, addr: seq<bv8>)
    requires forall p :: p in prefixes ==> WellFormed(p)
    requires 8 * |addr| == bits
    ensures Trusts(prefixes, addr) <==> PrefixIn(Bits(addr), 0, FamilyPaths(prefixes, bits))
  {
    var a := Bits(addr);
    if Trusts(prefixes, addr) {
      var j :| 0 <= j < |prefixes| && Matches(prefixes[j], addr);
      MatchesIsPrefix(prefixes[j], addr);
      var q := PathOf(prefixes[j]);
      assert a[..|q|] == q;
    }
    if PrefixIn(a, 0, FamilyPaths(prefixes, bits)) {
      var k :| 0 <= k <= |a| && a[..k] in FamilyPaths(prefixes, bits);
      var j :| 0 <= j < |prefixes| && prefixes[j].bits == bits && PathOf(prefixes[j]) == a[..k];
      MatchesIsPrefix(prefixes[j], addr);
    }
  }

  /**
   trustedProxyPrefixesCoverAll: for any list, with duplicates, nesting and any order, the answer
   is whether every address of the family matches some listed prefix.
  */
  method CoverAll(prefixes: seq<Prefix>, bits: nat) returns (all: bool)
    requires forall p :: p in prefixes ==> WellFormed(p)
    requires bits % 8 == 0
    ensures all <==> TrustsFamily(prefixes, bits)
  {
    var trie := new Trie(bits);
    AddFamily(trie, prefixes);
    all := trie.Complete([], trie.root);
    trie.CompleteIffCoveredBelow([]);
    FamilyIsRoot(trie, prefixes, bits);
  }

  /** The loop over the list: every prefix of the family is added in turn. */
  method AddFamily(trie: Trie, prefixes: seq<Prefix>)
    requires trie.Valid() && trie.Covered() == {} && forall p :: p in prefixes ==> WellFormed(p)
    modifies trie, trie.Objects()
    ensures trie.Valid() && Represents(trie.Covered(), FamilyPaths(prefixes, trie.depth))
  {
    ghost var added: set<Path> := {};
    for i := 0 to |prefixes|
      invariant trie.Valid() && fresh(trie.Objects() - old(trie.Objects()))
      invariant Represents(trie.Covered(), added)
      invariant added == FamilyPaths(prefixes[..i], trie.depth)
    {
      FamilyPathsGrow(prefixes, i, trie.depth);
      added := AddOfFamily(trie, prefixes[i], added);
    }
    assert prefixes[..|prefixes|] == prefixes;
  }

  /** The loop's body: a prefix of another family is passed over. */
  method AddOfFamily(trie: Trie, prefix: Prefix, ghost added: set<Path>) returns (ghost now: set<Path>)
    requires trie.Valid() && WellFormed(prefix) && Represents(trie.Covered(), added)
    modifies trie, trie.Objects()
    ensures trie.Valid() && fresh(trie.Objects() - old(trie.Objects()))
    ensures now == added + if prefix.bits == trie.depth then {PathOf(prefix)} else {}
    ensures Represents(trie.Covered(), now)
  {
    now := added;
    if prefix.bits == trie.depth {
      AddRepresents(trie.Covered(), added, PathOf(prefix));
      trie.Add(prefix);
      now := added + {PathOf(prefix)};
    }
  }

  lemma FamilyPathsGrow(prefixes: seq<Prefix>, i: nat, bits: nat)
    requires forall p :: p in prefixes ==> WellFormed(p)
    requires i < |prefixes|
    ensures FamilyPaths(prefixes[..i + 1], bits)
         == FamilyPaths(prefixes[..i], bits) + if prefixes[i].bits == bits then {PathOf(prefixes[i])} else {}
  {
    assert prefixes[..i + 1] == prefixes[..i] + [prefixes[i]];
  }

  lemma FamilyIsRoot(trie: Trie, prefixes: seq<Prefix>, bits: nat)
    requires forall p :: p in prefixes ==> WellFormed(p)
    requires trie.Valid() && trie.depth == bits && bits % 8 == 0
    requires Represents(trie.Covered(), FamilyPaths(prefixes, bits))
    ensures trie.CoveredBelow([]) <==> TrustsFamily(prefixes, bits)
  {
    if trie.CoveredBelow([]) {
      forall addr: seq<bv8> | 8 * |addr| == bits
        ensures Trusts(prefixes, addr)
      {
        assert [] <= Bits(addr);
        SamePrefixes(trie.Covered(), FamilyPaths(prefixes, bits), Bits(addr));
        TrustIsPrefix(prefixes, bits, addr);
      }
    }
    if TrustsFamily(prefixes, bits) {
      forall a: Path | |a| == bits
        ensures PrefixIn(a, 0, trie.Covered())
      {
        SamePrefixes(trie.Covered(), FamilyPaths(prefixes, bits), a);
        TrustIsPrefix(prefixes, bits, Address(a));
      }
    }
  }

  // ----- Accepting a configuration

  datatype Outcome =
    | Accepted(proxies: seq<string>)
    | InvalidEntry(proxy: string)
    | UnrestrictedEntry(proxy: string, bits: nat)
    | FamilyCovered(bits: nat)

  /** The entries that count: trimmed, blanks dropped, in order. */
  function Entries(values: seq<string>): seq<string> {
    if values == [] then []
    else
      var rest, last := Entries(values[..|values| - 1]), TrimSpace(values[|values| - 1]);
      if last == "" then rest else rest + [last]
  }

  /** Where reading the entries in order stops: the first one that does not parse or has length 0. */
  predicate Acceptable(parse: string -> Option<Prefix>, entry: string) {
    parse(entry).Some? && parse(entry).value.length != 0
  }

  ghost predicate Parsed(parse: string -> Option<Prefix>, entries: seq<string>, prefixes: seq<Prefix>) {
    |prefixes| == |entries| && forall i :: 0 <= i < |entries| ==> parse(entries[i]) == Some(prefixes[i])
  }

  ghost predicate ParsesWell(parse: string -> Option<Prefix>) {
    forall s :: parse(s).Some? ==> WellFormed(parse(s).value)
  }

  /** The entries all parse, to prefixes for which trusting the whole family is `trusted`. */
  ghost predicate FamilyTrust(entries: seq<string>, parse: string -> Option<Prefix>, bits: nat, trusted: bool) {
    && (forall e :: e in entries ==> Acceptable(parse, e))
    && exists prefixes :: Parsed(parse, entries, prefixes) && (forall p :: p in prefixes ==> WellFormed(p))
         && TrustsFamily(prefixes, bits) == trusted
  }

  /** An outcome is given for the reason that really holds. */
  ghost predicate IsRight(values: seq<string>, parse: string -> Option<Prefix>, out: Outcome) {
    match out
    case Accepted(proxies) =>
      proxies == Entries(values) && FamilyTrust(proxies, parse, 32, false) && FamilyTrust(proxies, parse, 128, false)
    case InvalidEntry(proxy) =>
      FirstRefused(values, parse, proxy) && parse(proxy) == None
    case UnrestrictedEntry(proxy, bits) =>
      && FirstRefused(values, parse, proxy)
      && parse(proxy).Some? && parse(proxy).value.length == 0 && parse(proxy).value.bits == bits
    case FamilyCovered(bits) =>
      && FamilyTrust(Entries(values), parse, bits, true)
      && (bits == 32 || (bits == 128 && FamilyTrust(Entries(values), parse, 32, false)))
  }

  /** The configured values: the text split at commas, or the defaults when it is blank. */
  function ConfiguredValues(raw: string, defaults: seq<string>): seq<string> {
    if TrimSpace(raw) != "" then Split(raw, ',') else defaults
  }

  /**
   parseTrustedProxies; `parse` is the CIDR and address parser of Go's net package. A configuration
   is accepted only if it leaves some IPv4 and some IPv6 address untrusted, and is otherwise rejected
   for the reason that really holds, IPv4 first.
  */
  method ParseTrustedProxies(raw: string, defaults: seq<string>, parse: string -> Option<Prefix>) returns (out: Outcome)
    requires ParsesWell(parse)
    ensures IsRight(ConfiguredValues(raw, defaults), parse, out)
  {
    var values := defaults;
    if TrimSpace(raw) != "" {
      values := Split(raw, ',');
    }
    out := CheckEntries(values, parse);
  }

  method CheckEntries(values: seq<string>, parse: string -> Option<Prefix>) returns (out: Outcome)
    requires ParsesWell(parse)
    ensures IsRight(values, parse, out)
  {
    var proxies: seq<string>, prefixes: seq<Prefix> := [], [];
    var i := 0;
    while i < |values|
      invariant 0 <= i <= |values|
      invariant proxies == Entries(values[..i]) && Parsed(parse, proxies, prefixes)
      invariant forall p :: p in prefixes ==> WellFormed(p) && p.length != 0
      invariant forall e :: e in proxies ==> Acceptable(parse, e)
    {
      var proxy := TrimSpace(values[i]);
      assert values[..i + 1][..i] == values[..i];
      if proxy != "" {
        var parsed := parse(proxy);
        if parsed.None? || parsed.value.length == 0 {
          RefusedHere(values, parse, i);
          return if parsed.None? then InvalidEntry(proxy) else UnrestrictedEntry(proxy, parsed.value.bits);
        }
        prefixes := prefixes + [parsed.value];
        proxies := proxies + [proxy];
      }
      i := i + 1;
    }
    assert values[..i] == values;
    var ipv4 := CoverAll(prefixes, 32);
    if ipv4 {
      return FamilyCovered(32);
    }
    var ipv6 := CoverAll(prefixes, 128);
    return if ipv6 then FamilyCovered(128) else Accepted(proxies);
  }

  /** `proxy` is the first entry that is refused. */
  ghost predicate FirstRefused(values: seq<string>, parse: string -> Option<Prefix>, proxy: string) {
    exists n :: 0 <= n < |Entries(values)| && Entries(values)[n] == proxy && !Acceptable(parse, proxy)
      && forall m :: 0 <= m < n ==> Acceptable(parse, Entries(values)[m])
  }

  /** Every value gives its trimmed text, or nothing when that is blank, in the order of the values. */
  lemma {:induction false} EntriesInOrder(values: seq<string>, more: seq<string>)
    ensures Entries(values + more) == Entries(values) + Entries(more)
    ensures |values| == 1 ==> Entries(values) == if TrimSpace(values[0]) == "" then [] else [TrimSpace(values[0])]
  {
    if more == [] {
      assert values + more == values;
    } else {
      var before, last := more[..|more| - 1], more[|more| - 1];
      EntriesInOrder(values, before);
      assert (values + more)[..|values + more| - 1] == values + before && (values + more)[|values + more| - 1] == last;
    }
    assert |values| == 1 ==> values[..0] == [];
  }

  /** A configured list of values without commas is taken as it is, unless it is blank. */
  lemma ConfiguredListReadsBack(values: seq<string>, defaults: seq<string>)
    requires values != [] && forall v :: v in values ==> ',' !in v
    ensures ConfiguredValues(Join(values, ','), defaults) ==
            if TrimSpace(Join(values, ',')) == "" then defaults else values
  {
    SplitJoin(values, ',');
  }

  lemma RefusedHere(values: seq<string>, parse: string -> Option<Prefix>, i: nat)
    requires i < |values| && TrimSpace(values[i]) != ""
    requires forall e :: e in Entries(values[..i]) ==> Acceptable(parse, e)
    requires !Acceptable(parse, TrimSpace(values[i]))
    ensures FirstRefused(values, parse, TrimSpace(values[i]))
  {
    var proxy, before := TrimSpace(values[i]), Entries(values[..i]);
    EntriesAround(values[..i], values[i], values[i + 1..]);
    assert values == values[..i] + ([values[i]] + values[i + 1..]);
    assert Entries(values)[|before|] == proxy;
    assert forall m :: 0 <= m < |before| ==> Entries(values)[m] == before[m];
  }

  lemma EntriesAround(values: seq<string>, value: string, more: seq<string>)
    requires TrimSpace(value) != ""
    ensures Entries(values + ([value] + more)) == Entries(values) + ([TrimSpace(value)] + Entries(more))
  {
    EntriesInOrder(values, [value] + more);
    EntriesInOrder([value], more);
  }
}
