/** Inode numbers: a hash of what the inode names, split in two namespaces. */
module Inodes {
  import opened Git

  const ROOT_INODE: nat := 1
  const SYNTHETIC_INODE_BIT: nat := 0x8000_0000_0000_0000

  datatype InodeKind = RootKind | TreeEntryKind(oid: Oid, path: string) | SyntheticKind(path: string)

  /** The allocator's hash of each sort of input, as an unsigned 64-bit result. */
  datatype Hashes = Hashes(tree: (Oid, string) -> nat, synthetic: string -> nat)

  /** The number without the synthetic bit. */
  function Cleared(raw: nat): nat {
    raw % SYNTHETIC_INODE_BIT
  }

  /** 0 and 1 are reserved. */
  function Bumped(raw: nat): nat {
    if raw <= ROOT_INODE then raw + 2 else raw
  }

  function Marked(inode: nat): nat {
    if inode < SYNTHETIC_INODE_BIT then inode + SYNTHETIC_INODE_BIT else inode
  }

  function InodeOf(h: Hashes, k: InodeKind): nat {
    match k
    case RootKind => ROOT_INODE
    case TreeEntryKind(oid, path) => Bumped(Cleared(h.tree(oid, path)))
    case SyntheticKind(path) => Marked(Cleared(Bumped(Cleared(h.synthetic(path)))))
  }

  /** Root, tree entries and synthetic entries never share a number, whatever the hash. */
  lemma NamespacesAreDisjoint(h: Hashes, k: InodeKind)
    ensures InodeOf(h, k) == ROOT_INODE <==> k.RootKind?
    ensures SYNTHETIC_INODE_BIT <= InodeOf(h, k) <==> k.SyntheticKind?
    ensures 1 <= InodeOf(h, k) < 2 * SYNTHETIC_INODE_BIT
  {
    if k.SyntheticKind? {
      var low := Cleared(h.synthetic(k.path));
      assert Bumped(low) < SYNTHETIC_INODE_BIT;
    }
  }

  /** Hashes that tell their inputs apart in the bits that are kept. */
  ghost predicate TellsApart(h: Hashes) {
    && (forall o, p :: ROOT_INODE < h.tree(o, p) < SYNTHETIC_INODE_BIT)
    && (forall p :: ROOT_INODE < h.synthetic(p) < SYNTHETIC_INODE_BIT)
    && (forall o, p, o', p' :: h.tree(o, p) == h.tree(o', p') ==> o == o' && p == p')
    && (forall p, p' :: h.synthetic(p) == h.synthetic(p') ==> p == p')
  }

  /** Then the numbers do: an entry's number depends on its object and its path. */
  lemma NumbersTellApart(h: Hashes, j: InodeKind, k: InodeKind)
    requires TellsApart(h)
    ensures InodeOf(h, j) == InodeOf(h, k) <==> j == k
  {
    NamespacesAreDisjoint(h, j);
    NamespacesAreDisjoint(h, k);
    KeptBits(h, j);
    KeptBits(h, k);
  }

  lemma KeptBits(h: Hashes, k: InodeKind)
    requires TellsApart(h)
    ensures k.TreeEntryKind? ==> InodeOf(h, k) == h.tree(k.oid, k.path)
    ensures k.SyntheticKind? ==> InodeOf(h, k) == h.synthetic(k.path) + SYNTHETIC_INODE_BIT
  {
    match k
    case TreeEntryKind(oid, path) => assert ROOT_INODE < h.tree(oid, path) < SYNTHETIC_INODE_BIT;
    case SyntheticKind(path) => assert ROOT_INODE < h.synthetic(path) < SYNTHETIC_INODE_BIT;
    case RootKind =>
  }

  class InodeAllocator {
    const hashes: Hashes
    var forward: map<nat, InodeKind>

    /** Everything a number was ever asked for. */
    ghost var issued: set<InodeKind>

    ghost predicate Valid()
      reads this
    {
      && RootKind in issued
      && (forall i | i in forward :: forward[i] in issued && InodeOf(hashes, forward[i]) == i)
      && (forall k | k in issued :: InodeOf(hashes, k) in forward)
    }

    constructor (hashes: Hashes)
      ensures Valid() && this.hashes == hashes && issued == {RootKind} && forward == map[ROOT_INODE := RootKind]
    {
      this.hashes := hashes;
      forward, issued := map[ROOT_INODE := RootKind], {RootKind};
    }

    /** `for_tree_entry` and `for_synthetic`: the first kind to get a number keeps it. */
    method Issue(kind: InodeKind) returns (inode: nat)
      requires Valid()
      modifies this
      ensures Valid() && inode == InodeOf(hashes, kind)
      ensures issued == old(issued) + {kind}
      ensures forward == if inode in old(forward) then old(forward) else old(forward)[inode := kind]
    {
      inode := InodeOf(hashes, kind);
      if inode !in forward {
        forward := forward[inode := kind];
      }
      issued := issued + {kind};
    }

    /** No two different things asked for got the same number. */
    ghost predicate CollisionFree()
      reads this
    {
      forall j, k | j in issued && k in issued && InodeOf(hashes, j) == InodeOf(hashes, k) :: j == k
    }

    /** Whether that is so can be read off the table: everything asked for resolves back. */
    lemma CollisionFreeIffResolving()
      requires Valid()
      ensures CollisionFree() <==> forall k | k in issued :: forward[InodeOf(hashes, k)] == k
    {
      hide InodeOf;
      if forall k | k in issued :: forward[InodeOf(hashes, k)] == k {
        forall j, k | j in issued && k in issued && InodeOf(hashes, j) == InodeOf(hashes, k) ensures j == k {
          assert forward[InodeOf(hashes, j)] == forward[InodeOf(hashes, k)];
        }
      }
    }
  }
}
