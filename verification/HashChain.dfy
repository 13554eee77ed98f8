/** Hash chains, as the ledger and the board both build them: numbered from 1, each link carrying the
  hash of the one before. The chain hash is a parameter; where it matters it is assumed injective. */
module HashChain {
  import opened Merkle

  /** `content` is what the link's hash covers besides the previous hash. */
  datatype Link<C> = Link(number: int, prev: Hash, hash: Hash, content: C)

  type ChainHash<!C> = (Hash, C) -> Hash

  /** What the first link carries in place of a previous hash. */
  const GENESIS_PREV_HASH := Hash("0000000000000000000000000000000000000000000000000000000000000000")

  ghost predicate InjectiveChain<C(!new)>(h: ChainHash<C>) {
    forall p, c, q, d :: h(p, c) == h(q, d) ==> p == q && c == d
  }

  /** The hash that the next link has to carry. */
  function HeadHash<C>(genesis: Hash, links: seq<Link<C>>): Hash {
    if links == [] then genesis else links[|links| - 1].hash
  }

  ghost predicate Chained<C>(h: ChainHash<C>, genesis: Hash, links: seq<Link<C>>) {
    forall i | 0 <= i < |links| :: Follows(h, genesis, links[..i], links[i])
  }

  ghost predicate Follows<C>(h: ChainHash<C>, genesis: Hash, before: seq<Link<C>>, link: Link<C>) {
    link.number == |before| + 1 && link.prev == HeadHash(genesis, before) && link.hash == h(link.prev, link.content)
  }

  /** A link keeps the chain exactly when it follows the last one. */
  lemma ExtendsIff<C>(h: ChainHash<C>, genesis: Hash, links: seq<Link<C>>, link: Link<C>)
    requires Chained(h, genesis, links)
    ensures Chained(h, genesis, links + [link]) <==> Follows(h, genesis, links, link)
  {
    var more := links + [link];
    assert forall i | 0 <= i < |links| :: more[i] == links[i] && more[..i] == links[..i];
    assert more[..|links|] == links && more[|links|] == link;
  }

  /** Two chains of the same length with the same last hash are the same chain. */
  lemma {:induction false} LastHashBinds<C(!new)>(h: ChainHash<C>, genesis: Hash, a: seq<Link<C>>, b: seq<Link<C>>)
    requires InjectiveChain(h) && Chained(h, genesis, a) && Chained(h, genesis, b)
    requires |a| == |b| && HeadHash(genesis, a) == HeadHash(genesis, b)
    ensures a == b
    decreases |a|
  {
    if a != [] {
      var n := |a| - 1;
      assert Follows(h, genesis, a[..n], a[n]) && Follows(h, genesis, b[..n], b[n]);
      ChainedPrefix(h, genesis, a, n);
      ChainedPrefix(h, genesis, b, n);
      LastHashBinds(h, genesis, a[..n], b[..n]);
      assert a == a[..n] + [a[n]] && b == b[..n] + [b[n]];
    }
  }

  lemma ChainedPrefix<C>(h: ChainHash<C>, genesis: Hash, links: seq<Link<C>>, n: nat)
    requires Chained(h, genesis, links) && n <= |links|
    ensures Chained(h, genesis, links[..n])
  {
    assert forall i | 0 <= i < n :: links[..n][i] == links[i] && links[..n][..i] == links[..i];
  }
}
