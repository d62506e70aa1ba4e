/** The store under the caches is the radix tree: every action of the concurrent tree changes its cells in
    one of the ways the cache protocol reckons with. */
module CacheOverTree {
  import opened Common
  import opened RadixHeap
  import opened RadixSteps
  import VersionedCache

  /** The cells of a tree as the caches' store: one for every key that has a node. */
  ghost function Cells(h: Heap): (st: VersionedCache.Store)
    ensures forall k :: k in st <==> exists p :: p in h && h[p].key == k
    ensures forall k | k in st :: st[k] == Cell(h, k)
  {
    map k | k in (set p | p in h :: h[p].key) :: Cell(h, k)
  }

  /** An action of the tree leaves every other cell alone, moves the written cell to its next version as
      the store's puts and deletes do, and adds at most null cells besides. */
  lemma TreeActsAsStore(run: seq<State>, acts: seq<Action>, i: nat)
    requires Sound(run, acts) && i < |acts|
    ensures var st, st' := Cells(run[i].heap), Cells(run[i + 1].heap);
      && VersionedCache.Later(st, st')
      && forall k | k in st' ::
        || (k in st && st'[k] == st[k])
        || (k !in st && st'[k] == Nil)
        || (acts[i].Step? && acts[i].t in run[i].ops && k == run[i].ops[acts[i].t].key
            && st'[k] == VersionedCache.Next(st, k, Target(run[i].ops[acts[i].t].kind)))
  {
    var h, h' := run[i].heap, run[i + 1].heap;
    RunGrown(run, acts, i, i + 1);
    ActionsAreAtomic(run, acts, i);
    forall k | k in Cells(h)
      ensures k in Cells(h') && (Cells(h')[k] == Cells(h)[k] || Cells(h')[k].tag > Cells(h)[k].tag)
    {
      var p :| p in h && h[p].key == k;
      assert NodeKept(h, h', p);
      CellIs(h, run[0].root, p);
      CellIs(h', run[0].root, p);
    }
  }
}
