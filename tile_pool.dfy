/** The interning pool behind `tile_set` (src/wld.rs:184, used at
    src/wld.rs:228 and src/read.rs:275, 346): a set of shared tiles in which
    `get_or_insert` hands back the stored tile equal to its argument, adding
    the argument first when there is none.

    The shared `Rc<Tile>` references are modelled as handles: a handle is the
    position of the tile in `entries`, the order of insertion.  `index`
    plays the part of the hash lookup. */
module TilePool {
  import opened Structs

  class Pool {
    /** The pooled tiles, in the order they were first inserted. */
    var entries: seq<Tile>
    /** Where each pooled tile sits in `entries`. */
    var index: map<Tile, nat>

    /** `index` and `entries` describe each other: every pooled tile is
        indexed at its own position, and nothing else is indexed. */
    ghost predicate Valid()
      reads this
    {
      && (forall t :: t in index ==> index[t] < |entries| && entries[index[t]] == t)
      && (forall i :: 0 <= i < |entries| ==> entries[i] in index && index[entries[i]] == i)
    }

    /** `HashSet::new()` */
    constructor()
      ensures Valid() && entries == [] && index == map[]
    {
      entries := [];
      index := map[];
    }

    /** Membership: equal values, as the derived `Eq` compares them. */
    function Contains(t: Tile): (b: bool)
      reads this
      requires Valid()
      ensures b <==> t in entries
    {
      t in index
    }

    /** `get_or_insert`: the handle of the pooled tile equal to `t`.  The
        pool only grows, by at most one tile, and only when no equal tile
        was pooled. */
    method GetOrInsert(t: Tile) returns (h: nat)
      requires Valid()
      modifies this
      ensures Valid()
      ensures h < |entries| && entries[h] == t
      ensures old(t in entries) ==> entries == old(entries) && h == old(index[t])
      ensures !old(t in entries) ==> entries == old(entries) + [t] && h == |old(entries)|
    {
      if t in index {
        h := index[t];
      } else {
        h := |entries|;
        entries := entries + [t];
        index := index[t := h];
      }
    }

    /** The pool is a set: no tile is stored twice, so a handle names one
        value and one value one handle. */
    lemma Distinct()
      requires Valid()
      ensures forall i, j :: 0 <= i < |entries| && 0 <= j < |entries| && entries[i] == entries[j] ==> i == j
    {
      forall i, j | 0 <= i < |entries| && 0 <= j < |entries| && entries[i] == entries[j]
        ensures i == j
      {
        assert index[entries[i]] == i && index[entries[j]] == j;
      }
    }
  }
}
