// A cache of pipeline data blocks deduplicated by content: inserting a block
// returns a stable pointer to a copy, the same pointer for equal contents, so
// pointer comparison stands for comparison of contents
// (src/gpu/graphite/PipelineDataCache.h).
module PipelineDataCache {
  import opened Wrappers

  /** The key of the hash set: a possibly null pointer to a block, compared by content. */
  datatype DataRef<T> = DataRef(pointer: Option<T>)

  /** DataRef::operator==: null equals only null; two blocks are equal when their contents are. */
  function DataRefEquals<T(==)>(a: DataRef<T>, b: DataRef<T>): (r: bool)
    ensures r <==> a == b
    ensures a.pointer.None? ==> (r <==> b.pointer.None?)
  {
    if a.pointer.None? || b.pointer.None? then a.pointer.None? && b.pointer.None?
    else a.pointer.value == b.pointer.value
  }

  /**
   * The cache. A pointer is the index of a copy in the arena; the hash set maps each
   * stored content to the pointer of its copy.
   */
  class PipelineDataCache<T(==)> {
    var arena: seq<T>
    var dataPointers: map<T, nat>

    ghost predicate Valid()
      reads this
    {
      |dataPointers| == |arena| &&
      (forall k :: k in dataPointers ==> dataPointers[k] < |arena| && arena[dataPointers[k]] == k) &&
      (forall i :: 0 <= i < |arena| ==> arena[i] in dataPointers && dataPointers[arena[i]] == i)
    }

    constructor ()
      ensures Valid() && arena == [] && dataPointers == map[]
    {
      arena := [];
      dataPointers := map[];
    }

    /**
     * insert: the pointer already stored for an equal block, leaving the cache as it
     * was; otherwise a copy is added to the arena and its pointer stored.
     */
    method Insert(dataBlock: T) returns (p: nat)
      requires Valid()
      modifies this
      ensures Valid() && p < |arena| && arena[p] == dataBlock
      ensures dataBlock in old(dataPointers) ==>
        p == old(dataPointers)[dataBlock] && arena == old(arena) && dataPointers == old(dataPointers)
      ensures dataBlock !in old(dataPointers) ==>
        p == |old(arena)| && arena == old(arena) + [dataBlock] && dataPointers == old(dataPointers)[dataBlock := p]
      ensures |dataPointers| == |old(dataPointers)| + (if dataBlock in old(dataPointers) then 0 else 1)
    {
      if dataBlock in dataPointers {
        return dataPointers[dataBlock];
      }
      p := |arena|;
      arena := arena + [dataBlock];
      dataPointers := dataPointers[dataBlock := p];
    }

    /** count: the number of unique blocks in the cache. */
    function Count(): (n: nat)
      reads this
      requires Valid()
      ensures n == |arena|
      ensures forall i :: 0 <= i < |arena| ==> arena[i] in dataPointers.Keys
    {
      |dataPointers|
    }

    /** Pointers stand for contents: two stored pointers are equal exactly when their blocks are. */
    lemma PointerEqualityIsContentEquality(p: nat, q: nat)
      requires Valid() && p < |arena| && q < |arena|
      ensures p == q <==> arena[p] == arena[q]
    {
      if arena[p] == arena[q] {
        assert dataPointers[arena[p]] == p && dataPointers[arena[q]] == q;
      }
    }
  }

  /** Inserting equal blocks returns one pointer, and the second insert stores nothing new. */
  method InsertEqualBlocks<T(==)>(cache: PipelineDataCache<T>, a: T, b: T) returns (pa: nat, pb: nat)
    requires cache.Valid() && a == b
    modifies cache
    ensures pa == pb && cache.Valid()
    ensures cache.Count() <= old(cache.Count()) + 1
  {
    pa := cache.Insert(a);
    pb := cache.Insert(b);
  }

  /** Inserting different blocks returns different pointers. */
  method InsertDifferentBlocks<T(==)>(cache: PipelineDataCache<T>, a: T, b: T) returns (pa: nat, pb: nat)
    requires cache.Valid() && a != b
    modifies cache
    ensures pa != pb
  {
    pa := cache.Insert(a);
    pb := cache.Insert(b);
  }
}
