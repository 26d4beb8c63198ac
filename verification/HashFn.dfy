/**
 Block hashes by number for the virtual machine (core/evm.go): a parent walk from a reference
 header with a cache that grows from query to query.
 */
module HashFn {
  import opened Common
  import opened ChainTree

  /** The plain walk: the hash at number `n` reached from the header `h` with number `number`. */
  function Walk(s: Store, h: Hash, number: nat, n: nat): Option<Hash>
    requires n <= number
    decreases number
  {
    if n == number then Some(h)
    else if GetBlock(s, h, number).None? then None
    else Walk(s, s[h].parent, number - 1, n)
  }

  /** `cache[i]` is the hash `i + 1` generations above the reference header, each step read from `s`. */
  ghost predicate Cached(s: Store, ref: Block, cache: seq<Hash>) {
    && |cache| <= ref.number + 1
    && (|cache| > 0 ==> cache[0] == ref.parent)
    && (forall i :: 0 <= i < |cache| - 1 ==> Steps(s, ref, cache, i))
  }

  ghost predicate Steps(s: Store, ref: Block, cache: seq<Hash>, i: nat)
    requires i + 1 < |cache|
  {
    GetBlock(s, cache[i], ref.number - 1 - i).Some? && s[cache[i]].parent == cache[i + 1]
  }

  /** Every cached hash is what the plain walk finds. */
  lemma {:induction false} CacheIsWalk(s: Store, ref: Block, cache: seq<Hash>, i: nat, n: nat)
    requires Cached(s, ref, cache) && i < |cache| && i < ref.number && n < ref.number - i
    ensures Walk(s, ref.parent, ref.number - 1, n) == Walk(s, cache[i], ref.number - 1 - i, n)
  {
    if i > 0 {
      CacheIsWalk(s, ref, cache, i - 1, n);
      assert Steps(s, ref, cache, i - 1);
    }
  }

  class HashFunction {
    const ref: Block
    var cache: seq<Hash>
    /** The headers the cache was read from. */
    ghost var seen: Store

    ghost predicate Valid()
      reads this
    {
      Cached(seen, ref, cache) && ref.number < TWO_TO_THE_64
    }

    constructor (ref: Block)
      requires ref.number < TWO_TO_THE_64
      ensures Valid() && this.ref == ref && seen == map[]
    {
      this.ref, cache, seen := ref, [], map[];
    }

    /**
     The hash at number `n`, from a header store that may have grown since the last query: for
     every number below the reference header exactly what the plain walk finds, whatever was
     asked before. From the reference number on there is nothing, except that the largest 64-bit
     number reads the parent hash of a header with number 0.
     */
    method Query(s: Store, n: nat) returns (r: Option<Hash>)
      requires Valid() && Extends(seen, s) && n < TWO_TO_THE_64
      modifies this`cache, this`seen
      ensures Valid() && seen == s
      ensures n < ref.number ==> r == Walk(s, ref.parent, ref.number - 1, n)
      ensures n >= ref.number && r.Some? ==> n == TWO_TO_THE_64 - 1
    {
      CacheSurvives(seen, s, ref, cache);
      seen := s;
      if |cache| == 0 {
        cache := [ref.parent];
      }
      var idx := U64(ref.number - n - 1);
      IndexIsOffset(ref.number, n);
      if idx < |cache| {
        if n < ref.number {
          CacheIsWalk(s, ref, cache, idx, n);
        }
        return Some(cache[idx]);
      }
      var lastHash := cache[|cache| - 1];
      var lastNumber := ref.number - |cache|;
      while GetBlock(s, lastHash, lastNumber).Some?
        invariant seen == s && Cached(s, ref, cache) && |cache| > 0
        invariant lastHash == cache[|cache| - 1] && lastNumber == ref.number - |cache|
        invariant n < ref.number ==> n < lastNumber
        decreases lastNumber + 1
      {
        CacheGrows(s, ref, cache);
        cache := cache + [s[lastHash].parent];
        lastHash := s[lastHash].parent;
        lastNumber := lastNumber - 1;
        if n == U64(lastNumber) {
          if n < ref.number {
            CacheIsWalk(s, ref, cache, |cache| - 1, n);
          }
          return Some(lastHash);
        }
      }
      if n < ref.number {
        CacheIsWalk(s, ref, cache, |cache| - 1, n);
      }
      return None;
    }
  }

  lemma CacheSurvives(s: Store, s': Store, ref: Block, cache: seq<Hash>)
    requires Cached(s, ref, cache) && Extends(s, s')
    ensures Cached(s', ref, cache)
  {
    forall i | 0 <= i < |cache| - 1 ensures Steps(s', ref, cache, i) { assert Steps(s, ref, cache, i); }
  }

  lemma CacheGrows(s: Store, ref: Block, cache: seq<Hash>)
    requires Cached(s, ref, cache) && |cache| > 0 && GetBlock(s, cache[|cache| - 1], ref.number - |cache|).Some?
    ensures Cached(s, ref, cache + [s[cache[|cache| - 1]].parent])
  {
    var longer := cache + [s[cache[|cache| - 1]].parent];
    forall i | 0 <= i < |longer| - 1 ensures Steps(s, ref, longer, i) {
      if i < |cache| - 1 { assert Steps(s, ref, cache, i); }
    }
  }

  lemma IndexIsOffset(number: nat, n: nat)
    requires number < TWO_TO_THE_64 && n < TWO_TO_THE_64
    ensures n < number ==> U64(number - n - 1) == number - n - 1
    ensures n >= number ==> U64(number - n - 1) == TWO_TO_THE_64 + number - n - 1
  {
    if n >= number {
      assert (number - n - 1 + TWO_TO_THE_64) % TWO_TO_THE_64 == (number - n - 1) % TWO_TO_THE_64;
    }
  }
}
