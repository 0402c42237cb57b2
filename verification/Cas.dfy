/** The content-addressed blob store. */
module Cas {
  import opened Base

  /** In-memory content-addressed blobs. */
  class MemCas {
    var blobs: BlobMap

    constructor ()
      ensures blobs == map[]
    {
      blobs := map[];
    }

    method Contains(hash: ChunkHash) returns (found: bool)
      ensures found <==> hash in blobs
    {
      found := hash in blobs;
    }

    /** Storing a blob that is there is a deduplicated `false` and never a rewrite. */
    method Put(hash: ChunkHash, payload: seq<byte>) returns (stored: bool)
      modifies this
      ensures stored <==> hash !in old(blobs)
      ensures blobs == if hash in old(blobs) then old(blobs) else old(blobs)[hash := payload]
    {
      if hash in blobs { return false; }
      blobs := blobs[hash := payload];
      return true;
    }

    method FetchInto(hash: ChunkHash) returns (bytes: Option<seq<byte>>)
      ensures bytes == if hash in blobs then Some(blobs[hash]) else None
    {
      bytes := if hash in blobs then Some(blobs[hash]) else None;
    }

    method Remove(hash: ChunkHash) returns (removed: bool)
      modifies this
      ensures removed <==> hash in old(blobs)
      ensures blobs == old(blobs) - {hash}
    {
      removed := hash in blobs;
      blobs := blobs - {hash};
    }

    method VisitBlobs() returns (keys: seq<ChunkHash>)
      ensures Lists(keys, blobs.Keys)
    {
      keys := [];
      var rest := blobs.Keys;
      while rest != {}
        invariant rest <= blobs.Keys && Lists(keys, blobs.Keys - rest)
        decreases rest
      {
        var h :| h in rest;
        rest := rest - {h};
        assert blobs.Keys - rest == blobs.Keys - (rest + {h}) + {h};
        ListsOneMore(keys, blobs.Keys - (rest + {h}), h);
        keys := keys + [h];
      }
    }
  }

  /** Each member once. */
  ghost predicate Lists(keys: seq<ChunkHash>, members: set<ChunkHash>) {
    && (forall h :: h in keys <==> h in members)
    && |keys| == |members|
    && Distinct(keys)
  }

  lemma ListsOneMore(keys: seq<ChunkHash>, members: set<ChunkHash>, h: ChunkHash)
    requires Lists(keys, members) && h !in members
    ensures Lists(keys + [h], members + {h})
  {
  }
}
