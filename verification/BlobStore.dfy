/** The content-addressed store, as one process sees it between two calls. */
module BlobStore {
  import opened Basics

  /** Every blob hashes to its name. */
  ghost predicate SoundBlobs(h: Hasher, blobs: map<string, Bytes>) {
    forall d :: d in blobs ==> Hex(h(blobs[d])) == d
  }

  /** Nothing that was stored has changed or gone. */
  ghost predicate Grows(before: map<string, Bytes>, after: map<string, Bytes>) {
    forall d :: d in before ==> d in after && after[d] == before[d]
  }

  /** What a client can see of the store: its blobs, and whether a collision was met. */
  datatype View = View(blobs: map<string, Bytes>, clash: bool)

  ghost predicate Later(v: View, w: View) {
    Grows(v.blobs, w.blobs) && (v.clash ==> w.clash)
  }

  lemma LaterRefl(v: View)
    ensures Later(v, v)
  {
  }

  lemma LaterTrans(u: View, v: View, w: View)
    requires Later(u, v) && Later(v, w)
    ensures Later(u, w)
  {
  }

  /** FileSpec: a file of a torrent, and the digest it is pinned to; empty leaves it unpinned. */
  datatype FileSpec = FileSpec(digest: string, size: int)

  class Store {
    const h: Hasher
    var blobs: map<string, Bytes>

    /**
     Whether some Put has met, under the digest of its bytes, other bytes already stored.  Then the
     two are a SHA-256 collision.
     */
    ghost var clash: bool

    ghost predicate Sound()
      reads this
    {
      SoundBlobs(h, blobs)
    }

    ghost function Now(): View
      reads this
    {
      View(blobs, clash)
    }

    constructor (h: Hasher)
      ensures this.h == h && blobs == map[] && !clash && Sound()
    {
      this.h, blobs, clash := h, map[], false;
    }

    predicate Has(digest: string)
      reads this
    {
      digest in blobs
    }

    /**
     Put: hash what arrives, compare with the digest it was promised under, and keep the blob that
     is already there.  A digest that is no lower-case hexadecimal text never compares equal.
     */
    method Put(expected: string, bytes: Bytes) returns (ok: bool)
      requires Sound()
      modifies this
      ensures Sound() && Later(old(Now()), Now())
      ensures ok <==> expected == Hex(h(bytes))
      ensures blobs == if ok && expected !in old(blobs) then old(blobs)[expected := bytes] else old(blobs)
      ensures clash == (old(clash) || (ok && expected in old(blobs) && old(blobs)[expected] != bytes))
      ensures ok && expected in old(blobs) && old(blobs)[expected] != bytes ==> Collides(h, bytes, old(blobs)[expected])
    {
      var got := Hex(h(bytes));
      if got != expected {
        return false;
      }
      if expected in blobs {
        if blobs[expected] != bytes {
          HexInjective(h(bytes), h(blobs[expected]));
          clash := true;
        }
        return true;
      }
      blobs := blobs[expected := bytes];
      return true;
    }
  }
}
