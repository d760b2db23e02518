/** Bytes, chunk lists and optional values shared by every module. */
module Common {

  datatype Option<+T> = None | Some(value: T)

  type byte = x: int | 0 <= x < 256

  /** The concatenation of a list of chunks: what a stream carries once its chunking is forgotten. */
  function Concat<T>(chunks: seq<seq<T>>): seq<T> {
    if chunks == [] then [] else chunks[0] + Concat(chunks[1..])
  }

  lemma Associative<T>(a: seq<T>, b: seq<T>, c: seq<T>)
    ensures a + b + c == a + (b + c)
  {
  }

  lemma SlicesOfPrefix<T>(a: seq<T>, b: seq<T>, i: nat, j: nat)
    requires i <= j <= |a|
    ensures (a + b)[i..j] == a[i..j] && (a + b)[j..] == a[j..] + b
  {
  }

  lemma {:induction false} ConcatSplit<T>(a: seq<seq<T>>, b: seq<seq<T>>)
    ensures Concat(a + b) == Concat(a) + Concat(b)
  {
    if a == [] {
      assert a + b == b;
    } else {
      ConcatSplit(a[1..], b);
      Associative(a[0], Concat(a[1..]), Concat(b));
      assert (a + b)[0] == a[0] && (a + b)[1..] == a[1..] + b;
    }
  }

  lemma ConcatSnoc<T>(chunks: seq<seq<T>>, i: nat)
    requires i < |chunks|
    ensures Concat(chunks[..i + 1]) == Concat(chunks[..i]) + chunks[i]
  {
    assert chunks[..i + 1] == chunks[..i] + [chunks[i]];
    ConcatSplit(chunks[..i], [chunks[i]]);
    assert Concat([chunks[i]]) == chunks[i] + Concat([]);
  }

  lemma ConcatOne<T>(chunks: seq<seq<T>>, c: seq<T>)
    ensures Concat(chunks + [c]) == Concat(chunks) + c
  {
    var all := chunks + [c];
    assert all[..|chunks|] == chunks && all[..|chunks| + 1] == all;
    ConcatSnoc(all, |chunks|);
  }

  lemma ConcatTake<T>(chunks: seq<seq<T>>, i: nat)
    requires i <= |chunks|
    ensures Concat(chunks) == Concat(chunks[..i]) + Concat(chunks[i..])
  {
    hide Concat;
    ConcatSplit(chunks[..i], chunks[i..]);
    assert chunks == chunks[..i] + chunks[i..];
  }

  // ----- byte arrays

  /** `a` with `src` written over it at `offset`. */
  function Patched(a: seq<byte>, src: seq<byte>, offset: nat): (r: seq<byte>)
    requires offset + |src| <= |a|
    ensures |r| == |a|
  {
    a[..offset] + src + a[offset + |src|..]
  }

  lemma PatchedTwice(a: seq<byte>, x: seq<byte>, y: seq<byte>, offset: nat)
    requires offset + |x| + |y| <= |a|
    ensures Patched(Patched(a, x, offset), y, offset + |x|) == Patched(a, x + y, offset)
  {
    var p := Patched(a, x, offset);
    assert p[..offset + |x|] == a[..offset] + x;
    assert p[offset + |x| + |y|..] == a[offset + |x| + |y|..];
  }

  /** `bytes.set(src, offset)`. */
  method SetBytes(bytes: array<byte>, src: seq<byte>, offset: nat)
    requires offset + |src| <= bytes.Length
    modifies bytes
    ensures bytes[..] == Patched(old(bytes[..]), src, offset)
  {
    for i := 0 to |src|
      invariant forall k | 0 <= k < bytes.Length ::
        bytes[k] == if offset <= k < offset + i then src[k - offset] else old(bytes[k])
    {
      bytes[offset + i] := src[i];
    }
    ghost var patched := Patched(old(bytes[..]), src, offset);
    assert forall k | 0 <= k < bytes.Length :: bytes[k] == patched[k];
  }
}
