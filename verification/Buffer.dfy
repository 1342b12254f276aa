/** The cursor buffer: a byte slice with a read position. */
module ByteBuffer {
  import opened Bytes

  class Buffer {
    var b: seq<Byte>
    var i: nat

    ghost predicate Valid()
      reads this
    {
      i <= |b|
    }

    /** The unread octets. */
    function Bytes(): (s: seq<Byte>)
      requires Valid()
      reads this
    {
      b[i..]
    }

    function Len(): (n: nat)
      requires Valid()
      reads this
      ensures n == |Bytes()|
    {
      |b| - i
    }

    constructor (b: seq<Byte>)
      ensures Valid() && this.b == b && i == 0
    {
      this.b := b;
      this.i := 0;
    }

    /** Takes `n` octets, or all that are left when there are fewer. */
    method Next(n: nat) returns (s: seq<Byte>, ok: bool)
      requires Valid()
      modifies this`i
      ensures Valid() && s + Bytes() == old(Bytes())
      ensures ok <==> n <= old(Len())
      ensures |s| == if ok then n else old(Len())
      ensures i == old(i) + |s|
    {
      if i + n > |b| {
        s := b[i..];
        i := |b|;
        ok := false;
      } else {
        s := b[i..i + n];
        i := i + n;
        ok := true;
      }
      assert s + b[i..] == old(b[i..]);
    }

    method Skip(n: nat)
      requires Valid() && n <= Len()
      modifies this`i
      ensures Valid() && i == old(i) + n
    {
      i := i + n;
    }

    method Reset()
      modifies this
      ensures Valid() && b == [] && i == 0
    {
      b := [];
      i := 0;
    }

    /** Moves the unread octets to the front; readers cannot tell. */
    method Reclaim()
      requires Valid()
      modifies this
      ensures Valid() && i == 0 && Bytes() == old(Bytes())
    {
      b := b[i..];
      i := 0;
    }

    method ReadByte() returns (r: Option<Byte>)
      requires Valid()
      modifies this`i
      ensures Valid()
      ensures r == if old(i) < |b| then Some(b[old(i)]) else None
      ensures i == if r.Some? then old(i) + 1 else old(i)
    {
      if i + 1 > |b| {
        return None;
      }
      r := Some(b[i]);
      i := i + 1;
    }

    /** `ReadUint16`, `ReadUint32` and `ReadUint64`, for `k` octets. */
    method ReadUint(k: nat) returns (r: Option<nat>)
      requires Valid()
      modifies this`i
      ensures Valid()
      ensures r == if old(i) + k <= |b| then Some(Num(b[old(i)..old(i) + k])) else None
      ensures i == if r.Some? then old(i) + k else old(i)
    {
      if i + k > |b| {
        return None;
      }
      var n: nat := 0;
      var j := 0;
      while j < k
        invariant 0 <= j <= k && n == Num(b[i..i + j])
      {
        assert b[i..i + j + 1][..j] == b[i..i + j];
        n := n * 256 + b[i + j];
        j := j + 1;
      }
      r := Some(n);
      i := i + k;
    }

    method Append(p: seq<Byte>)
      modifies this`b
      ensures b == old(b) + p
    {
      b := b + p;
    }

    /** `AppendUint16`, `AppendUint32` and `AppendUint64`: the `k` low-order octets of `n`. */
    method AppendUint(n: int, k: nat)
      modifies this`b
      ensures b == old(b) + BE(n, k)
    {
      var p: seq<Byte> := [];
      var rest := n;
      var j := k;
      while j > 0
        invariant 0 <= j <= k && |p| == k - j
        invariant BE(rest, j) + p == BE(n, k)
      {
        p := [rest % 256] + p;
        rest := rest / 256;
        j := j - 1;
      }
      b := b + p;
    }

    /** `binary.BigEndian.PutUint32` on the unread octets, at offset `at`: the size fields of
        compounds and frames are written this way after their contents. */
    method PutUint32(at: nat, n: int)
      requires Valid() && at + 4 <= Len()
      modifies this`b
      ensures Valid() && b == old(b)[..i + at] + BE(n, 4) + old(b)[i + at + 4..]
    {
      b := b[..i + at] + BE(n, 4) + b[i + at + 4..];
    }

    /** One read from the connection; `p` is what arrived. */
    method ReadFromOnce(p: seq<Byte>)
      requires Valid()
      modifies this`b
      ensures Valid() && b == old(b) + p && Bytes() == old(Bytes()) + p
    {
      b := b + p;
    }
  }
}
