/** Bytes, and overwriting part of a sequence of them. */
module ByteSeq {

  type Byte = b: int | 0 <= b < 256
  type Bytes = seq<Byte>

  function Splice(s: Bytes, at: nat, data: Bytes): (r: Bytes)
    requires at + |data| <= |s|
    ensures |r| == |s|
    ensures forall i {:trigger r[i]} :: 0 <= i < |s| ==> r[i] == if at <= i < at + |data| then data[i - at] else s[i]
  {
    seq(|s|, i requires 0 <= i < |s| => if at <= i < at + |data| then data[i - at] else s[i])
  }

  lemma {:induction false} SpliceInside(s: Bytes, at: nat, block: Bytes, pos: nat, data: Bytes)
    requires at + |block| <= |s| && pos + |data| <= |block|
    ensures Splice(s, at, Splice(block, pos, data)) == Splice(Splice(s, at, block), at + pos, data)
  {
  }

  lemma {:induction false} SpliceSame(s: Bytes, at: nat, block: Bytes)
    requires at + |block| <= |s|
    ensures Splice(s, at, block) == s <==> block == s[at..at + |block|]
    ensures Splice(s, at, block)[at..at + |block|] == block
  {
    var r := Splice(s, at, block);
    if r == s {
      forall i | 0 <= i < |block|
        ensures block[i] == s[at..at + |block|][i]
      {
        assert r[at + i] == block[i];
      }
    } else if block == s[at..at + |block|] {
      assert forall i | 0 <= i < |s| :: r[i] == s[i];
    }
  }
}
