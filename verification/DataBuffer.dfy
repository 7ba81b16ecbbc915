/** The ring buffer between the compressor and the transmitter is a byte queue, also when
    its counters wrap around. */
module DataBuffer {
  import opened Machine

  /** The index x, taken round the end of a buffer of size n. */
  function Wrap(x: nat, n: nat): (r: nat)
    requires x < 2 * n
    ensures r < n
  {
    if x < n then x else x - n
  }

  lemma ModOfSum(x: nat, k: nat, n: nat)
    requires 0 < n && k <= n
    ensures (x + k) % n == Wrap(x % n + k, n)
  {
    var q, c := x / n, x % n;
    if c + k < n {
      DivisionIs(x + k, q, c + k, n);
    } else {
      assert (q + 1) * n == q * n + n;
      DivisionIs(x + k, q + 1, c + k - n, n);
    }
  }

  /** Adding to a counter that wraps at `word` moves round a buffer whose size divides it. */
  lemma AdvanceMovesRound(p: nat, k: nat, word: nat, n: nat)
    requires 0 < n && p < word && k <= n <= word && word % n == 0
    ensures ((p + k) % word) % n == Wrap(p % n + k, n)
    ensures (p + k) % word == Wrap(p + k, word)
  {
    ModOfSum(p, k, n);
    if p + k < word {
      DivisionIs(p + k, 0, p + k, word);
    } else {
      var x := p + k - word;
      DivisionIs(p + k, 1, x, word);
      var m, q := word / n, x / n;
      assert (m + q) * n == m * n + q * n;
      DivisionIs(p + k, m + q, x % n, n);
    }
  }

  /** The positions of successive bytes follow one another round the buffer, whatever the
      counter, exactly when the size divides the word modulus. */
  lemma WrapIsSeamlessIff(word: nat, n: nat)
    requires 0 < n <= word
    ensures word % n == 0 <==> forall p: nat :: p < word ==> Successor(p, word) % n == Wrap(p % n + 1, n)
  {
    if word % n == 0 {
      forall p: nat | p < word
        ensures Successor(p, word) % n == Wrap(p % n + 1, n)
      {
        AdvanceMovesRound(p, 1, word, n);
      }
    } else {
      var p := word - 1;
      ModOfSum(p, 1, n);
      DivisionIs(word, 1, 0, word);
      assert Successor(p, word) == 0;
      DivisionIs(0, 0, 0, n);
    }
  }

  /** The counter after one more byte. */
  function Successor(p: nat, word: nat): nat
    requires word > 0
  {
    (p + 1) % word
  }

  /** The n bytes of the ring from position start on. */
  function Ring(ring: seq<byte>, start: nat, n: nat): (s: seq<byte>)
    requires start < |ring| && n <= |ring|
    ensures |s| == n && forall k :: 0 <= k < n ==> s[k] == ring[Wrap(start + k, |ring|)]
  {
    seq(n, k requires 0 <= k < n => ring[Wrap(start + k, |ring|)])
  }

  /** The k-th byte round from position at on is the k-th of the given bytes or, beyond
      them, unchanged. */
  predicate OverlaidAt(before: seq<byte>, after: seq<byte>, at: nat, bytes: seq<byte>, k: nat)
    requires at < |before| == |after| && k < |before|
  {
    var i := Wrap(at + k, |before|);
    after[i] == if k < |bytes| then bytes[k] else before[i]
  }

  predicate Overlaid(before: seq<byte>, after: seq<byte>, at: nat, bytes: seq<byte>)
    requires at < |before| == |after|
  {
    forall k :: 0 <= k < |before| ==> OverlaidAt(before, after, at, bytes, k)
  }

  lemma RingGrows(before: seq<byte>, after: seq<byte>, start: nat, n: nat, bytes: seq<byte>)
    requires start < |before| == |after| && n + |bytes| <= |before|
    requires Overlaid(before, after, Wrap(start + n, |before|), bytes)
    ensures Ring(after, start, n + |bytes|) == Ring(before, start, n) + bytes
  {
    var size := |before|;
    var at := Wrap(start + n, size);
    forall k | 0 <= k < n + |bytes|
      ensures Ring(after, start, n + |bytes|)[k] == (Ring(before, start, n) + bytes)[k]
    {
      var j := if k < n then size - n + k else k - n;
      assert Wrap(start + k, size) == Wrap(at + j, size);
      assert OverlaidAt(before, after, at, bytes, j);
    }
  }

  lemma RingSplits(ring: seq<byte>, start: nat, n: nat, k: nat)
    requires start < |ring| && k <= n <= |ring|
    ensures Ring(ring, start, n) == Ring(ring, start, k) + Ring(ring, Wrap(start + k, |ring|), n - k)
  {
    forall i | k <= i < n
      ensures Ring(ring, start, n)[i] == Ring(ring, Wrap(start + k, |ring|), n - k)[i - k]
    {
      assert Wrap(start + i, |ring|) == Wrap(Wrap(start + k, |ring|) + (i - k), |ring|);
    }
  }

  /** memcpy between two buffers. */
  method Copy(dst: array<byte>, at: nat, src: array<byte>, from: nat, cnt: nat)
    requires dst != src && at + cnt <= dst.Length && from + cnt <= src.Length
    modifies dst
    ensures forall i :: 0 <= i < dst.Length ==>
                          dst[i] == if at <= i < at + cnt then src[from + i - at] else old(dst[i])
  {
    forall i | at <= i < at + cnt {
      dst[i] := src[from + i - at];
    }
  }

  class DataBuffer {
    const buffer: array<byte>
    const bufsize: nat
    /** Counters wrap at this power of two. */
    const word: nat
    var writePtr: nat
    var readPtr: nat

    ghost predicate Valid()
      reads this, buffer
    {
      && 0 < bufsize == buffer.Length < word && word % bufsize == 0
      && readPtr < word && writePtr < word
      && Available() <= bufsize
    }

    /** The difference of the counters, as the machine computes it. */
    ghost function Available(): (n: int)
      reads this
    {
      if writePtr >= readPtr then writePtr - readPtr else writePtr - readPtr + word
    }

    /** The bytes written and not yet read. */
    ghost function Contents(): (s: seq<byte>)
      requires Valid()
      reads this, buffer
      ensures |s| == Available()
    {
      Ring(buffer[..], readPtr % bufsize, Available())
    }

    constructor (size: nat, word: nat)
      requires 0 < size < word && word % size == 0
      ensures Valid() && fresh(buffer) && Contents() == [] && bufsize == size
    {
      this.word := word;
      buffer := new byte[size](_ => 0);
      bufsize := size;
      writePtr := 0;
      readPtr := 0;
    }

    method GetReadSpace() returns (n: nat)
      requires Valid()
      ensures n == |Contents()|
    {
      DivisionIs(writePtr - readPtr, if writePtr >= readPtr then 0 else -1, Available(), word);
      n := (writePtr - readPtr) % word;
    }

    method GetWriteSpace() returns (n: nat)
      requires Valid()
      ensures n == bufsize - |Contents()|
    {
      DivisionIs(bufsize - (writePtr - readPtr), if writePtr >= readPtr then 0 else 1, bufsize - Available(), word);
      n := (bufsize - (writePtr - readPtr)) % word;
    }

    /** Delivers the bytes from the reader's position on, whether or not that many were
        written: a read of no more than is available takes them from the contents. */
    method Read(dest: array<byte>, cnt: nat) returns (n: nat)
      requires Valid() && cnt <= bufsize && cnt <= dest.Length && dest != buffer
      modifies this`readPtr, dest
      ensures n == cnt && dest[..] == Ring(buffer[..], old(readPtr) % bufsize, cnt) + old(dest[cnt..])
      ensures readPtr == (old(readPtr) + cnt) % word
      ensures cnt <= |old(Contents())| ==>
                Valid() && dest[..cnt] == old(Contents())[..cnt] && Contents() == old(Contents())[cnt..]
    {
      AdvanceMovesRound(readPtr, cnt, word, bufsize);
      if cnt <= Available() {
        RingSplits(buffer[..], readPtr % bufsize, Available(), cnt);
      }
      CopyOut(readPtr % bufsize, dest, cnt);
      readPtr := (readPtr + cnt) % word;
      n := cnt;
    }

    /** Copies round the end of the buffer. */
    method CopyOut(curptr: nat, dest: array<byte>, cnt: nat)
      requires bufsize == buffer.Length && curptr < bufsize && cnt <= bufsize && cnt <= dest.Length && dest != buffer
      modifies dest
      ensures dest[..] == Ring(buffer[..], curptr, cnt) + old(dest[cnt..])
    {
      if bufsize - curptr >= cnt {
        Copy(dest, 0, buffer, curptr, cnt);
      } else {
        var n1 := bufsize - curptr;
        Copy(dest, 0, buffer, curptr, n1);
        var n2 := cnt - n1;
        Copy(dest, n1, buffer, 0, n2);
      }
    }

    /** All or nothing. */
    method Write(src: array<byte>, cnt: nat) returns (n: nat)
      requires Valid() && cnt <= src.Length && src != buffer
      modifies this`writePtr, buffer
      ensures Valid() && n == if cnt <= bufsize - |old(Contents())| then cnt else 0
      ensures Contents() == old(Contents()) + src[..n]
    {
      var capacity := GetWriteSpace();
      if capacity < cnt {
        return 0;
      }
      AdvanceMovesRound(readPtr, Available(), word, bufsize);
      AdvanceMovesRound(writePtr, cnt, word, bufsize);
      ghost var before, start, size := buffer[..], readPtr % bufsize, Available();
      CopyIn(writePtr % bufsize, src, cnt);
      RingGrows(before, buffer[..], start, size, src[..cnt]);
      writePtr := (writePtr + cnt) % word;
      n := cnt;
    }

    /** Copies round the end of the buffer. */
    method CopyIn(curptr: nat, src: array<byte>, cnt: nat)
      requires bufsize == buffer.Length && curptr < bufsize && cnt <= bufsize && cnt <= src.Length && src != buffer
      modifies buffer
      ensures Overlaid(old(buffer[..]), buffer[..], curptr, src[..cnt])
    {
      if bufsize - curptr >= cnt {
        Copy(buffer, curptr, src, 0, cnt);
      } else {
        var n1 := bufsize - curptr;
        Copy(buffer, curptr, src, 0, n1);
        var n2 := cnt - n1;
        Copy(buffer, 0, src, n1, n2);
      }
      forall k | 0 <= k < bufsize
        ensures OverlaidAt(old(buffer[..]), buffer[..], curptr, src[..cnt], k)
      {
      }
    }

    method Reset()
      requires Valid()
      modifies this, buffer
      ensures Valid() && Contents() == []
    {
      readPtr := 0;
      writePtr := 0;
      forall i | 0 <= i < buffer.Length {
        buffer[i] := 0;
      }
    }
  }
}
