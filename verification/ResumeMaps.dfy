/** The bit-packed record of completed chunks, and its byte bitmap on the wire. */
module ResumeMaps {
  import opened Wrappers
  import opened Chunks

  // ----- bits -----

  type Word = w: int | 0 <= w < 0x1_0000_0000_0000_0000

  /** Bit `k` of a machine word: `w & (1 << k) != 0`. */
  predicate Bit(w: nat, k: nat) {
    if k == 0 then w % 2 == 1 else Bit(w / 2, k - 1)
  }

  /** The word with bit `k` set and every other bit kept: `w | (1 << k)`. */
  function SetBit(w: nat, k: nat): nat {
    if k == 0 then (w / 2) * 2 + 1 else 2 * SetBit(w / 2, k - 1) + w % 2
  }

  function Pow2(n: nat): nat {
    if n == 0 then 1 else 2 * Pow2(n - 1)
  }

  lemma {:induction false} Pow2Doubles(n: nat)
    ensures Pow2(2 * n) == Pow2(n) * Pow2(n)
  {
    if n > 0 {
      Pow2Doubles(n - 1);
      assert Pow2(2 * n) == 2 * Pow2(2 * n - 1);
    }
  }

  lemma WordSizes()
    ensures Pow2(8) == 256 && Pow2(64) == 0x1_0000_0000_0000_0000
  {
    Pow2Doubles(8);
    Pow2Doubles(16);
    Pow2Doubles(32);
  }

  /** Bit `k` is the binary digit of `2^k`. */
  lemma {:induction false} BitIsDigit(w: nat, k: nat)
    ensures Pow2(k) > 0 && (Bit(w, k) <==> w / Pow2(k) % 2 == 1)
  {
    if k > 0 {
      BitIsDigit(w / 2, k - 1);
      HalvesThenDivides(w, Pow2(k - 1));
    }
  }

  lemma HalvesThenDivides(w: nat, p: nat)
    requires p > 0
    ensures w / 2 / p == w / (2 * p)
  {
    var q, r := w / (2 * p), w % (2 * p);
    assert w == 2 * (q * p) + r && r < 2 * p;
    assert w / 2 == q * p + r / 2 && r / 2 < p;
    DividesBack(q, p, r / 2);
  }

  lemma DividesBack(q: nat, p: nat, r: nat)
    requires r < p
    ensures (q * p + r) / p == q
  {
    var n := q * p + r;
    DivisionOf(n, p);
    SameQuotient(q, r, n / p, n % p, p);
  }

  lemma DivisionOf(n: nat, p: nat)
    requires p > 0
    ensures n == n / p * p + n % p && n % p < p
  {
  }

  lemma SameQuotient(q: nat, r: nat, d: nat, s: nat, p: nat)
    requires r < p && s < p && q * p + r == d * p + s
    ensures d == q
  {
    ProductsAscend(d + 1, q, p);
    ProductsAscend(q + 1, d, p);
    assert (d + 1) * p == d * p + p && (q + 1) * p == q * p + p;
  }

  lemma ProductsAscend(a: nat, b: nat, c: nat)
    ensures a <= b ==> a * c <= b * c
  {
  }

  /** Setting a bit stays inside the word. */
  lemma {:induction false} SetBitFits(w: nat, k: nat, width: nat)
    requires k < width && w < Pow2(width)
    ensures SetBit(w, k) < Pow2(width)
  {
    var half := Pow2(width - 1);
    assert Pow2(width) == 2 * half && w / 2 < half;
    if k > 0 {
      SetBitFits(w / 2, k - 1, width - 1);
      assert SetBit(w, k) == 2 * SetBit(w / 2, k - 1) + w % 2;
    } else {
      assert SetBit(w, k) == w / 2 * 2 + 1;
    }
  }

  /** Setting bit `i` sets bit `i` and changes no other bit. */
  lemma {:induction false} SetBitEffect(w: nat, i: nat, j: nat)
    ensures Bit(SetBit(w, i), j) <==> i == j || Bit(w, j)
  {
    if i > 0 && j > 0 {
      SetBitEffect(w / 2, i - 1, j - 1);
    }
  }

  /** Two words with the same bits are the same word. */
  lemma {:induction false} SameWord(a: nat, b: nat, width: nat)
    requires a < Pow2(width) && b < Pow2(width)
    requires forall k: nat | k < width :: Bit(a, k) <==> Bit(b, k)
    ensures a == b
  {
    if width > 0 {
      assert Bit(a, 0) <==> Bit(b, 0);
      forall k: nat | k < width - 1
        ensures Bit(a / 2, k) <==> Bit(b / 2, k)
      {
        assert Bit(a, k + 1) <==> Bit(b, k + 1);
      }
      SameWord(a / 2, b / 2, width - 1);
    }
  }

  lemma {:induction false} ZeroHasNoBit(k: nat)
    ensures !Bit(0, k)
  {
    if k > 0 {
      ZeroHasNoBit(k - 1);
    }
  }

  function SetWordBit(w: Word, k: nat): Word
    requires k < 64
  {
    WordSizes();
    SetBitFits(w, k, 64);
    SetBit(w, k)
  }

  function SetByteBit(b: Byte, k: nat): Byte
    requires k < 8
  {
    WordSizes();
    SetBitFits(b, k, 8);
    SetBit(b, k)
  }

  // ----- words as a set of indices -----

  predicate WordsHave(words: seq<Word>, index: nat)
    requires index / 64 < |words|
  {
    Bit(words[index / 64], index % 64)
  }

  /** The indices below `count` whose bit is set. */
  ghost function IndexSet(words: seq<Word>, count: nat): set<nat>
    requires |words| == DivCeil(count, 64)
  {
    set i: nat | i in Below(count) && WordsHave(words, i)
  }

  /** The bits past `count` in the last word are clear. */
  ghost predicate PaddingClear(words: seq<Word>, count: nat)
    requires |words| == DivCeil(count, 64)
  {
    forall i: nat | count <= i < 64 * |words| :: !WordsHave(words, i)
  }

  /** Two bit vectors with clear padding and the same index set are the same words. */
  lemma WordsDetermined(a: seq<Word>, b: seq<Word>, count: nat)
    requires |a| == |b| == DivCeil(count, 64)
    requires PaddingClear(a, count) && PaddingClear(b, count)
    requires IndexSet(a, count) == IndexSet(b, count)
    ensures a == b
  {
    forall w: nat | w < |a|
      ensures a[w] == b[w]
    {
      forall k: nat | k < 64
        ensures Bit(a[w], k) <==> Bit(b[w], k)
      {
        var i := 64 * w + k;
        assert i / 64 == w && i % 64 == k;
        assert WordsHave(a, i) <==> Bit(a[w], k);
        assert WordsHave(b, i) <==> Bit(b[w], k);
        if i < count {
          assert i in IndexSet(a, count) <==> i in IndexSet(b, count);
        }
      }
      WordSizes();
      SameWord(a[w], b[w], 64);
    }
  }

  // ----- the byte bitmap -----

  predicate BitmapHas(bitmap: Bytes, index: nat)
    requires index / 8 < |bitmap|
  {
    Bit(bitmap[index / 8], index % 8)
  }

  /** The chunks below `count` a bitmap of the right length declares complete; padding bits do not count. */
  ghost function BitsOf(bitmap: Bytes, count: nat): set<nat>
    requires |bitmap| == DivCeil(count, 8)
  {
    set i: nat | i in Below(count) && BitmapHas(bitmap, i)
  }

  ghost predicate BitmapPaddingClear(bitmap: Bytes, count: nat)
    requires |bitmap| == DivCeil(count, 8)
  {
    forall i: nat | count <= i < 8 * |bitmap| :: !BitmapHas(bitmap, i)
  }

  /** Chunk `i` of a bitmap is the binary digit `i % 8`, counted from the low end, of byte `i / 8`. */
  lemma BitmapLayout(bitmap: Bytes, i: nat)
    requires i / 8 < |bitmap|
    ensures Pow2(i % 8) > 0 && (BitmapHas(bitmap, i) <==> (bitmap[i / 8] as nat) / Pow2(i % 8) % 2 == 1)
  {
    BitIsDigit(bitmap[i / 8], i % 8);
  }

  /** Two bitmaps with clear padding that declare the same chunks are the same bytes. */
  lemma BitmapsDetermined(a: Bytes, b: Bytes, count: nat)
    requires |a| == |b| == DivCeil(count, 8)
    requires BitmapPaddingClear(a, count) && BitmapPaddingClear(b, count)
    requires BitsOf(a, count) == BitsOf(b, count)
    ensures a == b
  {
    forall w: nat | w < |a|
      ensures a[w] == b[w]
    {
      forall k: nat | k < 8
        ensures Bit(a[w], k) <==> Bit(b[w], k)
      {
        var i := 8 * w + k;
        assert i / 8 == w && i % 8 == k;
        assert BitmapHas(a, i) <==> Bit(a[w], k);
        assert BitmapHas(b, i) <==> Bit(b[w], k);
        if i < count {
          assert i in BitsOf(a, count) <==> i in BitsOf(b, count);
        }
      }
      WordSizes();
      SameWord(a[w], b[w], 8);
    }
  }

  // ----- the class -----

  /** The declared chunks among the first `n`. */
  ghost function FirstBits(bitmap: Bytes, count: nat, n: nat): set<nat>
    requires |bitmap| == DivCeil(count, 8)
  {
    set i: nat | i in BitsOf(bitmap, count) && i < n
  }

  lemma NoBitsDeclared(bitmap: Bytes, count: nat)
    requires |bitmap| == DivCeil(count, 8)
    ensures FirstBits(bitmap, count, 0) == {}
  {
  }

  lemma OneMoreDeclared(bitmap: Bytes, count: nat, n: nat)
    requires |bitmap| == DivCeil(count, 8) && n < count
    ensures n / 8 < |bitmap|
    ensures FirstBits(bitmap, count, n + 1)
            == FirstBits(bitmap, count, n) + if Bit(bitmap[n / 8], n % 8) then {n} else {}
  {
    hide Bit;
    assert n in BitsOf(bitmap, count) <==> BitmapHas(bitmap, n);
  }

  lemma AllBitsDeclared(bitmap: Bytes, count: nat)
    requires |bitmap| == DivCeil(count, 8)
    ensures FirstBits(bitmap, count, count) == BitsOf(bitmap, count)
  {
    hide Bit, DivCeil;
  }

  /** Setting a clear bit below the count adds its index, and nothing above the count. */
  lemma OneMoreBit(words: seq<Word>, index: nat, count: nat)
    requires index < count && |words| == DivCeil(count, 64) && index / 64 < |words|
    requires PaddingClear(words, count) && !Bit(words[index / 64], index % 64)
    ensures var after := words[index / 64 := SetWordBit(words[index / 64], index % 64)];
            && PaddingClear(after, count)
            && index !in IndexSet(words, count) && IndexSet(after, count) == IndexSet(words, count) + {index}
  {
    assert forall i: nat | i < count :: i / 64 < |words|;
    hide Bit, SetBit, DivCeil;
    var word := index / 64;
    var after := words[word := SetWordBit(words[word], index % 64)];
    forall i: nat | i / 64 < |words|
      ensures WordsHave(after, i) <==> i == index || WordsHave(words, i)
    {
      if i / 64 == word {
        SetBitEffect(words[word], index % 64, i % 64);
      }
    }
    assert !WordsHave(words, index);
    assert IndexSet(after, count) == IndexSet(words, count) + {index};
  }

  class ResumeMap {
    const chunkCount: nat
    var completedCount: nat
    const words: array<Word>

    /** The set of completed chunks the words stand for. */
    ghost function Contents(): set<nat>
      requires words.Length == DivCeil(chunkCount, 64)
      reads words
    {
      IndexSet(words[..], chunkCount)
    }

    ghost predicate Valid()
      reads this, words
    {
      && words.Length == DivCeil(chunkCount, 64)
      && PaddingClear(words[..], chunkCount)
      && completedCount == |Contents()|
    }

    constructor (chunkCount: nat)
      ensures Valid() && fresh(words)
      ensures this.chunkCount == chunkCount && Contents() == {}
    {
      this.chunkCount := chunkCount;
      completedCount := 0;
      words := new Word[DivCeil(chunkCount, 64)](_ => 0);
      new;
      forall i: nat | i / 64 < words.Length
        ensures !WordsHave(words[..], i)
      {
        ZeroHasNoBit(i % 64);
      }
      assert Contents() == {};
    }

    method MarkComplete(index: nat) returns (r: Result<bool, ChunkError>)
      requires Valid()
      modifies this`completedCount, words
      ensures Valid()
      ensures index >= chunkCount ==>
                r == Err(IndexOutOfRange(index, chunkCount)) && Contents() == old(Contents())
      ensures index < chunkCount ==>
                r == Ok(index !in old(Contents())) && Contents() == old(Contents()) + {index}
    {
      if index >= chunkCount {
        return Err(IndexOutOfRange(index, chunkCount));
      }
      hide Bit, SetBit, DivCeil, PaddingClear;
      var word := index / 64;
      if Bit(words[word], index % 64) {
        assert WordsHave(words[..], index);
        assert Contents() == Contents() + {index};
        return Ok(false);
      }
      ghost var before := words[..];
      OneMoreBit(before, index, chunkCount);
      words[word] := SetWordBit(words[word], index % 64);
      completedCount := completedCount + 1;
      assert words[..] == before[word := words[word]];
      return Ok(true);
    }

    predicate Contains(index: nat)
      requires Valid()
      reads this, words
      ensures Contains(index) <==> index in Contents()
    {
      index < chunkCount && Bit(words[index / 64], index % 64)
    }

    predicate IsComplete()
      requires Valid()
      reads this, words
      ensures IsComplete() <==> Contents() == Below(chunkCount)
    {
      SubsetSize(Contents(), Below(chunkCount));
      completedCount == chunkCount
    }

    method ToBitmapBytes() returns (bytes: Bytes)
      requires Valid()
      ensures |bytes| == DivCeil(chunkCount, 8)
      ensures BitsOf(bytes, chunkCount) == Contents()
      ensures BitmapPaddingClear(bytes, chunkCount)
    {
      var buffer := new Byte[DivCeil(chunkCount, 8)](_ => 0);
      forall i: nat | i / 8 < buffer.Length
        ensures !BitmapHas(buffer[..], i)
      {
        ZeroHasNoBit(i % 8);
      }
      var index := 0;
      while index < chunkCount
        invariant index <= chunkCount
        invariant Valid() && unchanged(this) && unchanged(words)
        invariant forall i: nat | i / 8 < buffer.Length :: BitmapHas(buffer[..], i) <==> i < index && i in Contents()
      {
        if Contains(index) {
          ghost var before := buffer[..];
          buffer[index / 8] := SetByteBit(buffer[index / 8], index % 8);
          forall i: nat | i / 8 < buffer.Length
            ensures BitmapHas(buffer[..], i) <==> i == index || BitmapHas(before, i)
          {
            if i / 8 == index / 8 {
              SetBitEffect(before[index / 8], index % 8, i % 8);
            }
          }
        }
        index := index + 1;
      }
      bytes := buffer[..];
    }

    static method FromBitmapBytes(chunkCount: nat, bytes: Bytes) returns (r: Result<ResumeMap, ChunkError>)
      ensures r.Ok? <==> |bytes| == DivCeil(chunkCount, 8)
      ensures r.Err? ==> r.error == InvalidBitmapLength(DivCeil(chunkCount, 8), |bytes|)
      ensures r.Ok? ==> fresh(r.value) && fresh(r.value.words) && r.value.Valid() && r.value.chunkCount == chunkCount
      ensures r.Ok? ==> r.value.Contents() == BitsOf(bytes, chunkCount)
    {
      if |bytes| != DivCeil(chunkCount, 8) {
        return Err(InvalidBitmapLength(DivCeil(chunkCount, 8), |bytes|));
      }
      var resume := new ResumeMap(chunkCount);
      hide Bit, DivCeil, IndexSet, PaddingClear, ResumeMap.Contents, FirstBits, BitsOf;
      var index := 0;
      NoBitsDeclared(bytes, chunkCount);
      while index < chunkCount
        invariant index <= chunkCount
        invariant resume.Valid() && resume.chunkCount == chunkCount && fresh(resume) && fresh(resume.words)
        invariant resume.Contents() == FirstBits(bytes, chunkCount, index)
      {
        OneMoreDeclared(bytes, chunkCount, index);
        if Bit(bytes[index / 8], index % 8) {
          var marked := resume.MarkComplete(index);
        }
        index := index + 1;
      }
      AllBitsDeclared(bytes, chunkCount);
      return Ok(resume);
    }

    method CompletedBytes(plan: ChunkPlan) returns (r: Result<nat, ChunkError>)
      requires Valid() && plan.Valid()
      ensures r == if chunkCount != plan.chunkCount then Err(ResumeMapMismatch(plan.chunkCount, chunkCount))
                   else Ok(BytesFrom(plan, Contents(), 0))
    {
      if chunkCount != plan.chunkCount {
        return Err(ResumeMapMismatch(plan.chunkCount, chunkCount));
      }
      hide ChunkPlan.Valid, ChunkPlan.At, DivCeil, IndexSet, PaddingClear, Bit;
      var bytes := 0;
      var index := 0;
      while index < chunkCount
        invariant index <= chunkCount
        invariant bytes + BytesFrom(plan, Contents(), index) == BytesFrom(plan, Contents(), 0)
      {
        if Contains(index) {
          bytes := bytes + plan.At(index).length;
        }
        index := index + 1;
      }
      return Ok(bytes);
    }

    /** `resume_count`: the number of contained indices below a given count. */
    method CountBelow(count: nat) returns (n: nat)
      requires Valid()
      ensures n == CountFrom(Contents(), count, 0)
      ensures count == chunkCount ==> n == completedCount == |Contents()|
    {
      n := 0;
      var index := 0;
      while index < count
        invariant index <= count
        invariant n + CountFrom(Contents(), count, index) == CountFrom(Contents(), count, 0)
      {
        if Contains(index) {
          n := n + 1;
        }
        index := index + 1;
      }
      if count == chunkCount {
        CountFromIsSize(Contents(), count, 0);
      }
    }
  }

  /** Export then import gives back the very same words, so the round trip is an identity on the struct. */
  method RoundTripMap(resume: ResumeMap) returns (copy: ResumeMap)
    requires resume.Valid()
    ensures copy.Valid() && copy.chunkCount == resume.chunkCount
    ensures copy.words[..] == resume.words[..] && copy.completedCount == resume.completedCount
  {
    var bytes := resume.ToBitmapBytes();
    var r := ResumeMap.FromBitmapBytes(resume.chunkCount, bytes);
    copy := r.value;
    WordsDetermined(copy.words[..], resume.words[..], resume.chunkCount);
  }

  /** Import then export gives back the bytes exactly when their padding bits were clear. */
  method RoundTripBytes(chunkCount: nat, bytes: Bytes) returns (again: Bytes)
    requires |bytes| == DivCeil(chunkCount, 8)
    ensures |again| == |bytes| && BitsOf(again, chunkCount) == BitsOf(bytes, chunkCount)
    ensures again == bytes <==> BitmapPaddingClear(bytes, chunkCount)
  {
    var r := ResumeMap.FromBitmapBytes(chunkCount, bytes);
    again := r.value.ToBitmapBytes();
    if BitmapPaddingClear(bytes, chunkCount) {
      BitmapsDetermined(again, bytes, chunkCount);
    }
  }
}
