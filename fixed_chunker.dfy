/**
 * `split_text` of telegram_bot-backup.py: text over the limit is cut into
 * consecutive slices of exactly `maxLength` characters, the last one shorter.
 */
module FixedChunker {

  function Min(a: int, b: int): int {
    if a <= b then a else b
  }

  /** The slices `text[i:i + maxLength]` for `i` in `range(0, len(text), maxLength)`. */
  function Slices(text: string, maxLength: nat): (r: seq<string>)
    requires maxLength > 0
    ensures text != [] ==> |r| >= 1
    decreases |text|
  {
    if text == [] then []
    else [text[..Min(maxLength, |text|)]] + Slices(text[Min(maxLength, |text|)..], maxLength)
  }

  /** telegram_bot-backup.py `split_text`. */
  function FixedSplit(text: string, maxLength: nat): (r: seq<string>)
    requires maxLength > 0
    ensures |text| <= maxLength ==> r == [text]
  {
    if |text| <= maxLength then [text] else Slices(text, maxLength)
  }

  /** The chunks written one after the other. */
  function Concat(chunks: seq<string>): string {
    if chunks == [] then [] else chunks[0] + Concat(chunks[1..])
  }

  lemma {:induction false} SlicesConcat(text: string, maxLength: nat)
    requires maxLength > 0
    ensures Concat(Slices(text, maxLength)) == text
    decreases |text|
  {
    if text != [] {
      var k := Min(maxLength, |text|);
      SlicesConcat(text[k..], maxLength);
      assert Slices(text, maxLength)[1..] == Slices(text[k..], maxLength);
      assert text[..k] + text[k..] == text;
    }
  }

  /** Concatenating the chunks in order gives back the text: nothing is lost or repeated. */
  lemma FixedSplitConcat(text: string, maxLength: nat)
    requires maxLength > 0
    ensures Concat(FixedSplit(text, maxLength)) == text
  {
    if |text| <= maxLength {
      assert Concat([text]) == text + Concat([]);
    } else {
      SlicesConcat(text, maxLength);
    }
  }

  lemma {:induction false} SlicesSizes(text: string, maxLength: nat)
    requires maxLength > 0
    ensures forall j :: 0 <= j < |Slices(text, maxLength)| ==> 0 < |Slices(text, maxLength)[j]| <= maxLength
    ensures forall j :: 0 <= j < |Slices(text, maxLength)| - 1 ==> |Slices(text, maxLength)[j]| == maxLength
    decreases |text|
  {
    if text != [] {
      var k := Min(maxLength, |text|);
      SlicesSizes(text[k..], maxLength);
      var r := Slices(text, maxLength);
      var rest := Slices(text[k..], maxLength);
      assert r == [text[..k]] + rest;
      if k < maxLength {
        assert text[k..] == [];
        assert rest == [];
      }
      forall j | 0 <= j < |r| ensures 0 < |r[j]| <= maxLength && (j < |r| - 1 ==> |r[j]| == maxLength) {
        if j > 0 {
          assert r[j] == rest[j - 1];
        }
      }
    }
  }

  /**
   * Every chunk is non-empty (for non-empty text) and at most `maxLength`
   * long; every chunk but the last is exactly `maxLength` long.
   */
  lemma FixedSplitSizes(text: string, maxLength: nat)
    requires maxLength > 0
    ensures forall j :: 0 <= j < |FixedSplit(text, maxLength)| ==>
              |FixedSplit(text, maxLength)[j]| <= maxLength && (text != [] ==> FixedSplit(text, maxLength)[j] != [])
    ensures forall j :: 0 <= j < |FixedSplit(text, maxLength)| - 1 ==> |FixedSplit(text, maxLength)[j]| == maxLength
  {
    if |text| > maxLength {
      SlicesSizes(text, maxLength);
    }
  }

  lemma {:induction false} SlicesCount(text: string, maxLength: nat)
    requires maxLength > 0 && text != []
    ensures (|Slices(text, maxLength)| - 1) * maxLength < |text| <= |Slices(text, maxLength)| * maxLength
    decreases |text|
  {
    var k := Min(maxLength, |text|);
    var n, n' := |Slices(text, maxLength)|, |Slices(text[k..], maxLength)|;
    assert n == 1 + n';
    if text[k..] == [] {
      assert n' == 0;
    } else {
      SlicesCount(text[k..], maxLength);
      assert k == maxLength;
      assert n * maxLength == n' * maxLength + maxLength;
      assert (n - 1) * maxLength == (n' - 1) * maxLength + maxLength;
    }
  }

  /**
   * There are `ceil(len(text) / maxLength)` chunks: the fewest slices of
   * `maxLength` that cover the text; the empty text gives one empty chunk.
   */
  lemma FixedSplitCount(text: string, maxLength: nat)
    requires maxLength > 0
    ensures text == [] ==> FixedSplit(text, maxLength) == [[]]
    ensures text != [] ==>
              (|FixedSplit(text, maxLength)| - 1) * maxLength < |text| <= |FixedSplit(text, maxLength)| * maxLength
  {
    if |text| > maxLength {
      SlicesCount(text, maxLength);
    }
  }

  lemma MulSucc(j: nat, m: nat)
    ensures (j + 1) * m == j * m + m
  {
  }

  /** A slice of a suffix is a slice of the whole, shifted by where the suffix starts. */
  lemma SliceOfSuffix(text: string, k: nat, lo: nat, hi: nat)
    requires k <= |text| && lo <= hi <= |text| - k
    ensures text[k..][lo..hi] == text[k + lo..k + hi]
  {
  }

  lemma {:induction false} SlicesAt(text: string, maxLength: nat, j: nat)
    requires maxLength > 0
    requires j < |Slices(text, maxLength)|
    ensures j * maxLength < |text|
    ensures Slices(text, maxLength)[j] == text[j * maxLength .. Min((j + 1) * maxLength, |text|)]
    decreases j
  {
    var m := maxLength;
    var k := Min(m, |text|);
    var rest := text[k..];
    assert Slices(text, m) == [text[..k]] + Slices(rest, m);
    if j == 0 {
      assert 0 * m == 0 && (0 + 1) * m == m;
    } else {
      SlicesAt(rest, m, j - 1);
      assert k == m;
      var lo, hi := (j - 1) * m, Min(j * m, |rest|);
      MulSucc(j - 1, m);
      MulSucc(j, m);
      SliceOfSuffix(text, m, lo, hi);
      assert m + hi == Min((j + 1) * m, |text|);
    }
  }

  /** Chunk `j` is the slice of the text that starts at `j * maxLength`, as the comprehension reads. */
  lemma FixedSplitAt(text: string, maxLength: nat, j: nat)
    requires maxLength > 0 && |text| > maxLength
    requires j < |FixedSplit(text, maxLength)|
    ensures j * maxLength < |text|
    ensures FixedSplit(text, maxLength)[j] == text[j * maxLength .. Min((j + 1) * maxLength, |text|)]
  {
    SlicesAt(text, maxLength, j);
  }
}
