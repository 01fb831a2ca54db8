/** The Spectrum histogram: weights are quantised to words, and the words' bits
    decide the buckets. Weights are exact reals; `limit` stands for the largest
    finite weight, where the search for the minimum starts. */
module Histogram {
  import opened Wrappers
  import opened Bits

  datatype HistogramError = TooSmall | TooLarge

  const WORD_BITS: nat := 64
  const DEFAULT_WEIGHT: nat := 0x7FFF_FFFF_FFFF_FFFF

  // ----- quantising

  /** A missing weight is below every known one. */
  function OptMin(a: Option<real>, b: Option<real>): Option<real> {
    if a.None? || b.None? then None else if a.value <= b.value then a else b
  }

  function OptMax(a: Option<real>, b: Option<real>): Option<real> {
    if a.None? then b else if b.None? then a else if a.value >= b.value then a else b
  }

  function FoldMin(weights: seq<Option<real>>, limit: real): Option<real> {
    if weights == [] then Some(limit) else OptMin(FoldMin(weights[..|weights| - 1], limit), weights[|weights| - 1])
  }

  function FoldMax(weights: seq<Option<real>>): Option<real> {
    if weights == [] then None else OptMax(FoldMax(weights[..|weights| - 1]), weights[|weights| - 1])
  }

  function Lowest(weights: seq<Option<real>>, limit: real): real {
    var m := FoldMin(weights, limit);
    if m.Some? then m.value else 0.0
  }

  function Highest(weights: seq<Option<real>>): real {
    var m := FoldMax(weights);
    if m.Some? then m.value else 0.0
  }

  /** A float to word conversion: negative values become zero. */
  function ToWord(x: real): nat {
    if x.Floor < 0 then 0 else x.Floor
  }

  /** The known weights differ, so they can be scaled. */
  predicate Spreads(weights: seq<Option<real>>, limit: real) {
    Lowest(weights, limit) < Highest(weights)
  }

  function Scaled(weights: seq<Option<real>>, limit: real, size: nat, w: real): nat
    requires Spreads(weights, limit) && size > 0
  {
    var low, high := Lowest(weights, limit), Highest(weights);
    ToWord((w - low) / (high - low) * Pow2(size - 1) as real)
  }

  /** The word of item i before masking. */
  function Word(weights: seq<Option<real>>, limit: real, size: nat, i: nat): nat
    requires i < |weights| && size > 0
  {
    if Spreads(weights, limit) && weights[i].Some? then Scaled(weights, limit, size, weights[i].value)
    else DEFAULT_WEIGHT
  }

  // ----- what a bucket should hold

  /** The quantised weight of an item, at least one; an item without a usable
      weight has the highest level. */
  function Level(weights: seq<Option<real>>, limit: real, size: nat, i: nat): nat
    requires i < |weights| && size > 0
  {
    if Spreads(weights, limit) && weights[i].Some? then
      var q := Scaled(weights, limit, size, weights[i].value);
      if q < 1 then 1 else q
    else Pow2(size) - 1
  }

  predicate InBucket(accumulate: bool, level: nat, k: nat) {
    if accumulate then level >= Pow2(k) else BitAt(level, k)
  }

  /** The items whose flags are set, in order. */
  function Select<T>(data: seq<T>, flags: seq<bool>): seq<T>
    requires |data| == |flags|
  {
    if data == [] then []
    else (if flags[0] then [data[0]] else []) + Select(data[1..], flags[1..])
  }

  function Flags(accumulate: bool, weights: seq<Option<real>>, limit: real, size: nat, k: nat): (f: seq<bool>)
    requires size > 0
    ensures |f| == |weights|
  {
    seq(|weights|, i requires 0 <= i < |weights| => InBucket(accumulate, Level(weights, limit, size, i), k))
  }

  // ----- the words meet their levels

  lemma {:induction false} HighestBounds(weights: seq<Option<real>>, i: nat)
    requires i < |weights| && weights[i].Some?
    ensures FoldMax(weights).Some? && weights[i].value <= FoldMax(weights).value
  {
    if i < |weights| - 1 {
      HighestBounds(weights[..|weights| - 1], i);
    }
  }

  lemma RatioBelow(a: real, b: real, scale: nat)
    requires b > 0.0 && a <= b
    ensures (a / b * scale as real).Floor <= scale
  {
    assert a / b <= 1.0;
    var x := a / b;
    assert x * scale as real <= 1.0 * scale as real;
  }

  lemma ScaledIsBounded(weights: seq<Option<real>>, limit: real, size: nat, i: nat)
    requires i < |weights| && weights[i].Some? && Spreads(weights, limit) && size > 0
    ensures Scaled(weights, limit, size, weights[i].value) <= Pow2(size - 1)
  {
    HighestBounds(weights, i);
    var low, high := Lowest(weights, limit), Highest(weights);
    RatioBelow(weights[i].value - low, high - low, Pow2(size - 1));
  }

  lemma ProductGrows(x: real, y: real, k: real)
    requires x <= y && k >= 0.0
    ensures x * k <= y * k
  {
  }

  lemma QuotientGrows(a: real, b: real, d: real)
    requires a <= b && d > 0.0
    ensures a / d <= b / d
  {
  }

  lemma ToWordGrows(x: real, y: real)
    requires x <= y
    ensures ToWord(x) <= ToWord(y)
  {
  }

  lemma ScaledGrows(weights: seq<Option<real>>, limit: real, size: nat, v: real, w: real)
    requires Spreads(weights, limit) && size > 0 && v <= w
    ensures Scaled(weights, limit, size, v) <= Scaled(weights, limit, size, w)
  {
    var low, high := Lowest(weights, limit), Highest(weights);
    var scale := Pow2(size - 1) as real;
    QuotientGrows(v - low, w - low, high - low);
    ProductGrows((v - low) / (high - low), (w - low) / (high - low), scale);
    ToWordGrows((v - low) / (high - low) * scale, (w - low) / (high - low) * scale);
  }

  lemma SelfRatio(d: real, scale: nat)
    requires d > 0.0
    ensures ToWord(d / d * scale as real) == scale
  {
    var x := d / d;
    assert x == 1.0;
    assert x * scale as real == scale as real;
  }

  /** A heavier item never gets a lower level. */
  lemma HeavierIsHigher(weights: seq<Option<real>>, limit: real, size: nat, i: nat, j: nat)
    requires i < |weights| && j < |weights| && size > 0 && Spreads(weights, limit)
    requires weights[i].Some? && weights[j].Some? && weights[i].value <= weights[j].value
    ensures Level(weights, limit, size, i) <= Level(weights, limit, size, j)
  {
    ScaledGrows(weights, limit, size, weights[i].value, weights[j].value);
  }

  /** The heaviest item gets the top bit and nothing else. */
  lemma HeaviestReachesTop(weights: seq<Option<real>>, limit: real, size: nat, i: nat)
    requires i < |weights| && size > 0 && Spreads(weights, limit)
    requires weights[i].Some? && weights[i].value == Highest(weights)
    ensures Level(weights, limit, size, i) == Pow2(size - 1)
  {
    SelfRatio(Highest(weights) - Lowest(weights, limit), Pow2(size - 1));
  }

  lemma QuotientTimes(a: real, d: real)
    requires d > 0.0
    ensures a / d * d == a
  {
  }

  lemma CancelFactor(x: real, y: real, d: real)
    requires d > 0.0
    ensures x >= y <==> x * d >= y * d
  {
    if x >= y {
      ProductGrows(y, x, d);
    } else {
      assert x * d < y * d;
    }
  }

  lemma FloorReaches(x: real, n: nat)
    ensures n > 0 ==> (ToWord(x) >= n <==> x >= n as real)
  {
  }

  /** A part, taken `scale` times, is at least n times the whole. */
  predicate Spans(part: real, whole: real, scale: nat, n: nat) {
    part * scale as real >= n as real * whole
  }

  /** Scaled weight and threshold, cleared of the division. */
  lemma RatioReaches(a: real, d: real, scale: real, n: real)
    requires d > 0.0
    ensures a / d * scale >= n <==> a * scale >= n * d
  {
    var q := a / d;
    QuotientTimes(a, d);
    CancelFactor(q * scale, n, d);
    assert q * scale * d == q * d * scale;
  }

  lemma FloorOfRatio(a: real, d: real, scale: nat, n: nat)
    requires d > 0.0 && n > 0
    ensures ToWord(a / d * scale as real) >= n <==> Spans(a, d, scale, n)
  {
    FloorReaches(a / d * scale as real, n);
    RatioReaches(a, d, scale as real, n as real);
  }

  lemma ScaledReaches(weights: seq<Option<real>>, limit: real, size: nat, w: real, n: nat)
    requires Spreads(weights, limit) && size > 0 && n > 0
    ensures Scaled(weights, limit, size, w) >= n <==>
            Spans(w - Lowest(weights, limit), Highest(weights) - Lowest(weights, limit), Pow2(size - 1), n)
  {
    FloorOfRatio(w - Lowest(weights, limit), Highest(weights) - Lowest(weights, limit), Pow2(size - 1), n);
  }

  /** The level of an item with a known weight reaches n exactly if its distance from the
      lower end, taken `2^(size - 1)` times, is n times the width of the scale. */
  lemma LevelIsThreshold(weights: seq<Option<real>>, limit: real, size: nat, i: nat, n: nat)
    requires i < |weights| && weights[i].Some? && size > 0 && n > 1
    requires Lowest(weights, limit) < Highest(weights)
    ensures Level(weights, limit, size, i) >= n <==>
            Spans(weights[i].value - Lowest(weights, limit), Highest(weights) - Lowest(weights, limit), Pow2(size - 1), n)
  {
    ScaledReaches(weights, limit, size, weights[i].value, n);
  }

  /** Without a known weight, or when all known weights are the same, an item reaches
      every bucket, and every item reaches the first one. The others take a threshold. */
  predicate Reaches(weights: seq<Option<real>>, limit: real, size: nat, i: nat, k: nat)
    requires i < |weights| && size > 0
  {
    var low, high := Lowest(weights, limit), Highest(weights);
    weights[i].None? || low >= high || k == 0
    || Spans(weights[i].value - low, high - low, Pow2(size - 1), Pow2(k))
  }

  lemma Squared(a: nat, x: nat)
    requires Pow2(a) == x
    ensures Pow2(a + a) == x * x
  {
    PowSplits(a, a);
  }

  /** Half of the largest word, in terms of the word size. */
  lemma DefaultIsHalf(n: nat)
    requires n == WORD_BITS - 1
    ensures Pow2(n) == DEFAULT_WEIGHT + 1
  {
    var a: nat := n - 62;
    assert Pow2(a) == 2;
    Squared(a, 2);
    Squared(2 * a, 4);
    Squared(4 * a, 16);
    Squared(8 * a, 256);
    Squared(16 * a, 65536);
    Squared(32 * a, 4294967296);
    assert 32 * a + 32 * a == n + 1;
  }

  lemma DefaultFillsMask(size: nat)
    requires 0 < size < WORD_BITS
    ensures DEFAULT_WEIGHT % Pow2(size) == Pow2(size) - 1
  {
    var rest: nat := WORD_BITS - 1 - size;
    DefaultIsHalf(size + rest);
    PowSplits(size, rest);
    AllOnes(Pow2(size), Pow2(rest));
  }

  /** Masked and clamped, a word is exactly its level. */
  lemma MaskedWordIsLevel(weights: seq<Option<real>>, limit: real, size: nat, i: nat)
    requires i < |weights| && 0 < size < WORD_BITS
    ensures var bits := Word(weights, limit, size, i) % Pow2(size);
            (if bits < 1 then 1 else bits) == Level(weights, limit, size, i)
    ensures 1 <= Level(weights, limit, size, i) < Pow2(size)
  {
    PowGrows(1, size);
    if Spreads(weights, limit) && weights[i].Some? {
      ScaledIsBounded(weights, limit, size, i);
      assert Pow2(size) == 2 * Pow2(size - 1);
      ModIs(Scaled(weights, limit, size, weights[i].value), Pow2(size), 0, Scaled(weights, limit, size, weights[i].value));
    } else {
      DefaultFillsMask(size);
    }
  }

  lemma UniformReachesAll(weights: seq<Option<real>>, limit: real, size: nat, i: nat, k: nat)
    requires i < |weights| && 0 < size < WORD_BITS && k < size
    requires weights[i].None? || !Spreads(weights, limit)
    ensures Level(weights, limit, size, i) >= Pow2(k)
  {
    PowGrows(k + 1, size);
    assert Pow2(k + 1) == 2 * Pow2(k);
  }

  lemma KnownReachesThreshold(weights: seq<Option<real>>, limit: real, size: nat, i: nat, k: nat)
    requires i < |weights| && 0 < size < WORD_BITS && 0 < k
    requires weights[i].Some? && Spreads(weights, limit)
    ensures Level(weights, limit, size, i) >= Pow2(k) <==> Reaches(weights, limit, size, i, k)
  {
    PowGrows(1, k);
    LevelIsThreshold(weights, limit, size, i, Pow2(k));
  }

  /** With accumulation an item is in bucket k exactly if it reaches it. */
  lemma AccumulatedMeansReached(weights: seq<Option<real>>, limit: real, size: nat, i: nat, k: nat)
    requires i < |weights| && 0 < size < WORD_BITS && k < size
    ensures InBucket(true, Level(weights, limit, size, i), k) <==> Reaches(weights, limit, size, i, k)
  {
    if weights[i].None? || !Spreads(weights, limit) {
      UniformReachesAll(weights, limit, size, i, k);
    } else if k == 0 {
      MaskedWordIsLevel(weights, limit, size, i);
    } else {
      KnownReachesThreshold(weights, limit, size, i, k);
    }
  }

  function ReachFlags(weights: seq<Option<real>>, limit: real, size: nat, k: nat): (f: seq<bool>)
    requires size > 0
    ensures |f| == |weights|
  {
    seq(|weights|, i requires 0 <= i < |weights| => Reaches(weights, limit, size, i, k))
  }

  lemma AccumulatedFlags(weights: seq<Option<real>>, limit: real, size: nat, k: nat)
    requires 0 < size < WORD_BITS && k < size
    ensures Flags(true, weights, limit, size, k) == ReachFlags(weights, limit, size, k)
  {
    forall i | 0 <= i < |weights|
      ensures Flags(true, weights, limit, size, k)[i] == ReachFlags(weights, limit, size, k)[i]
    {
      AccumulatedMeansReached(weights, limit, size, i, k);
    }
  }

  /** The positions of the set flags from i on. */
  function Positions(flags: seq<bool>, i: nat): (ps: seq<nat>)
    requires i <= |flags|
    ensures forall p: nat :: p in ps <==> i <= p < |flags| && flags[p]
    decreases |flags| - i
  {
    if i == |flags| then [] else (if flags[i] then [i] else []) + Positions(flags, i + 1)
  }

  lemma {:induction false} PositionsRise(flags: seq<bool>, i: nat)
    requires i <= |flags|
    ensures forall a, b | 0 <= a < b < |Positions(flags, i)| :: Positions(flags, i)[a] < Positions(flags, i)[b]
    decreases |flags| - i
  {
    if i < |flags| {
      var rest := Positions(flags, i + 1);
      PositionsRise(flags, i + 1);
      forall b | 0 <= b < |rest|
        ensures i < rest[b]
      {
        assert rest[b] in rest;
      }
    }
  }

  lemma {:induction false} SelectAtPositions<T>(data: seq<T>, flags: seq<bool>, i: nat)
    requires |data| == |flags| && i <= |flags|
    ensures var ps := Positions(flags, i);
            && |Select(data[i..], flags[i..])| == |ps|
            && forall a | 0 <= a < |ps| :: ps[a] < |data| && Select(data[i..], flags[i..])[a] == data[ps[a]]
    decreases |flags| - i
  {
    if i < |flags| {
      SelectAtPositions(data, flags, i + 1);
      assert data[i..][1..] == data[i + 1..] && flags[i..][1..] == flags[i + 1..];
      assert forall a | 0 <= a < |Positions(flags, i)| :: Positions(flags, i)[a] in Positions(flags, i);
    }
  }

  /** The selection takes the flagged items, each once, in their order. */
  lemma SelectKeepsOrder<T>(data: seq<T>, flags: seq<bool>) returns (from: seq<nat>)
    requires |data| == |flags|
    ensures |from| == |Select(data, flags)|
    ensures forall a | 0 <= a < |from| :: from[a] < |data| && Select(data, flags)[a] == data[from[a]]
    ensures forall a, b | 0 <= a < b < |from| :: from[a] < from[b]
    ensures forall i: nat :: i in from <==> i < |flags| && flags[i]
  {
    from := Positions(flags, 0);
    PositionsRise(flags, 0);
    SelectAtPositions(data, flags, 0);
    assert data[0..] == data && flags[0..] == flags;
  }

  // ----- the bit code

  /** The mask up to the top bit of a word marks the powers the word reaches. */
  lemma FilledBits(word: nat, top: nat, k: nat)
    requires Pow2(top) <= word < Pow2(top + 1)
    ensures BitAt(Pow2(top + 1) - 1, k) <==> word >= Pow2(k)
  {
    FullMaskBits(top + 1, k);
    if k <= top {
      PowGrows(k, top);
    } else {
      PowGrows(top + 1, k);
    }
  }

  /** Fill all bits below the highest set one. */
  method FillBelow(word: nat, size: nat) returns (bits: nat)
    requires 1 <= word < Pow2(size)
    ensures forall k: nat | k < size :: BitAt(bits, k) <==> word >= Pow2(k)
  {
    bits := word;
    var offset := size;
    while offset > 0
      invariant 0 <= offset <= size
      invariant bits == word < Pow2(offset)
    {
      offset := offset - 1;
      TopBit(word, offset);
      if BitAt(bits, offset) {
        bits := Pow2(offset + 1) - 1;
        forall k: nat | k < size
          ensures BitAt(bits, k) <==> word >= Pow2(k)
        {
          FilledBits(word, offset, k);
        }
        return;
      }
    }
  }

  /** The bucket flags of one word. */
  method Classify(word: nat, size: nat, accumulate: bool) returns (flags: seq<bool>)
    requires 0 < size
    ensures |flags| == size
    ensures var level := if word % Pow2(size) < 1 then 1 else word % Pow2(size);
            forall k | 0 <= k < size :: flags[k] == InBucket(accumulate, level, k)
  {
    PowGrows(1, size);
    var bits := word % Pow2(size);
    if bits < 1 {
      bits := 1;
    }
    ghost var level := bits;
    if accumulate {
      bits := FillBelow(bits, size);
    }
    flags := [];
    for offset := 0 to size
      invariant |flags| == offset
      invariant forall k | 0 <= k < offset :: flags[k] == InBucket(accumulate, level, k)
    {
      flags := flags + [BitAt(bits, offset)];
    }
  }

  /** The bucket flags of every item. */
  ghost predicate Classified(
    filters: seq<seq<bool>>, accumulate: bool, weights: seq<Option<real>>, limit: real, size: nat, n: nat)
    requires n <= |weights| && size > 0
  {
    && |filters| == n
    && forall j | 0 <= j < n ::
         && |filters[j]| == size
         && forall k | 0 <= k < size :: filters[j][k] == InBucket(accumulate, Level(weights, limit, size, j), k)
  }

  method BoundsOf(weights: seq<Option<real>>, limit: real) returns (low: real, high: real)
    ensures low == Lowest(weights, limit) && high == Highest(weights)
  {
    var least, most: Option<real> := Some(limit), None;
    for i := 0 to |weights|
      invariant least == FoldMin(weights[..i], limit) && most == FoldMax(weights[..i])
    {
      assert weights[..i + 1][..i] == weights[..i];
      least, most := OptMin(least, weights[i]), OptMax(most, weights[i]);
    }
    assert weights[..|weights|] == weights;
    low := if least.Some? then least.value else 0.0;
    high := if most.Some? then most.value else 0.0;
  }

  method ClassifyAll(size: nat, accumulate: bool, weights: seq<Option<real>>, limit: real)
    returns (filters: seq<seq<bool>>)
    requires 0 < size < WORD_BITS
    ensures Classified(filters, accumulate, weights, limit, size, |weights|)
  {
    var low, high := BoundsOf(weights, limit);
    var scale := Pow2(size - 1) as real;
    filters := [];
    for i := 0 to |weights|
      invariant Classified(filters, accumulate, weights, limit, size, i)
    {
      var word := DEFAULT_WEIGHT;
      if low < high && weights[i].Some? {
        word := ToWord((weights[i].value - low) / (high - low) * scale);
      }
      assert word == Word(weights, limit, size, i);
      MaskedWordIsLevel(weights, limit, size, i);
      var flags := Classify(word, size, accumulate);
      filters := filters + [flags];
    }
  }

  lemma ColumnIsFlags(
    filters: seq<seq<bool>>, column: seq<bool>, accumulate: bool, weights: seq<Option<real>>, limit: real, size: nat, k: nat)
    requires k < size && Classified(filters, accumulate, weights, limit, size, |weights|)
    requires |column| == |filters| && forall i | 0 <= i < |filters| :: column[i] == filters[i][k]
    ensures column == Flags(accumulate, weights, limit, size, k)
  {
  }

  method Pick<T>(data: seq<T>, flags: seq<bool>) returns (picked: seq<T>)
    requires |data| == |flags|
    ensures picked == Select(data, flags)
  {
    picked := [];
    for i := 0 to |data|
      invariant picked + Select(data[i..], flags[i..]) == Select(data, flags)
    {
      assert data[i..][0] == data[i] && data[i..][1..] == data[i + 1..] && flags[i..][1..] == flags[i + 1..];
      if flags[i] {
        picked := picked + [data[i]];
      }
    }
  }

  /** Build the histogram: bucket k holds exactly the items of its level, in order; with
      accumulation those that reach it. */
  method Build<T>(size: nat, accumulate: bool, data: seq<T>, weights: seq<Option<real>>, limit: real)
    returns (r: Result<seq<seq<T>>, HistogramError>)
    requires |data| == |weights|
    ensures size == 0 ==> r == Err(TooSmall)
    ensures size > WORD_BITS - 1 ==> r == Err(TooLarge)
    ensures 0 < size <= WORD_BITS - 1 ==>
              && r.Ok? && |r.value| == size
              && forall k | 0 <= k < size :: r.value[k] == Select(data, Flags(accumulate, weights, limit, size, k))
    ensures 0 < size <= WORD_BITS - 1 && accumulate ==>
              r.Ok? && |r.value| == size
              && forall k | 0 <= k < size :: r.value[k] == Select(data, ReachFlags(weights, limit, size, k))
  {
    if size == 0 {
      return Err(TooSmall);
    } else if size > WORD_BITS - 1 {
      return Err(TooLarge);
    }
    var filters := ClassifyAll(size, accumulate, weights, limit);
    var buckets: seq<seq<T>> := [];
    for offset := 0 to size
      invariant |buckets| == offset
      invariant forall k | 0 <= k < offset :: buckets[k] == Select(data, Flags(accumulate, weights, limit, size, k))
    {
      var column := seq(|filters|, i requires 0 <= i < |filters| => filters[i][offset]);
      ColumnIsFlags(filters, column, accumulate, weights, limit, size, offset);
      var bucket := Pick(data, column);
      buckets := buckets + [bucket];
    }
    forall k | 0 <= k < size && accumulate
      ensures buckets[k] == Select(data, ReachFlags(weights, limit, size, k))
    {
      AccumulatedFlags(weights, limit, size, k);
    }
    return Ok(buckets);
  }

  // ----- what the buckets say

  /** a can be obtained from b by dropping items. */
  predicate IsSubsequence<T(==)>(a: seq<T>, b: seq<T>) {
    if a == [] then true
    else if b == [] then false
    else (a[0] == b[0] && IsSubsequence(a[1..], b[1..])) || IsSubsequence(a, b[1..])
  }

  lemma {:induction false} FewerFlagsFewerItems<T>(data: seq<T>, f: seq<bool>, g: seq<bool>)
    requires |data| == |f| == |g| && forall i | 0 <= i < |f| :: f[i] ==> g[i]
    ensures IsSubsequence(Select(data, f), Select(data, g))
  {
    if data != [] {
      FewerFlagsFewerItems(data[1..], f[1..], g[1..]);
      var a, b := Select(data[1..], f[1..]), Select(data[1..], g[1..]);
      assert Select(data, f) == if f[0] then [data[0]] + a else a;
      assert Select(data, g) == if g[0] then [data[0]] + b else b;
      if g[0] {
        assert ([data[0]] + b)[1..] == b;
        if f[0] {
          assert ([data[0]] + a)[1..] == a;
        }
      }
    }
  }

  /** With accumulation the buckets are nested, each holding the items of the next
      one in the same order. */
  lemma AccumulatedBucketsNest<T>(data: seq<T>, weights: seq<Option<real>>, limit: real, size: nat, k: nat)
    requires |data| == |weights| && size > 0
    ensures IsSubsequence(Select(data, Flags(true, weights, limit, size, k + 1)),
                          Select(data, Flags(true, weights, limit, size, k)))
  {
    PowGrows(k, k + 1);
    FewerFlagsFewerItems(data, Flags(true, weights, limit, size, k + 1), Flags(true, weights, limit, size, k));
  }

  function BucketSum(weights: seq<Option<real>>, limit: real, size: nat, i: nat, n: nat): nat
    requires i < |weights| && size > 0
  {
    if n == 0 then 0
    else BucketSum(weights, limit, size, i, n - 1)
         + if Flags(false, weights, limit, size, n - 1)[i] then Pow2(n - 1) else 0
  }

  lemma {:induction false} BucketSumIsBitSum(weights: seq<Option<real>>, limit: real, size: nat, i: nat, n: nat)
    requires i < |weights| && size > 0
    ensures BucketSum(weights, limit, size, i, n) == BitSum(Level(weights, limit, size, i), n)
  {
    if n > 0 {
      BucketSumIsBitSum(weights, limit, size, i, n - 1);
    }
  }

  /** Without accumulation the powers of an item's buckets add up to its level. */
  lemma PlainBucketsAddUp(weights: seq<Option<real>>, limit: real, size: nat, i: nat)
    requires i < |weights| && 0 < size < WORD_BITS
    ensures BucketSum(weights, limit, size, i, size) == Level(weights, limit, size, i)
  {
    MaskedWordIsLevel(weights, limit, size, i);
    var level := Level(weights, limit, size, i);
    BucketSumIsBitSum(weights, limit, size, i, size);
    BitSumIsRemainder(level, size);
    ModIs(level, Pow2(size), 0, level);
  }

  lemma {:induction false} SomeBitSet(w: nat, n: nat) returns (k: nat)
    requires BitSum(w, n) > 0
    ensures k < n && BitAt(w, k)
  {
    if BitAt(w, n - 1) {
      k := n - 1;
    } else {
      k := SomeBitSet(w, n - 1);
    }
  }

  /** Every item lands in some bucket; one without a weight lands in all of them. */
  lemma EveryItemLands(accumulate: bool, weights: seq<Option<real>>, limit: real, size: nat, i: nat) returns (k: nat)
    requires i < |weights| && 0 < size < WORD_BITS
    ensures k < size && Flags(accumulate, weights, limit, size, k)[i]
    ensures weights[i].None? ==> forall m | 0 <= m < size :: Flags(accumulate, weights, limit, size, m)[i]
  {
    MaskedWordIsLevel(weights, limit, size, i);
    var level := Level(weights, limit, size, i);
    if accumulate {
      k := 0;
    } else {
      BitSumIsRemainder(level, size);
      ModIs(level, Pow2(size), 0, level);
      k := SomeBitSet(level, size);
    }
    forall m | 0 <= m < size && weights[i].None?
      ensures InBucket(accumulate, level, m)
    {
      FullMaskBits(size, m);
      PowGrows(m, size);
    }
  }

  lemma {:induction false} FoldMinSpares(weights: seq<Option<real>>, limit: real)
    ensures FoldMin(weights, limit).None? <==> None in weights
  {
    if weights != [] {
      var n := |weights| - 1;
      FoldMinSpares(weights[..n], limit);
      assert weights == weights[..n] + [weights[n]];
    }
  }

  /** Without missing weights the fold yields the least of the limit and all weights. */
  lemma {:induction false} FoldMinIsLeast(weights: seq<Option<real>>, limit: real)
    requires None !in weights
    ensures FoldMin(weights, limit).Some?
    ensures var m := FoldMin(weights, limit).value;
            && m <= limit && (m == limit || Some(m) in weights)
            && forall i | 0 <= i < |weights| && weights[i].Some? :: m <= weights[i].value
  {
    if weights != [] {
      var n := |weights| - 1;
      assert weights == weights[..n] + [weights[n]];
      FoldMinIsLeast(weights[..n], limit);
      assert forall i | 0 <= i < n :: weights[..n][i] == weights[i];
    }
  }

  /** The least known weight, which is at most the largest float. */
  predicate IsLightest(weights: seq<Option<real>>, limit: real, least: real) {
    && Some(least) in weights && least <= limit
    && forall i | 0 <= i < |weights| && weights[i].Some? :: least <= weights[i].value
  }

  /** The scale starts at the least known weight if and only if no weight is missing or
      that weight is zero; a missing weight moves the lower end to zero. */
  lemma LowestIsLightestIff(weights: seq<Option<real>>, limit: real, least: real)
    requires IsLightest(weights, limit, least)
    ensures Lowest(weights, limit) == least <==> None !in weights || least == 0.0
    ensures None in weights ==> Lowest(weights, limit) == 0.0
  {
    FoldMinSpares(weights, limit);
    if None !in weights {
      FoldMinIsLeast(weights, limit);
    }
  }

  lemma {:induction false} FoldMaxIsMost(weights: seq<Option<real>>)
    ensures FoldMax(weights).Some? <==> exists i :: 0 <= i < |weights| && weights[i].Some?
    ensures FoldMax(weights).Some? ==>
              && FoldMax(weights) in weights
              && forall i | 0 <= i < |weights| && weights[i].Some? :: weights[i].value <= FoldMax(weights).value
  {
    if weights != [] {
      var n := |weights| - 1;
      assert weights == weights[..n] + [weights[n]];
      FoldMaxIsMost(weights[..n]);
      assert forall i | 0 <= i < n :: weights[..n][i] == weights[i];
    }
  }

  /** The scale ends at the largest known weight, or at zero when none is known. */
  lemma HighestIsHeaviest(weights: seq<Option<real>>)
    ensures forall i | 0 <= i < |weights| && weights[i].Some? :: weights[i].value <= Highest(weights)
    ensures (exists i :: 0 <= i < |weights| && weights[i].Some?) ==> Some(Highest(weights)) in weights
    ensures (forall i | 0 <= i < |weights| :: weights[i].None?) ==> Highest(weights) == 0.0
  {
    FoldMaxIsMost(weights);
  }
}
