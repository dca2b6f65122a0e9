/** Compact targets and the difficulty rule (src/bignum.h, src/main.cpp: DarkGravityWave3). */
module Difficulty {
  import opened Blocks
  import opened Arith

  const TWO_23: nat := 0x80_0000
  const TWO_24: nat := 0x100_0000

  function Pow256(e: nat): (p: nat)
    ensures p > 0
  {
    if e == 0 then 1 else 256 * Pow256(e - 1)
  }

  /** BN_num_bytes: the bytes of a number, none for 0. */
  function NumBytes(x: nat): nat {
    if x == 0 then 0 else 1 + NumBytes(x / 256)
  }

  // ---- compact targets ----

  function ShiftLeft(x: nat, e: nat): nat {
    x * Pow256(e)
  }

  function ShiftRight(x: nat, e: nat): nat {
    Quot(x, Pow256(e))
  }

  /** The number a compact value stands for. */
  function FromCompact(nCompact: nat): int {
    var nSize, nWord := nCompact / TWO_24, nCompact % TWO_23;
    var n := if nSize <= 3 then ShiftRight(nWord, 3 - nSize) else ShiftLeft(nWord, nSize - 3);
    if nCompact / TWO_23 % 2 == 1 then -n else n
  }

  datatype SizeAndWord = SizeAndWord(nSize: nat, nWord: nat)

  /** Size and mantissa as GetCompact picks them. */
  function Parts(x: nat): SizeAndWord {
    var nSize := NumBytes(x);
    var m: nat := if nSize <= 3 then ShiftLeft(x, 3 - nSize) else ShiftRight(x, nSize - 3);
    if m / TWO_23 % 2 == 1 then SizeAndWord(nSize + 1, m / 256) else SizeAndWord(nSize, m)
  }

  /** The compact value of a number that is not negative. */
  function ToCompact(x: nat): nat {
    Parts(x).nSize * TWO_24 + Parts(x).nWord
  }

  /** What encoding makes of a number: 23 bits are kept, the last byte at a time going to zero. */
  function Rounded(x: nat): (r: nat)
    ensures r <= x
  {
    if x < TWO_23 then x else 256 * Rounded(x / 256)
  }

  lemma SmallPowers()
    ensures Pow256(0) == 1 && Pow256(1) == 256 && Pow256(2) == 65536 && Pow256(3) == TWO_24
  {
    assert Pow256(1) == 256 * Pow256(0);
    assert Pow256(2) == 256 * Pow256(1);
  }

  lemma SmallBytes(x: nat)
    requires x < TWO_24
    ensures NumBytes(x) == if x == 0 then 0 else if x < 256 then 1 else if x < 65536 then 2 else 3
  {
    var y := x / 256;
    var z := y / 256;
    assert z / 256 == 0 && NumBytes(0) == 0;
    assert NumBytes(z) == if z == 0 then 0 else 1;
    assert NumBytes(y) == if y == 0 then 0 else 1 + NumBytes(z);
  }

  lemma SmallParts(x: nat)
    requires x < TWO_23
    ensures var p := Parts(x); p.nWord < TWO_23 && p.nSize <= 3 && p.nWord / Pow256(3 - p.nSize) == x
  {
    SmallPowers();
    SmallBytes(x);
    hide Pow256, NumBytes;
  }

  lemma {:induction false} BytesBounds(x: nat)
    requires x > 0
    ensures Pow256(NumBytes(x) - 1) <= x < Pow256(NumBytes(x))
  {
    if x >= 256 { BytesBounds(x / 256); }
  }

  lemma ThreeBytes(x: nat)
    requires x >= 65536
    ensures NumBytes(x) == NumBytes(x / 256) + 1 && NumBytes(x / 256) >= 2
  {
    var y := x / 256;
    assert NumBytes(y) == NumBytes(y / 256) + 1 && NumBytes(y / 256) >= 1;
  }

  /** Dividing a large number by 256 takes one byte off its size and leaves the mantissa. */
  lemma LargeParts(x: nat)
    requires x >= TWO_23
    ensures Parts(x) == SizeAndWord(Parts(x / 256).nSize + 1, Parts(x / 256).nWord)
    ensures Parts(x / 256).nSize >= 3
  {
    hide Pow256, NumBytes;
    var y := x / 256;
    ThreeBytes(x);
    SmallPowers();
    var n := NumBytes(y);
    if n == 2 {
      BytesBounds(x);
    } else if n == 3 {
      assert x / Pow256(1) == y;
    } else {
      DivPow(x, n - 3);
    }
  }

  lemma DivPow(x: nat, e: nat)
    ensures x / Pow256(e + 1) == (x / 256) / Pow256(e)
  {
    DivTwice(x, 256, Pow256(e));
  }

  lemma DivTwice(x: nat, a: nat, b: nat)
    requires a > 0 && b > 0
    ensures a * b > 0 && x / (a * b) == (x / a) / b
  {
    var q := x / a;
    var r := q / b;
    DivBounds(x, a);
    DivBounds(q, b);
    MulMono(r * b, q, a);
    MulMono(q + 1, (r + 1) * b, a);
    Reorder(r, b, a);
    Reorder(r + 1, b, a);
    DivIs(x, a * b, r);
  }

  lemma Reorder(r: nat, b: nat, a: nat)
    ensures r * b * a == r * (a * b)
  {
  }

  lemma {:induction false} PartsFit(x: nat)
    ensures Parts(x).nWord < TWO_23
  {
    if x < TWO_23 { SmallParts(x); } else { LargeParts(x); PartsFit(x / 256); }
  }

  lemma Unpacked(s: nat, m: nat)
    requires m < TWO_23
    ensures var c := s * TWO_24 + m; c / TWO_24 == s && c % TWO_23 == m && c / TWO_23 % 2 == 0
  {
    var c := s * TWO_24 + m;
    assert c / TWO_23 == 2 * s;
  }

  /** The number size and mantissa stand for. */
  function Worth(p: SizeAndWord): nat {
    if p.nSize <= 3 then ShiftRight(p.nWord, 3 - p.nSize) else ShiftLeft(p.nWord, p.nSize - 3)
  }

  lemma NextSize(s: nat, m: nat)
    requires s >= 3
    ensures Worth(SizeAndWord(s + 1, m)) == 256 * Worth(SizeAndWord(s, m))
  {
    assert Pow256(0) == 1;
    TimesOut(m, Pow256(s - 3));
  }

  lemma TimesOut(m: nat, p: nat)
    ensures m * (256 * p) == 256 * (m * p)
  {
  }

  lemma {:induction false} PartsWorth(x: nat)
    ensures Worth(Parts(x)) == Rounded(x)
  {
    if x < TWO_23 {
      SmallParts(x);
    } else {
      LargeParts(x);
      PartsWorth(x / 256);
      hide Parts, Worth;
      NextSize(Parts(x / 256).nSize, Parts(x / 256).nWord);
    }
  }

  /** Decoding what was encoded gives the rounded number, never a negative one. */
  lemma CompactRounds(x: nat)
    ensures FromCompact(ToCompact(x)) == Rounded(x)
  {
    PartsFit(x);
    PartsWorth(x);
    hide Parts, Rounded;
    Unpacked(Parts(x).nSize, Parts(x).nWord);
  }

  /** Encoding what was decoded from an encoding changes nothing. */
  lemma {:induction false} RoundedTwice(x: nat)
    ensures Rounded(Rounded(x)) == Rounded(x)
  {
    if x >= TWO_23 {
      RoundedTwice(x / 256);
      RoundedLarge(x);
      assert Rounded(x) / 256 == Rounded(x / 256);
    }
  }

  lemma {:induction false} RoundedLarge(x: nat)
    requires x >= TWO_23
    ensures Rounded(x) >= TWO_23
  {
    if x / 256 >= TWO_23 { RoundedLarge(x / 256); }
  }

  lemma {:induction false} PartsRounded(x: nat)
    ensures Parts(Rounded(x)) == Parts(x)
  {
    if x >= TWO_23 {
      PartsRounded(x / 256);
      LargeParts(x);
      RoundedLarge(x);
      LargeParts(Rounded(x));
      hide Parts;
      assert Rounded(x) / 256 == Rounded(x / 256);
    }
  }

  /** Encoding what an encoding stands for gives the same encoding. */
  lemma CompactTwice(x: nat)
    ensures FromCompact(ToCompact(x)) >= 0 && ToCompact(FromCompact(ToCompact(x))) == ToCompact(x)
  {
    hide FromCompact, Rounded, Parts;
    CompactRounds(x);
    PartsRounded(x);
  }

  lemma {:induction false} RoundedMonotone(x: nat, y: nat)
    requires x <= y
    ensures Rounded(x) <= Rounded(y)
  {
    if y >= TWO_23 {
      if x >= TWO_23 { RoundedMonotone(x / 256, y / 256); } else { RoundedLarge(y); }
    }
  }

  /** The value of the last place that encoding keeps. */
  function Place(x: nat): nat {
    if x < TWO_23 then 1 else 256 * Place(x / 256)
  }

  lemma {:induction false} PlaceBound(x: nat)
    ensures x < Rounded(x) + Place(x)
    ensures x >= TWO_23 ==> Place(x) * 0x8000 <= x
  {
    if x >= TWO_23 { PlaceBound(x / 256); }
  }

  /** Encoding rounds down, by less than x / 2^15. */
  lemma RoundingError(x: nat)
    requires x > 0
    ensures Rounded(x) <= x && (x - Rounded(x)) * 0x8000 < x
  {
    PlaceBound(x);
  }

  method GetCompact(bn: int) returns (nCompact: nat)
    ensures nCompact == ToCompact(if bn < 0 then -bn else bn) + if bn < 0 then TWO_23 else 0
  {
    var x: nat := if bn < 0 then -bn else bn;
    PartsFit(x);
    var nSize := NumBytes(x);
    if nSize <= 3 { nCompact := ShiftLeft(x, 3 - nSize); } else { nCompact := ShiftRight(x, nSize - 3); }
    if nCompact / TWO_23 % 2 == 1 {
      nCompact := nCompact / 256;
      nSize := nSize + 1;
    }
    nCompact := nCompact + nSize * TWO_24;
    if bn < 0 { nCompact := nCompact + TWO_23; }
  }

  method SetCompact(nCompact: nat) returns (bn: int)
    ensures bn == FromCompact(nCompact)
  {
    var nSize := nCompact / TWO_24;
    var fNegative := nCompact / TWO_23 % 2 == 1;
    var nWord := nCompact % TWO_23;
    if nSize <= 3 { bn := ShiftRight(nWord, 3 - nSize); } else { bn := ShiftLeft(nWord, nSize - 3); }
    if fNegative { bn := -bn; }
  }

  /** The range and the proof of work of a hash. */
  method CheckProofOfWork(hash: nat, nBits: nat, bnLimit: nat) returns (ok: bool)
    ensures ok <==> 0 < FromCompact(nBits) <= bnLimit && hash <= FromCompact(nBits)
  {
    var bnTarget := SetCompact(nBits);
    if bnTarget <= 0 || bnTarget > bnLimit { return false; }
    return hash <= bnTarget;
  }

  // ---- the difficulty rule ----

  const nTargetSpacing: int := 150
  const PAST_BLOCKS: nat := 24

  /** The parts of a block tree entry the rule reads. */
  datatype Header = Header(pprev: Option<Header>, nHeight: nat, nBits: nat, nTime: nat) {
    /** Heights count the ancestors, and every target passed CheckProofOfWork. */
    predicate Valid() {
      && FromCompact(nBits) > 0
      && match pprev
         case None => nHeight == 0
         case Some(p) => nHeight == p.nHeight + 1 && p.Valid()
    }
  }

  /** An entry and the ones before it, newest first. */
  function Recent(h: Header, n: nat): (s: seq<Header>)
    requires h.Valid() && 0 < n <= h.nHeight + 1
    ensures |s| == n && s[0] == h && forall i :: 0 <= i < n ==> s[i].Valid() && s[i].nHeight == h.nHeight - i
    decreases n
  {
    if n == 1 then [h] else [h] + Recent(h.pprev.value, n - 1)
  }

  ghost predicate Within(s: seq<Header>, k: nat, lo: int, hi: int)
    requires k <= |s|
  {
    forall i :: 0 <= i < k ==> lo <= FromCompact(s[i].nBits) <= hi
  }

  /** The average after the next target lies between the same bounds as what it averages. */
  lemma AverageStep(prev: nat, t: nat, c: nat, lo: nat, hi: nat)
    requires lo <= prev <= hi && lo <= t <= hi
    ensures lo <= (prev * c + t) / (c + 1) <= hi
  {
    MulMono(lo, prev, c);
    MulMono(prev, hi, c);
    assert lo * (c + 1) == lo * c + lo && (hi + 1) * (c + 1) == hi * c + hi + c + 1;
    QuotBetween(prev * c + t, c + 1, lo, hi);
  }

  /** The time between the newest and the oldest of the first k entries, where no time is 0. */
  ghost function SpanOf(s: seq<Header>, k: nat): int
    requires k <= |s|
  {
    if k < 2 then 0 else SpanOf(s, k - 1) + if s[k - 2].nTime > 0 then s[k - 2].nTime - s[k - 1].nTime else 0
  }

  /** Times that are all positive telescope. */
  lemma {:induction false} SpanTelescopes(s: seq<Header>, k: nat)
    requires 0 < k <= |s| && forall i :: 0 <= i < k ==> s[i].nTime > 0
    ensures SpanOf(s, k) == s[0].nTime - s[k - 1].nTime
  {
    if k > 1 { SpanTelescopes(s, k - 1); }
  }

  /** The running average over the first k targets, each new one with weight 1 / (k + 1). */
  ghost function AverageOf(s: seq<Header>, k: nat): nat
    requires 0 < k <= |s| && forall i :: 0 <= i < |s| ==> FromCompact(s[i].nBits) > 0
  {
    var t := FromCompact(s[k - 1].nBits);
    if k == 1 then t else Quot(AverageOf(s, k - 1) * k + t, k + 1)
  }

  /** The average lies between the smallest and the largest of the targets. */
  lemma {:induction false} AverageWithin(s: seq<Header>, k: nat, lo: nat, hi: nat)
    requires 0 < k <= |s| && (forall i :: 0 <= i < |s| ==> FromCompact(s[i].nBits) > 0) && Within(s, k, lo, hi)
    ensures lo <= AverageOf(s, k) <= hi
  {
    hide FromCompact;
    if k > 1 {
      AverageWithin(s, k - 1, lo, hi);
      AverageStep(AverageOf(s, k - 1), FromCompact(s[k - 1].nBits), k, lo, hi);
    }
  }

  /** Sum of the first k targets. */
  ghost function TargetSum(s: seq<Header>, k: nat): nat
    requires k <= |s| && forall i :: 0 <= i < |s| ==> FromCompact(s[i].nBits) > 0
  {
    if k == 0 then 0 else TargetSum(s, k - 1) + FromCompact(s[k - 1].nBits)
  }

  /** In closed form: k + 1 averages are the newest target twice and the others once, but for what the k - 1 divisions
      round off. */
  lemma {:induction false} AverageClosed(s: seq<Header>, k: nat)
    requires 0 < k <= |s| && forall i :: 0 <= i < |s| ==> FromCompact(s[i].nBits) > 0
    ensures var w := FromCompact(s[0].nBits) + TargetSum(s, k);
      (k + 1) * AverageOf(s, k) <= w < (k + 1) * AverageOf(s, k) + k * (k + 1) / 2
  {
    hide FromCompact;
    if k == 1 {
      assert TargetSum(s, 1) == TargetSum(s, 0) + FromCompact(s[0].nBits);
    } else {
      AverageClosed(s, k - 1);
      var a, t := AverageOf(s, k - 1), FromCompact(s[k - 1].nBits);
      DivBounds(a * k + t, k + 1);
      hide AverageOf, TargetSum;
      Triangle(k);
      Order(AverageOf(s, k), k + 1);
    }
  }

  lemma Order(a: nat, d: nat)
    ensures a * d == d * a && (a + 1) * d == d * a + d
  {
  }

  lemma Triangle(k: nat)
    requires k > 0
    ensures k * (k + 1) / 2 == (k - 1) * k / 2 + k
  {
    assert k * (k + 1) == (k - 1) * k + 2 * k;
  }

  /** The average with one more target. */
  method NextAverage(prev: nat, BlockReading: Header, CountBlocks: nat, ghost recent: seq<Header>)
    returns (average: nat)
    requires 0 < CountBlocks <= |recent| && BlockReading == recent[CountBlocks - 1]
    requires forall i :: 0 <= i < |recent| ==> FromCompact(recent[i].nBits) > 0
    requires CountBlocks > 1 ==> prev == AverageOf(recent, CountBlocks - 1)
    ensures average == AverageOf(recent, CountBlocks)
  {
    hide FromCompact;
    var target := SetCompact(BlockReading.nBits);
    if CountBlocks == 1 {
      average := target;
    } else {
      average := Quot(prev * CountBlocks + target, CountBlocks + 1);
    }
  }

  /** The loop: the running average and the timespan of the last 24 entries. */
  method ReadRecent(pindexLast: Header)
    returns (average: nat, nActualTimespan: int, CountBlocks: nat, ghost recent: seq<Header>)
    requires pindexLast.Valid() && pindexLast.nHeight >= PAST_BLOCKS
    ensures CountBlocks == PAST_BLOCKS && recent == Recent(pindexLast, PAST_BLOCKS)
    ensures nActualTimespan == SpanOf(recent, PAST_BLOCKS)
    ensures average == AverageOf(recent, PAST_BLOCKS)
  {
    hide Recent, AverageOf, FromCompact;
    recent := Recent(pindexLast, PAST_BLOCKS);
    var BlockReading := pindexLast;
    var LastBlockTime := 0;
    average, nActualTimespan, CountBlocks := 0, 0, 0;
    while BlockReading.nHeight > 0
      invariant BlockReading.Valid() && CountBlocks <= PAST_BLOCKS
      invariant BlockReading.nHeight == pindexLast.nHeight - CountBlocks
      invariant CountBlocks < PAST_BLOCKS ==> BlockReading == recent[CountBlocks]
      invariant LastBlockTime == if CountBlocks == 0 then 0 else recent[CountBlocks - 1].nTime
      invariant nActualTimespan == SpanOf(recent, CountBlocks)
      invariant CountBlocks > 0 ==> average == AverageOf(recent, CountBlocks)
      decreases BlockReading.nHeight
    {
      if CountBlocks == PAST_BLOCKS { break; }
      if CountBlocks + 1 < PAST_BLOCKS { RecentParent(pindexLast, PAST_BLOCKS, CountBlocks); }
      CountBlocks := CountBlocks + 1;
      average := NextAverage(average, BlockReading, CountBlocks, recent);
      if LastBlockTime > 0 {
        var Diff := LastBlockTime - BlockReading.nTime;
        nActualTimespan := nActualTimespan + Diff;
      }
      LastBlockTime := BlockReading.nTime;
      BlockReading := BlockReading.pprev.value;
    }
  }

  /** The parent of a recent entry is the next one. */
  lemma {:induction false} RecentParent(h: Header, n: nat, c: nat)
    requires h.Valid() && 0 < n <= h.nHeight + 1 && c + 1 < n
    ensures Recent(h, n)[c].pprev == Some(Recent(h, n)[c + 1])
    decreases n
  {
    if c > 0 { RecentParent(h.pprev.value, n - 1, c - 1); }
  }

  /** An average scaled by a timespan between a third and three times the ideal hour. */
  lemma ScaledBounds(average: nat, span: nat)
    requires 1200 <= span <= 10800
    ensures average / 3 <= average * span / 3600 <= average * 3
  {
    MulMono(1200, span, average);
    MulMono(span, 10800, average);
    assert average * span == span * average;
  }

  function Retarget(average: nat, span: nat): nat {
    Quot(average * span, 3600)
  }

  /** The target of the block after an entry, before it is encoded. */
  ghost function NextTarget(last: Option<Header>, bnLimit: nat): nat
    requires last.Some? ==> last.value.Valid()
  {
    if last.None? || last.value.nHeight < PAST_BLOCKS then bnLimit
    else
      var recent := Recent(last.value, PAST_BLOCKS);
      var bn := Retarget(AverageOf(recent, PAST_BLOCKS), Clamp(SpanOf(recent, PAST_BLOCKS), 1200, 10800));
      if bn > bnLimit then bnLimit else bn
  }

  /** The next target, before and after encoding, stays below the limit; with 24 entries to look at it is at
      least a third of the smallest of their targets or the limit, and at most three times the largest. */
  lemma NextTargetBounds(last: Option<Header>, bnLimit: nat, lo: nat, hi: nat)
    requires last.Some? ==> last.value.Valid()
    ensures var bnNew := NextTarget(last, bnLimit);
      && FromCompact(ToCompact(bnNew)) == Rounded(bnNew) <= bnNew <= bnLimit
      && (last.Some? && last.value.nHeight >= PAST_BLOCKS
          && Within(Recent(last.value, PAST_BLOCKS), PAST_BLOCKS, lo, hi) ==>
            (lo / 3 <= bnNew || bnNew == bnLimit) && bnNew <= 3 * hi)
  {
    hide Rounded, FromCompact, ToCompact, Recent, Within, AverageOf, SpanOf;
    CompactRounds(NextTarget(last, bnLimit));
    if last.Some? && last.value.nHeight >= PAST_BLOCKS {
      var recent := Recent(last.value, PAST_BLOCKS);
      ScaledBounds(AverageOf(recent, PAST_BLOCKS), Clamp(SpanOf(recent, PAST_BLOCKS), 1200, 10800));
      if Within(recent, PAST_BLOCKS, lo, hi) { AverageWithin(recent, PAST_BLOCKS, lo, hi); }
    }
  }

  /** From height 24 on, before the limit: a ninety-thousandth of the weighted targets times the clamped timespan, with
      the newest of the 24 targets counted twice, but for rounding. */
  lemma NextTargetFormula(last: Header, bnLimit: nat)
    requires last.Valid() && last.nHeight >= PAST_BLOCKS
    ensures var recent := Recent(last, PAST_BLOCKS);
      var w := FromCompact(recent[0].nBits) + TargetSum(recent, PAST_BLOCKS);
      var span := Clamp(SpanOf(recent, PAST_BLOCKS), 1200, 10800);
      var bnNew := NextTarget(Some(last), bnLimit);
      && 90_000 * bnNew <= w * span
      && (bnNew == bnLimit || w * span < 90_000 * (bnNew + 1) + 300 * span)
  {
    hide FromCompact, Recent, SpanOf, AverageOf, TargetSum;
    var recent := Recent(last, PAST_BLOCKS);
    AverageClosed(recent, PAST_BLOCKS);
    ScaledFormula(AverageOf(recent, PAST_BLOCKS), FromCompact(recent[0].nBits) + TargetSum(recent, PAST_BLOCKS),
                  Clamp(SpanOf(recent, PAST_BLOCKS), 1200, 10800));
  }

  lemma ScaledFormula(average: nat, w: nat, span: nat)
    requires 25 * average <= w < 25 * average + 300
    ensures var bn := Retarget(average, span);
      90_000 * bn <= w * span && w * span <= 90_000 * bn + 89_999 + 300 * span
  {
    var bn := Retarget(average, span);
    DivBounds(average * span, 3600);
    MulMono(25 * average, w, span);
    MulMono(w, 25 * average + 300, span);
    assert 25 * average * span == 25 * (average * span);
    assert (25 * average + 300) * span == 25 * (average * span) + 300 * span;
  }

  /** The next target is one CheckProofOfWork can accept exactly when the limit is positive and, from height 24 on, the
      average times the timespan reaches the ideal timespan. */
  lemma NextTargetPositive(last: Option<Header>, bnLimit: nat)
    requires last.Some? ==> last.value.Valid()
    ensures FromCompact(ToCompact(NextTarget(last, bnLimit))) > 0 <==>
      bnLimit > 0 && (last.Some? && last.value.nHeight >= PAST_BLOCKS ==>
        var recent := Recent(last.value, PAST_BLOCKS);
        AverageOf(recent, PAST_BLOCKS) * Clamp(SpanOf(recent, PAST_BLOCKS), 1200, 10800) >= 3600)
  {
    hide Rounded, FromCompact, ToCompact, Recent, AverageOf, SpanOf;
    var bnNew := NextTarget(last, bnLimit);
    CompactRounds(bnNew);
    RoundedPositive(bnNew);
    if last.Some? && last.value.nHeight >= PAST_BLOCKS {
      var recent := Recent(last.value, PAST_BLOCKS);
      QuotPositive(AverageOf(recent, PAST_BLOCKS) * Clamp(SpanOf(recent, PAST_BLOCKS), 1200, 10800), 3600);
    }
  }

  lemma RoundedPositive(x: nat)
    ensures Rounded(x) > 0 <==> x > 0
  {
    if x >= TWO_23 { RoundedLarge(x); }
  }

  lemma QuotPositive(a: nat, d: nat)
    requires d > 0
    ensures Quot(a, d) > 0 <==> a >= d
  {
    DivBounds(a, d);
    if Quot(a, d) > 0 { MulMono(1, Quot(a, d), d); }
  }

  /** It is positive if none of the 24 targets is below 3. */
  lemma LargeTargetsStayPositive(last: Header, bnLimit: nat, hi: nat)
    requires last.Valid() && last.nHeight >= PAST_BLOCKS && bnLimit > 0
    requires Within(Recent(last, PAST_BLOCKS), PAST_BLOCKS, 3, hi)
    ensures FromCompact(ToCompact(NextTarget(Some(last), bnLimit))) > 0
  {
    hide Rounded, FromCompact, ToCompact, Recent, AverageOf, SpanOf, NextTarget, Within;
    NextTargetPositive(Some(last), bnLimit);
    var recent := Recent(last, PAST_BLOCKS);
    AverageWithin(recent, PAST_BLOCKS, 3, hi);
    MulBoth(AverageOf(recent, PAST_BLOCKS), Clamp(SpanOf(recent, PAST_BLOCKS), 1200, 10800));
  }

  lemma MulBoth(a: nat, s: nat)
    requires a >= 3 && s >= 1200
    ensures a * s >= 3600
  {
    MulMono(3, a, s);
  }

  /** Blocks at target 1, all made in the same second. */
  function Hardest(h: nat): (b: Header)
    ensures b.nHeight == h && b.nBits == 0x0101_0000 && b.nTime == 1
  {
    Header(if h == 0 then None else Some(Hardest(h - 1)), h, 0x0101_0000, 1)
  }

  lemma TargetOne()
    ensures FromCompact(0x0101_0000) == 1
  {
    SmallPowers();
  }

  lemma {:induction false} HardestValid(h: nat)
    ensures Hardest(h).Valid()
  {
    TargetOne();
    hide FromCompact;
    if h > 0 { HardestValid(h - 1); }
  }

  ghost predicate AllHardest(s: seq<Header>) {
    forall i :: 0 <= i < |s| ==> s[i].nBits == 0x0101_0000 && s[i].nTime == 1
  }

  lemma HardestJoin(b: Header, s: seq<Header>)
    requires b.nBits == 0x0101_0000 && b.nTime == 1 && AllHardest(s)
    ensures AllHardest([b] + s)
  {
  }

  lemma {:induction false} HardestRecent(h: nat, n: nat)
    requires Hardest(h).Valid() && 0 < n <= h + 1
    ensures AllHardest(Recent(Hardest(h), n))
    decreases n
  {
    hide FromCompact, AllHardest;
    if n == 1 {
      HardestAlone(h);
    } else {
      HardestValid(h - 1);
      HardestRecent(h - 1, n - 1);
      HardestJoin(Hardest(h), Recent(Hardest(h - 1), n - 1));
    }
  }

  lemma HardestAlone(h: nat)
    ensures AllHardest([Hardest(h)])
  {
  }

  /** After 24 such blocks the next target is 0, which no hash meets. */
  lemma TargetVanishes(h: nat, bnLimit: nat)
    requires h >= PAST_BLOCKS
    ensures Hardest(h).Valid() && NextTarget(Some(Hardest(h)), bnLimit) == 0
  {
    hide FromCompact, Recent, AverageOf, SpanOf, Within;
    HardestValid(h);
    HardestRecent(h, PAST_BLOCKS);
    TargetOne();
    var recent := Recent(Hardest(h), PAST_BLOCKS);
    SpanTelescopes(recent, PAST_BLOCKS);
    HardestWithin(recent);
    AverageWithin(recent, PAST_BLOCKS, 1, 1);
    QuotPositive(1200, 3600);
  }

  lemma HardestWithin(s: seq<Header>)
    requires |s| == PAST_BLOCKS && AllHardest(s)
    ensures Within(s, PAST_BLOCKS, 1, 1)
  {
    TargetOne();
    hide FromCompact;
  }

  method DarkGravityWave3(pindexLast: Option<Header>, bnLimit: nat) returns (nBits: nat)
    requires pindexLast.Some? ==> pindexLast.value.Valid()
    ensures nBits == ToCompact(NextTarget(pindexLast, bnLimit))
  {
    hide FromCompact, ToCompact, Recent, AverageOf, SpanOf;
    if pindexLast.None? || pindexLast.value.nHeight == 0 || pindexLast.value.nHeight < PAST_BLOCKS {
      nBits := GetCompact(bnLimit);
      return;
    }
    var average, nActualTimespan, CountBlocks, recent := ReadRecent(pindexLast.value);
    var nTargetTimespan := CountBlocks * nTargetSpacing;
    if nActualTimespan < nTargetTimespan / 3 { nActualTimespan := nTargetTimespan / 3; }
    if nActualTimespan > nTargetTimespan * 3 { nActualTimespan := nTargetTimespan * 3; }
    assert nTargetTimespan == 3600;
    var bn := Quot(average * nActualTimespan, nTargetTimespan);
    if bn > bnLimit { bn := bnLimit; }
    nBits := GetCompact(bn);
  }
}
