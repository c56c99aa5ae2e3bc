/** How well files of an extension compress, as it is learned, and the level chosen from it. Rates are real numbers. */
module CompressionStatistics {
  import opened Prelude

  /** `roundf`: to the nearest integer, halves away from zero. */
  function Rounded(x: real): int {
    if x >= 0.0 then (x + 0.5).Floor else -((0.5 - x).Floor)
  }

  function Clamp(x: real, low: real, high: real): real {
    if x < low then low else if x > high then high else x
  }

  function CompressionLevel(maxCompressionLevel: nat, rate: real): int {
    LevelFor((maxCompressionLevel + 1) as real * (1.0 - rate))
  }

  /** `n * x`, by addition. */
  function Multiple(n: nat, x: real): real {
    if n == 0 then 0.0 else Multiple(n - 1, x) + x
  }

  lemma {:induction false} MultipleIsProduct(n: nat, x: real)
    ensures Multiple(n, x) == n as real * x
  {
    if n > 0 {
      MultipleIsProduct(n - 1, x);
      assert n as real * x == (n - 1) as real * x + x;
    }
  }

  function LevelFor(c: real): int {
    Clamp((Rounded(c) - 1) as real, 0.0, 9.0).Floor
  }

  predicate IsRate(x: real) {
    0.0 <= x <= 1.0
  }

  /** A node is compressed unless its rate is worse than this. */
  const WORTHWHILE: real := 0.9

  lemma LevelForMonotone(x: real, y: real)
    requires x <= y
    ensures 0 <= LevelFor(x) <= LevelFor(y) <= 9
  {
    assert Rounded(x) <= Rounded(y);
  }

  lemma LevelForWhole(n: nat)
    ensures LevelFor((n + 1) as real) <= n
  {
    assert Rounded((n + 1) as real) == n + 1;
  }

  lemma LevelsOrdered(x: real, y: real, n: nat)
    requires x <= y <= (n + 1) as real
    ensures 0 <= LevelFor(x) <= LevelFor(y) <= Min(n, 9)
  {
    LevelForMonotone(x, y);
    LevelForMonotone(y, (n + 1) as real);
    LevelForWhole(n);
  }

  lemma {:induction false} MultiplesOrdered(n: nat, x: real, y: real)
    requires x <= y <= 1.0
    ensures Multiple(n, x) <= Multiple(n, y) <= n as real
  {
    if n > 0 { MultiplesOrdered(n - 1, x, y); }
  }

  lemma ProductsOrdered(n: nat, x: real, y: real)
    requires x <= y <= 1.0
    ensures n as real * x <= n as real * y <= n as real
  {
    MultiplesOrdered(n, x, y);
    MultipleIsProduct(n, x);
    MultipleIsProduct(n, y);
  }

  /** Levels stay within the configured maximum and never rise with the rate. */
  lemma LevelBounds(maxCompressionLevel: nat, rate: real, worse: real)
    requires IsRate(rate) && IsRate(worse) && rate <= worse
    ensures 0 <= CompressionLevel(maxCompressionLevel, worse) <= CompressionLevel(maxCompressionLevel, rate)
    ensures CompressionLevel(maxCompressionLevel, rate) <= Min(maxCompressionLevel, 9)
  {
    ProductsOrdered(maxCompressionLevel + 1, 1.0 - worse, 1.0 - rate);
    LevelsOrdered((maxCompressionLevel + 1) as real * (1.0 - worse), (maxCompressionLevel + 1) as real * (1.0 - rate),
                  maxCompressionLevel);
  }

  /** The level is the nearest to one less than `(max + 1) * (1 - rate)`, kept between 0 and 9. */
  lemma LevelExactly(maxCompressionLevel: nat, rate: real)
    ensures var level := CompressionLevel(maxCompressionLevel, rate);
            var c := (maxCompressionLevel + 1) as real * (1.0 - rate);
            && 0 <= level <= 9
            && (level < 9 ==> c < level as real + 1.5)
            && (level > 0 ==> c >= level as real + 0.5)
    ensures CompressionLevel(maxCompressionLevel, 0.0) == Min(maxCompressionLevel, 9)
    ensures CompressionLevel(maxCompressionLevel, 1.0) == 0
  {
    LevelForExactly((maxCompressionLevel + 1) as real * (1.0 - rate));
    LevelForExactly((maxCompressionLevel + 1) as real);
  }

  lemma LevelForExactly(c: real)
    ensures 0 <= LevelFor(c) <= 9
    ensures LevelFor(c) < 9 ==> c < LevelFor(c) as real + 1.5
    ensures LevelFor(c) > 0 ==> c >= LevelFor(c) as real + 0.5
  {
  }

  /** The statistics after a sample; a missing entry counts as 0. */
  function Learned(stats: map<string, real>, ext: string, sample: real): map<string, real> {
    var before := if ext in stats then stats[ext] else 0.0;
    stats[ext := (before + Clamp(sample, 0.0, 1.0)) / 2.0]
  }

  /** A sample between 0 and 1 moves the rate of its extension half the way, and no other rate. */
  lemma LearnedExactly(stats: map<string, real>, ext: string, sample: real)
    ensures ext in Learned(stats, ext, sample)
    ensures IsRate(sample) && ext in stats ==> Learned(stats, ext, sample)[ext] == (stats[ext] + sample) / 2.0
    ensures IsRate(sample) && ext !in stats ==> Learned(stats, ext, sample)[ext] == sample / 2.0
    ensures sample < 0.0 ==> Learned(stats, ext, sample) == Learned(stats, ext, 0.0)
    ensures sample > 1.0 ==> Learned(stats, ext, sample) == Learned(stats, ext, 1.0)
    ensures forall other | other != ext ::
              (other in Learned(stats, ext, sample) <==> other in stats)
              && (other in stats ==> Learned(stats, ext, sample)[other] == stats[other])
  {
  }

  /** The statistics after asking for a rate: unknown extensions are assumed to compress perfectly. */
  function AskedFor(stats: map<string, real>, ext: string): map<string, real> {
    if ext in stats then stats else stats[ext := 0.0]
  }

  class Statistics {
    const toLowercase: string -> string
    /** By lower-case extension. */
    var compressionStats: map<string, real>

    constructor (toLowercase: string -> string, stats: map<string, real>)
      ensures this.toLowercase == toLowercase && compressionStats == stats
    {
      this.toLowercase := toLowercase;
      compressionStats := stats;
    }

    method AddCompressionRateSample(fileExtension: string, compressionRate: real)
      modifies this
      ensures compressionStats == Learned(old(compressionStats), toLowercase(fileExtension), compressionRate)
    {
      var rate := Clamp(compressionRate, 0.0, 1.0);
      var extLower := toLowercase(fileExtension);
      if extLower !in compressionStats {
        compressionStats := compressionStats[extLower := 0.0];
      }
      compressionStats := compressionStats[extLower := (compressionStats[extLower] + rate) / 2.0];
    }

    method GetCompressionRate(fileExtension: string) returns (rate: real)
      modifies this
      ensures compressionStats == AskedFor(old(compressionStats), toLowercase(fileExtension))
      ensures var ext := toLowercase(fileExtension);
              rate == if ext in old(compressionStats) then old(compressionStats[ext]) else 0.0
      ensures toLowercase(fileExtension) in compressionStats && rate == compressionStats[toLowercase(fileExtension)]
    {
      var extLower := toLowercase(fileExtension);
      if extLower !in compressionStats {
        compressionStats := compressionStats[extLower := 0.0];
      }
      rate := compressionStats[extLower];
    }
  }

  /** Backups of files, by lower-case extension: each asks for its rate and, if it compresses, adds a sample when it
      ends. */
  datatype Task = Task(ext: string, compresses: bool, ended: bool)

  datatype Learning = Learning(stats: map<string, real>, tasks: seq<Task>)

  datatype LearningStep = Start(ext: string, size: nat) | End(i: nat, sample: real)

  predicate CanStep(l: Learning, step: LearningStep) {
    step.End? ==> step.i < |l.tasks| && !l.tasks[step.i].ended
  }

  function Learn(l: Learning, step: LearningStep): Learning
    requires CanStep(l, step)
  {
    match step
    case Start(ext, size) =>
      var stats := AskedFor(l.stats, ext);
      Learning(stats, l.tasks + [Task(ext, size > 0 && stats[ext] <= WORTHWHILE, false)])
    case End(i, sample) =>
      Learning(if l.tasks[i].compresses then Learned(l.stats, l.tasks[i].ext, sample) else l.stats,
               l.tasks[i := l.tasks[i].(ended := true)])
  }

  function LearnAll(l: Learning, steps: seq<LearningStep>): Option<Learning>
    decreases |steps|
  {
    if steps == [] then Some(l)
    else if CanStep(l, steps[0]) then LearnAll(Learn(l, steps[0]), steps[1..])
    else None
  }

  predicate AllRates(stats: map<string, real>) {
    forall ext | ext in stats :: IsRate(stats[ext])
  }

  /** Stored rates stay rates, over all runs and samples. */
  lemma {:induction false} RatesStayRates(l: Learning, steps: seq<LearningStep>, m: Learning)
    requires AllRates(l.stats) && LearnAll(l, steps) == Some(m)
    ensures AllRates(m.stats)
    decreases |steps|
  {
    if steps != [] {
      RatesStayRates(Learn(l, steps[0]), steps[1..], m);
    }
  }

  /** The extension counts as incompressible and no running task will correct that. */
  predicate GivenUp(l: Learning, ext: string) {
    && ext in l.stats && l.stats[ext] > WORTHWHILE
    && forall i | 0 <= i < |l.tasks| && l.tasks[i].ext == ext && !l.tasks[i].ended :: !l.tasks[i].compresses
  }

  /** An extension given up is never tried again: its rate stays as it is in every further run. */
  lemma {:induction false} GivenUpForever(l: Learning, ext: string, steps: seq<LearningStep>, m: Learning)
    requires GivenUp(l, ext) && LearnAll(l, steps) == Some(m)
    ensures GivenUp(m, ext) && m.stats[ext] == l.stats[ext]
    decreases |steps|
  {
    if steps != [] {
      GivenUpForever(Learn(l, steps[0]), ext, steps[1..], m);
    }
  }
}
