/**
 * The pattern entity: a learned pattern with its occurrence count, its
 * frequency band, a confidence, and a bounded list of examples.
 *
 * The source computes the percentage and the confidence in floating point;
 * here they are exact rationals, so rounding at a band boundary is not
 * reproduced.
 */
module PatternEntity {
  import opened Wrappers

  datatype PatternType = Structure | Naming | Organization | MockUsage | TestStrategy

  datatype PatternFrequency = Rare | Occasional | Common | Frequent | Dominant

  type Timestamp = nat

  /** The most examples a pattern keeps. */
  const MaxExamples: nat := 10

  /** The band of a percentage; every bound is strict. */
  function Band(percentage: real): PatternFrequency {
    if percentage > 80.0 then Dominant
    else if percentage > 60.0 then Frequent
    else if percentage > 30.0 then Common
    else if percentage > 10.0 then Occasional
    else Rare
  }

  function BandRank(f: PatternFrequency): nat {
    match f
    case Rare => 0
    case Occasional => 1
    case Common => 2
    case Frequent => 3
    case Dominant => 4
  }

  /** A higher percentage never falls in a lower band. */
  lemma BandMonotone(p: real, q: real)
    requires p <= q
    ensures BandRank(Band(p)) <= BandRank(Band(q))
  {
  }

  /** Exactly at a bound, the lower band applies. */
  lemma BandBoundsAreStrict()
    ensures Band(80.0) == Frequent && Band(60.0) == Common && Band(30.0) == Occasional && Band(10.0) == Rare
  {
  }

  function Min(a: real, b: real): real {
    if a <= b then a else b
  }

  datatype PatternState = PatternState(
    id: string,
    kind: PatternType,
    name: string,
    description: string,
    examples: seq<string>,
    occurrences: int,
    totalFiles: int,
    frequency: Option<PatternFrequency>,
    confidence: real,
    lastSeen: Timestamp)

  class Pattern {
    var id: string
    var kind: PatternType
    var name: string
    var description: string
    var examples: seq<string>
    var occurrences: int
    var totalFiles: int
    var frequency: Option<PatternFrequency>
    var confidence: real
    var lastSeen: Timestamp

    /** Every field of the pattern, as one value. */
    function State(): PatternState
      reads this
    {
      PatternState(id, kind, name, description, examples, occurrences, totalFiles, frequency, confidence, lastSeen)
    }

    constructor(id: string, kind: PatternType, name: string, description: string, now: Timestamp)
      ensures this.id == id && this.kind == kind && this.name == name && this.description == description
      ensures examples == [] && occurrences == 0 && totalFiles == 0
      ensures frequency == None && confidence == 0.0 && lastSeen == now
    {
      this.id := id;
      this.kind := kind;
      this.name := name;
      this.description := description;
      examples := [];
      occurrences := 0;
      totalFiles := 0;
      frequency := None;
      confidence := 0.0;
      lastSeen := now;
    }

    /**
     * `calculate_frequency`: RARE without storing anything when there are no
     * files; otherwise the band of the occurrence percentage, stored.
     */
    method CalculateFrequency() returns (f: PatternFrequency)
      modifies this
      ensures totalFiles == 0 ==> f == Rare && frequency == old(frequency)
      ensures totalFiles != 0 ==>
        f == Band((occurrences as real / totalFiles as real) * 100.0) && frequency == Some(f)
      ensures totalFiles == 0 ==> State() == old(State())
      ensures totalFiles != 0 ==> State() == old(State()).(frequency := Some(f))
    {
      if totalFiles == 0 {
        return Rare;
      }
      var percentage := (occurrences as real / totalFiles as real) * 100.0;
      frequency := Some(Band(percentage));
      f := frequency.value;
    }

    /**
     * `calculate_confidence`: 0 when there are no files; otherwise 0.7 of the
     * occurrence rate plus 0.3 of the example fill, capped at ten examples.
     */
    method CalculateConfidence() returns (c: real)
      modifies this
      ensures totalFiles == 0 ==> c == 0.0
      ensures totalFiles != 0 ==>
        c == (occurrences as real / totalFiles as real) * 0.7 + Min(|examples| as real / 10.0, 1.0) * 0.3
      ensures State() == old(State()).(confidence := c)
    {
      if totalFiles == 0 {
        confidence := 0.0;
        return confidence;
      }
      var freqScore := occurrences as real / totalFiles as real;
      var exampleScore := Min(|examples| as real / 10.0, 1.0);
      confidence := freqScore * 0.7 + exampleScore * 0.3;
      c := confidence;
    }

    /** `add_occurrence`: one more occurrence; the example is kept only while fewer than ten are held. */
    method AddOccurrence(example: string, now: Timestamp)
      modifies this
      ensures occurrences == old(occurrences) + 1 && lastSeen == now
      ensures examples == if |old(examples)| < MaxExamples then old(examples) + [example] else old(examples)
      ensures |old(examples)| <= MaxExamples ==> |examples| <= MaxExamples
      ensures old(examples) <= examples
      ensures State() == old(State()).(occurrences := occurrences, lastSeen := now, examples := examples)
    {
      occurrences := occurrences + 1;
      lastSeen := now;
      if |examples| < MaxExamples {
        examples := examples + [example];
      }
    }

    /** `is_significant`: an unset frequency does not count as RARE. */
    predicate IsSignificant()
      reads this
    {
      confidence >= 0.5 && occurrences >= 3 && frequency != Some(Rare)
    }
  }

  /** With no files, confidence is 0 and so the pattern is not significant. */
  method EmptyPatternIsInsignificant(p: Pattern) returns (significant: bool)
    requires p.totalFiles == 0
    modifies p
    ensures !significant
  {
    var _ := p.CalculateConfidence();
    significant := p.IsSignificant();
  }
}
