/**
 * The complexity analyzer: the complexity of a test file from its
 * structure, and the cyclomatic complexity of a text as one plus the
 * number of branching tokens in it.
 */
module ComplexityAnalyzer {
  import opened Wrappers
  import opened Text
  import opened ComplexityValue
  import opened TestFileEntity
  import TypeScriptParser

  /** `analyze` on a file's structure: the metrics are its line count and the sizes of its four lists. */
  function AnalyzeIn(s: FileStructure): (c: Complexity)
    ensures 0 <= c.score <= 100
    ensures NewComplexity(c.score, c.level, c.factors) == Ok(c)
  {
    FromMetrics(s.1, |s.4|, |s.5|, |s.3|, |s.6|)
  }

  /** `analyze` */
  function Analyze(tf: TestFile): (c: Complexity)
    reads tf
    ensures 0 <= c.score <= 100
  {
    AnalyzeIn(tf.Structure())
  }

  /** The analyzer computes exactly what the file entity computes and stores for itself. */
  lemma AnalyzeAgreesWithEntity(tf: TestFile)
    ensures Analyze(tf) == tf.CurrentComplexity()
  {
  }

  /** The tokens that each add one branch. */
  const BranchTokens: seq<string> := ["if ", "else ", "switch ", "for ", "while ", "&&", "||"]

  /** The total number of non-overlapping occurrences of each token. */
  function CountTokens(content: string, tokens: seq<string>): nat
    requires forall i :: 0 <= i < |tokens| ==> tokens[i] != []
  {
    if tokens == [] then 0 else Count(content, tokens[0]) + CountTokens(content, tokens[1..])
  }

  /** `calculate_cyclomatic_complexity` */
  function CyclomaticComplexity(content: string): (n: nat)
    ensures n >= 1
  {
    CountTokens(content, BranchTokens) + 1
  }

  /** No token occurs in a text shorter than all of them. */
  lemma {:induction false} NoTokensInEmpty(tokens: seq<string>)
    requires forall i :: 0 <= i < |tokens| ==> tokens[i] != []
    ensures CountTokens("", tokens) == 0
    decreases |tokens|
  {
    if tokens != [] {
      NoTokensInEmpty(tokens[1..]);
    }
  }

  /** The empty text has cyclomatic complexity exactly 1. */
  lemma EmptyIsOne()
    ensures CyclomaticComplexity("") == 1
  {
    NoTokensInEmpty(BranchTokens);
  }

  /** The analyzer and the TypeScript parser compute the same cyclomatic complexity for every text. */
  lemma AgreesWithParser(content: string)
    ensures CyclomaticComplexity(content) == TypeScriptParser.Cyclomatic(content)
  {
    var t := BranchTokens;
    assert CountTokens(content, t[6..]) == Count(content, "||") by {
      assert t[6..][1..] == [];
    }
    assert CountTokens(content, t[5..]) == Count(content, "&&") + CountTokens(content, t[6..]) by {
      assert t[5..][1..] == t[6..];
    }
    assert CountTokens(content, t[4..]) == Count(content, "while ") + CountTokens(content, t[5..]) by {
      assert t[4..][1..] == t[5..];
    }
    assert CountTokens(content, t[3..]) == Count(content, "for ") + CountTokens(content, t[4..]) by {
      assert t[3..][1..] == t[4..];
    }
    assert CountTokens(content, t[2..]) == Count(content, "switch ") + CountTokens(content, t[3..]) by {
      assert t[2..][1..] == t[3..];
    }
    assert CountTokens(content, t[1..]) == Count(content, "else ") + CountTokens(content, t[2..]) by {
      assert t[1..][1..] == t[2..];
    }
  }
}
