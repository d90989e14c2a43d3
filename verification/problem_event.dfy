/**
 * Problem events of the build-event protocol (DefaultProblemEvent): the event record and
 * the flattening of a problem into a string-to-string attribute map.
 */
module ProblemEvents {
  import opened Wrappers

  /** Where a problem was found; both parts may be absent. */
  datatype ProblemLocation = ProblemLocation(path: Option<string>, line: Option<int>)

  /**
   * A reported problem: its id, message, the text of its severity, an optional location,
   * documentation link and description, and its solutions in iteration order.
   */
  datatype Problem = Problem(
    problemId: string,
    message: string,
    severity: string,
    location: Option<ProblemLocation>,
    documentationLink: Option<string>,
    description: Option<string>,
    solutions: seq<string>)

  /**
   * The event record: the constructor stores each argument in its field and each getter
   * returns that field, so the record's fields are its getters.
   */
  datatype ProblemEvent = ProblemEvent(
    problemId: string,
    message: string,
    severity: string,
    path: Option<string>,
    line: Option<int>,
    documentationLink: Option<string>,
    description: Option<string>,
    solutions: seq<string>)
  {
    function DisplayName(): string {
      "Problem kdkdkd"
    }
  }

  // ---------------------------------------------------------------------------
  // Decimal text of integers (Integer.toString)
  // ---------------------------------------------------------------------------

  function DigitChar(d: nat): (c: char)
    requires d < 10
    ensures '0' <= c <= '9'
  {
    ('0' as int + d) as char
  }

  /** The decimal digits of n, most significant first, without leading zeros. */
  function NaturalString(n: nat): (s: string)
    ensures |s| >= 1
    ensures n >= 10 ==> |s| >= 2
    ensures forall c <- s :: '0' <= c <= '9'
  {
    if n < 10 then [DigitChar(n)] else NaturalString(n / 10) + [DigitChar(n % 10)]
  }

  /** The decimal text of an integer, with a leading '-' when it is negative. */
  function IntegerString(n: int): string {
    if n < 0 then "-" + NaturalString(-n) else NaturalString(n)
  }

  /** Different numbers have different decimal texts. */
  lemma {:induction false} NaturalStringInjective(a: nat, b: nat)
    requires NaturalString(a) == NaturalString(b)
    ensures a == b
    decreases a
  {
    if a >= 10 && b >= 10 {
      var sa, sb := NaturalString(a), NaturalString(b);
      assert sa[..|sa| - 1] == NaturalString(a / 10);
      assert sb[..|sb| - 1] == NaturalString(b / 10);
      NaturalStringInjective(a / 10, b / 10);
      assert DigitChar(a % 10) == sa[|sa| - 1] == DigitChar(b % 10);
    }
  }

  /** An integer's text reads back as the integer: the text is a faithful rendering. */
  lemma {:induction false} IntegerStringInjective(a: int, b: int)
    requires IntegerString(a) == IntegerString(b)
    ensures a == b
  {
    if a < 0 && b < 0 {
      assert NaturalString(-a) == IntegerString(a)[1..];
      assert NaturalString(-b) == IntegerString(b)[1..];
      NaturalStringInjective(-a, -b);
    } else if a >= 0 && b >= 0 {
      NaturalStringInjective(a, b);
    } else {
      var nonNegative := if a < 0 then b else a;
      assert NaturalString(nonNegative)[0] in NaturalString(nonNegative);
    }
  }

  // ---------------------------------------------------------------------------
  // createRawAttributes
  // ---------------------------------------------------------------------------

  /** The keys other than the solution keys. */
  const FixedKeys: set<string> := {"id", "message", "severity", "path", "line", "doc", "description"}

  /** The key of the i-th solution (counting from 1). */
  function SolutionKey(i: nat): string {
    "solution" + NaturalString(i)
  }

  lemma SolutionKeyIsNotFixed(i: nat)
    ensures SolutionKey(i) !in FixedKeys
  {
    var k := SolutionKey(i);
    assert |k| >= 9 && k[0] == 's' && k[1] == 'o';
  }

  lemma SolutionKeysDistinct(i: nat, j: nat)
    requires i != j
    ensures SolutionKey(i) != SolutionKey(j)
  {
    if SolutionKey(i) == SolutionKey(j) {
      assert SolutionKey(i)[8..] == NaturalString(i);
      assert SolutionKey(j)[8..] == NaturalString(j);
      NaturalStringInjective(i, j);
    }
  }

  /**
   * createRawAttributes: "id", "message" and "severity" always; "path" and "line" when the
   * problem has a location carrying them; "doc" and "description" when present; then
   * "solution1" .. "solutionN" for the N solutions in order; and no other key.
   */
  method CreateRawAttributes(problem: Problem) returns (attributes: map<string, string>)
    ensures "id" in attributes && attributes["id"] == problem.problemId
    ensures "message" in attributes && attributes["message"] == problem.message
    ensures "severity" in attributes && attributes["severity"] == problem.severity
    ensures "path" in attributes <==> problem.location.Some? && problem.location.value.path.Some?
    ensures "path" in attributes ==> attributes["path"] == problem.location.value.path.value
    ensures "line" in attributes <==> problem.location.Some? && problem.location.value.line.Some?
    ensures "line" in attributes ==> attributes["line"] == IntegerString(problem.location.value.line.value)
    ensures "doc" in attributes <==> problem.documentationLink.Some?
    ensures "doc" in attributes ==> attributes["doc"] == problem.documentationLink.value
    ensures "description" in attributes <==> problem.description.Some?
    ensures "description" in attributes ==> attributes["description"] == problem.description.value
    ensures forall i :: 1 <= i <= |problem.solutions| ==>
      SolutionKey(i) in attributes && attributes[SolutionKey(i)] == problem.solutions[i - 1]
    ensures forall i: nat :: i == 0 || i > |problem.solutions| ==> SolutionKey(i) !in attributes
    ensures forall k <- attributes :: k in FixedKeys || exists i :: 1 <= i <= |problem.solutions| && k == SolutionKey(i)
  {
    attributes := map[];
    attributes := attributes["id" := problem.problemId];
    attributes := attributes["message" := problem.message];
    attributes := attributes["severity" := problem.severity];
    if problem.location.Some? {
      var where := problem.location.value;
      if where.path.Some? {
        attributes := attributes["path" := where.path.value];
      }
      if where.line.Some? {
        attributes := attributes["line" := IntegerString(where.line.value)];
      }
    }
    if problem.documentationLink.Some? {
      attributes := attributes["doc" := problem.documentationLink.value];
    }
    if problem.description.Some? {
      attributes := attributes["description" := problem.description.value];
    }
    ghost var fixed := attributes;
    assert fixed.Keys <= FixedKeys;

    var i := 1;
    for n := 0 to |problem.solutions|
      invariant i == n + 1
      invariant forall k <- fixed :: k in attributes && attributes[k] == fixed[k]
      invariant forall j :: 1 <= j <= n ==>
        SolutionKey(j) in attributes && attributes[SolutionKey(j)] == problem.solutions[j - 1]
      invariant forall k <- attributes :: k in fixed || exists j :: 1 <= j <= n && k == SolutionKey(j)
    {
      SolutionKeyIsNotFixed(i);
      forall j | 1 <= j <= n
        ensures SolutionKey(j) != SolutionKey(i)
      {
        SolutionKeysDistinct(j, i);
      }
      attributes := attributes[SolutionKey(i) := problem.solutions[n]];
      i := i + 1;
    }

    forall j | 1 <= j <= |problem.solutions|
      ensures SolutionKey(j) !in FixedKeys
    {
      SolutionKeyIsNotFixed(j);
    }
    forall j: nat | j == 0 || j > |problem.solutions|
      ensures SolutionKey(j) !in attributes
    {
      SolutionKeyIsNotFixed(j);
      forall m | 1 <= m <= |problem.solutions|
        ensures SolutionKey(j) != SolutionKey(m)
      {
        SolutionKeysDistinct(j, m);
      }
    }
  }
}
