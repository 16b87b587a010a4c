/**
 * The scenario value-pattern classifier: a fixed table of patterns, each
 * with the option ids that count as evidence for it, and a vote that names
 * the pattern with the most matching selections.
 *
 * The store calls that save and fetch the selections and the profile update
 * are not part of this model.
 */
module ValueService {

  /** One saved scenario answer. Only `optionId` is ever inspected. */
  datatype Selection = Selection(scenarioId: string, optionId: string)

  /** A row of the evidence table: a pattern name and the option ids that vote for it. */
  datatype Pattern = Pattern(name: string, evidence: seq<string>)

  /** A pattern together with how many selections voted for it. */
  datatype PatternCount = PatternCount(pattern: string, matchCount: nat)

  /** The evidence table, in declaration order; the order decides ties. */
  const Patterns: seq<Pattern> := [
    Pattern("empathetic", ["1b", "2c", "3c"]),
    Pattern("ambitious", ["1a", "2a", "3a"]),
    Pattern("balanced", ["1c", "2b", "3b"])
  ]

  /** Every label the classifier can return. */
  const Labels: set<string> := {"Empathetic", "Ambitious", "Balanced", "Undefined"}

  /** The number of selections whose option id is in `evidence`; duplicates each count. */
  function MatchCount(selections: seq<Selection>, evidence: seq<string>): (n: nat)
    ensures n <= |selections|
    decreases |selections|
  {
    if |selections| == 0 then 0
    else
      var last := selections[|selections| - 1];
      MatchCount(selections[..|selections| - 1], evidence) + (if last.optionId in evidence then 1 else 0)
  }

  /** One count per table row, in table order. */
  function Counts(selections: seq<Selection>): (counts: seq<PatternCount>)
    ensures |counts| == |Patterns|
    ensures forall i :: 0 <= i < |counts| ==> counts[i].pattern == Patterns[i].name && counts[i].matchCount <= |selections|
  {
    seq(|Patterns|, i requires 0 <= i < |Patterns| =>
      PatternCount(Patterns[i].name, MatchCount(selections, Patterns[i].evidence)))
  }

  /**
   * The row a stable descending sort of the counts puts first: the
   * earliest row whose count is the maximum.
   */
  function FirstMax(counts: seq<PatternCount>): (w: nat)
    requires |counts| > 0
    ensures w < |counts|
    ensures forall j :: 0 <= j < |counts| ==> counts[j].matchCount <= counts[w].matchCount
    ensures forall j :: 0 <= j < w ==> counts[j].matchCount < counts[w].matchCount
    decreases |counts|
  {
    if |counts| == 1 then 0
    else
      var w := FirstMax(counts[..|counts| - 1]);
      if counts[|counts| - 1].matchCount > counts[w].matchCount then |counts| - 1 else w
  }

  /** `charAt(0).toUpperCase() + slice(1)` for ASCII letters. */
  function Capitalize(s: string): (r: string)
    ensures |r| == |s|
    ensures |s| > 0 ==> r[1..] == s[1..]
    ensures |s| > 0 ==> ('a' <= s[0] <= 'z' ==> 'A' <= r[0] <= 'Z') && (r[0] == s[0] <==> !('a' <= s[0] <= 'z'))
  {
    if |s| == 0 then s
    else [if 'a' <= s[0] <= 'z' then (s[0] as int - 32) as char else s[0]] + s[1..]
  }

  /** The classifier: the capitalised winner of the vote, or "Undefined" when nothing matched. */
  function DetermineValuePattern(selections: seq<Selection>): (valuePattern: string)
    ensures valuePattern in Labels
  {
    var counts := Counts(selections);
    if |counts| > 0 && counts[FirstMax(counts)].matchCount > 0 then
      CapitalizedNames();
      Capitalize(counts[FirstMax(counts)].pattern)
    else "Undefined"
  }

  lemma CapitalizedNames()
    ensures Capitalize(Patterns[0].name) == "Empathetic"
    ensures Capitalize(Patterns[1].name) == "Ambitious"
    ensures Capitalize(Patterns[2].name) == "Balanced"
  {
  }

  // ---------------------------------------------------------------------------
  // Properties
  // ---------------------------------------------------------------------------

  /**
   * Whatever stable descending sort is used, its first entry is FirstMax:
   * `order` lists the row indices as the sort arranges them.
   */
  lemma StableSortPutsFirstMaxFirst(counts: seq<PatternCount>, order: seq<nat>)
    requires |counts| > 0 && |order| == |counts|
    requires forall k :: 0 <= k < |counts| ==> k in order
    requires forall i :: 0 <= i < |order| ==> order[i] < |counts|
    requires forall i, j :: 0 <= i < j < |order| ==> counts[order[i]].matchCount >= counts[order[j]].matchCount
    requires forall i, j :: 0 <= i < j < |order| && counts[order[i]].matchCount == counts[order[j]].matchCount
               ==> order[i] < order[j]
    ensures order[0] == FirstMax(counts)
  {
    var w := FirstMax(counts);
    assert w in order;
    var p :| 0 <= p < |order| && order[p] == w;
    // The first entry is at least as large as w's, hence equal to the maximum;
    // stability then puts it no later than w, and FirstMax puts nothing equal before w.
    assert counts[order[0]].matchCount == counts[w].matchCount;
    assert order[0] <= w;
  }

  /** A pattern's count is positive exactly when some selection is evidence for it. */
  lemma {:induction false} MatchCountPositive(selections: seq<Selection>, evidence: seq<string>)
    ensures MatchCount(selections, evidence) > 0 <==> exists i :: 0 <= i < |selections| && selections[i].optionId in evidence
  {
    MatchCountCountsPositions(selections, evidence);
    var positions := set i | 0 <= i < |selections| && selections[i].optionId in evidence;
    if exists i :: 0 <= i < |selections| && selections[i].optionId in evidence {
      var i :| 0 <= i < |selections| && selections[i].optionId in evidence;
      assert i in positions;
    }
  }

  /** The count is the number of positions holding a matching selection, so duplicates each add one. */
  lemma {:induction false} MatchCountCountsPositions(selections: seq<Selection>, evidence: seq<string>)
    ensures MatchCount(selections, evidence) == |set i | 0 <= i < |selections| && selections[i].optionId in evidence|
    decreases |selections|
  {
    if |selections| > 0 {
      var n := |selections| - 1;
      var init := selections[..n];
      MatchCountCountsPositions(init, evidence);
      var before := set i | 0 <= i < |init| && init[i].optionId in evidence;
      var after := set i | 0 <= i < |selections| && selections[i].optionId in evidence;
      if selections[n].optionId in evidence {
        assert after == before + {n};
        assert n !in before;
      } else {
        assert after == before;
      }
    }
  }

  /** "Undefined" comes out exactly when no selection is evidence for any pattern. */
  lemma UndefinedIffNoEvidence(selections: seq<Selection>)
    ensures DetermineValuePattern(selections) == "Undefined" <==>
      forall i, p :: 0 <= i < |selections| && 0 <= p < |Patterns| ==> selections[i].optionId !in Patterns[p].evidence
  {
    var counts := Counts(selections);
    var w := FirstMax(counts);
    CapitalizedNames();
    forall p | 0 <= p < |Patterns|
      ensures counts[p].matchCount > 0 <==> exists i :: 0 <= i < |selections| && selections[i].optionId in Patterns[p].evidence
    {
      MatchCountPositive(selections, Patterns[p].evidence);
    }
  }

  /**
   * A named result is the earliest-declared pattern among those with the
   * highest count, and that count is positive.
   */
  lemma WinnerIsFirstMaximum(selections: seq<Selection>, w: nat)
    requires w < |Patterns|
    requires DetermineValuePattern(selections) == Capitalize(Patterns[w].name)
    ensures MatchCount(selections, Patterns[w].evidence) > 0
    ensures forall j :: 0 <= j < |Patterns| ==> MatchCount(selections, Patterns[j].evidence) <= MatchCount(selections, Patterns[w].evidence)
    ensures forall j :: 0 <= j < w ==> MatchCount(selections, Patterns[j].evidence) < MatchCount(selections, Patterns[w].evidence)
  {
    CapitalizedNames();
    var counts := Counts(selections);
    assert FirstMax(counts) == w;
  }

  /** Conversely, the earliest pattern with the highest positive count is the one named. */
  lemma FirstMaximumIsWinner(selections: seq<Selection>, w: nat)
    requires w < |Patterns|
    requires MatchCount(selections, Patterns[w].evidence) > 0
    requires forall j :: 0 <= j < |Patterns| ==> MatchCount(selections, Patterns[j].evidence) <= MatchCount(selections, Patterns[w].evidence)
    requires forall j :: 0 <= j < w ==> MatchCount(selections, Patterns[j].evidence) < MatchCount(selections, Patterns[w].evidence)
    ensures DetermineValuePattern(selections) == Capitalize(Patterns[w].name)
  {
    var counts := Counts(selections);
    var v := FirstMax(counts);
    assert counts[v].matchCount == counts[w].matchCount;
  }

  /** Scenario ids play no part: selections with the same option ids give the same label. */
  lemma {:induction false} ScenarioIdsIgnored(s1: seq<Selection>, s2: seq<Selection>)
    requires |s1| == |s2|
    requires forall i :: 0 <= i < |s1| ==> s1[i].optionId == s2[i].optionId
    ensures DetermineValuePattern(s1) == DetermineValuePattern(s2)
  {
    forall p | 0 <= p < |Patterns|
      ensures MatchCount(s1, Patterns[p].evidence) == MatchCount(s2, Patterns[p].evidence)
    {
      SameOptionsSameCount(s1, s2, Patterns[p].evidence);
    }
    assert Counts(s1) == Counts(s2);
  }

  lemma {:induction false} SameOptionsSameCount(s1: seq<Selection>, s2: seq<Selection>, evidence: seq<string>)
    requires |s1| == |s2|
    requires forall i :: 0 <= i < |s1| ==> s1[i].optionId == s2[i].optionId
    ensures MatchCount(s1, evidence) == MatchCount(s2, evidence)
    decreases |s1|
  {
    if |s1| > 0 {
      SameOptionsSameCount(s1[..|s1| - 1], s2[..|s2| - 1], evidence);
    }
  }

  /** Choosing the "a" option in all three scenarios is read as ambitious. */
  lemma AllFirstOptionsAreAmbitious()
    ensures DetermineValuePattern([Selection("1", "1a"), Selection("2", "2a"), Selection("3", "3a")]) == "Ambitious"
  {
    var s := [Selection("1", "1a"), Selection("2", "2a"), Selection("3", "3a")];
    assert s[..2] == [Selection("1", "1a"), Selection("2", "2a")];
    assert s[..2][..1] == [Selection("1", "1a")];
    forall p | 0 <= p < |Patterns|
      ensures MatchCount(s, Patterns[p].evidence) == (if p == 1 then 3 else 0)
    {
      assert MatchCount(s[..2][..1], Patterns[p].evidence) == (if p == 1 then 1 else 0);
      assert MatchCount(s[..2], Patterns[p].evidence) == (if p == 1 then 2 else 0);
    }
    FirstMaximumIsWinner(s, 1);
    CapitalizedNames();
  }

  /** One vote each for empathetic and ambitious: the earlier-declared empathetic wins the tie. */
  lemma TieGoesToEarlierPattern()
    ensures DetermineValuePattern([Selection("1", "1b"), Selection("2", "2a")]) == "Empathetic"
    ensures DetermineValuePattern([Selection("1", "1c"), Selection("2", "2a")]) == "Ambitious"
  {
    var s := [Selection("1", "1b"), Selection("2", "2a")];
    assert MatchCount(s, Patterns[0].evidence) == 1;
    assert MatchCount(s, Patterns[1].evidence) == 1;
    assert MatchCount(s, Patterns[2].evidence) == 0;
    FirstMaximumIsWinner(s, 0);
    var t := [Selection("1", "1c"), Selection("2", "2a")];
    assert MatchCount(t, Patterns[0].evidence) == 0;
    assert MatchCount(t, Patterns[1].evidence) == 1;
    assert MatchCount(t, Patterns[2].evidence) == 1;
    FirstMaximumIsWinner(t, 1);
    CapitalizedNames();
  }
}
