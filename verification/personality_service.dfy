/**
 * The computational part of the personality service: turning a user's
 * question responses into a normalised trait map, and scoring two users'
 * trait maps against each other.
 *
 * The store queries that fetch the responses and the answer options are not
 * part of this model; their results are the inputs of the operations below.
 */
module PersonalityService {
  import opened JsMath

  type OptionId = string
  type TraitTag = string

  /** The two columns of an answer option that the option query selects. */
  datatype OptionTrait = OptionTrait(id: OptionId, traitValue: TraitTag)

  /** One saved answer: the chosen option and how important it is (1 to 10 on the slider). */
  datatype UserResponse = UserResponse(questionId: string, optionId: OptionId, importance: int)

  /** Running totals kept per trait while the responses are walked. */
  datatype Tally = Tally(score: int, count: nat)

  // ---------------------------------------------------------------------------
  // Option lookup: option id -> trait tag
  // ---------------------------------------------------------------------------

  /** The lookup the `reduce` builds: each option writes its tag, so a later row with the same id wins. */
  function OptionTraits(options: seq<OptionTrait>): map<OptionId, TraitTag>
    decreases |options|
  {
    if |options| == 0 then map[]
    else
      var last := options[|options| - 1];
      OptionTraits(options[..|options| - 1])[last.id := last.traitValue]
  }

  /** An id is in the lookup iff some option row carries it, and it maps to the tag of the last such row. */
  lemma {:induction false} OptionTraitsLastWins(options: seq<OptionTrait>, id: OptionId)
    ensures id in OptionTraits(options) <==> exists i :: 0 <= i < |options| && options[i].id == id
    ensures id in OptionTraits(options) ==>
      exists i :: 0 <= i < |options| && options[i].id == id &&
        OptionTraits(options)[id] == options[i].traitValue &&
        forall j :: i < j < |options| ==> options[j].id != id
    decreases |options|
  {
    if |options| > 0 {
      var n := |options|;
      var init, last := options[..n - 1], options[n - 1];
      assert OptionTraits(options) == OptionTraits(init)[last.id := last.traitValue];
      if last.id == id {
        assert OptionTraits(options)[id] == options[n - 1].traitValue;
      } else {
        OptionTraitsLastWins(init, id);
        assert forall i :: 0 <= i < n - 1 ==> init[i] == options[i];
        assert id in OptionTraits(options) <==> id in OptionTraits(init);
        if exists i :: 0 <= i < n && options[i].id == id {
          var i :| 0 <= i < n && options[i].id == id;
          assert init[i].id == id;
        }
        if id in OptionTraits(options) {
          var i :| 0 <= i < |init| && init[i].id == id &&
            OptionTraits(init)[id] == init[i].traitValue &&
            forall j :: i < j < |init| ==> init[j].id != id;
          assert OptionTraits(options)[id] == options[i].traitValue;
        }
      }
    }
  }

  /** Builds the option lookup row by row, as the `reduce` over the fetched options does. */
  method BuildOptionTraits(options: seq<OptionTrait>) returns (lookup: map<OptionId, TraitTag>)
    ensures lookup == OptionTraits(options)
  {
    lookup := map[];
    for i := 0 to |options|
      invariant lookup == OptionTraits(options[..i])
    {
      assert options[..i + 1][..i] == options[..i];
      lookup := lookup[options[i].id := options[i].traitValue];
    }
    assert options[..|options|] == options;
  }

  // ---------------------------------------------------------------------------
  // Aggregation: per-trait sum of importances and number of responses
  // ---------------------------------------------------------------------------

  /**
   * A response contributes to `tag` when its option resolves, through the
   * lookup, to that tag. A missing option and an empty tag are both falsy
   * in the source and contribute to nothing.
   */
  predicate Resolves(r: UserResponse, lookup: map<OptionId, TraitTag>, tag: TraitTag)
  {
    r.optionId in lookup && lookup[r.optionId] == tag && tag != ""
  }

  function Plus(x: Tally, y: Tally): Tally
  {
    Tally(x.score + y.score, x.count + y.count)
  }

  /** What one response adds to the totals of `tag`. */
  function Entry(r: UserResponse, lookup: map<OptionId, TraitTag>, tag: TraitTag): Tally
  {
    if Resolves(r, lookup, tag) then Tally(r.importance, 1) else Tally(0, 0)
  }

  /** The totals of `tag` over a sequence of responses. */
  function TallyOf(rs: seq<UserResponse>, lookup: map<OptionId, TraitTag>, tag: TraitTag): Tally
    decreases |rs|
  {
    if |rs| == 0 then Tally(0, 0)
    else Plus(TallyOf(rs[..|rs| - 1], lookup, tag), Entry(rs[|rs| - 1], lookup, tag))
  }

  /**
   * Walks the responses once, creating a trait's totals on its first
   * resolved response and adding importance and one occurrence on each.
   */
  method AggregateTraits(responses: seq<UserResponse>, lookup: map<OptionId, TraitTag>)
    returns (traits: map<TraitTag, Tally>)
    ensures forall tag :: tag in traits <==> TallyOf(responses, lookup, tag).count > 0
    ensures forall tag :: tag in traits ==> traits[tag] == TallyOf(responses, lookup, tag)
  {
    traits := map[];
    for i := 0 to |responses|
      invariant forall tag :: tag in traits ==> traits[tag] == TallyOf(responses[..i], lookup, tag) && traits[tag].count > 0
      invariant forall tag :: tag !in traits ==> TallyOf(responses[..i], lookup, tag) == Tally(0, 0)
    {
      var response := responses[i];
      var traitValue := if response.optionId in lookup then lookup[response.optionId] else "";
      if traitValue != "" {
        if traitValue !in traits {
          traits := traits[traitValue := Tally(0, 0)];
        }
        var data := traits[traitValue];
        traits := traits[traitValue := Tally(data.score + response.importance, data.count + 1)];
      }
      forall tag
        ensures tag in traits ==> traits[tag] == TallyOf(responses[..i + 1], lookup, tag) && traits[tag].count > 0
        ensures tag !in traits ==> TallyOf(responses[..i + 1], lookup, tag) == Tally(0, 0)
      {
        TallyStep(responses, i, lookup, tag);
        if tag != traitValue || tag == "" {
          assert Entry(response, lookup, tag) == Tally(0, 0);
        }
      }
    }
    assert responses[..|responses|] == responses;
  }

  /** Extending a prefix by one response adds that response's entry. */
  lemma TallyStep(rs: seq<UserResponse>, i: nat, lookup: map<OptionId, TraitTag>, tag: TraitTag)
    requires i < |rs|
    ensures TallyOf(rs[..i + 1], lookup, tag) == Plus(TallyOf(rs[..i], lookup, tag), Entry(rs[i], lookup, tag))
  {
    assert rs[..i + 1][..i] == rs[..i];
  }

  // ---------------------------------------------------------------------------
  // Normalisation: round(score / (count * 10) * 100)
  // ---------------------------------------------------------------------------

  /** The normalised score of one trait: 10 * score / count, rounded half up. */
  function Score(t: Tally): (r: int)
    requires t.count > 0
    ensures t.count * (2 * r - 1) <= 20 * t.score < t.count * (2 * r + 1)
  {
    var r := RoundDiv(t.score * 100, t.count * 10);
    assert 10 * (t.count * (2 * r - 1)) <= 10 * (20 * t.score) < 10 * (t.count * (2 * r + 1));
    r
  }

  /** Fills the normalised map entry by entry, as the loop over `Object.entries(traits)` does. */
  method NormalizeTraits(traits: map<TraitTag, Tally>) returns (normalized: map<TraitTag, int>)
    requires forall tag :: tag in traits ==> traits[tag].count > 0
    ensures normalized.Keys == traits.Keys
    ensures forall tag :: tag in normalized ==> normalized[tag] == Score(traits[tag])
  {
    normalized := map[];
    var pending := traits.Keys;
    while pending != {}
      invariant pending <= traits.Keys
      invariant normalized.Keys == traits.Keys - pending
      invariant forall tag :: tag in normalized ==> normalized[tag] == Score(traits[tag])
      decreases pending
    {
      var tag :| tag in pending;
      normalized := normalized[tag := Score(traits[tag])];
      pending := pending - {tag};
    }
  }

  /** The trait map a response set determines: one entry per tag resolved by at least one response. */
  function TraitScores(rs: seq<UserResponse>, lookup: map<OptionId, TraitTag>): map<TraitTag, int>
  {
    map tag | tag in lookup.Values && TallyOf(rs, lookup, tag).count > 0 :: Score(TallyOf(rs, lookup, tag))
  }

  /**
   * The whole of trait calculation once the responses and their options have
   * been fetched: no responses give the empty map, otherwise the lookup is
   * built, the responses are aggregated and the totals normalised.
   */
  method CalculatePersonalityTraits(responses: seq<UserResponse>, options: seq<OptionTrait>)
    returns (traits: map<TraitTag, int>)
    ensures traits == TraitScores(responses, OptionTraits(options))
  {
    if |responses| == 0 {
      assert forall tag :: TallyOf(responses, OptionTraits(options), tag).count == 0;
      return map[];
    }
    var lookup := BuildOptionTraits(options);
    var tallies := AggregateTraits(responses, lookup);
    traits := NormalizeTraits(tallies);
    forall tag | TallyOf(responses, lookup, tag).count > 0
      ensures tag in lookup.Values
    {
      TallyResolved(responses, lookup, tag);
    }
  }

  // ---------------------------------------------------------------------------
  // Properties of the trait scores
  // ---------------------------------------------------------------------------

  /** A tag has a non-zero count exactly when some response resolves to it. */
  lemma {:induction false} TallyCountPositive(rs: seq<UserResponse>, lookup: map<OptionId, TraitTag>, tag: TraitTag)
    ensures TallyOf(rs, lookup, tag).count > 0 <==> exists i :: 0 <= i < |rs| && Resolves(rs[i], lookup, tag)
    decreases |rs|
  {
    if |rs| > 0 {
      var init := rs[..|rs| - 1];
      TallyCountPositive(init, lookup, tag);
      if exists i :: 0 <= i < |init| && Resolves(init[i], lookup, tag) {
        var i :| 0 <= i < |init| && Resolves(init[i], lookup, tag);
        assert rs[i] == init[i];
      }
      if exists i :: 0 <= i < |rs| && Resolves(rs[i], lookup, tag) {
        var i :| 0 <= i < |rs| && Resolves(rs[i], lookup, tag);
        if i < |rs| - 1 {
          assert init[i] == rs[i];
        }
      }
    }
  }

  /** A tag with a non-zero count is one of the lookup's tags. */
  lemma TallyResolved(rs: seq<UserResponse>, lookup: map<OptionId, TraitTag>, tag: TraitTag)
    requires TallyOf(rs, lookup, tag).count > 0
    ensures tag in lookup.Values && tag != ""
  {
    TallyCountPositive(rs, lookup, tag);
    var i :| 0 <= i < |rs| && Resolves(rs[i], lookup, tag);
    assert lookup[rs[i].optionId] == tag;
  }

  /** The keys of the trait map are exactly the tags resolved from at least one response. */
  lemma TraitScoresKeys(rs: seq<UserResponse>, lookup: map<OptionId, TraitTag>, tag: TraitTag)
    ensures tag in TraitScores(rs, lookup) <==> exists i :: 0 <= i < |rs| && Resolves(rs[i], lookup, tag)
  {
    TallyCountPositive(rs, lookup, tag);
    if TallyOf(rs, lookup, tag).count > 0 {
      TallyResolved(rs, lookup, tag);
    }
  }

  /** No responses, no traits. */
  lemma EmptyResponsesGiveEmptyMap(lookup: map<OptionId, TraitTag>)
    ensures TraitScores([], lookup) == map[]
  {
    assert forall tag :: TallyOf([], lookup, tag).count == 0;
  }

  /** Totals distribute over concatenation. */
  lemma {:induction false} TallyAppend(a: seq<UserResponse>, b: seq<UserResponse>, lookup: map<OptionId, TraitTag>, tag: TraitTag)
    ensures TallyOf(a + b, lookup, tag) == Plus(TallyOf(a, lookup, tag), TallyOf(b, lookup, tag))
    decreases |b|
  {
    if |b| == 0 {
      assert a + b == a;
    } else {
      var b' := b[..|b| - 1];
      var last := b[|b| - 1];
      assert (a + b)[..|a + b| - 1] == a + b';
      assert (a + b)[|a + b| - 1] == last;
      calc {
        TallyOf(a + b, lookup, tag);
        Plus(TallyOf(a + b', lookup, tag), Entry(last, lookup, tag));
        { TallyAppend(a, b', lookup, tag); }
        Plus(Plus(TallyOf(a, lookup, tag), TallyOf(b', lookup, tag)), Entry(last, lookup, tag));
      }
    }
  }

  /** Totals depend only on the multiset of responses, not on their order. */
  lemma {:induction false} TallyPermutation(a: seq<UserResponse>, b: seq<UserResponse>, lookup: map<OptionId, TraitTag>, tag: TraitTag)
    requires multiset(a) == multiset(b)
    ensures TallyOf(a, lookup, tag) == TallyOf(b, lookup, tag)
    decreases |a|
  {
    if |a| == 0 {
      assert |b| == |multiset(b)| == 0;
    } else {
      var x := a[|a| - 1];
      var a' := a[..|a| - 1];
      assert x in multiset(b);
      var j :| 0 <= j < |b| && b[j] == x;
      var front, back := b[..j], b[j + 1..];
      RemoveMatching(a, b, j);
      TallyPermutation(a', front + back, lookup, tag);
      calc {
        TallyOf(b, lookup, tag);
        { InsertedTally(front, x, back, lookup, tag); }
        Plus(TallyOf(front + back, lookup, tag), Entry(x, lookup, tag));
        Plus(TallyOf(a', lookup, tag), Entry(x, lookup, tag));
        TallyOf(a, lookup, tag);
      }
    }
  }

  /** Taking the last element of `a` and one equal element out of `b` keeps the multisets equal. */
  lemma RemoveMatching<T>(a: seq<T>, b: seq<T>, j: nat)
    requires multiset(a) == multiset(b)
    requires |a| > 0 && j < |b| && b[j] == a[|a| - 1]
    ensures b == b[..j] + [b[j]] + b[j + 1..]
    ensures a == a[..|a| - 1] + [a[|a| - 1]]
    ensures multiset(a[..|a| - 1]) == multiset(b[..j] + b[j + 1..])
  {
    var x := b[j];
    var a', front, back := a[..|a| - 1], b[..j], b[j + 1..];
    assert a == a' + [x];
    assert b == front + [x] + back;
    assert multiset(a) == multiset(a') + multiset{x};
    assert multiset(b) == multiset(front + back) + multiset{x} by {
      assert multiset(b) == multiset(front) + multiset{x} + multiset(back);
      assert multiset(front + back) == multiset(front) + multiset(back);
    }
    assert multiset(a') == multiset(a) - multiset{x};
    assert multiset(front + back) == multiset(b) - multiset{x};
  }

  lemma SingleTally(x: UserResponse, lookup: map<OptionId, TraitTag>, tag: TraitTag)
    ensures TallyOf([x], lookup, tag) == Entry(x, lookup, tag)
  {
    assert [x][..0] == [];
  }

  /** Recomputing the trait map on a reordering of the same responses gives the same map. */
  lemma TraitScoresOrderIndependent(a: seq<UserResponse>, b: seq<UserResponse>, lookup: map<OptionId, TraitTag>)
    requires multiset(a) == multiset(b)
    ensures TraitScores(a, lookup) == TraitScores(b, lookup)
  {
    forall tag
      ensures TallyOf(a, lookup, tag) == TallyOf(b, lookup, tag)
    {
      TallyPermutation(a, b, lookup, tag);
    }
    SameTalliesSameScores(a, b, lookup);
  }

  /** A response whose option does not resolve to a non-empty tag changes nothing, wherever it sits. */
  lemma UnresolvedResponseIgnored(rs: seq<UserResponse>, i: nat, r: UserResponse, lookup: map<OptionId, TraitTag>)
    requires i <= |rs|
    requires r.optionId !in lookup || lookup[r.optionId] == ""
    ensures TraitScores(rs[..i] + [r] + rs[i..], lookup) == TraitScores(rs, lookup)
  {
    var front, back := rs[..i], rs[i..];
    assert front + back == rs;
    forall tag
      ensures TallyOf(front + [r] + back, lookup, tag) == TallyOf(rs, lookup, tag)
    {
      InsertedTally(front, r, back, lookup, tag);
    }
    SameTalliesSameScores(front + [r] + back, rs, lookup);
  }

  /** Inserting a response adds exactly its entry to the totals. */
  lemma InsertedTally(front: seq<UserResponse>, r: UserResponse, back: seq<UserResponse>, lookup: map<OptionId, TraitTag>, tag: TraitTag)
    ensures TallyOf(front + [r] + back, lookup, tag) == Plus(TallyOf(front + back, lookup, tag), Entry(r, lookup, tag))
  {
    var e := Entry(r, lookup, tag);
    var f, b := TallyOf(front, lookup, tag), TallyOf(back, lookup, tag);
    calc {
      TallyOf(front + [r] + back, lookup, tag);
      { TallyAppend(front + [r], back, lookup, tag); }
      Plus(TallyOf(front + [r], lookup, tag), b);
      { TallyAppend(front, [r], lookup, tag); SingleTally(r, lookup, tag); }
      Plus(Plus(f, e), b);
      Plus(Plus(f, b), e);
      { TallyAppend(front, back, lookup, tag); }
      Plus(TallyOf(front + back, lookup, tag), e);
    }
  }

  /** The trait map is determined by the per-tag totals. */
  lemma SameTalliesSameScores(a: seq<UserResponse>, b: seq<UserResponse>, lookup: map<OptionId, TraitTag>)
    requires forall tag :: TallyOf(a, lookup, tag) == TallyOf(b, lookup, tag)
    ensures TraitScores(a, lookup) == TraitScores(b, lookup)
  {
    var ma, mb := TraitScores(a, lookup), TraitScores(b, lookup);
    assert ma.Keys == mb.Keys;
    forall tag | tag in ma
      ensures ma[tag] == mb[tag]
    {
    }
  }

  /** Each trait score is 10 * (sum of importances) / (number of responses), rounded half up. */
  lemma TraitScoreIsRoundedMean(rs: seq<UserResponse>, lookup: map<OptionId, TraitTag>, tag: TraitTag)
    requires tag in TraitScores(rs, lookup)
    ensures TallyOf(rs, lookup, tag).count > 0
    ensures TraitScores(rs, lookup)[tag] == RoundDiv(10 * TallyOf(rs, lookup, tag).score, TallyOf(rs, lookup, tag).count)
  {
    var t := TallyOf(rs, lookup, tag);
    RoundDivUnique(10 * t.score, t.count, Score(t));
  }

  /** With importances in [1, 10], the totals lie between count and 10 * count. */
  lemma {:induction false} TallyBounds(rs: seq<UserResponse>, lookup: map<OptionId, TraitTag>, tag: TraitTag)
    requires forall i :: 0 <= i < |rs| ==> 1 <= rs[i].importance <= 10
    ensures TallyOf(rs, lookup, tag).count <= TallyOf(rs, lookup, tag).score <= 10 * TallyOf(rs, lookup, tag).count
    decreases |rs|
  {
    if |rs| > 0 {
      TallyBounds(rs[..|rs| - 1], lookup, tag);
    }
  }

  /** A mean importance in [1, 10] normalises to a score in [10, 100]. */
  lemma ScoreRange(t: Tally)
    requires t.count > 0
    requires t.count <= t.score <= 10 * t.count
    ensures 10 <= Score(t) <= 100
  {
    var r := Score(t);
    if r < 10 {
      MulMonotone(t.count, 2 * r + 1, 19);
    }
    if r > 100 {
      MulMonotone(t.count, 201, 2 * r - 1);
    }
  }

  /** If the slider's range holds for every response, every trait score lies in [10, 100]. */
  lemma TraitScoresInRange(rs: seq<UserResponse>, lookup: map<OptionId, TraitTag>)
    requires forall i :: 0 <= i < |rs| ==> 1 <= rs[i].importance <= 10
    ensures forall tag :: tag in TraitScores(rs, lookup) ==> 10 <= TraitScores(rs, lookup)[tag] <= 100
  {
    forall tag | tag in TraitScores(rs, lookup)
      ensures 10 <= TraitScores(rs, lookup)[tag] <= 100
    {
      TallyBounds(rs, lookup, tag);
      ScoreRange(TallyOf(rs, lookup, tag));
    }
  }

  /** A single answer scores ten times its importance: importance 10 gives 100, importance 1 gives 10. */
  lemma SingleResponseScore(r: UserResponse, lookup: map<OptionId, TraitTag>)
    requires r.optionId in lookup && lookup[r.optionId] != ""
    ensures TraitScores([r], lookup) == map[lookup[r.optionId] := 10 * r.importance]
  {
    var tag := lookup[r.optionId];
    forall t | t != tag
      ensures TallyOf([r], lookup, t).count == 0
    {
      SingleTally(r, lookup, t);
    }
    SingleTally(r, lookup, tag);
    ExactMeanScore(Tally(r.importance, 1), 10 * r.importance);
    OnlyTag([r], lookup, tag);
  }

  /** Two answers on one trait score five times their summed importances: {10, 2} gives 60. */
  lemma TwoResponsesScore(r1: UserResponse, r2: UserResponse, lookup: map<OptionId, TraitTag>)
    requires r1.optionId in lookup && lookup[r1.optionId] != ""
    requires r2.optionId in lookup && lookup[r2.optionId] == lookup[r1.optionId]
    ensures TraitScores([r1, r2], lookup) == map[lookup[r1.optionId] := 5 * (r1.importance + r2.importance)]
  {
    var tag := lookup[r1.optionId];
    var rs := [r1, r2];
    assert rs[..1] == [r1];
    forall t
      ensures TallyOf(rs, lookup, t) == Plus(Entry(r1, lookup, t), Entry(r2, lookup, t))
    {
      SingleTally(r1, lookup, t);
    }
    assert TallyOf(rs, lookup, tag) == Tally(r1.importance + r2.importance, 2);
    ExactMeanScore(Tally(r1.importance + r2.importance, 2), 5 * (r1.importance + r2.importance));
    OnlyTag(rs, lookup, tag);
  }

  /** When 10 * score / count is a whole number, the score is exactly that number. */
  lemma ExactMeanScore(t: Tally, k: int)
    requires t.count > 0
    requires 10 * t.score == k * t.count
    ensures Score(t) == k
  {
    var n, d := t.score * 100, t.count * 10;
    assert 2 * n == d * (2 * k);
    RoundDivUnique(n, d, k);
  }

  /** A trait map with one resolved tag is the singleton map of that tag's score. */
  lemma OnlyTag(rs: seq<UserResponse>, lookup: map<OptionId, TraitTag>, tag: TraitTag)
    requires TallyOf(rs, lookup, tag).count > 0
    requires forall t :: t != tag ==> TallyOf(rs, lookup, t).count == 0
    ensures TraitScores(rs, lookup) == map[tag := Score(TallyOf(rs, lookup, tag))]
  {
    TallyResolved(rs, lookup, tag);
  }

  // ---------------------------------------------------------------------------
  // Compatibility between two trait maps
  // ---------------------------------------------------------------------------

  /** `traits[tag] || 0`: a trait missing from a map counts as 0. */
  function ValueOf(traits: map<TraitTag, int>, tag: TraitTag): (value: int)
    ensures tag !in traits ==> value == 0
    ensures (forall t :: t in traits ==> 0 <= traits[t] <= 100) ==> 0 <= value <= 100
  {
    if tag in traits then traits[tag] else 0
  }

  /** The two running sums of the scorer: achieved (weighted similarity) and possible (weight times 100). */
  datatype Sum = Achieved | Possible

  /** How close the two scores are: 100 minus their distance. */
  function Similarity(u: int, v: int): (s: int)
    ensures s <= 100
    ensures s == 100 <==> u == v
    ensures 0 <= u <= 100 && 0 <= v <= 100 ==> 0 <= s
  {
    100 - Abs(u - v)
  }

  /**
   * What one trait adds to the chosen sum: the similarity, or 100, times the
   * weight (the mean of the two scores). The weight is a half-integer, so
   * the product is written as an integer product halved.
   */
  function Term(a: map<TraitTag, int>, b: map<TraitTag, int>, tag: TraitTag, sum: Sum): (t: real)
    ensures ValueOf(a, tag) == 0 && ValueOf(b, tag) == 0 ==> t == 0.0
    ensures sum.Achieved? && ValueOf(a, tag) == ValueOf(b, tag) ==> t == (100 * ValueOf(a, tag)) as real
  {
    var u, v := ValueOf(a, tag), ValueOf(b, tag);
    match sum
    case Achieved => (Similarity(u, v) * (u + v)) as real / 2.0
    case Possible => (100 * (u + v)) as real / 2.0
  }

  /** The chosen sum over a set of traits. */
  ghost function SumOver(a: map<TraitTag, int>, b: map<TraitTag, int>, tags: set<TraitTag>, sum: Sum): real
    decreases tags
  {
    if tags == {} then 0.0
    else
      var tag :| tag in tags;
      Term(a, b, tag, sum) + SumOver(a, b, tags - {tag}, sum)
  }

  /**
   * The compatibility of two trait maps: 0.5 when either is empty or no
   * weight is possible, otherwise achieved over possible across the union
   * of their traits.
   */
  ghost function Compatibility(a: map<TraitTag, int>, b: map<TraitTag, int>): real
  {
    if |a| == 0 || |b| == 0 then 0.5
    else
      var possible := SumOver(a, b, a.Keys + b.Keys, Possible);
      if possible > 0.0 then SumOver(a, b, a.Keys + b.Keys, Achieved) / possible else 0.5
  }

  /**
   * Accumulates both sums trait by trait over the union of the two maps'
   * keys and normalises. The guard on an empty union in the source can
   * never fire once both maps are non-empty, so it has no counterpart here.
   */
  method CalculateCompatibility(userTraits: map<TraitTag, int>, otherUserTraits: map<TraitTag, int>)
    returns (compatibility: real)
    ensures |userTraits| == 0 || |otherUserTraits| == 0 ==> compatibility == 0.5
    ensures compatibility == Compatibility(userTraits, otherUserTraits)
  {
    if |userTraits| == 0 || |otherUserTraits| == 0 {
      return 0.5;
    }
    var allTraits := userTraits.Keys + otherUserTraits.Keys;
    var compatibilityScore, maxPossibleScore := 0.0, 0.0;
    var pending := allTraits;
    while pending != {}
      invariant pending <= allTraits
      invariant compatibilityScore == SumOver(userTraits, otherUserTraits, allTraits - pending, Achieved)
      invariant maxPossibleScore == SumOver(userTraits, otherUserTraits, allTraits - pending, Possible)
      decreases pending
    {
      var tag :| tag in pending;
      var userValue := ValueOf(userTraits, tag);
      var otherValue := ValueOf(otherUserTraits, tag);
      var similarity := Similarity(userValue, otherValue);
      // similarity * traitImportance and 100 * traitImportance, where
      // traitImportance = (userValue + otherValue) / 2
      ghost var done := allTraits - pending;
      SumOverAdd(userTraits, otherUserTraits, done, tag, Achieved);
      SumOverAdd(userTraits, otherUserTraits, done, tag, Possible);
      compatibilityScore := compatibilityScore + (similarity * (userValue + otherValue)) as real / 2.0;
      maxPossibleScore := maxPossibleScore + (100 * (userValue + otherValue)) as real / 2.0;
      assert allTraits - (pending - {tag}) == done + {tag};
      pending := pending - {tag};
    }
    assert allTraits - pending == allTraits;
    compatibility := if maxPossibleScore > 0.0 then compatibilityScore / maxPossibleScore else 0.5;
  }

  /** Any element can be taken out of a sum first, whichever one the definition happened to pick. */
  lemma SumOverRemove(a: map<TraitTag, int>, b: map<TraitTag, int>, tags: set<TraitTag>, tag: TraitTag, sum: Sum)
    requires tag in tags
    ensures SumOver(a, b, tags, sum) == Term(a, b, tag, sum) + SumOver(a, b, tags - {tag}, sum)
    decreases tags
  {
    var picked :| picked in tags && SumOver(a, b, tags, sum) == Term(a, b, picked, sum) + SumOver(a, b, tags - {picked}, sum);
    if picked != tag {
      calc {
        SumOver(a, b, tags, sum);
        Term(a, b, picked, sum) + SumOver(a, b, tags - {picked}, sum);
        { SumOverRemove(a, b, tags - {picked}, tag, sum); }
        Term(a, b, picked, sum) + Term(a, b, tag, sum) + SumOver(a, b, tags - {picked} - {tag}, sum);
        { assert tags - {picked} - {tag} == tags - {tag} - {picked};
          SumOverRemove(a, b, tags - {tag}, picked, sum); }
        Term(a, b, tag, sum) + SumOver(a, b, tags - {tag}, sum);
      }
    }
  }

  /** Adding a new trait to the set adds its term. */
  lemma SumOverAdd(a: map<TraitTag, int>, b: map<TraitTag, int>, tags: set<TraitTag>, tag: TraitTag, sum: Sum)
    requires tag !in tags
    ensures SumOver(a, b, tags + {tag}, sum) == SumOver(a, b, tags, sum) + Term(a, b, tag, sum)
  {
    SumOverRemove(a, b, tags + {tag}, tag, sum);
    assert tags + {tag} - {tag} == tags;
  }

  /** Two sums agree when their terms agree trait by trait. */
  lemma {:induction false} SumOverSameTerms(a: map<TraitTag, int>, b: map<TraitTag, int>, sum: Sum,
                                           a': map<TraitTag, int>, b': map<TraitTag, int>, sum': Sum, tags: set<TraitTag>)
    requires forall tag :: tag in tags ==> Term(a, b, tag, sum) == Term(a', b', tag, sum')
    ensures SumOver(a, b, tags, sum) == SumOver(a', b', tags, sum')
    decreases tags
  {
    if tags != {} {
      var tag :| tag in tags;
      SumOverRemove(a, b, tags, tag, sum);
      SumOverRemove(a', b', tags, tag, sum');
      SumOverSameTerms(a, b, sum, a', b', sum', tags - {tag});
    }
  }

  /** Compatibility does not depend on which user is first. */
  lemma CompatibilitySymmetric(a: map<TraitTag, int>, b: map<TraitTag, int>)
    ensures Compatibility(a, b) == Compatibility(b, a)
  {
    assert a.Keys + b.Keys == b.Keys + a.Keys;
    SumOverSameTerms(a, b, Achieved, b, a, Achieved, a.Keys + b.Keys);
    SumOverSameTerms(a, b, Possible, b, a, Possible, a.Keys + b.Keys);
  }

  /** With scores in [0, 100] every term is non-negative and achieved never exceeds possible. */
  lemma {:induction false} SumOverBounds(a: map<TraitTag, int>, b: map<TraitTag, int>, tags: set<TraitTag>)
    requires forall tag :: 0 <= ValueOf(a, tag) <= 100 && 0 <= ValueOf(b, tag) <= 100
    ensures 0.0 <= SumOver(a, b, tags, Achieved) <= SumOver(a, b, tags, Possible)
    decreases tags
  {
    if tags != {} {
      var tag :| tag in tags;
      SumOverRemove(a, b, tags, tag, Achieved);
      SumOverRemove(a, b, tags, tag, Possible);
      SumOverBounds(a, b, tags - {tag});
      TermBounds(a, b, tag);
    }
  }

  lemma TermBounds(a: map<TraitTag, int>, b: map<TraitTag, int>, tag: TraitTag)
    requires 0 <= ValueOf(a, tag) <= 100 && 0 <= ValueOf(b, tag) <= 100
    ensures 0.0 <= Term(a, b, tag, Achieved) <= Term(a, b, tag, Possible)
  {
    SimilarityProductBounds(ValueOf(a, tag), ValueOf(b, tag));
  }

  lemma SimilarityProductBounds(u: int, v: int)
    requires 0 <= u <= 100 && 0 <= v <= 100
    ensures 0 <= Similarity(u, v) * (u + v) <= 100 * (u + v)
  {
    var s := Similarity(u, v);
    assert 0 <= s <= 100;
    if u + v > 0 {
      MulMonotone(u + v, s, 100);
      MulMonotone(u + v, 0, s);
    }
  }

  /** A ratio of 0 <= x <= y with y positive lies in [0, 1]. */
  lemma RatioInUnit(x: real, y: real)
    requires 0.0 <= x <= y && y > 0.0
    ensures 0.0 <= x / y <= 1.0
  {
    assert x / y * y == x;
  }

  /** With all scores in [0, 100] the compatibility lies in [0, 1]. */
  lemma CompatibilityInRange(a: map<TraitTag, int>, b: map<TraitTag, int>)
    requires forall tag :: tag in a ==> 0 <= a[tag] <= 100
    requires forall tag :: tag in b ==> 0 <= b[tag] <= 100
    ensures 0.0 <= Compatibility(a, b) <= 1.0
  {
    if |a| > 0 && |b| > 0 {
      SumOverBounds(a, b, a.Keys + b.Keys);
      var achieved, possible := SumOver(a, b, a.Keys + b.Keys, Achieved), SumOver(a, b, a.Keys + b.Keys, Possible);
      if possible > 0.0 {
        RatioInUnit(achieved, possible);
      }
    }
  }

  /** When every score on both sides is 0, no weight is possible and the result is the neutral 0.5. */
  lemma {:induction false} AllZeroScoresNeutral(a: map<TraitTag, int>, b: map<TraitTag, int>)
    requires forall tag :: tag in a ==> a[tag] == 0
    requires forall tag :: tag in b ==> b[tag] == 0
    ensures Compatibility(a, b) == 0.5
  {
    SumOverSameTerms(a, b, Possible, map[], map[], Possible, a.Keys + b.Keys);
    SumOverSameTerms(map[], map[], Possible, map[], map[], Achieved, a.Keys + b.Keys);
    SumOverBounds(map[], map[], a.Keys + b.Keys);
    ZeroSum(a.Keys + b.Keys);
  }

  /** With no traits on either side every term of the sum is 0. */
  lemma {:induction false} ZeroSum(tags: set<TraitTag>)
    ensures SumOver(map[], map[], tags, Possible) == 0.0
    decreases tags
  {
    if tags != {} {
      var tag :| tag in tags;
      SumOverRemove(map[], map[], tags, tag, Possible);
      ZeroSum(tags - {tag});
    }
  }

  /** A map compared with itself achieves exactly what is possible, trait by trait. */
  lemma SelfSumsAgree(a: map<TraitTag, int>)
    ensures SumOver(a, a, a.Keys, Achieved) == SumOver(a, a, a.Keys, Possible)
  {
    forall tag | tag in a.Keys
      ensures Term(a, a, tag, Achieved) == Term(a, a, tag, Possible)
    {
      var u := ValueOf(a, tag);
      assert Term(a, a, tag, Achieved) == (100 * u) as real;
      assert Term(a, a, tag, Possible) == (100 * (u + u)) as real / 2.0;
    }
    SumOverSameTerms(a, a, Achieved, a, a, Possible, a.Keys);
  }

  /** A map compared with itself scores 1 as soon as some weight is possible. */
  lemma IdenticalMapsFullyCompatible(a: map<TraitTag, int>)
    requires |a| > 0
    requires SumOver(a, a, a.Keys, Possible) > 0.0
    ensures Compatibility(a, a) == 1.0
  {
    assert a.Keys + a.Keys == a.Keys;
    SelfSumsAgree(a);
    DivideBySelf(SumOver(a, a, a.Keys, Possible));
  }

  lemma DivideBySelf(x: real)
    requires x > 0.0
    ensures x / x == 1.0
  {
  }

  /** With non-negative scores and one positive score, some weight is possible. */
  lemma {:induction false} PositiveScoreGivesWeight(a: map<TraitTag, int>, b: map<TraitTag, int>, tags: set<TraitTag>, tag: TraitTag)
    requires forall t :: 0 <= ValueOf(a, t) <= 100 && 0 <= ValueOf(b, t) <= 100
    requires tag in tags && ValueOf(a, tag) > 0
    ensures SumOver(a, b, tags, Possible) > 0.0
  {
    SumOverRemove(a, b, tags, tag, Possible);
    SumOverBounds(a, b, tags - {tag});
  }

  /** Identical non-empty maps with scores in [0, 100], one of them positive, are fully compatible. */
  lemma IdenticalScoresFullyCompatible(a: map<TraitTag, int>, tag: TraitTag)
    requires forall t :: t in a ==> 0 <= a[t] <= 100
    requires tag in a && a[tag] > 0
    ensures Compatibility(a, a) == 1.0
  {
    PositiveScoreGivesWeight(a, a, a.Keys, tag);
    IdenticalMapsFullyCompatible(a);
  }

  /** Opposite scores on a single shared trait, 100 against 0, give compatibility 0. */
  lemma OppositeScoresIncompatible(tag: TraitTag)
    ensures Compatibility(map[tag := 100], map[tag := 0]) == 0.0
  {
    var a, b := map[tag := 100], map[tag := 0];
    assert a.Keys + b.Keys == {tag};
    SumOverRemove(a, b, {tag}, tag, Achieved);
    SumOverRemove(a, b, {tag}, tag, Possible);
    assert {tag} - {tag} == {};
  }

  /** A trait present on one side only is scored as if the other side had it at 0. */
  lemma MissingTraitCountsAsZero(a: map<TraitTag, int>, b: map<TraitTag, int>, tag: TraitTag)
    requires tag in a && tag !in b && |b| > 0
    ensures Compatibility(a, b) == Compatibility(a, b[tag := 0])
  {
    var b' := b[tag := 0];
    assert a.Keys + b'.Keys == a.Keys + b.Keys;
    assert |b'| > 0 by { assert tag in b'; }
    SumOverSameTerms(a, b, Achieved, a, b', Achieved, a.Keys + b.Keys);
    SumOverSameTerms(a, b, Possible, a, b', Possible, a.Keys + b.Keys);
  }

  /** A trait that is 0 on both sides adds nothing to either sum. */
  lemma ZeroTraitContributesNothing(a: map<TraitTag, int>, b: map<TraitTag, int>, tag: TraitTag)
    requires tag !in a && tag !in b && |a| > 0 && |b| > 0
    ensures Compatibility(a[tag := 0], b[tag := 0]) == Compatibility(a, b)
  {
    var a', b' := a[tag := 0], b[tag := 0];
    var keys := a.Keys + b.Keys;
    assert a'.Keys + b'.Keys == keys + {tag};
    assert |a'| > 0 by { assert tag in a'; }
    assert |b'| > 0 by { assert tag in b'; }
    SumOverAdd(a', b', keys, tag, Achieved);
    SumOverAdd(a', b', keys, tag, Possible);
    forall t | t in keys
      ensures ValueOf(a', t) == ValueOf(a, t) && ValueOf(b', t) == ValueOf(b, t)
    {
      assert t != tag;
    }
    forall t, sum | t in keys
      ensures Term(a', b', t, sum) == Term(a, b, t, sum)
    {
    }
    SumOverSameTerms(a', b', Achieved, a, b, Achieved, keys);
    SumOverSameTerms(a', b', Possible, a, b, Possible, keys);
  }
}
