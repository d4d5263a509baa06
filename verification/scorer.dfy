/**
 The heuristic privacy-policy scorer (`analyze_with_ollama` in main.py): eight
 fixed parameters with default ratings, six keyword rules that each overwrite
 one rating when any of their keywords occurs in the lower-cased text, the mean
 rounded to one decimal, and a report with constant names and explanations.
 */
module Scorer {
  import opened Text
  import opened Rounding

  /** The eight dimensions a policy is rated on, in report order. */
  datatype Parameter =
    | DataCollection
    | DataUsage
    | DataSharing
    | DataSelling
    | OptOut
    | Security
    | Deletion
    | Clarity

  const Parameters: seq<Parameter> :=
    [DataCollection, DataUsage, DataSharing, DataSelling, OptOut, Security, Deletion, Clarity]

  /** Position of a parameter in the report. */
  function Index(p: Parameter): (i: nat)
    ensures i < |Parameters| && Parameters[i] == p
  {
    match p
    case DataCollection => 0
    case DataUsage => 1
    case DataSharing => 2
    case DataSelling => 3
    case OptOut => 4
    case Security => 5
    case Deletion => 6
    case Clarity => 7
  }

  /** The rating a parameter has before any rule fires: 3, except Data Selling and Opt-Out, which start at 2. */
  function Default(p: Parameter): (d: int)
    ensures 2 <= d <= 3
    ensures d == 2 <==> p == DataSelling || p == OptOut
  {
    match p
    case DataCollection => 3
    case DataUsage => 3
    case DataSharing => 3
    case DataSelling => 2
    case OptOut => 2
    case Security => 3
    case Deletion => 3
    case Clarity => 3
  }

  datatype Option<T> = None | Some(value: T)

  /** The `parameter` string the report carries for each dimension. */
  function Name(p: Parameter): string {
    match p
    case DataCollection => "Data Collection"
    case DataUsage => "Data Usage"
    case DataSharing => "Data Sharing with Third Parties"
    case DataSelling => "Data Selling to Third Parties"
    case OptOut => "Opt-Out Options for Data Sharing"
    case Security => "Data Security"
    case Deletion => "Data Deletion"
    case Clarity => "Policy Clarity"
  }

  /** The dimension a report entry's `parameter` string names, if it names one. */
  function NamedParameter(name: string): Option<Parameter> {
    if name == "Data Collection" then Some(DataCollection)
    else if name == "Data Usage" then Some(DataUsage)
    else if name == "Data Sharing with Third Parties" then Some(DataSharing)
    else if name == "Data Selling to Third Parties" then Some(DataSelling)
    else if name == "Opt-Out Options for Data Sharing" then Some(OptOut)
    else if name == "Data Security" then Some(Security)
    else if name == "Data Deletion" then Some(Deletion)
    else if name == "Policy Clarity" then Some(Clarity)
    else None
  }

  /** Each dimension's `parameter` string names that dimension and no other, so the dimension can be read back from it. */
  lemma NameRoundTrip(p: Parameter)
    ensures NamedParameter(Name(p)) == Some(p)
  {
  }

  /** A string names a dimension exactly when it is that dimension's `parameter` string. */
  lemma NamedParameterInverse(name: string, p: Parameter)
    ensures NamedParameter(name) == Some(p) <==> name == Name(p)
  {
  }

  /** The fixed `explanation` string of each dimension; it never depends on the rating. */
  function Explanation(p: Parameter): string
  {
    match p
    case DataCollection => "How much aur kis type ka data collect hota hai."
    case DataUsage => "Collected data ko kis purpose ke liye use karte hain."
    case DataSharing => "Kya data third-party companies ke saath share hota hai."
    case DataSelling => "Kya company aapka data bech sakti hai."
    case OptOut => "Kya user ke paas opt-out / unsubscribe options available hain."
    case Security => "Security measures jaise encryption, access control, etc."
    case Deletion => "User apna data delete ya account remove kar sakta hai ya nahi."
    case Clarity => "Policy simple, clear language me likhi hai ya nahi."
  }

  const FinalExplanation: string := "Overall privacy safety ka average score."

  /** A keyword rule: when any keyword occurs in the lower-cased text, `target` is set to `override`. */
  datatype Rule = Rule(keywords: seq<string>, target: Parameter, override: int)

  const SharingWords: seq<string> := ["share", "third party", "partners"]
  const SellingWords: seq<string> := ["sell", "sold", "sale of data"]
  const SecurityWords: seq<string> := ["encrypt", "encryption", "secure"]
  const DeletionWords: seq<string> := ["delete", "erasure", "remove"]
  const OptOutWords: seq<string> := ["consent", "opt-out", "unsubscribe"]
  const ClarityWords: seq<string> := ["clear", "simple", "plain language"]

  /** The six rules, in the order the source applies them. */
  const Rules: seq<Rule> := [
    Rule(SharingWords, DataSharing, 2),
    Rule(SellingWords, DataSelling, 1),
    Rule(SecurityWords, Security, 4),
    Rule(DeletionWords, Deletion, 4),
    Rule(OptOutWords, OptOut, 4),
    Rule(ClarityWords, Clarity, 4)
  ]

  /** The source's inner `has`, applied to one rule. */
  function Fires(rule: Rule, lowered: string): (b: bool)
    ensures b <==> exists i :: 0 <= i < |rule.keywords| && Occurs(rule.keywords[i], lowered)
  {
    ContainsAny(rule.keywords, lowered)
  }

  /** Runs the rules in order over the running rating of `p`; a firing rule for `p` overwrites it. */
  function Apply(rules: seq<Rule>, p: Parameter, lowered: string, current: int): int
    decreases |rules|
  {
    if rules == [] then current
    else
      var next := if rules[0].target == p && Fires(rules[0], lowered) then rules[0].override else current;
      Apply(rules[1..], p, lowered, next)
  }

  /**
   When no rule for `p` fires, the fold leaves the starting value; otherwise it
   leaves the override of a firing rule for `p`.
   */
  lemma {:induction false} ApplyOutcome(rules: seq<Rule>, p: Parameter, lowered: string, current: int)
    ensures (forall k :: 0 <= k < |rules| && rules[k].target == p ==> !Fires(rules[k], lowered)) ==>
      Apply(rules, p, lowered, current) == current
    ensures Apply(rules, p, lowered, current) == current ||
      exists k :: 0 <= k < |rules| && rules[k].target == p && Fires(rules[k], lowered) &&
        Apply(rules, p, lowered, current) == rules[k].override
    decreases |rules|
  {
    if rules != [] {
      var next := if rules[0].target == p && Fires(rules[0], lowered) then rules[0].override else current;
      var tail := rules[1..];
      assert forall k :: 0 <= k < |tail| ==> tail[k] == rules[k + 1];
      ApplyOutcome(tail, p, lowered, next);
    }
  }

  /** Rule `k` is a rule for `p` that fires, and no later rule for `p` fires. */
  ghost predicate LastFiring(rules: seq<Rule>, p: Parameter, lowered: string, k: int) {
    && 0 <= k < |rules| && rules[k].target == p && Fires(rules[k], lowered)
    && forall j :: k < j < |rules| && rules[j].target == p ==> !Fires(rules[j], lowered)
  }

  /** The last firing rule for `p` decides the rating: its override is what the fold leaves behind. */
  lemma {:induction false} ApplyLastFiring(rules: seq<Rule>, p: Parameter, lowered: string, current: int, k: int)
    requires LastFiring(rules, p, lowered, k)
    ensures Apply(rules, p, lowered, current) == rules[k].override
    decreases |rules|
  {
    var next := if rules[0].target == p && Fires(rules[0], lowered) then rules[0].override else current;
    var tail := rules[1..];
    if k == 0 {
      assert forall j :: 0 <= j < |tail| && tail[j].target == p ==> !Fires(tail[j], lowered) by {
        forall j | 0 <= j < |tail| && tail[j].target == p
          ensures !Fires(tail[j], lowered)
        {
          assert tail[j] == rules[j + 1];
        }
      }
      ApplyOutcome(tail, p, lowered, next);
    } else {
      assert LastFiring(tail, p, lowered, k - 1) by {
        assert tail[k - 1] == rules[k];
        forall j | k - 1 < j < |tail| && tail[j].target == p
          ensures !Fires(tail[j], lowered)
        {
          assert tail[j] == rules[j + 1];
        }
      }
      ApplyLastFiring(tail, p, lowered, next, k - 1);
    }
  }

  /** No two rules of a table share a target. */
  predicate DistinctTargets(rules: seq<Rule>) {
    forall j, k :: 0 <= j < k < |rules| ==> rules[j].target != rules[k].target
  }

  /**
   When every parameter is the target of at most one rule, running the rules in
   order is the same as looking up that one rule: the rating is its override if
   it fires and the starting value otherwise; an untargeted parameter keeps it.
   */
  lemma {:induction false} ApplyDistinct(rules: seq<Rule>, p: Parameter, lowered: string, current: int)
    requires DistinctTargets(rules)
    ensures forall k :: 0 <= k < |rules| && rules[k].target == p ==>
      Apply(rules, p, lowered, current) == (if Fires(rules[k], lowered) then rules[k].override else current)
    ensures (forall k :: 0 <= k < |rules| ==> rules[k].target != p) ==>
      Apply(rules, p, lowered, current) == current
  {
    if rules != [] {
      var next := if rules[0].target == p && Fires(rules[0], lowered) then rules[0].override else current;
      var tail := rules[1..];
      assert DistinctTargets(tail) by {
        forall j, k | 0 <= j < k < |tail|
          ensures tail[j].target != tail[k].target
        {
          assert tail[j] == rules[j + 1] && tail[k] == rules[k + 1];
        }
      }
      ApplyDistinct(tail, p, lowered, next);
      if rules[0].target == p {
        // The head is the only rule for p, so nothing in the tail touches `next`.
        assert forall k :: 0 <= k < |tail| ==> tail[k].target != p by {
          forall k | 0 <= k < |tail|
            ensures tail[k].target != p
          {
            assert tail[k] == rules[k + 1];
          }
        }
      } else {
        forall k | 0 <= k < |rules| && rules[k].target == p
          ensures Apply(rules, p, lowered, current) == (if Fires(rules[k], lowered) then rules[k].override else current)
        {
          assert k > 0 && tail[k - 1] == rules[k];
        }
        if forall k :: 0 <= k < |rules| ==> rules[k].target != p {
          assert forall k :: 0 <= k < |tail| ==> tail[k].target != p by {
            forall k | 0 <= k < |tail|
              ensures tail[k].target != p
            {
              assert tail[k] == rules[k + 1];
            }
          }
        }
      }
    }
  }

  /** The rating of `p` for text already lower-cased: the defaults overwritten by the rule table. */
  function RatingOf(p: Parameter, lowered: string): int {
    Apply(Rules, p, lowered, Default(p))
  }

  /** A rating is its default or the override of a firing rule for its parameter. */
  lemma {:induction false} RatingOfOutcome(p: Parameter, lowered: string)
    ensures RatingOf(p, lowered) == Default(p) ||
      exists k :: 0 <= k < |Rules| && Rules[k].target == p && Fires(Rules[k], lowered) &&
        RatingOf(p, lowered) == Rules[k].override
  {
    ApplyOutcome(Rules, p, lowered, Default(p));
  }

  /** One `{"parameter", "rating", "explanation"}` entry of the report. */
  datatype Entry = Entry(parameter: string, rating: int, explanation: string)

  /** The `final_rating` object; the rating is a whole number of tenths. */
  datatype FinalRating = FinalRating(tenths: int, explanation: string)

  datatype Report = Report(ratings: seq<Entry>, finalRating: FinalRating)

  /** `sum(all_ratings)`: the ratings of the entries added up. */
  function SumRatings(entries: seq<Entry>): int {
    if entries == [] then 0 else entries[0].rating + SumRatings(entries[1..])
  }

  /** Ratings in 1..4 give a sum between `n` and `4 * n`, for `n` entries. */
  lemma {:induction false} SumRatingsBounds(entries: seq<Entry>)
    requires forall i :: 0 <= i < |entries| ==> 1 <= entries[i].rating <= 4
    ensures |entries| <= SumRatings(entries) <= 4 * |entries|
  {
    if entries != [] {
      assert forall i :: 0 <= i < |entries| - 1 ==> entries[1..][i] == entries[i + 1];
      SumRatingsBounds(entries[1..]);
    }
  }

  /** `analyze_with_ollama`: scores a policy text. Total: every string, the empty one included, gets a report. */
  function Score(text: string): (r: Report)
    ensures |r.ratings| == |Parameters|
    ensures forall i :: 0 <= i < |Parameters| ==>
      r.ratings[i].parameter == Name(Parameters[i]) && r.ratings[i].explanation == Explanation(Parameters[i])
    ensures r.finalRating.explanation == FinalExplanation
    ensures NearestEven(10 * SumRatings(r.ratings), RatingCount, r.finalRating.tenths)
  {
    var lowered := Lower(text);
    var entries := seq(|Parameters|, i requires 0 <= i < |Parameters| =>
      Entry(Name(Parameters[i]), RatingOf(Parameters[i], lowered), Explanation(Parameters[i])));
    Report(entries, FinalRating(FinalTenths(SumRatings(entries)), FinalExplanation))
  }

  /**
   Only the ratings depend on the policy text: any two reports carry the same
   names and explanations in the same order, and the same final explanation.
   */
  lemma ReportTextIsFixed(a: string, b: string)
    ensures |Score(a).ratings| == |Score(b).ratings| == 8
    ensures forall i :: 0 <= i < 8 ==>
      Score(a).ratings[i].parameter == Score(b).ratings[i].parameter &&
      Score(a).ratings[i].explanation == Score(b).ratings[i].explanation
    ensures Score(a).finalRating.explanation == Score(b).finalRating.explanation
  {
  }

  /** The rating a report gives one parameter. */
  function RatingIn(r: Report, p: Parameter): int
    requires |r.ratings| == |Parameters|
  {
    r.ratings[Index(p)].rating
  }

  /** The table, entry by entry. */
  lemma RulesTable()
    ensures |Rules| == 6
    ensures Rules[0] == Rule(SharingWords, DataSharing, 2)
    ensures Rules[1] == Rule(SellingWords, DataSelling, 1)
    ensures Rules[2] == Rule(SecurityWords, Security, 4)
    ensures Rules[3] == Rule(DeletionWords, Deletion, 4)
    ensures Rules[4] == Rule(OptOutWords, OptOut, 4)
    ensures Rules[5] == Rule(ClarityWords, Clarity, 4)
  {
  }

  /**
   Each rule governs its own parameter, Data Collection and Data Usage are
   governed by none, and every rule moves its rating away from the default.
   */
  lemma RulesHaveDistinctTargets()
    ensures DistinctTargets(Rules)
    ensures forall k :: 0 <= k < |Rules| ==> Rules[k].target != DataCollection && Rules[k].target != DataUsage
    ensures forall k :: 0 <= k < |Rules| ==> Rules[k].override != Default(Rules[k].target)
  {
  }

  /** The rating of `p` is the override of the rule for `p` when it fires, and the default otherwise. */
  lemma {:induction false} RatingOfRule(k: nat, lowered: string)
    requires k < |Rules|
    ensures RatingOf(Rules[k].target, lowered) ==
      (if Fires(Rules[k], lowered) then Rules[k].override else Default(Rules[k].target))
  {
    RulesHaveDistinctTargets();
    ApplyDistinct(Rules, Rules[k].target, lowered, Default(Rules[k].target));
  }

  /** A parameter no rule targets keeps its default. */
  lemma {:induction false} RatingOfUntargeted(p: Parameter, lowered: string)
    requires forall k :: 0 <= k < |Rules| ==> Rules[k].target != p
    ensures RatingOf(p, lowered) == Default(p)
  {
    RulesHaveDistinctTargets();
    ApplyDistinct(Rules, p, lowered, Default(p));
  }

  /** Some keyword of a three-word group occurs in `l`. */
  ghost predicate AnyOf3(words: seq<string>, l: string)
    requires |words| == 3
  {
    Occurs(words[0], l) || Occurs(words[1], l) || Occurs(words[2], l)
  }

  /** A rule with a three-word group fires exactly when one of its three keywords occurs. */
  lemma {:induction false} FiresThree(rule: Rule, lowered: string)
    requires |rule.keywords| == 3
    ensures Fires(rule, lowered) <==> AnyOf3(rule.keywords, lowered)
  {
    if Fires(rule, lowered) {
      var i :| 0 <= i < 3 && Occurs(rule.keywords[i], lowered);
      assert i == 0 || i == 1 || i == 2;
    }
  }

  /** The report carries, for each parameter, the rule-table rating of the lower-cased text. */
  lemma ScoreRating(text: string, p: Parameter)
    ensures RatingIn(Score(text), p) == RatingOf(p, Lower(text))
  {
  }

  /** Every rating in the report is the rule-table rating of the lower-cased text. */
  lemma {:induction false} ScoreRatings(text: string)
    ensures forall p: Parameter :: RatingIn(Score(text), p) == RatingOf(p, Lower(text))
  {
    forall p: Parameter
      ensures RatingIn(Score(text), p) == RatingOf(p, Lower(text))
    {
      ScoreRating(text, p);
    }
  }

  /** The rating a rule governs, with its keyword group spelled out. */
  lemma {:induction false} RuleRating(lowered: string, k: nat)
    requires k < |Rules|
    ensures |Rules[k].keywords| == 3
    ensures RatingOf(Rules[k].target, lowered) ==
      (if AnyOf3(Rules[k].keywords, lowered) then Rules[k].override else Default(Rules[k].target))
  {
    var rule := Rules[k];
    assert |rule.keywords| == 3;
    RatingOfRule(k, lowered);
    FiresThree(rule, lowered);
  }

  /** The Data Sharing, Data Selling and Data Security ratings. */
  lemma {:induction false} SharingSellingSecurity(lowered: string)
    ensures RatingOf(DataSharing, lowered) == (if AnyOf3(SharingWords, lowered) then 2 else 3)
    ensures RatingOf(DataSelling, lowered) == (if AnyOf3(SellingWords, lowered) then 1 else 2)
    ensures RatingOf(Security, lowered) == (if AnyOf3(SecurityWords, lowered) then 4 else 3)
  {
    RulesTable();
    RuleRating(lowered, 0);
    RuleRating(lowered, 1);
    RuleRating(lowered, 2);
  }

  /** The Data Deletion, Opt-Out and Policy Clarity ratings. */
  lemma {:induction false} DeletionOptOutClarity(lowered: string)
    ensures RatingOf(Deletion, lowered) == (if AnyOf3(DeletionWords, lowered) then 4 else 3)
    ensures RatingOf(OptOut, lowered) == (if AnyOf3(OptOutWords, lowered) then 4 else 2)
    ensures RatingOf(Clarity, lowered) == (if AnyOf3(ClarityWords, lowered) then 4 else 3)
  {
    RulesTable();
    RuleRating(lowered, 3);
    RuleRating(lowered, 4);
    RuleRating(lowered, 5);
  }

  /** A report whose ratings are the rule-table ratings of `l`, keyword group by keyword group. */
  lemma {:induction false} ReportFollowsRules(r: Report, l: string)
    requires |r.ratings| == |Parameters|
    requires forall p: Parameter :: RatingIn(r, p) == RatingOf(p, l)
    ensures RatingIn(r, DataCollection) == 3
    ensures RatingIn(r, DataUsage) == 3
    ensures RatingIn(r, DataSharing) == (if AnyOf3(SharingWords, l) then 2 else 3)
    ensures RatingIn(r, DataSelling) == (if AnyOf3(SellingWords, l) then 1 else 2)
    ensures RatingIn(r, Security) == (if AnyOf3(SecurityWords, l) then 4 else 3)
    ensures RatingIn(r, Deletion) == (if AnyOf3(DeletionWords, l) then 4 else 3)
    ensures RatingIn(r, OptOut) == (if AnyOf3(OptOutWords, l) then 4 else 2)
    ensures RatingIn(r, Clarity) == (if AnyOf3(ClarityWords, l) then 4 else 3)
  {
    RatingOfUntargeted(DataCollection, l);
    RatingOfUntargeted(DataUsage, l);
    SharingSellingSecurity(l);
    DeletionOptOutClarity(l);
  }

  /**
   Each rating, keyword group by keyword group: Data Collection and Data Usage
   are always 3; every other rating is its rule's override exactly when one of
   the group's keywords occurs in the lower-cased text, and its default otherwise.
   */
  lemma {:induction false} RatingsFollowRules(text: string)
    ensures RatingIn(Score(text), DataCollection) == 3
    ensures RatingIn(Score(text), DataUsage) == 3
    ensures RatingIn(Score(text), DataSharing) == (if AnyOf3(SharingWords, Lower(text)) then 2 else 3)
    ensures RatingIn(Score(text), DataSelling) == (if AnyOf3(SellingWords, Lower(text)) then 1 else 2)
    ensures RatingIn(Score(text), Security) == (if AnyOf3(SecurityWords, Lower(text)) then 4 else 3)
    ensures RatingIn(Score(text), Deletion) == (if AnyOf3(DeletionWords, Lower(text)) then 4 else 3)
    ensures RatingIn(Score(text), OptOut) == (if AnyOf3(OptOutWords, Lower(text)) then 4 else 2)
    ensures RatingIn(Score(text), Clarity) == (if AnyOf3(ClarityWords, Lower(text)) then 4 else 3)
  {
    ScoreRatings(text);
    ReportFollowsRules(Score(text), Lower(text));
  }

  /** The sum of an eight-entry report, written out. */
  lemma {:induction false} SumOfEight(e: seq<Entry>)
    requires |e| == 8
    ensures SumRatings(e) ==
      e[0].rating + e[1].rating + e[2].rating + e[3].rating + e[4].rating + e[5].rating + e[6].rating + e[7].rating
  {
    var e1, e2, e3, e4 := e[1..], e[2..], e[3..], e[4..];
    var e5, e6, e7, e8 := e[5..], e[6..], e[7..], e[8..];
    assert e1[1..] == e2 && e2[1..] == e3 && e3[1..] == e4 && e4[1..] == e5;
    assert e5[1..] == e6 && e6[1..] == e7 && e7[1..] == e8 && e8 == [];
    assert e1[0] == e[1] && e2[0] == e[2] && e3[0] == e[3] && e4[0] == e[4];
    assert e5[0] == e[5] && e6[0] == e[6] && e7[0] == e[7];
    assert SumRatings(e) == e[0].rating + SumRatings(e1);
    assert SumRatings(e1) == e[1].rating + SumRatings(e2);
    assert SumRatings(e2) == e[2].rating + SumRatings(e3);
    assert SumRatings(e3) == e[3].rating + SumRatings(e4);
    assert SumRatings(e4) == e[4].rating + SumRatings(e5);
    assert SumRatings(e5) == e[5].rating + SumRatings(e6);
    assert SumRatings(e6) == e[6].rating + SumRatings(e7);
    assert SumRatings(e7) == e[7].rating + SumRatings(e8);
  }

  /** The range each rating can take, given the two values its rule chooses between. */
  lemma {:induction false} RatingRanges(text: string)
    ensures RatingIn(Score(text), DataCollection) == 3 && RatingIn(Score(text), DataUsage) == 3
    ensures 2 <= RatingIn(Score(text), DataSharing) <= 3 && 1 <= RatingIn(Score(text), DataSelling) <= 2
    ensures 3 <= RatingIn(Score(text), Security) <= 4 && 3 <= RatingIn(Score(text), Deletion) <= 4
    ensures 2 <= RatingIn(Score(text), OptOut) <= 4 && 3 <= RatingIn(Score(text), Clarity) <= 4
  {
    RatingsFollowRules(text);
  }

  lemma {:induction false} RatingsBetweenOneAndFour(text: string)
    ensures forall p: Parameter :: 1 <= RatingIn(Score(text), p) <= 4
  {
    RatingRanges(text);
    forall p: Parameter
      ensures 1 <= RatingIn(Score(text), p) <= 4
    {
      match p
      case DataCollection =>
      case DataUsage =>
      case DataSharing =>
      case DataSelling =>
      case OptOut =>
      case Security =>
      case Deletion =>
      case Clarity =>
    }
  }

  /**
   Every rating is in {1, 2, 3, 4}, and the eight of them add up to between 20
   (every rule that lowers a rating fires, none that raises one does) and 27
   (the opposite), so the final rating lies between 2.5 and 3.4.
   */
  lemma {:induction false} RatingBounds(text: string)
    ensures forall p: Parameter :: 1 <= RatingIn(Score(text), p) <= 4
    ensures 20 <= SumRatings(Score(text).ratings) <= 27
    ensures 25 <= Score(text).finalRating.tenths <= 34
  {
    var r := Score(text);
    RatingRanges(text);
    RatingsBetweenOneAndFour(text);
    SumOfEight(r.ratings);
    FinalTenthsRange(SumRatings(r.ratings));
  }

  /**
   The final rating is the mean of the eight reported ratings rounded to one
   decimal, ties to the even tenth: it is the unique value within half a tenth
   of the mean, and the even one when the mean lies exactly halfway.
   */
  lemma {:induction false} FinalRatingIsRoundedMean(text: string, tenths: int)
    ensures NearestEven(10 * SumRatings(Score(text).ratings), |Score(text).ratings|, tenths)
      <==> tenths == Score(text).finalRating.tenths
  {
    var r := Score(text);
    if NearestEven(10 * SumRatings(r.ratings), |r.ratings|, tenths) {
      NearestEvenUnique(10 * SumRatings(r.ratings), |r.ratings|, tenths, r.finalRating.tenths);
    }
  }

  /** None of the eighteen keywords occurs in the lower-cased text. */
  ghost predicate MentionsNoKeyword(text: string) {
    var l := Lower(text);
    && !AnyOf3(SharingWords, l) && !AnyOf3(SellingWords, l) && !AnyOf3(SecurityWords, l)
    && !AnyOf3(DeletionWords, l) && !AnyOf3(OptOutWords, l) && !AnyOf3(ClarityWords, l)
  }

  /**
   Text with none of the eighteen keywords keeps every default
   (3, 3, 3, 2, 2, 3, 3, 3): the sum is 22, the mean 2.75 is a tie, and the
   final rating rounds to the even tenth, 2.8.
   */
  lemma {:induction false} NoKeywordsGivesDefaults(text: string)
    requires MentionsNoKeyword(text)
    ensures forall p: Parameter :: RatingIn(Score(text), p) == Default(p)
    ensures SumRatings(Score(text).ratings) == 22
    ensures Score(text).finalRating.tenths == 28
  {
    var r := Score(text);
    RatingsFollowRules(text);
    forall p: Parameter
      ensures RatingIn(r, p) == Default(p)
    {
      match p
      case DataCollection =>
      case DataUsage =>
      case DataSharing =>
      case DataSelling =>
      case OptOut =>
      case Security =>
      case Deletion =>
      case Clarity =>
    }
    SumOfEight(r.ratings);
    FinalTenthsTable();
  }

  /** Texts with the same lower-case form get the same report. */
  lemma SameLowerFormSameReport(a: string, b: string)
    requires Lower(a) == Lower(b)
    ensures Score(a) == Score(b)
  {
  }

  /** Case does not matter: a text, its upper-cased and its lower-cased forms get the same report. */
  lemma {:induction false} CaseInsensitive(text: string)
    ensures Score(Upper(text)) == Score(text)
    ensures Score(Lower(text)) == Score(text)
  {
    LowerOfUpper(text);
    LowerIdempotent(text);
  }

  /** A rule that fires on some text fires on every text containing it. */
  lemma {:induction false} FiresMonotone(rule: Rule, t: string, t': string)
    requires Occurs(t, t')
    requires Fires(rule, Lower(t))
    ensures Fires(rule, Lower(t'))
  {
    var i :| 0 <= i < |rule.keywords| && Occurs(rule.keywords[i], Lower(t));
    OccursLower(t, t');
    OccursTransitive(rule.keywords[i], Lower(t), Lower(t'));
  }

  /**
   Adding text never withdraws a rule: every rule that fires on `t` fires on a
   text `t'` containing it, so each rating of `t'` is either the rating of `t`
   or the override of the rule governing it.
   */
  lemma {:induction false} MoreTextFiresMoreRules(t: string, t': string)
    requires Occurs(t, t')
    ensures forall k :: 0 <= k < |Rules| && Fires(Rules[k], Lower(t)) ==> Fires(Rules[k], Lower(t'))
    ensures forall k :: 0 <= k < |Rules| ==>
      RatingIn(Score(t'), Rules[k].target) == RatingIn(Score(t), Rules[k].target) ||
      RatingIn(Score(t'), Rules[k].target) == Rules[k].override
    ensures forall p: Parameter :: p in {DataCollection, DataUsage} ==> RatingIn(Score(t'), p) == RatingIn(Score(t), p)
  {
    forall k | 0 <= k < |Rules| && Fires(Rules[k], Lower(t))
      ensures Fires(Rules[k], Lower(t'))
    {
      FiresMonotone(Rules[k], t, t');
    }
    forall k | 0 <= k < |Rules|
      ensures RatingIn(Score(t'), Rules[k].target) == RatingIn(Score(t), Rules[k].target) ||
              RatingIn(Score(t'), Rules[k].target) == Rules[k].override
    {
      ScoreRating(t, Rules[k].target);
      ScoreRating(t', Rules[k].target);
      RatingOfRule(k, Lower(t));
      RatingOfRule(k, Lower(t'));
      if Fires(Rules[k], Lower(t)) {
        FiresMonotone(Rules[k], t, t');
      }
    }
    RatingsFollowRules(t);
    RatingsFollowRules(t');
  }

  /** Appending text to a policy only ever moves ratings to their rules' overrides. */
  lemma {:induction false} AppendingFiresMoreRules(t: string, u: string)
    ensures forall k :: 0 <= k < |Rules| && Fires(Rules[k], Lower(t)) ==> Fires(Rules[k], Lower(t + u))
    ensures forall k :: 0 <= k < |Rules| ==>
      RatingIn(Score(t + u), Rules[k].target) == RatingIn(Score(t), Rules[k].target) ||
      RatingIn(Score(t + u), Rules[k].target) == Rules[k].override
  {
    OccursInAppend(t, u);
    MoreTextFiresMoreRules(t, t + u);
  }
}
