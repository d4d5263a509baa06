/**
 Worked examples: the report the scorer produces for a few concrete policy
 texts, derived from the general model. Absence of a keyword is shown by a
 pair of its neighbouring letters that never stands side by side in the text.
 */
module Scenarios {
  import opened Text
  import opened Rounding
  import opened Scorer

  const Plain: string := "This is a policy document."
  const PlainLower: string := "this is a policy document."

  /** Letter pairs, one from each of the eighteen keywords, that the plain text never contains. */
  const PlainAbsent: set<(char, char)> := {
    ('s', 'h'), ('i', 'r'), ('p', 'a'), ('s', 'e'), ('s', 'o'), ('s', 'a'), ('n', 'c'), ('d', 'e'),
    ('e', 'r'), ('r', 'e'), ('c', 'o'), ('o', 'p'), ('u', 'n'), ('c', 'l'), ('s', 'i'), ('p', 'l')
  }

  lemma PlainLowered()
    ensures Lower(Plain) == PlainLower
  {
  }

  lemma PlainHeadPairsAbsent()
    ensures PairsAbsent("this is a ", PlainAbsent)
  {
  }

  lemma PlainTailPairsAbsent()
    ensures PairsAbsent("policy document.", PlainAbsent)
  {
  }

  lemma PlainPairsAbsent()
    ensures PairsAbsent(PlainLower, PlainAbsent)
  {
    PlainHeadPairsAbsent();
    PlainTailPairsAbsent();
    assert PlainLower == "this is a " + "policy document.";
    PairsAbsentAppend("this is a ", "policy document.", PlainAbsent);
  }

  /** The plain text mentions none of the eighteen keywords. */
  lemma PlainMentionsNoKeyword()
    ensures MentionsNoKeyword(Plain)
  {
    var l := PlainLower;
    PlainLowered();
    PlainPairsAbsent();
    NotOccursByPair("share", l, PlainAbsent, 0);
    NotOccursByPair("third party", l, PlainAbsent, 2);
    NotOccursByPair("partners", l, PlainAbsent, 0);
    NotOccursByPair("sell", l, PlainAbsent, 0);
    NotOccursByPair("sold", l, PlainAbsent, 0);
    NotOccursByPair("sale of data", l, PlainAbsent, 0);
    NotOccursByPair("encrypt", l, PlainAbsent, 1);
    NotOccursByPair("encryption", l, PlainAbsent, 1);
    NotOccursByPair("secure", l, PlainAbsent, 0);
    NotOccursByPair("delete", l, PlainAbsent, 0);
    NotOccursByPair("erasure", l, PlainAbsent, 0);
    NotOccursByPair("remove", l, PlainAbsent, 0);
    NotOccursByPair("consent", l, PlainAbsent, 0);
    NotOccursByPair("opt-out", l, PlainAbsent, 0);
    NotOccursByPair("unsubscribe", l, PlainAbsent, 0);
    NotOccursByPair("clear", l, PlainAbsent, 0);
    NotOccursByPair("simple", l, PlainAbsent, 0);
    NotOccursByPair("plain language", l, PlainAbsent, 0);
  }

  /** A text with none of the keywords keeps the defaults, and the tie 2.75 rounds to 2.8. */
  lemma PlainTextExample()
    ensures forall p: Parameter :: RatingIn(Score(Plain), p) == Default(p)
    ensures Score(Plain).finalRating.tenths == 28
  {
    PlainMentionsNoKeyword();
    NoKeywordsGivesDefaults(Plain);
  }

  /** The second example, in three pieces so that each can be worked out on its own. */
  const Part1: string := "We do not sell your data."
  const Part2: string := " We use encryption and"
  const Part3: string := " allow deletion anytime."
  const SellEncryptDelete: string := Part1 + Part2 + Part3

  const Lower1: string := "we do not sell your data."
  const Lower2: string := " we use encryption and"
  const Lower3: string := " allow deletion anytime."

  /** Letter pairs, one from each keyword the text does not contain, that never stand side by side in it. */
  const SellEncryptDeleteAbsent: set<(char, char)> := {
    ('s', 'h'), ('t', 'h'), ('p', 'a'), ('t', 'e'), ('e', 'r'), ('r', 'e'),
    ('c', 'o'), ('o', 'p'), ('u', 'n'), ('c', 'l'), ('s', 'i'), ('p', 'l')
  }

  lemma PartsLowered()
    ensures Lower(Part1) == Lower1
    ensures Lower(Part2) == Lower2
  {
  }

  lemma Part3Lowered()
    ensures Lower(Part3) == Lower3
  {
  }

  lemma SellEncryptDeleteLowered()
    ensures Lower(SellEncryptDelete) == Lower1 + Lower2 + Lower3
  {
    PartsLowered();
    Part3Lowered();
    LowerAppend(Part1 + Part2, Part3);
    LowerAppend(Part1, Part2);
  }

  lemma Lower1HeadPairsAbsent()
    ensures PairsAbsent("we do not ", SellEncryptDeleteAbsent)
  {
  }

  lemma Lower1TailPairsAbsent()
    ensures PairsAbsent("sell your data.", SellEncryptDeleteAbsent)
  {
  }

  lemma Lower1PairsAbsent()
    ensures PairsAbsent(Lower1, SellEncryptDeleteAbsent)
  {
    Lower1HeadPairsAbsent();
    Lower1TailPairsAbsent();
    assert Lower1 == "we do not " + "sell your data.";
    PairsAbsentAppend("we do not ", "sell your data.", SellEncryptDeleteAbsent);
  }

  lemma Lower2HeadPairsAbsent()
    ensures PairsAbsent(" we use ", SellEncryptDeleteAbsent)
  {
  }

  lemma Lower2TailPairsAbsent()
    ensures PairsAbsent("encryption and", SellEncryptDeleteAbsent)
  {
  }

  lemma Lower2PairsAbsent()
    ensures PairsAbsent(Lower2, SellEncryptDeleteAbsent)
  {
    Lower2HeadPairsAbsent();
    Lower2TailPairsAbsent();
    assert Lower2 == " we use " + "encryption and";
    PairsAbsentAppend(" we use ", "encryption and", SellEncryptDeleteAbsent);
  }

  lemma Lower3HeadPairsAbsent()
    ensures PairsAbsent(" allow ", SellEncryptDeleteAbsent)
  {
  }

  lemma Lower3TailPairsAbsent()
    ensures PairsAbsent("deletion anytime.", SellEncryptDeleteAbsent)
  {
  }

  lemma Lower3PairsAbsent()
    ensures PairsAbsent(Lower3, SellEncryptDeleteAbsent)
  {
    Lower3HeadPairsAbsent();
    Lower3TailPairsAbsent();
    assert Lower3 == " allow " + "deletion anytime.";
    PairsAbsentAppend(" allow ", "deletion anytime.", SellEncryptDeleteAbsent);
  }

  lemma SellEncryptDeletePairsAbsent()
    ensures PairsAbsent(Lower1 + Lower2 + Lower3, SellEncryptDeleteAbsent)
  {
    Lower1PairsAbsent();
    Lower2PairsAbsent();
    Lower3PairsAbsent();
    PairsAbsentAppend(Lower1, Lower2, SellEncryptDeleteAbsent);
    PairsAbsentAppend(Lower1 + Lower2, Lower3, SellEncryptDeleteAbsent);
  }

  /** "sell" and "encrypt" occur in the lower-cased text. */
  lemma SellEncryptDeleteMentions()
    ensures Occurs("sell", Lower1 + Lower2 + Lower3)
    ensures Occurs("encrypt", Lower1 + Lower2 + Lower3)
  {
    var l := Lower1 + Lower2 + Lower3;
    OccursAtIndex("sell", Lower1, 10);
    assert l == [] + Lower1 + (Lower2 + Lower3);
    OccursTransitive("sell", Lower1, l);
    OccursAtIndex("encrypt", Lower2, 8);
    OccursTransitive("encrypt", Lower2, l);
  }

  /** No Data Sharing or Data Deletion keyword occurs; in particular "deletion" does not contain "delete". */
  lemma SharingAndDeletionAbsent()
    ensures !AnyOf3(SharingWords, Lower1 + Lower2 + Lower3)
    ensures !AnyOf3(DeletionWords, Lower1 + Lower2 + Lower3)
  {
    var l := Lower1 + Lower2 + Lower3;
    SellEncryptDeletePairsAbsent();
    NotOccursByPair("share", l, SellEncryptDeleteAbsent, 0);
    NotOccursByPair("third party", l, SellEncryptDeleteAbsent, 0);
    NotOccursByPair("partners", l, SellEncryptDeleteAbsent, 0);
    NotOccursByPair("delete", l, SellEncryptDeleteAbsent, 4);
    NotOccursByPair("erasure", l, SellEncryptDeleteAbsent, 0);
    NotOccursByPair("remove", l, SellEncryptDeleteAbsent, 0);
  }

  /** No Opt-Out or Policy Clarity keyword occurs. */
  lemma OptOutAndClarityAbsent()
    ensures !AnyOf3(OptOutWords, Lower1 + Lower2 + Lower3)
    ensures !AnyOf3(ClarityWords, Lower1 + Lower2 + Lower3)
  {
    var l := Lower1 + Lower2 + Lower3;
    SellEncryptDeletePairsAbsent();
    NotOccursByPair("consent", l, SellEncryptDeleteAbsent, 0);
    NotOccursByPair("opt-out", l, SellEncryptDeleteAbsent, 0);
    NotOccursByPair("unsubscribe", l, SellEncryptDeleteAbsent, 0);
    NotOccursByPair("clear", l, SellEncryptDeleteAbsent, 0);
    NotOccursByPair("simple", l, SellEncryptDeleteAbsent, 0);
    NotOccursByPair("plain language", l, SellEncryptDeleteAbsent, 0);
  }

  /**
   "do not sell" still contains "sell", so Data Selling drops to 1, and
   "encryption" contains "encrypt", so Data Security rises to 4; but "deletion"
   does not contain "delete", so Data Deletion keeps its default 3.
   */
  lemma NegatedSellingExample()
    ensures RatingIn(Score(SellEncryptDelete), DataCollection) == 3
    ensures RatingIn(Score(SellEncryptDelete), DataUsage) == 3
    ensures RatingIn(Score(SellEncryptDelete), DataSharing) == 3
    ensures RatingIn(Score(SellEncryptDelete), DataSelling) == 1
    ensures RatingIn(Score(SellEncryptDelete), OptOut) == 2
    ensures RatingIn(Score(SellEncryptDelete), Security) == 4
    ensures RatingIn(Score(SellEncryptDelete), Deletion) == 3
    ensures RatingIn(Score(SellEncryptDelete), Clarity) == 3
  {
    SellEncryptDeleteLowered();
    SellEncryptDeleteMentions();
    SharingAndDeletionAbsent();
    OptOutAndClarityAbsent();
    RatingsFollowRules(SellEncryptDelete);
  }

  /** With those ratings the sum is 22 and the final rating is 2.8, not the 2.9 a Data Deletion of 4 would give. */
  lemma NegatedSellingFinalRating()
    ensures SumRatings(Score(SellEncryptDelete).ratings) == 22
    ensures Score(SellEncryptDelete).finalRating.tenths == 28
  {
    NegatedSellingExample();
    SumOfEight(Score(SellEncryptDelete).ratings);
    FinalTenthsTable();
  }

  lemma CaseExampleLowered()
    ensures Lower("SELL my data") == "sell my data"
    ensures Lower("sell my data") == "sell my data"
  {
  }

  /** A text whose lower-case form mentions "sell" gets Data Selling 1. */
  lemma {:induction false} SellMentioned(text: string)
    requires Occurs("sell", Lower(text))
    ensures RatingIn(Score(text), DataSelling) == 1
  {
    ScoreRating(text, DataSelling);
    SharingSellingSecurity(Lower(text));
  }

  /** "SELL my data" and "sell my data" get the same report, with Data Selling at 1. */
  lemma CaseExample()
    ensures Score("SELL my data") == Score("sell my data")
    ensures RatingIn(Score("SELL my data"), DataSelling) == 1
  {
    CaseExampleLowered();
    SameLowerFormSameReport("SELL my data", "sell my data");
    CaseExampleSells();
  }

  lemma CaseExampleSells()
    ensures RatingIn(Score("SELL my data"), DataSelling) == 1
  {
    CaseExampleLowered();
    OccursAtIndex("sell", "sell my data", 0);
    SellMentioned("SELL my data");
  }
}
