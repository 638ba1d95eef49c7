/**
 * The scoring rules of the content checker as pure functions of the text and
 * the keyword: which branch each of the seven content rules takes, the score
 * the branches add up to, and the two verdicts on a meta description.
 */
module ContentRules {
  import opened Strings
  import opened Messages

  const MinWords: nat := 300
  const IntroLength: nat := 100
  const MetaMinLength: nat := 50
  const MetaMaxLength: nat := 160

  /**
   * The keyword is turned into a regular expression; when it holds none of the
   * pattern metacharacters, that expression matches the keyword literally.
   */
  predicate IsLiteralPattern(keyword: string)
  {
    forall i :: 0 <= i < |keyword| ==> keyword[i] !in "\\^$.|?*+()[]{}"
  }

  /** `content.split(/\s+/).length`. */
  function WordCount(content: string): nat
  {
    |Split(content)|
  }

  /** The keyword, lower-cased, within the first 100 characters, lower-cased. */
  predicate KeywordInIntro(content: string, keyword: string)
  {
    Contains(Lower(Take(content, IntroLength)), Lower(keyword))
  }

  /** The number of matches of the lower-cased keyword in the lower-cased content. */
  function KeywordCount(content: string, keyword: string): nat
    requires keyword != []
  {
    Occurrences(Lower(content), Lower(keyword))
  }

  /** `keywordCount / wordCount * 100`, in exact arithmetic. */
  function KeywordDensity(count: nat, words: nat): (d: real)
    requires words > 0
    ensures d >= 0.0
    ensures d == 0.0 <==> count == 0
  {
    (count as real / words as real) * 100.0
  }

  /** The density lies in [0.5, 2.5], stated without division. */
  predicate GoodDensity(count: nat, words: nat)
  {
    words <= 200 * count && 40 * count <= words
  }

  predicate HasHeadings(content: string)
  {
    Contains(content, "#")
  }

  predicate HasLinks(content: string)
  {
    Contains(content, "http") || Contains(content, "www")
  }

  predicate HasLists(content: string)
  {
    Contains(content, "-") || Contains(content, "1.")
  }

  predicate HasImage(content: string)
  {
    Contains(content, "![") && Contains(content, "](")
  }

  // ---------------------------------------------------------------------------
  // The rules

  /** The length block: enough words, or too short. */
  function LengthVerdict(words: nat): Message
  {
    if words >= MinWords then LengthGood else LengthTooShort
  }

  /** The introduction block: the keyword in the first 100 characters, or missing. */
  function IntroVerdict(content: string, keyword: string): Message
  {
    if KeywordInIntro(content, keyword) then IntroPresent else IntroMissing
  }

  /** The density block: good on [0.5, 2.5], stuffing above, low below. */
  function DensityVerdict(count: nat, words: nat): Message
    requires words > 0
  {
    var density := KeywordDensity(count, words);
    if density >= 0.5 && density <= 2.5 then DensityGood
    else if density > 2.5 then DensityStuffing
    else DensityLow
  }

  function HeadingsVerdict(content: string): Message
  {
    if HasHeadings(content) then HeadingsFound else HeadingsMissing
  }

  function LinksVerdict(content: string): Message
  {
    if HasLinks(content) then LinksFound else LinksMissing
  }

  function ListsVerdict(content: string): Message
  {
    if HasLists(content) then ListsFound else ListsMissing
  }

  function ImageVerdict(content: string): Message
  {
    if HasImage(content) then ImageFound else ImageMissing
  }

  /** The feedback list of the content analysis: one verdict per rule, in rule order. */
  function Feedback(content: string, keyword: string): (items: seq<Message>)
    requires keyword != []
    ensures |items| == |RuleOrder|
  {
    var words := WordCount(content);
    [ LengthVerdict(words),
      IntroVerdict(content, keyword),
      DensityVerdict(KeywordCount(content, keyword), words),
      HeadingsVerdict(content),
      LinksVerdict(content),
      ListsVerdict(content),
      ImageVerdict(content) ]
  }

  /** The score a feedback list earns: the points of its messages. */
  function Score(items: seq<Message>): nat
  {
    if items == [] then 0 else Points(items[0]) + Score(items[1..])
  }

  // ---------------------------------------------------------------------------
  // What the rules promise

  /** Seven items, one per rule, in the order length, intro, density, headings, links, lists, image. */
  lemma FeedbackOrder(content: string, keyword: string)
    requires keyword != []
    ensures |Feedback(content, keyword)| == |RuleOrder| == 7
    ensures forall i :: 0 <= i < 7 ==> RuleOf(Feedback(content, keyword)[i]) == RuleOrder[i]
  {
  }

  /** The word count is one more than the number of maximal whitespace runs, hence at least one. */
  lemma WordCountRuns(content: string)
    ensures WordCount(content) == 1 + RunStarts(content, |content|)
    ensures WordCount(content) >= 1
  {
    SplitLength(content);
  }

  /** The length rule passes exactly when the text has at least 299 whitespace runs. */
  lemma LengthRule(content: string, keyword: string)
    requires keyword != []
    ensures Feedback(content, keyword)[0] == LengthGood <==> RunStarts(content, |content|) >= MinWords - 1
    ensures Feedback(content, keyword)[0] in {LengthGood, LengthTooShort}
  {
    WordCountRuns(content);
  }

  /** The intro rule passes exactly when the keyword, ignoring case, ends within the first 100 characters. */
  lemma IntroRule(content: string, keyword: string)
    requires keyword != []
    ensures Feedback(content, keyword)[1] == IntroPresent
        <==> exists i: nat :: i + |keyword| <= IntroLength && OccursAt(Lower(content), Lower(keyword), i)
    ensures Feedback(content, keyword)[1] in {IntroPresent, IntroMissing}
  {
    LowerSlice(content, 0, |Take(content, IntroLength)|);
    assert Lower(Take(content, IntroLength)) == Take(Lower(content), IntroLength);
    ContainsTakeIff(Lower(content), Lower(keyword), IntroLength);
  }

  /** The intro verdict depends on the first 100 characters only. */
  lemma IntroDependsOnPrefix(content: string, keyword: string)
    ensures IntroVerdict(content, keyword) == IntroVerdict(Take(content, IntroLength), keyword)
  {
    assert Take(Take(content, IntroLength), IntroLength) == Take(content, IntroLength);
  }

  /**
   * Typing, deleting or replacing text from position 100 on never changes the
   * intro verdict: two texts with the same first 100 characters get the same one.
   */
  lemma IntroIgnoresTail(content: string, edited: string, keyword: string)
    requires Take(content, IntroLength) == Take(edited, IntroLength)
    ensures IntroVerdict(content, keyword) == IntroVerdict(edited, keyword)
  {
  }

  /** Comparing a quotient with a bound is comparing the dividend with the bound times the divisor. */
  lemma QuotientCompare(c: real, w: real, bound: real)
    requires w > 0.0
    ensures c / w >= bound <==> c >= bound * w
    ensures c / w <= bound <==> c <= bound * w
  {
    var q := c / w;
    assert q * w == c;
    if q >= bound { assert (q - bound) * w >= 0.0; } else { assert (bound - q) * w > 0.0; }
    if q <= bound { assert (bound - q) * w >= 0.0; } else { assert (q - bound) * w > 0.0; }
  }

  /** The density bounds 0.5 and 2.5 (both inclusive), without division. */
  lemma DensityBounds(count: nat, words: nat)
    requires words > 0
    ensures KeywordDensity(count, words) >= 0.5 <==> words <= 200 * count
    ensures KeywordDensity(count, words) <= 2.5 <==> 40 * count <= words
  {
    QuotientCompare(count as real, words as real, 0.005);
    QuotientCompare(count as real, words as real, 0.025);
  }

  /**
   * The three density branches, in whole numbers: good on the inclusive band
   * `words <= 200 * count && 40 * count <= words`, stuffing above it and low below.
   */
  lemma DensityBranches(count: nat, words: nat)
    requires words > 0
    ensures DensityVerdict(count, words) == DensityGood <==> GoodDensity(count, words)
    ensures DensityVerdict(count, words) == DensityStuffing <==> 40 * count > words
    ensures DensityVerdict(count, words) == DensityLow <==> 200 * count < words
  {
    DensityBounds(count, words);
  }

  /** Matches of the keyword never overlap, so they fit in the content. */
  lemma KeywordCountBound(content: string, keyword: string)
    requires keyword != []
    ensures KeywordCount(content, keyword) * |keyword| <= |content|
  {
    OccurrencesBound(Lower(content), Lower(keyword));
  }

  /** The keyword is counted at least once exactly when it occurs, ignoring case. */
  lemma KeywordCountPositive(content: string, keyword: string)
    requires keyword != []
    ensures KeywordCount(content, keyword) > 0 <==> exists i: nat :: OccursAt(Lower(content), Lower(keyword), i)
  {
    OccurrencesPositive(Lower(content), Lower(keyword));
    ContainsIff(Lower(content), Lower(keyword));
  }

  /** The density rule reads the keyword count and the word count only through the band. */
  lemma DensityRule(content: string, keyword: string)
    requires keyword != []
    ensures var count, words := KeywordCount(content, keyword), WordCount(content);
      && (Feedback(content, keyword)[2] == DensityGood <==> GoodDensity(count, words))
      && (Feedback(content, keyword)[2] == DensityStuffing <==> 40 * count > words)
      && (Feedback(content, keyword)[2] == DensityLow <==> 200 * count < words)
  {
    DensityBranches(KeywordCount(content, keyword), WordCount(content));
  }

  /** Headings pass exactly when the content holds a '#' anywhere. */
  lemma HeadingsRule(content: string, keyword: string)
    requires keyword != []
    ensures Feedback(content, keyword)[3] == HeadingsFound <==> exists i :: 0 <= i < |content| && content[i] == '#'
    ensures Feedback(content, keyword)[3] in {HeadingsFound, HeadingsMissing}
  {
    ContainsCharIff(content, '#');
  }

  /** Links pass exactly when "http" or "www" occurs in the content. */
  lemma LinksRule(content: string, keyword: string)
    requires keyword != []
    ensures Feedback(content, keyword)[4] == LinksFound
        <==> exists i: nat :: OccursAt(content, "http", i) || OccursAt(content, "www", i)
    ensures Feedback(content, keyword)[4] in {LinksFound, LinksMissing}
  {
    ContainsIff(content, "http");
    ContainsIff(content, "www");
  }

  /** Lists pass exactly when the content holds a '-' anywhere or "1." anywhere. */
  lemma ListsRule(content: string, keyword: string)
    requires keyword != []
    ensures Feedback(content, keyword)[5] == ListsFound
        <==> (exists i :: 0 <= i < |content| && content[i] == '-') || (exists i: nat :: OccursAt(content, "1.", i))
    ensures Feedback(content, keyword)[5] in {ListsFound, ListsMissing}
  {
    ContainsCharIff(content, '-');
    ContainsIff(content, "1.");
  }

  /** The image rule passes when "![" and "](" both occur, in any order and at any distance. */
  lemma ImageRule(content: string, keyword: string)
    requires keyword != []
    ensures Feedback(content, keyword)[6] == ImageFound
        <==> (exists i: nat :: OccursAt(content, "![", i)) && (exists j: nat :: OccursAt(content, "](", j))
    ensures Feedback(content, keyword)[6] in {ImageFound, ImageMissing}
  {
    ContainsIff(content, "![");
    ContainsIff(content, "](");
  }

  /** Pushing a message adds its points to the score. */
  lemma {:induction false} ScoreAppend(items: seq<Message>, m: Message)
    ensures Score(items + [m]) == Score(items) + Points(m)
  {
    if items != [] {
      assert (items + [m])[1..] == items[1..] + [m];
      ScoreAppend(items[1..], m);
    }
  }

  /** The score of seven items is the sum of their points. */
  lemma ScoreOfSeven(items: seq<Message>)
    requires |items| == 7
    ensures Score(items) == Points(items[0]) + Points(items[1]) + Points(items[2]) + Points(items[3])
                          + Points(items[4]) + Points(items[5]) + Points(items[6])
  {
    assert Score(items[7..]) == 0;
    assert Score(items[6..]) == Points(items[6]) + Score(items[7..]);
    assert Score(items[5..]) == Points(items[5]) + Score(items[6..]);
    assert Score(items[4..]) == Points(items[4]) + Score(items[5..]);
    assert Score(items[3..]) == Points(items[3]) + Score(items[4..]);
    assert Score(items[2..]) == Points(items[2]) + Score(items[3..]);
    assert Score(items[1..]) == Points(items[1]) + Score(items[2..]);
    assert Score(items) == Points(items[0]) + Score(items[1..]);
  }

  /** The points the length, introduction and density verdicts carry. */
  lemma VerdictPoints(content: string, keyword: string)
    requires keyword != []
    ensures Points(LengthVerdict(WordCount(content))) == if WordCount(content) >= MinWords then 20 else 0
    ensures Points(IntroVerdict(content, keyword)) == if KeywordInIntro(content, keyword) then 15 else 0
    ensures Points(DensityVerdict(KeywordCount(content, keyword), WordCount(content)))
         == if GoodDensity(KeywordCount(content, keyword), WordCount(content)) then 15 else 0
  {
    DensityBranches(KeywordCount(content, keyword), WordCount(content));
  }

  /** The points each structure rule's verdict carries. */
  lemma StructurePoints(content: string)
    ensures Points(HeadingsVerdict(content)) == if HasHeadings(content) then 10 else 0
    ensures Points(LinksVerdict(content)) == if HasLinks(content) then 10 else 0
    ensures Points(ListsVerdict(content)) == if HasLists(content) then 10 else 0
    ensures Points(ImageVerdict(content)) == if HasImage(content) then 10 else 0
  {
  }

  /** The score is the point schedule 20 / 15 / 15 / 10 / 10 / 10 / 10 over the passing rules. */
  lemma ScoreSchedule(content: string, keyword: string)
    requires keyword != []
    ensures Score(Feedback(content, keyword))
         == (if WordCount(content) >= MinWords then 20 else 0)
          + (if KeywordInIntro(content, keyword) then 15 else 0)
          + (if GoodDensity(KeywordCount(content, keyword), WordCount(content)) then 15 else 0)
          + (if HasHeadings(content) then 10 else 0)
          + (if HasLinks(content) then 10 else 0)
          + (if HasLists(content) then 10 else 0)
          + (if HasImage(content) then 10 else 0)
  {
    ScoreOfSeven(Feedback(content, keyword));
    VerdictPoints(content, keyword);
    StructurePoints(content);
  }

  /** Every score is a multiple of 5: each message's points are. */
  lemma {:induction false} ScoreMultipleOfFive(items: seq<Message>)
    ensures Score(items) % 5 == 0
  {
    if items != [] {
      ScoreMultipleOfFive(items[1..]);
      PointsOfPass(items[0]);
    }
  }

  /** Seven items in rule order score at most 20 + 15 + 15 + 10 + 10 + 10 + 10 = 90. */
  lemma ScoreOfRuleOrder(items: seq<Message>)
    requires |items| == 7
    requires forall i :: 0 <= i < 7 ==> RuleOf(items[i]) == RuleOrder[i]
    ensures Score(items) <= 90
  {
    ScoreOfSeven(items);
    forall i | 0 <= i < 7
      ensures Points(items[i]) <= RulePoints(RuleOrder[i])
    {
    }
  }

  /** The score is a multiple of 5 between 0 and 90, so the page never shows 100/100. */
  lemma ScoreRange(content: string, keyword: string)
    requires keyword != []
    ensures Score(Feedback(content, keyword)) % 5 == 0
    ensures Score(Feedback(content, keyword)) <= 90
  {
    FeedbackOrder(content, keyword);
    ScoreMultipleOfFive(Feedback(content, keyword));
    ScoreOfRuleOrder(Feedback(content, keyword));
  }

  /** The feedback of a text that passes every rule. */
  const AllPass: seq<Message> := [LengthGood, IntroPresent, DensityGood, HeadingsFound, LinksFound, ListsFound, ImageFound]

  /** Seven items in rule order all pass exactly when they are the seven passing messages. */
  lemma AllPassIff(items: seq<Message>)
    requires |items| == 7
    requires forall i :: 0 <= i < 7 ==> RuleOf(items[i]) == RuleOrder[i]
    ensures (forall i :: 0 <= i < 7 ==> IsPass(items[i])) <==> items == AllPass
  {
    if forall i :: 0 <= i < 7 ==> IsPass(items[i]) {
      forall i | 0 <= i < 7
        ensures items[i] == AllPass[i]
      {
        PassUnique(items[i], AllPass[i]);
      }
    }
  }

  /** The score reaches its maximum of 90 exactly when every rule passes. */
  lemma ScoreMaximal(content: string, keyword: string)
    requires keyword != []
    ensures Score(Feedback(content, keyword)) == 90 <==> forall i :: 0 <= i < 7 ==> IsPass(Feedback(content, keyword)[i])
  {
    var items := Feedback(content, keyword);
    FeedbackOrder(content, keyword);
    ScoreOfSeven(items);
    forall i | 0 <= i < 7
      ensures Points(items[i]) == if IsPass(items[i]) then RulePoints(RuleOrder[i]) else 0
    {
    }
  }

  /** A score of 90 means the feedback is exactly the seven passing messages, and conversely. */
  lemma ScoreMaximalFeedback(content: string, keyword: string)
    requires keyword != []
    ensures Score(Feedback(content, keyword)) == 90 <==> Feedback(content, keyword) == AllPass
  {
    ScoreMaximal(content, keyword);
    FeedbackOrder(content, keyword);
    AllPassIff(Feedback(content, keyword));
  }

  // ---------------------------------------------------------------------------
  // Meta description

  /** The meta length block: good on [50, 160], too short below, too long above. */
  function MetaLengthVerdict(length: nat): MetaMessage
  {
    if length >= MetaMinLength && length <= MetaMaxLength then MetaLengthGood
    else if length < MetaMinLength then MetaTooShort
    else MetaTooLong
  }

  /** The meta keyword block: the lower-cased keyword in the lower-cased description. */
  function MetaKeywordVerdict(metaDescription: string, keyword: string): MetaMessage
  {
    if Contains(Lower(metaDescription), Lower(keyword)) then MetaKeywordPresent else MetaKeywordMissing
  }

  /** The feedback list of the meta-description analysis. */
  function MetaFeedback(metaDescription: string, keyword: string): (items: seq<MetaMessage>)
    ensures |items| == 2 && IsLengthVerdict(items[0]) && !IsLengthVerdict(items[1])
  {
    [MetaLengthVerdict(|metaDescription|), MetaKeywordVerdict(metaDescription, keyword)]
  }

  /** Two items: a length verdict, then a keyword verdict. */
  lemma MetaShape(metaDescription: string, keyword: string)
    ensures |MetaFeedback(metaDescription, keyword)| == 2
    ensures IsLengthVerdict(MetaFeedback(metaDescription, keyword)[0])
    ensures MetaFeedback(metaDescription, keyword)[1] in {MetaKeywordPresent, MetaKeywordMissing}
  {
  }

  /** Exactly one length branch: good on [50, 160], too short below, too long above. */
  lemma MetaLengthRule(metaDescription: string, keyword: string)
    ensures var m, n := MetaFeedback(metaDescription, keyword)[0], |metaDescription|;
      && (m == MetaLengthGood <==> MetaMinLength <= n <= MetaMaxLength)
      && (m == MetaTooShort <==> n < MetaMinLength)
      && (m == MetaTooLong <==> n > MetaMaxLength)
  {
  }

  /** The keyword item is present exactly when the keyword occurs in the description, ignoring case. */
  lemma MetaKeywordRule(metaDescription: string, keyword: string)
    ensures MetaFeedback(metaDescription, keyword)[1] == MetaKeywordPresent
        <==> exists i: nat :: OccursAt(Lower(metaDescription), Lower(keyword), i)
  {
    ContainsIff(Lower(metaDescription), Lower(keyword));
  }

  /** With no keyword entered, the meta description always reports the keyword as present. */
  lemma MetaEmptyKeyword(metaDescription: string)
    ensures MetaFeedback(metaDescription, "")[1] == MetaKeywordPresent
  {
  }
}
