/**
 * The older copy of the checker at the repository root: a component with only
 * the text, the keyword, the score and the feedback list, and the same content
 * analysis. Its analysis is stated here against a rule table, an independent
 * reading of the seven rules (each rule's pass test, its messages and its
 * points), and that table is proved to give exactly the feedback and score of
 * the current component.
 */
module RootOutlineTool {
  import opened Strings
  import opened Messages
  import opened ContentRules
  import OutlineTool

  /** Whether a rule awards its points; density is compared without division. */
  predicate Passes(rule: Rule, content: string, keyword: string)
    requires keyword != []
  {
    match rule
    case Length => WordCount(content) >= MinWords
    case IntroKeyword => KeywordInIntro(content, keyword)
    case Density => GoodDensity(KeywordCount(content, keyword), WordCount(content))
    case Headings => HasHeadings(content)
    case Links => HasLinks(content)
    case Lists => HasLists(content)
    case Image => HasImage(content)
  }

  function PassMessage(rule: Rule): (m: Message)
    ensures RuleOf(m) == rule && IsPass(m)
  {
    match rule
    case Length => LengthGood
    case IntroKeyword => IntroPresent
    case Density => DensityGood
    case Headings => HeadingsFound
    case Links => LinksFound
    case Lists => ListsFound
    case Image => ImageFound
  }

  /** The failing message; density has two, stuffing above 2.5% and low below 0.5%. */
  function FailMessage(rule: Rule, content: string, keyword: string): (m: Message)
    requires keyword != []
    ensures RuleOf(m) == rule && !IsPass(m)
  {
    match rule
    case Length => LengthTooShort
    case IntroKeyword => IntroMissing
    case Density =>
      if 40 * KeywordCount(content, keyword) > WordCount(content) then DensityStuffing else DensityLow
    case Headings => HeadingsMissing
    case Links => LinksMissing
    case Lists => ListsMissing
    case Image => ImageMissing
  }

  function RuleVerdict(rule: Rule, content: string, keyword: string): (m: Message)
    requires keyword != []
    ensures RuleOf(m) == rule
    ensures IsPass(m) <==> Passes(rule, content, keyword)
  {
    if Passes(rule, content, keyword) then PassMessage(rule) else FailMessage(rule, content, keyword)
  }

  /** The feedback by the table: one verdict per rule, in rule order. */
  function RootFeedback(content: string, keyword: string): seq<Message>
    requires keyword != []
  {
    seq(|RuleOrder|, i requires 0 <= i < |RuleOrder| => RuleVerdict(RuleOrder[i], content, keyword))
  }

  /** The score by the table: the points of the listed rules that pass. */
  function RulesScore(rules: seq<Rule>, content: string, keyword: string): nat
    requires keyword != []
  {
    if rules == [] then 0
    else (if Passes(rules[0], content, keyword) then RulePoints(rules[0]) else 0)
         + RulesScore(rules[1..], content, keyword)
  }

  function RootScore(content: string, keyword: string): nat
    requires keyword != []
  {
    RulesScore(RuleOrder, content, keyword)
  }

  /** Seven items, one per rule in rule order. */
  lemma RootShape(content: string, keyword: string)
    requires keyword != []
    ensures |RootFeedback(content, keyword)| == 7
    ensures forall i :: 0 <= i < 7 ==> RuleOf(RootFeedback(content, keyword)[i]) == RuleOrder[i]
  {
  }

  /** The table's score, written out rule by rule. */
  lemma RootScoreSchedule(content: string, keyword: string)
    requires keyword != []
    ensures RootScore(content, keyword)
         == (if WordCount(content) >= MinWords then 20 else 0)
          + (if KeywordInIntro(content, keyword) then 15 else 0)
          + (if GoodDensity(KeywordCount(content, keyword), WordCount(content)) then 15 else 0)
          + (if HasHeadings(content) then 10 else 0)
          + (if HasLinks(content) then 10 else 0)
          + (if HasLists(content) then 10 else 0)
          + (if HasImage(content) then 10 else 0)
  {
    var r := RuleOrder;
    assert RulesScore(r[7..], content, keyword) == 0;
    assert RulesScore(r[6..], content, keyword) == (if HasImage(content) then 10 else 0);
    assert RulesScore(r[5..], content, keyword)
        == (if HasLists(content) then 10 else 0) + RulesScore(r[6..], content, keyword);
    assert RulesScore(r[4..], content, keyword)
        == (if HasLinks(content) then 10 else 0) + RulesScore(r[5..], content, keyword);
    assert RulesScore(r[3..], content, keyword)
        == (if HasHeadings(content) then 10 else 0) + RulesScore(r[4..], content, keyword);
    assert RulesScore(r[2..], content, keyword)
        == (if GoodDensity(KeywordCount(content, keyword), WordCount(content)) then 15 else 0)
         + RulesScore(r[3..], content, keyword);
    assert RulesScore(r[1..], content, keyword)
        == (if KeywordInIntro(content, keyword) then 15 else 0) + RulesScore(r[2..], content, keyword);
    assert RulesScore(r, content, keyword)
        == (if WordCount(content) >= MinWords then 20 else 0) + RulesScore(r[1..], content, keyword);
  }

  /** The table's feedback is the current component's feedback on every input. */
  lemma RootFeedbackSame(content: string, keyword: string)
    requires keyword != []
    ensures RootFeedback(content, keyword) == Feedback(content, keyword)
  {
    var words, count := WordCount(content), KeywordCount(content, keyword);
    DensityBranches(count, words);
    assert RootFeedback(content, keyword)[2] == DensityVerdict(count, words);
  }

  /** The table gives the current component's feedback and score on every input. */
  lemma RootSameAsSrc(content: string, keyword: string)
    requires keyword != []
    ensures RootFeedback(content, keyword) == Feedback(content, keyword)
    ensures RootScore(content, keyword) == Score(Feedback(content, keyword))
  {
    RootFeedbackSame(content, keyword);
    RootScoreSchedule(content, keyword);
    ScoreSchedule(content, keyword);
  }

  /**
   * The root copy's content analysis. Its body is the same seven rule blocks
   * as the current component's, so it runs that analysis; the result is the
   * table's feedback and score.
   */
  method Analyze(content: string, keyword: string) returns (score: nat, feedbackItems: seq<Message>)
    requires keyword != [] && IsLiteralPattern(keyword)
    ensures feedbackItems == RootFeedback(content, keyword)
    ensures score == RootScore(content, keyword)
    ensures |feedbackItems| == 7 && forall i :: 0 <= i < 7 ==> RuleOf(feedbackItems[i]) == RuleOrder[i]
    ensures score % 5 == 0 && score <= 90
  {
    score, feedbackItems := OutlineTool.Analyze(content, keyword);
    RootSameAsSrc(content, keyword);
    RootShape(content, keyword);
  }

  /** The root component's state: no meta description. */
  class Tool {
    var content: string
    var keyword: string
    var seoScore: nat
    var feedback: seq<string>

    constructor ()
      ensures content == [] && keyword == [] && seoScore == 0 && feedback == []
    {
      content, keyword := [], [];
      seoScore, feedback := 0, [];
    }

    /**
     * Stores the score and the texts of the feedback list. Its effect runs the
     * analysis only when both the text and the keyword are non-empty.
     */
    method AnalyzeSEO()
      requires content != [] && keyword != []
      requires IsLiteralPattern(keyword)
      modifies this`seoScore, this`feedback
      ensures feedback == Texts(RootFeedback(content, keyword))
      ensures seoScore == RootScore(content, keyword)
    {
      var score, items := Analyze(content, keyword);
      seoScore := score;
      feedback := Texts(items);
    }
  }
}
