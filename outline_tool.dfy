/**
 * The checker component: its state (the text, keyword and meta description the
 * user typed and the score and feedback lists last produced) and its two
 * analyses, which build their result step by step and then store it.
 */
module OutlineTool {
  import opened Strings
  import opened Messages
  import opened ContentRules

  // Each step below is one block of the content analysis: it tests its rule,
  // adds the rule's points to the running score when the rule passes, and pushes
  // the rule's message onto the list built so far.

  /** The length rule: 20 points for at least 300 words. Also yields the word count. */
  method CheckLength(content: string, score: nat, items: seq<Message>)
    returns (wordCount: nat, newScore: nat, newItems: seq<Message>)
    ensures wordCount == WordCount(content) && wordCount >= 1
    ensures newItems == items + [LengthVerdict(wordCount)]
    ensures newScore == score + Points(LengthVerdict(wordCount))
  {
    newScore, newItems := score, items;
    wordCount := CountWords(content);
    if wordCount >= MinWords {
      newScore := newScore + 20;
      newItems := newItems + [LengthGood];
    } else {
      newItems := newItems + [LengthTooShort];
    }
  }

  /** The introduction rule: 15 points for the keyword among the first 100 characters, ignoring case. */
  method CheckIntro(content: string, keyword: string, score: nat, items: seq<Message>)
    returns (newScore: nat, newItems: seq<Message>)
    ensures newItems == items + [IntroVerdict(content, keyword)]
    ensures newScore == score + Points(IntroVerdict(content, keyword))
  {
    newScore, newItems := score, items;
    if Contains(Lower(Take(content, IntroLength)), Lower(keyword)) {
      newScore := newScore + 15;
      newItems := newItems + [IntroPresent];
    } else {
      newItems := newItems + [IntroMissing];
    }
  }

  /**
   * The density rule: 15 points when `keywordCount / wordCount * 100` lies in
   * [0.5, 2.5]. The test is carried out by cross-multiplying, which the word
   * count being at least one allows.
   */
  method CheckDensity(content: string, keyword: string, wordCount: nat, score: nat, items: seq<Message>)
    returns (newScore: nat, newItems: seq<Message>)
    requires keyword != [] && IsLiteralPattern(keyword)
    requires wordCount == WordCount(content) && wordCount >= 1
    ensures newItems == items + [DensityVerdict(KeywordCount(content, keyword), wordCount)]
    ensures newScore == score + Points(DensityVerdict(KeywordCount(content, keyword), wordCount))
  {
    newScore, newItems := score, items;
    var keywordCount := CountMatches(Lower(content), Lower(keyword));
    if wordCount <= 200 * keywordCount && 40 * keywordCount <= wordCount {
      newScore := newScore + 15;
      newItems := newItems + [DensityGood];
    } else if 40 * keywordCount > wordCount {
      newItems := newItems + [DensityStuffing];
    } else {
      newItems := newItems + [DensityLow];
    }
    DensityBranches(keywordCount, wordCount);
  }

  /** The headings rule: 10 points for a `#` anywhere. */
  method CheckHeadings(content: string, score: nat, items: seq<Message>)
    returns (newScore: nat, newItems: seq<Message>)
    ensures newItems == items + [HeadingsVerdict(content)]
    ensures newScore == score + Points(HeadingsVerdict(content))
  {
    newScore, newItems := score, items;
    if Contains(content, "#") {
      newScore := newScore + 10;
      newItems := newItems + [HeadingsFound];
    } else {
      newItems := newItems + [HeadingsMissing];
    }
  }

  /** The links rule: 10 points for `http` or `www` anywhere. */
  method CheckLinks(content: string, score: nat, items: seq<Message>)
    returns (newScore: nat, newItems: seq<Message>)
    ensures newItems == items + [LinksVerdict(content)]
    ensures newScore == score + Points(LinksVerdict(content))
  {
    newScore, newItems := score, items;
    if Contains(content, "http") || Contains(content, "www") {
      newScore := newScore + 10;
      newItems := newItems + [LinksFound];
    } else {
      newItems := newItems + [LinksMissing];
    }
  }

  /** The lists rule: 10 points for `-` or `1.` anywhere. */
  method CheckLists(content: string, score: nat, items: seq<Message>)
    returns (newScore: nat, newItems: seq<Message>)
    ensures newItems == items + [ListsVerdict(content)]
    ensures newScore == score + Points(ListsVerdict(content))
  {
    newScore, newItems := score, items;
    if Contains(content, "-") || Contains(content, "1.") {
      newScore := newScore + 10;
      newItems := newItems + [ListsFound];
    } else {
      newItems := newItems + [ListsMissing];
    }
  }

  /** The image rule: 10 points for both `![` and `](` anywhere. */
  method CheckImage(content: string, score: nat, items: seq<Message>)
    returns (newScore: nat, newItems: seq<Message>)
    ensures newItems == items + [ImageVerdict(content)]
    ensures newScore == score + Points(ImageVerdict(content))
  {
    newScore, newItems := score, items;
    if Contains(content, "![") && Contains(content, "](") {
      newScore := newScore + 10;
      newItems := newItems + [ImageFound];
    } else {
      newItems := newItems + [ImageMissing];
    }
  }

  /**
   * The content analysis: the seven rule blocks in order, starting from a zero
   * score and an empty list. The list is the rule-by-rule feedback and the
   * score is the total of its messages' points.
   */
  method Analyze(content: string, keyword: string) returns (score: nat, feedbackItems: seq<Message>)
    requires keyword != [] && IsLiteralPattern(keyword)
    ensures feedbackItems == Feedback(content, keyword)
    ensures score == Score(feedbackItems)
    ensures |feedbackItems| == 7 && score % 5 == 0 && score <= 90
  {
    score := 0;
    feedbackItems := [];
    var wordCount;
    wordCount, score, feedbackItems := CheckLength(content, score, feedbackItems);
    score, feedbackItems := CheckIntro(content, keyword, score, feedbackItems);
    score, feedbackItems := CheckDensity(content, keyword, wordCount, score, feedbackItems);
    score, feedbackItems := CheckHeadings(content, score, feedbackItems);
    score, feedbackItems := CheckLinks(content, score, feedbackItems);
    score, feedbackItems := CheckLists(content, score, feedbackItems);
    score, feedbackItems := CheckImage(content, score, feedbackItems);
    assert feedbackItems == Feedback(content, keyword);
    ScoreOfSeven(feedbackItems);
    ScoreRange(content, keyword);
  }

  /** The meta-description analysis: a length verdict, then a keyword verdict; no points. */
  method AnalyzeMeta(metaDescription: string, keyword: string) returns (feedbackItems: seq<MetaMessage>)
    ensures feedbackItems == MetaFeedback(metaDescription, keyword)
    ensures |feedbackItems| == 2
  {
    feedbackItems := [];

    var length := |metaDescription|;
    if length >= MetaMinLength && length <= MetaMaxLength {
      feedbackItems := feedbackItems + [MetaLengthGood];
    } else if length < MetaMinLength {
      feedbackItems := feedbackItems + [MetaTooShort];
    } else {
      feedbackItems := feedbackItems + [MetaTooLong];
    }

    if Contains(Lower(metaDescription), Lower(keyword)) {
      feedbackItems := feedbackItems + [MetaKeywordPresent];
    } else {
      feedbackItems := feedbackItems + [MetaKeywordMissing];
    }
  }

  /** The component's state. */
  class Tool {
    var content: string
    var keyword: string
    var seoScore: nat
    var feedback: seq<string>
    var metaDescription: string
    var metaFeedback: seq<string>

    constructor ()
      ensures content == [] && keyword == [] && metaDescription == []
      ensures seoScore == 0 && feedback == [] && metaFeedback == []
    {
      content, keyword, metaDescription := [], [], [];
      seoScore, feedback, metaFeedback := 0, [], [];
    }

    /**
     * Runs the content analysis on the current text and keyword and stores the
     * score and the texts of the feedback list. Its effect calls it only when
     * both the text and the keyword are non-empty.
     */
    method AnalyzeSEO()
      requires content != [] && keyword != []
      requires IsLiteralPattern(keyword)
      modifies this`seoScore, this`feedback
      ensures feedback == Texts(Feedback(content, keyword))
      ensures seoScore == Score(Feedback(content, keyword))
    {
      var score, items := Analyze(content, keyword);
      seoScore := score;
      feedback := Texts(items);
    }

    /**
     * Runs the meta-description analysis and stores the texts of its feedback list; the
     * score and the content feedback are left as they were. Its effect calls it
     * only when the meta description is non-empty.
     */
    method AnalyzeMetaDescription()
      requires metaDescription != []
      modifies this`metaFeedback
      ensures metaFeedback == MetaTexts(MetaFeedback(metaDescription, keyword))
      ensures seoScore == old(seoScore) && feedback == old(feedback)
    {
      var items := AnalyzeMeta(metaDescription, keyword);
      metaFeedback := MetaTexts(items);
    }
  }
}
