/**
 * The feedback vocabulary of the checker: the seven content rules, one message
 * per branch of each rule, the points a message carries and the exact text the
 * page shows for it; and the meta-description messages, which carry no points.
 */
module Messages {

  /** The content rules, in the order the analysis runs them. */
  datatype Rule = Length | IntroKeyword | Density | Headings | Links | Lists | Image

  const RuleOrder: seq<Rule> := [Length, IntroKeyword, Density, Headings, Links, Lists, Image]

  /** One message per branch of a content rule. */
  datatype Message =
    | LengthGood | LengthTooShort
    | IntroPresent | IntroMissing
    | DensityGood | DensityStuffing | DensityLow
    | HeadingsFound | HeadingsMissing
    | LinksFound | LinksMissing
    | ListsFound | ListsMissing
    | ImageFound | ImageMissing

  function RuleOf(m: Message): Rule
  {
    match m
    case LengthGood | LengthTooShort => Length
    case IntroPresent | IntroMissing => IntroKeyword
    case DensityGood | DensityStuffing | DensityLow => Density
    case HeadingsFound | HeadingsMissing => Headings
    case LinksFound | LinksMissing => Links
    case ListsFound | ListsMissing => Lists
    case ImageFound | ImageMissing => Image
  }

  /** The message of the branch that awards the rule's points. */
  predicate IsPass(m: Message)
  {
    m.LengthGood? || m.IntroPresent? || m.DensityGood? || m.HeadingsFound?
    || m.LinksFound? || m.ListsFound? || m.ImageFound?
  }

  /** The points a rule awards when it passes. */
  function RulePoints(r: Rule): nat
  {
    match r
    case Length => 20
    case IntroKeyword | Density => 15
    case Headings | Links | Lists | Image => 10
  }

  /** The points a message adds to the score. */
  function Points(m: Message): nat
  {
    if IsPass(m) then RulePoints(RuleOf(m)) else 0
  }

  /** The text pushed onto the feedback list for each message. */
  function Text(m: Message): string
  {
    match m
    case LengthGood => "\U{2705} Good content length (300+ words)"
    case LengthTooShort => "\U{274C} Content is too short. Aim for 300+ words"
    case IntroPresent => "\U{2705} Keyword present in the introduction"
    case IntroMissing => "\U{274C} Include the keyword in the first 100 characters"
    case DensityGood => "\U{2705} Good keyword density"
    case DensityStuffing => "\U{274C} Keyword stuffing detected. Reduce keyword usage"
    case DensityLow => "\U{274C} Increase keyword usage slightly"
    case HeadingsFound => "\U{2705} Headings detected"
    case HeadingsMissing => "\U{274C} Add headings (use # for h1, ## for h2, etc.)"
    case LinksFound => "\U{2705} Links detected"
    case LinksMissing => "\U{274C} Add internal or external links"
    case ListsFound => "\U{2705} Lists detected"
    case ListsMissing => "\U{274C} Consider adding bullet points or numbered lists"
    case ImageFound => "\U{2705} Image with alt text detected"
    case ImageMissing => "\U{274C} Add images with descriptive alt text"
  }

  /** The texts of a list of messages, in order: what the page shows. */
  function Texts(items: seq<Message>): (r: seq<string>)
    ensures |r| == |items|
    ensures forall i :: 0 <= i < |items| ==> r[i] == Text(items[i])
  {
    seq(|items|, i requires 0 <= i < |items| => Text(items[i]))
  }

  /** Each rule has at most one passing message; a density failure has two. */
  lemma PassUnique(m1: Message, m2: Message)
    requires RuleOf(m1) == RuleOf(m2) && IsPass(m1) && IsPass(m2)
    ensures m1 == m2
  {
  }

  /** Each rule has a passing message, so with PassUnique exactly one. */
  lemma {:induction false} PassExists(r: Rule)
    ensures exists m :: RuleOf(m) == r && IsPass(m)
  {
    match r
    case Length => assert RuleOf(LengthGood) == r && IsPass(LengthGood);
    case IntroKeyword => assert RuleOf(IntroPresent) == r && IsPass(IntroPresent);
    case Density => assert RuleOf(DensityGood) == r && IsPass(DensityGood);
    case Headings => assert RuleOf(HeadingsFound) == r && IsPass(HeadingsFound);
    case Links => assert RuleOf(LinksFound) == r && IsPass(LinksFound);
    case Lists => assert RuleOf(ListsFound) == r && IsPass(ListsFound);
    case Image => assert RuleOf(ImageFound) == r && IsPass(ImageFound);
  }

  /** A message scores exactly when it passes, and then its rule's points. */
  lemma PointsOfPass(m: Message)
    ensures Points(m) > 0 <==> IsPass(m)
    ensures Points(m) % 5 == 0 && Points(m) <= 20
  {
  }

  // ---------------------------------------------------------------------------
  // Meta description

  /** The messages of the meta-description analysis: a length verdict and a keyword verdict. */
  datatype MetaMessage =
    | MetaLengthGood | MetaTooShort | MetaTooLong
    | MetaKeywordPresent | MetaKeywordMissing

  predicate IsLengthVerdict(m: MetaMessage)
  {
    m.MetaLengthGood? || m.MetaTooShort? || m.MetaTooLong?
  }

  function MetaText(m: MetaMessage): string
  {
    match m
    case MetaLengthGood => "\U{2705} Good meta description length (50-160 characters)"
    case MetaTooShort => "\U{274C} Meta description is too short. Aim for 50-160 characters"
    case MetaTooLong => "\U{274C} Meta description is too long. Aim for 50-160 characters"
    case MetaKeywordPresent => "\U{2705} Keyword present in meta description"
    case MetaKeywordMissing => "\U{274C} Include the keyword in the meta description"
  }

  function MetaTexts(items: seq<MetaMessage>): (r: seq<string>)
    ensures |r| == |items|
    ensures forall i :: 0 <= i < |items| ==> r[i] == MetaText(items[i])
  {
    seq(|items|, i requires 0 <= i < |items| => MetaText(items[i]))
  }
}
