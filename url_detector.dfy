/** The pure helpers of `PhishingUrlDetector` in `library/model_managers.py`:
    character encoding (`_text_to_seq`), the URL and HTML feature maps
    (`_extract_url_features`, `_extract_html_features`) and `_vectorize`.
    What `urlparse` returns (or that it raises) and the facts BeautifulSoup
    finds in the HTML are inputs rather than computed here. */
module UrlDetector {
  import opened Wrappers
  import opened Text

  /** A feature value: an integer, or the exact quotient a float division
      would approximate. */
  datatype Feature = Whole(n: int) | Fraction(num: nat, den: nat)

  /** `int(b)` for a boolean. */
  function Bit(b: bool): int {
    if b then 1 else 0
  }

  // ---------------------------------------------------------------------------
  // _text_to_seq

  /** `char2idx.get(c, 0)`. */
  function CharIndex(char2idx: map<char, int>, c: char): int {
    if c in char2idx then char2idx[c] else 0
  }

  /** `[char2idx.get(c, 0) for c in text]`. */
  function Indices(char2idx: map<char, int>, text: string): (r: seq<int>)
    ensures |r| == |text|
    ensures forall i | 0 <= i < |text| :: r[i] == CharIndex(char2idx, text[i])
    decreases |text|
  {
    if text == [] then []
    else [CharIndex(char2idx, text[0])] + Indices(char2idx, text[1..])
  }

  /** `_text_to_seq(text, maxlen)`: the indices cut to `maxlen` or padded with 0. */
  function TextToSeq(char2idx: map<char, int>, text: string, maxlen: nat): (r: seq<int>)
    ensures |r| == maxlen
    ensures forall i | 0 <= i < maxlen ::
      r[i] == (if i < |text| then CharIndex(char2idx, text[i]) else 0)
  {
    var s := Indices(char2idx, text);
    if |s| >= maxlen then s[..maxlen] else s + seq(maxlen - |s|, _ => 0)
  }

  /** Text beyond `maxlen` characters does not matter: only the prefix is kept. */
  lemma TextToSeqKeepsPrefix(char2idx: map<char, int>, text: string, extra: string, maxlen: nat)
    requires |text| >= maxlen
    ensures TextToSeq(char2idx, text + extra, maxlen) == TextToSeq(char2idx, text, maxlen)
  {
    var a, b := TextToSeq(char2idx, text + extra, maxlen), TextToSeq(char2idx, text, maxlen);
    assert forall i | 0 <= i < maxlen :: a[i] == b[i] by {
      assert forall i | 0 <= i < maxlen :: (text + extra)[i] == text[i];
    }
  }

  // ---------------------------------------------------------------------------
  // _extract_url_features

  /** `domain.split('.')[-1] if '.' in domain else ''`. */
  function Tld(domain: string): string {
    if '.' in domain then var parts := Split(domain, '.'); parts[|parts| - 1] else ""
  }

  /** A regex group `\d{1,3}`. */
  predicate IsDigitGroup(g: string) {
    1 <= |g| <= 3 && forall i | 0 <= i < |g| :: IsDigit(g[i])
  }

  /** The whole string is `\d{1,3}(\.\d{1,3}){3}`, checked by splitting on dots. */
  predicate IsDottedQuad(s: string) {
    var parts := Split(s, '.');
    |parts| == 4 && forall i | 0 <= i < 4 :: IsDigitGroup(parts[i])
  }

  /** `re.match(r"^\d{1,3}(\.\d{1,3}){3}$", domain)`: `$` also matches just
      before a newline that ends the string. */
  predicate MatchesIpPattern(domain: string) {
    || IsDottedQuad(domain)
    || (|domain| > 0 && domain[|domain| - 1] == '\n' && IsDottedQuad(domain[..|domain| - 1]))
  }

  function Quad(a: string, b: string, c: string, d: string): string {
    a + "." + b + "." + c + "." + d
  }

  /** Reference definition: four groups of one to three digits joined by dots. */
  ghost predicate IsDottedQuadSpec(s: string) {
    exists a, b, c, d ::
      IsDigitGroup(a) && IsDigitGroup(b) && IsDigitGroup(c) && IsDigitGroup(d) && s == Quad(a, b, c, d)
  }

  lemma JoinFour(a: string, b: string, c: string, d: string)
    ensures Join([a, b, c, d], '.') == Quad(a, b, c, d)
  {
    assert [a, b, c, d][1..] == [b, c, d];
    assert [b, c, d][1..] == [c, d];
    assert [c, d][1..] == [d];
    assert Join([c, d], '.') == c + "." + d;
    assert Join([b, c, d], '.') == b + "." + (c + "." + d);
    assert Join([a, b, c, d], '.') == a + "." + (b + "." + (c + "." + d));
  }

  /** The split-based check accepts exactly the four-group shape; no group is
      compared with 255. */
  lemma DottedQuadIff(s: string)
    ensures IsDottedQuad(s) <==> IsDottedQuadSpec(s)
  {
    var parts := Split(s, '.');
    if IsDottedQuad(s) {
      JoinSplit(s, '.');
      JoinFour(parts[0], parts[1], parts[2], parts[3]);
      assert parts == [parts[0], parts[1], parts[2], parts[3]];
      assert IsDigitGroup(parts[0]) && IsDigitGroup(parts[1]) && IsDigitGroup(parts[2]) && IsDigitGroup(parts[3]);
    }
    if IsDottedQuadSpec(s) {
      var a, b, c, d :| IsDigitGroup(a) && IsDigitGroup(b) && IsDigitGroup(c) && IsDigitGroup(d) && s == Quad(a, b, c, d);
      var quad := [a, b, c, d];
      forall i | 0 <= i < 4 ensures '.' !in quad[i] {
        assert IsDigitGroup(quad[i]);
      }
      JoinFour(a, b, c, d);
      SplitJoin(quad, '.');
    }
  }

  /** "999.999.999.999" passes: there is no 0-255 range check. */
  lemma NoOctetRangeCheck()
    ensures MatchesIpPattern("999.999.999.999")
  {
    var g := "999";
    assert IsDigitGroup(g);
    assert "999.999.999.999" == Quad(g, g, g, g);
    DottedQuadIff("999.999.999.999");
  }

  /** A trailing newline is let through by the regex's `$`. The netloc is an
      input here: recent CPython versions of `urlsplit` delete newlines from
      the URL, so this netloc is reached only through a `urlparse` that keeps
      them. */
  lemma TrailingNewlineAccepted()
    ensures MatchesIpPattern("1.2.3.4\n")
  {
    var quad := "1.2.3.4";
    assert quad == Quad("1", "2", "3", "4");
    assert IsDigitGroup("1") && IsDigitGroup("2") && IsDigitGroup("3") && IsDigitGroup("4");
    DottedQuadIff(quad);
    var s := quad + "\n";
    assert s == "1.2.3.4\n";
    assert |s| > 0 && s[|s| - 1] == '\n' && s[..|s| - 1] == quad;
  }

  predicate IsOtherSpecial(c: char) {
    c in "$+,:;@"
  }

  predicate IsNonWordChar(c: char) {
    !IsWordChar(c)
  }

  /** `len(re.findall(r'\W', url))`. */
  function NonWordCount(url: string): nat {
    CountIf(url, IsNonWordChar)
  }

  /** The feature names, spelt as the dict keys of `_extract_url_features` and
      `_extract_html_features`. */
  datatype FeatureName =
    // _extract_url_features
    | URLLength | DomainLength | IsDomainIP | TLDLength | IsHTTPS | NoOfSubDomain
    | NoOfDegitsInURL | NoOfLettersInURL | SpacialCharRatioInURL | NoOfEqualsInURL
    | NoOfQMarkInURL | NoOfAmpersandInURL | NoOfOtherSpecialCharsInURL
    // _extract_html_features
    | LineOfCode | LargestLineLength | NoOfImage | NoOfJS | NoOfCSS | NoOfiFrame
    | HasTitle | HasDescription | HasSubmitButton | HasHiddenFields | HasPasswordField
    | HasSocialNet | Bank | Pay | Crypto | HasCopyrightInfo | Robots | IsResponsive
    | NoOfURLRedirect | NoOfSelfRedirect | HasExternalFormSubmit | NoOfSelfRef
    | NoOfEmptyRef | NoOfExternalRef
    | DomainTitleMatchScore | URLTitleMatchScore | TLDLegitimateProb | URLCharProb
    | CharContinuationRate | ObfuscationRatio | NoOfObfuscatedChar | HasObfuscation

  type Features = map<FeatureName, Feature>

  const UrlKeys: set<FeatureName> := {
    URLLength, DomainLength, IsDomainIP, TLDLength, IsHTTPS, NoOfSubDomain,
    NoOfDegitsInURL, NoOfLettersInURL, SpacialCharRatioInURL, NoOfEqualsInURL,
    NoOfQMarkInURL, NoOfAmpersandInURL, NoOfOtherSpecialCharsInURL
  }

  /** One entry of the URL feature dict. */
  function UrlFeature(url: string, domain: string, scheme: string, k: FeatureName): Feature {
    match k
    case URLLength => Whole(|url|)
    case DomainLength => Whole(|domain|)
    case IsDomainIP => Whole(Bit(MatchesIpPattern(domain)))
    case TLDLength => Whole(|Tld(domain)|)
    case IsHTTPS => Whole(Bit(scheme == "https"))
    case NoOfSubDomain => Whole(Occurrences(domain, ".") - 1)
    case NoOfDegitsInURL => Whole(CountIf(url, IsDigit))
    case NoOfLettersInURL => Whole(CountIf(url, IsAlpha))
    case SpacialCharRatioInURL => Fraction(NonWordCount(url), |url|)
    case NoOfEqualsInURL => Whole(Occurrences(url, "="))
    case NoOfQMarkInURL => Whole(Occurrences(url, "?"))
    case NoOfAmpersandInURL => Whole(Occurrences(url, "&"))
    case NoOfOtherSpecialCharsInURL => Whole(CountIf(url, IsOtherSpecial))
    // the HTML features are not in this dict
    case _ => Whole(0)
  }

  /** The exceptions the two extractors let escape. */
  datatype ExtractionError =
    | ValueError         // `urlparse` rejects the URL
    | ZeroDivisionError  // `len(url)` is 0 in SpacialCharRatioInURL
    | AttributeError     // `soup.title.string` is None, so `.strip()` fails

  /** The two fields of `urlparse(url)` the extractor reads. */
  datatype UrlParts = UrlParts(netloc: string, scheme: string)

  /** `_extract_url_features(url)`, given what `urlparse(url)` yields: its
      parts, or `None` where it raises ValueError (an unclosed `[` in the
      netloc, for one). An empty URL then divides by zero. */
  function ExtractUrlFeatures(url: string, parsed: Option<UrlParts>): (r: Result<Features, ExtractionError>)
    ensures parsed.None? ==> r == Err(ValueError)
    ensures parsed.Some? && url == [] ==> r == Err(ZeroDivisionError)
    ensures r.Ok? <==> parsed.Some? && url != []
    ensures r.Ok? ==> r.value.Keys == UrlKeys
    ensures r.Ok? ==> forall k | k in UrlKeys ::
      r.value[k] == UrlFeature(url, parsed.value.netloc, parsed.value.scheme, k)
  {
    match parsed
    case None => Err(ValueError)
    case Some(UrlParts(domain, scheme)) =>
      if url == [] then Err(ZeroDivisionError)
      else Ok(map k | k in UrlKeys :: UrlFeature(url, domain, scheme, k))
  }

  const UrlCountKeys: set<FeatureName> := {
    NoOfDegitsInURL, NoOfLettersInURL, NoOfEqualsInURL, NoOfQMarkInURL,
    NoOfAmpersandInURL, NoOfOtherSpecialCharsInURL
  }

  /** The character counts are whole numbers between 0 and the URL length. */
  lemma UrlCountsBounded(url: string, domain: string, scheme: string, k: FeatureName)
    requires k in UrlCountKeys
    ensures var f := UrlFeature(url, domain, scheme, k); f.Whole? && 0 <= f.n <= |url|
  {
  }

  /** URLLength is the URL's length, and SpacialCharRatioInURL is the number of
      non-word characters over it: a fraction between 0 and 1. */
  lemma SpecialCharRatio(url: string, domain: string, scheme: string)
    ensures UrlFeature(url, domain, scheme, URLLength) == Whole(|url|)
    ensures UrlFeature(url, domain, scheme, SpacialCharRatioInURL) == Fraction(NonWordCount(url), |url|)
    ensures NonWordCount(url) <= |url|
    ensures NonWordCount(url) == 0 <==> forall i | 0 <= i < |url| :: IsWordChar(url[i])
  {
    var n := CountIf(url, IsNonWordChar);
    assert n == 0 <==> forall i | 0 <= i < |url| :: !IsNonWordChar(url[i]);
  }

  /** NoOfSubDomain is the number of dots in the domain minus one: at least -1,
      and -1 exactly for a domain without a dot. */
  lemma SubDomainCount(url: string, domain: string, scheme: string)
    ensures var f := UrlFeature(url, domain, scheme, NoOfSubDomain);
      f == Whole(Occurrences(domain, ".") - 1) && f.n >= -1 && (f.n == -1 <==> '.' !in domain)
  {
    OccurrencesOfChar(domain, '.');
  }

  /** TLDLength is the length of the text after the last dot (0 without a dot). */
  lemma TldIsAfterLastDot(domain: string)
    ensures '.' !in Tld(domain)
    ensures '.' !in domain ==> Tld(domain) == ""
    ensures '.' in domain ==>
      var t := Tld(domain);
      |t| < |domain| && domain[|domain| - |t|..] == t && domain[|domain| - |t| - 1] == '.'
  {
    if '.' in domain {
      OccurrencesOfChar(domain, '.');
      SplitCount(domain, '.');
      SplitLast(domain, '.');
      SplitPieces(domain, '.');
    }
  }

  /** IsDomainIP is 1 exactly when the domain is four groups of one to three
      digits joined by dots, optionally followed by one newline, and 0 otherwise;
      TLDLength is the length of the text after the domain's last dot. */
  lemma DomainFeatures(url: string, domain: string, scheme: string)
    ensures var f := UrlFeature(url, domain, scheme, IsDomainIP);
      (f == Whole(1) <==>
         IsDottedQuadSpec(domain) ||
         (|domain| > 0 && domain[|domain| - 1] == '\n' && IsDottedQuadSpec(domain[..|domain| - 1]))) &&
      (f == Whole(0) || f == Whole(1))
    ensures UrlFeature(url, domain, scheme, TLDLength) == Whole(|Tld(domain)|)
  {
    DottedQuadIff(domain);
    if |domain| > 0 {
      DottedQuadIff(domain[..|domain| - 1]);
    }
  }

  // ---------------------------------------------------------------------------
  // _extract_html_features

  /** What `soup.title` is: no title element; one whose `.string` is the given
      text; or one whose `.string` is None (it is empty, as in
      `<title></title>`, or holds more than one child). A Tag is always
      truthy, so only the first case stops the `and`. */
  datatype TitleTag = NoTitle | TitleText(text: string) | TitleWithoutString

  /** What BeautifulSoup finds in the HTML: the element counts and presence
      tests the source takes from the parse tree. */
  datatype SoupFacts = SoupFacts(
    images: nat, scripts: nat, stylesheets: nat, iframes: nat,
    title: TitleTag, hasDescription: bool, hasSubmitButton: bool,
    hiddenFields: nat, hasPasswordField: bool)

  const ScoreKeys: set<FeatureName> := {
    DomainTitleMatchScore, URLTitleMatchScore, TLDLegitimateProb, URLCharProb,
    CharContinuationRate, ObfuscationRatio, NoOfObfuscatedChar, HasObfuscation
  }

  const HtmlKeys: set<FeatureName> := {
    LineOfCode, LargestLineLength, NoOfImage, NoOfJS, NoOfCSS, NoOfiFrame,
    HasTitle, HasDescription, HasSubmitButton, HasHiddenFields, HasPasswordField,
    HasSocialNet, Bank, Pay, Crypto, HasCopyrightInfo, Robots, IsResponsive,
    NoOfURLRedirect, NoOfSelfRedirect, HasExternalFormSubmit, NoOfSelfRef,
    NoOfEmptyRef, NoOfExternalRef
  } + ScoreKeys

  /** `soup.title and soup.title.string.strip()`, where it does not raise. */
  predicate HasTitleText(t: TitleTag) {
    t.TitleText? && Strip(t.text) != []
  }

  /** `kw in html.lower()`. */
  predicate HasKeyword(html: string, kw: string) {
    Contains(Lower(html), kw)
  }

  /** For a keyword of lower-case letters, the test ignores case. */
  lemma HasKeywordIgnoresCase(html: string, kw: string)
    requires forall i | 0 <= i < |kw| :: 'a' <= kw[i] <= 'z'
    ensures HasKeyword(html, kw) <==> ContainsIgnoringCase(html, kw)
  {
    assert Lower(kw) == kw;
    LowerContains(html, kw);
  }

  /** One entry of the HTML feature dict. */
  function HtmlFeature(html: string, soup: SoupFacts, k: FeatureName): Feature {
    match k
    case LineOfCode => Whole(Occurrences(html, "\n"))
    case LargestLineLength => Whole(MaxLength(Split(html, '\n')))
    case NoOfImage => Whole(soup.images)
    case NoOfJS => Whole(soup.scripts)
    case NoOfCSS => Whole(soup.stylesheets)
    case NoOfiFrame => Whole(soup.iframes)
    case HasTitle => Whole(Bit(HasTitleText(soup.title)))
    case HasDescription => Whole(Bit(soup.hasDescription))
    case HasSubmitButton => Whole(Bit(soup.hasSubmitButton))
    case HasHiddenFields => Whole(soup.hiddenFields)
    case HasPasswordField => Whole(Bit(soup.hasPasswordField))
    case HasSocialNet =>
      Whole(Bit(Contains(html, "facebook.com") || Contains(html, "twitter.com") || Contains(html, "linkedin.com")))
    case Bank => Whole(Bit(HasKeyword(html, "bank")))
    case Pay => Whole(Bit(HasKeyword(html, "pay")))
    case Crypto => Whole(Bit(HasKeyword(html, "crypto")))
    case HasCopyrightInfo => Whole(Bit(HasKeyword(html, "copyright")))
    case Robots => Whole(Bit(HasKeyword(html, "robots")))
    case IsResponsive => Whole(Bit(HasKeyword(html, "viewport")))
    case NoOfURLRedirect => Whole(Occurrences(html, "http"))
    case NoOfSelfRedirect => Whole(Occurrences(html, "window.location"))
    case HasExternalFormSubmit => Whole(Bit(Contains(html, "action=\"http")))
    case NoOfSelfRef => Whole(Occurrences(html, "href=\"#\""))
    case NoOfEmptyRef => Whole(Occurrences(html, "href=\"\""))
    case NoOfExternalRef => Whole(Occurrences(html, "http"))
    // the score features are constant zeros, and the URL features are not in this dict
    case _ => Whole(0)
  }

  /** `_extract_html_features(html)`: it raises AttributeError when the title
      element has no `.string`. */
  function ExtractHtmlFeatures(html: string, soup: SoupFacts): (r: Result<Features, ExtractionError>)
    ensures r.Err? <==> soup.title.TitleWithoutString?
    ensures r.Err? ==> r.error == AttributeError
    ensures r.Ok? ==> r.value.Keys == HtmlKeys
    ensures r.Ok? ==> forall k | k in HtmlKeys :: r.value[k] == HtmlFeature(html, soup, k)
  {
    if soup.title.TitleWithoutString? then Err(AttributeError)
    else Ok(map k | k in HtmlKeys :: HtmlFeature(html, soup, k))
  }

  /** HasTitle is 1 exactly when there is a title whose text holds a character
      that is not whitespace, and 0 otherwise. */
  lemma TitleFeature(html: string, soup: SoupFacts)
    ensures HtmlFeature(html, soup, HasTitle) == Whole(1) <==>
      soup.title.TitleText? && exists i | 0 <= i < |soup.title.text| :: !IsSpace(soup.title.text[i])
    ensures HtmlFeature(html, soup, HasTitle) == Whole(0) || HtmlFeature(html, soup, HasTitle) == Whole(1)
  {
    assert HtmlFeature(html, soup, HasTitle) == Whole(Bit(HasTitleText(soup.title)));
    if soup.title.TitleText? {
      StripBlank(soup.title.text);
    }
  }

  /** LineOfCode is one less than the number of newline-separated lines, and
      LargestLineLength is the length of the longest of them (0 for empty HTML),
      never more than the HTML's length. */
  lemma LineFeatures(html: string, soup: SoupFacts)
    ensures var lines := Split(html, '\n');
      var loc := HtmlFeature(html, soup, LineOfCode);
      var largest := HtmlFeature(html, soup, LargestLineLength);
      loc == Whole(|lines| - 1) &&
      largest.Whole? &&
      (forall i | 0 <= i < |lines| :: |lines[i]| <= largest.n) &&
      (exists i | 0 <= i < |lines| :: |lines[i]| == largest.n) &&
      largest.n <= |html| &&
      (html == "" ==> largest == Whole(0))
  {
    var lines := Split(html, '\n');
    assert "\n" == ['\n'];
    SplitCount(html, '\n');
    if html == "" {
      assert lines == [""];
    }
  }

  const KeywordKeys: set<FeatureName> := {Bank, Pay, Crypto, HasCopyrightInfo, Robots, IsResponsive}

  /** The lower-case keyword a keyword flag looks for. */
  function Keyword(k: FeatureName): (w: string)
    requires k in KeywordKeys
    ensures forall i | 0 <= i < |w| :: 'a' <= w[i] <= 'z'
  {
    match k
    case Bank => "bank"
    case Pay => "pay"
    case Crypto => "crypto"
    case HasCopyrightInfo => "copyright"
    case Robots => "robots"
    case IsResponsive => "viewport"
  }

  /** Bank, Pay, Crypto, HasCopyrightInfo, Robots and IsResponsive are 1 exactly
      when their keyword occurs in the HTML in any mix of upper and lower case,
      and 0 otherwise. */
  lemma KeywordFlags(html: string, soup: SoupFacts, k: FeatureName)
    requires k in KeywordKeys
    ensures var f := HtmlFeature(html, soup, k);
      (f == Whole(1) <==> ContainsIgnoringCase(html, Keyword(k))) && (f == Whole(0) || f == Whole(1))
  {
    var w := Keyword(k);
    HasKeywordIgnoresCase(html, w);
    assert HtmlFeature(html, soup, k) == Whole(Bit(HasKeyword(html, w)));
  }

  /** NoOfURLRedirect and NoOfExternalRef are the same count: the occurrences
      of "http". */
  lemma ExternalRefIsRedirectCount(html: string, soup: SoupFacts)
    ensures HtmlFeature(html, soup, NoOfURLRedirect) == HtmlFeature(html, soup, NoOfExternalRef)
    ensures HtmlFeature(html, soup, NoOfExternalRef) == Whole(Occurrences(html, "http"))
  {
  }

  /** The eight score features are constant zeros, whatever the HTML. */
  lemma ScoreFeaturesZero(html: string, soup: SoupFacts, k: FeatureName)
    requires k in ScoreKeys
    ensures HtmlFeature(html, soup, k) == Whole(0)
  {
    match k
    case DomainTitleMatchScore =>
    case URLTitleMatchScore =>
    case TLDLegitimateProb =>
    case URLCharProb =>
    case CharContinuationRate =>
    case ObfuscationRatio =>
    case NoOfObfuscatedChar =>
    case HasObfuscation =>
  }

  // ---------------------------------------------------------------------------
  // _vectorize

  /** A column name of the scaler's column list: one of the feature names, or
      a name no feature dict has. */
  datatype Column = Known(key: FeatureName) | Unknown(name: string)

  /** `features_dict.get(k, 0)`. */
  function Get(features: Features, c: Column): Feature {
    match c
    case Known(k) => if k in features then features[k] else Whole(0)
    case Unknown(_) => Whole(0)
  }

  /** `[features_dict.get(k, 0) for k in ordered_keys]`. */
  function Vectorize(features: Features, columns: seq<Column>): (r: seq<Feature>)
    ensures |r| == |columns|
    ensures forall i | 0 <= i < |columns| :: r[i] == Get(features, columns[i])
    decreases |columns|
  {
    if columns == [] then []
    else [Get(features, columns[0])] + Vectorize(features, columns[1..])
  }
}
