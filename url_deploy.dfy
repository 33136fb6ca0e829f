/** The deployment copy of `PhishingUrlDetector` in
    `library/ml_resources/url_deploy.py`: its helpers are the ones of
    `model_managers.py` (module `UrlDetector`), but `_vectorize` uses a fixed
    45-name column order and `predict` takes the page title as a parameter. */
module UrlDeploy {
  import opened Wrappers
  import opened UrlDetector

  /** Entry `i` of the `ordered_keys` list of `_vectorize`. */
  function ColumnAt(i: int): FeatureName
    requires 0 <= i < 45
  {
    match i
    case 0 => URLLength
    case 1 => DomainLength
    case 2 => IsDomainIP
    case 3 => TLDLength
    case 4 => IsHTTPS
    case 5 => NoOfSubDomain
    case 6 => NoOfDegitsInURL
    case 7 => NoOfLettersInURL
    case 8 => SpacialCharRatioInURL
    case 9 => NoOfEqualsInURL
    case 10 => NoOfQMarkInURL
    case 11 => NoOfAmpersandInURL
    case 12 => NoOfOtherSpecialCharsInURL
    case 13 => LineOfCode
    case 14 => LargestLineLength
    case 15 => HasTitle
    case 16 => HasDescription
    case 17 => HasSubmitButton
    case 18 => HasHiddenFields
    case 19 => HasPasswordField
    case 20 => HasSocialNet
    case 21 => Bank
    case 22 => Pay
    case 23 => Crypto
    case 24 => HasCopyrightInfo
    case 25 => NoOfImage
    case 26 => NoOfCSS
    case 27 => NoOfJS
    case 28 => NoOfiFrame
    case 29 => Robots
    case 30 => IsResponsive
    case 31 => NoOfURLRedirect
    case 32 => NoOfSelfRedirect
    case 33 => HasExternalFormSubmit
    case 34 => NoOfSelfRef
    case 35 => NoOfEmptyRef
    case 36 => NoOfExternalRef
    case 37 => DomainTitleMatchScore
    case 38 => URLTitleMatchScore
    case 39 => TLDLegitimateProb
    case 40 => URLCharProb
    case 41 => CharContinuationRate
    case 42 => ObfuscationRatio
    case 43 => NoOfObfuscatedChar
    case 44 => HasObfuscation
  }

  function KnownAt(i: int): Column
    requires 0 <= i < 45
  {
    Known(ColumnAt(i))
  }

  /** The `ordered_keys` list, as scaler columns. */
  function OrderedColumns(): (r: seq<Column>)
    ensures |r| == 45
  {
    seq(45, KnownAt)
  }

  /** Every feature name is a key of one of the two extractors' dicts. */
  lemma EveryFeatureExtracted(k: FeatureName)
    ensures k in UrlKeys + HtmlKeys
  {
  }

  /** The position of each name in the column list. */
  function Position(k: FeatureName): nat {
    match k
    case URLLength => 0 case DomainLength => 1 case IsDomainIP => 2 case TLDLength => 3
    case IsHTTPS => 4 case NoOfSubDomain => 5 case NoOfDegitsInURL => 6
    case NoOfLettersInURL => 7 case SpacialCharRatioInURL => 8 case NoOfEqualsInURL => 9
    case NoOfQMarkInURL => 10 case NoOfAmpersandInURL => 11 case NoOfOtherSpecialCharsInURL => 12
    case LineOfCode => 13 case LargestLineLength => 14 case HasTitle => 15
    case HasDescription => 16 case HasSubmitButton => 17 case HasHiddenFields => 18
    case HasPasswordField => 19 case HasSocialNet => 20 case Bank => 21 case Pay => 22
    case Crypto => 23 case HasCopyrightInfo => 24 case NoOfImage => 25 case NoOfCSS => 26
    case NoOfJS => 27 case NoOfiFrame => 28 case Robots => 29 case IsResponsive => 30
    case NoOfURLRedirect => 31 case NoOfSelfRedirect => 32 case HasExternalFormSubmit => 33
    case NoOfSelfRef => 34 case NoOfEmptyRef => 35 case NoOfExternalRef => 36
    case DomainTitleMatchScore => 37 case URLTitleMatchScore => 38 case TLDLegitimateProb => 39
    case URLCharProb => 40 case CharContinuationRate => 41 case ObfuscationRatio => 42
    case NoOfObfuscatedChar => 43 case HasObfuscation => 44
  }

  /** The URL features fill the first 13 columns and the HTML features the
      rest. */
  lemma UrlColumnsFirst(k: FeatureName)
    requires k in UrlKeys
    ensures Position(k) < 13
  {
  }

  lemma HtmlColumnsAfter(k: FeatureName)
    requires k in HtmlKeys
    ensures Position(k) >= 13
  {
  }

  /** No name is a key of both dicts, so the merge overwrites nothing. */
  lemma FeatureDictsDisjoint()
    ensures UrlKeys !! HtmlKeys
  {
    forall k | k in UrlKeys
      ensures k !in HtmlKeys
    {
      UrlColumnsFirst(k);
      if k in HtmlKeys {
        HtmlColumnsAfter(k);
      }
    }
  }

  /** Every feature name sits at its position in the column list. */
  lemma ColumnAtPosition(k: FeatureName)
    ensures Position(k) < 45 && ColumnAt(Position(k)) == k
  {
    match k
    case URLLength =>
    case DomainLength =>
    case IsDomainIP =>
    case TLDLength =>
    case IsHTTPS =>
    case NoOfSubDomain =>
    case NoOfDegitsInURL =>
    case NoOfLettersInURL =>
    case SpacialCharRatioInURL =>
    case NoOfEqualsInURL =>
    case NoOfQMarkInURL =>
    case NoOfAmpersandInURL =>
    case NoOfOtherSpecialCharsInURL =>
    case LineOfCode =>
    case LargestLineLength =>
    case HasTitle =>
    case HasDescription =>
    case HasSubmitButton =>
    case HasHiddenFields =>
    case HasPasswordField =>
    case HasSocialNet =>
    case Bank =>
    case Pay =>
    case Crypto =>
    case HasCopyrightInfo =>
    case NoOfImage =>
    case NoOfCSS =>
    case NoOfJS =>
    case NoOfiFrame =>
    case Robots =>
    case IsResponsive =>
    case NoOfURLRedirect =>
    case NoOfSelfRedirect =>
    case HasExternalFormSubmit =>
    case NoOfSelfRef =>
    case NoOfEmptyRef =>
    case NoOfExternalRef =>
    case DomainTitleMatchScore =>
    case URLTitleMatchScore =>
    case TLDLegitimateProb =>
    case URLCharProb =>
    case CharContinuationRate =>
    case ObfuscationRatio =>
    case NoOfObfuscatedChar =>
    case HasObfuscation =>
  }

  /** The column list has 45 entries and names each feature exactly once:
      position and entry are inverse. */
  lemma OrderedColumnsAreTheFeatures(i: int)
    requires 0 <= i < 45
    ensures |OrderedColumns()| == 45 && OrderedColumns()[i] == Known(ColumnAt(i))
    ensures Position(ColumnAt(i)) == i
  {
  }

  /** `{**url_feats, **html_feats}`: the union, the HTML value winning on a
      shared name. */
  function MergeFeatures(urlFeats: Features, htmlFeats: Features): (r: Features)
    ensures r.Keys == urlFeats.Keys + htmlFeats.Keys
    ensures forall k | k in htmlFeats :: r[k] == htmlFeats[k]
    ensures forall k | k in urlFeats && k !in htmlFeats :: r[k] == urlFeats[k]
  {
    urlFeats + htmlFeats
  }

  /** The merge loses no URL feature: when both extractors succeed, every
      feature of both dicts keeps the value its extractor computed. */
  lemma MergeLosesNoFeature(url: string, parsed: Option<UrlParts>, html: string, soup: SoupFacts)
    requires url != [] && parsed.Some? && !soup.title.TitleWithoutString?
    ensures var m := MergeFeatures(ExtractUrlFeatures(url, parsed).value, ExtractHtmlFeatures(html, soup).value);
      m.Keys == UrlKeys + HtmlKeys &&
      (forall k | k in UrlKeys :: m[k] == UrlFeature(url, parsed.value.netloc, parsed.value.scheme, k)) &&
      (forall k | k in HtmlKeys :: m[k] == HtmlFeature(html, soup, k))
  {
    FeatureDictsDisjoint();
  }

  /** `self._vectorize(features_dict)` of this file: the fixed 45-column projection. */
  function VectorizeFixed(features: Features): (r: seq<Feature>)
    ensures |r| == |OrderedColumns()|
  {
    Vectorize(features, OrderedColumns())
  }

  /** The fixed projection puts each present feature at its own position. */
  lemma VectorizeFixedAt(features: Features, k: FeatureName)
    requires k in features
    ensures |VectorizeFixed(features)| == 45 && Position(k) < 45
    ensures VectorizeFixed(features)[Position(k)] == features[k]
  {
    ColumnAtPosition(k);
    assert OrderedColumns()[Position(k)] == Known(k);
  }

  /** The features of one prediction in column order, or the exception that
      escapes: the URL extractor runs first, so its error wins. */
  function StructuredVector(url: string, parsed: Option<UrlParts>, html: string, soup: SoupFacts)
    : (r: Result<seq<Feature>, ExtractionError>)
    ensures parsed.None? ==> r == Err(ValueError)
    ensures parsed.Some? && url == [] ==> r == Err(ZeroDivisionError)
    ensures parsed.Some? && url != [] && soup.title.TitleWithoutString? ==> r == Err(AttributeError)
    ensures r.Ok? <==> url != [] && parsed.Some? && !soup.title.TitleWithoutString?
  {
    match ExtractUrlFeatures(url, parsed)
    case Err(e) => Err(e)
    case Ok(urlFeats) =>
      match ExtractHtmlFeatures(html, soup)
      case Err(e) => Err(e)
      case Ok(htmlFeats) => Ok(VectorizeFixed(MergeFeatures(urlFeats, htmlFeats)))
  }

  /** The structured vector has 45 entries, and the entry at each feature's
      position is the value its extractor computed: the default 0 is never used. */
  lemma StructuredVectorEntries(url: string, parsed: Option<UrlParts>, html: string, soup: SoupFacts,
                                k: FeatureName)
    requires url != [] && parsed.Some? && !soup.title.TitleWithoutString?
    ensures var v := StructuredVector(url, parsed, html, soup).value;
      |v| == 45 && Position(k) < 45 &&
      v[Position(k)] == (if k in UrlKeys then UrlFeature(url, parsed.value.netloc, parsed.value.scheme, k)
                         else HtmlFeature(html, soup, k))
  {
    var m := MergeFeatures(ExtractUrlFeatures(url, parsed).value, ExtractHtmlFeatures(html, soup).value);
    assert StructuredVector(url, parsed, html, soup).value == VectorizeFixed(m);
    EveryFeatureExtracted(k);
    MergeLosesNoFeature(url, parsed, html, soup);
    VectorizeFixedAt(m, k);
  }

  /** What `predict` hands to the model, before scaling and padding. */
  datatype ModelInputs = ModelInputs(urlSeq: seq<int>, titleSeq: seq<int>, structured: seq<Feature>)

  const UrlMaxLen := 200
  const TitleMaxLen := 120

  /** The inputs `predict(url, title, html)` builds, or the exception it
      raises while building them. */
  function PredictInputs(char2idx: map<char, int>, url: string, title: string, html: string,
                         parsed: Option<UrlParts>, soup: SoupFacts): (r: Result<ModelInputs, ExtractionError>)
    ensures r.Err? <==> StructuredVector(url, parsed, html, soup).Err?
    ensures r.Err? ==> r.error == StructuredVector(url, parsed, html, soup).error
    ensures r.Ok? ==>
      && |r.value.urlSeq| == UrlMaxLen && |r.value.titleSeq| == TitleMaxLen
      && r.value.urlSeq == TextToSeq(char2idx, url, UrlMaxLen)
      && r.value.titleSeq == TextToSeq(char2idx, title, TitleMaxLen)
      && Ok(r.value.structured) == StructuredVector(url, parsed, html, soup)
  {
    match StructuredVector(url, parsed, html, soup)
    case Err(e) => Err(e)
    case Ok(v) =>
      Ok(ModelInputs(TextToSeq(char2idx, url, UrlMaxLen), TextToSeq(char2idx, title, TitleMaxLen), v))
  }
}
