# Phishing-detection backend: a Dafny model of its core

The backend is a small Flask service with two endpoints. One classifies an
e-mail as phishing and the other a URL. This project models the parts of it
whose behaviour can be stated outright:

- **The response envelope and the request pipeline** (`library/api.py`, module
  `Api`).
  - `APIOutput.success` and `APIOutput.error` build the three-key envelope
    `{status, message, data}`.
  - `APIHandler.handle` runs `_validate`, then the `_handle` hook, then
    `_compute`. It has two failure exits: a caught pydantic `ValidationError`,
    and a validator that says no.
  - The caught error is grouped by error type into `data.errors`. The loop that
    builds this grouping is an imperative method (`GroupErrors`). It is proved
    against a recursive specification (`Grouped`, `FirstSeen`), and that
    specification is proved against a filter-based reference (`LocsOf`,
    `Kinds`).
  - A handler is a datatype of the capabilities a subclass supplies: the raw
    dict, the schema constructor (which can fail with error records), the
    optional validator and the computer.
  - `Handle` returns the list of stages that ran together with how the call
    ended: an envelope returned, or an exception raised.
- **The Flask boundary** (`library/flask.py`, module `FlaskBoundary`).
  - The three error translators.
  - `get_output`, which maps the envelope's status field to an HTTP status.
  - The exception kinds of `library/exceptions.py` (module `Exceptions`).
- **The two endpoints** (`is_phishing_email`, `is_phishing_url`: modules
  `PhishingEmail` and `PhishingUrl`).
  - Each handler has no validator and a stub computer that returns a constant
    SUCCESS envelope with `is_phishing = true`.
- **The URL detector's feature helpers** (`library/model_managers.py`, module
  `UrlDetector`; the deployment copy `library/ml_resources/url_deploy.py`,
  module `UrlDeploy`).
  - Character encoding to a fixed length.
  - The URL and HTML feature dicts.
  - Vectorisation over a column list.
  - The 45-column order and the merge of the two dicts in the deployment copy.
  - Python's string methods they rely on (`count`, `split`, `in`, `lower`,
    `max(..., default=0)`) are defined in module `Text`, with lemmas that tie
    each to a reference definition or an inverse: `in` to its windows, `lower`
    to case-insensitive matching, `split` to `join`, and `count` to `in` (it is
    positive exactly when the substring occurs) and, for one character, to the
    number of pieces `split` makes.

Feature dicts are keyed by `UrlDetector.FeatureName`. This enumeration spells
the 45 dict keys of the source exactly.

## Model

| member | source | states |
|---|---|---|
| Exceptions.Description | src/library/exceptions.py:3-8 | A description given to the exception is used as is. Without one, an MLModelException reports its class default "There was a error in ML model". A CustomException inherits none, so the f-string renders "None". |
| Api.OutputStatus.Value | src/library/api.py:11-13 | The enum value is "SUCCESS" exactly for SUCCESS and "FAILURE" otherwise. |
| Api.Envelope.AsDict | src/library/api.py:16-18 | An envelope is a dict with exactly the keys status, message and data. status is one of the two enum values, "SUCCESS" exactly for a successful envelope, and message and data are stored as given. |
| Api.AsDictLosesNothing | src/library/api.py:11-18 | Two envelopes serialise to the same dict exactly when they are equal: status, message and data all reach the client. |
| Api.Success | src/library/api.py:28-30 | Status SUCCESS and data unchanged. The message is the given one, or "Ok." when it is missing or empty. |
| Api.Error | src/library/api.py:20-26 | Status FAILURE and message "Request failed.". data holds code and description as given plus every extra keyword, and nothing else. |
| Api.GroupErrors | src/library/api.py:108-110 | The grouping loop leaves exactly the grouped map of the specification, and its keys in order of first appearance. |
| Api.GroupedIsFilter | src/library/api.py:108-110 | The grouping's keys are exactly the error types that occur. Each key lists the `loc[0]` of its records in order. No list is empty. |
| Api.FirstSeenIsKeyOrder | src/library/api.py:108-110 | The key order lists every key of the grouping exactly once. |
| Api.GroupedSizes | src/library/api.py:108-110 | The lengths of the lists add up to the number of error records: none is lost or duplicated. |
| Api.ErrorsJson | src/library/api.py:114 | `data.errors` is an object with the grouping's keys. Each value is the list of its group's locations, as JSON, in order. |
| Api.ValidationFailedOutput | src/library/api.py:111-115 | A caught ValidationError gives a FAILURE envelope with code VALIDATION_FAILED and description "Request Body Validation Failed.". Its errors are keyed by exactly the error types that occur. Under each type is the list of the `loc[0]` of that type's records, in order. |
| Api.HandleValidationFailedExc | src/library/api.py:105-115 | The translator's loop-built envelope equals the specified one. |
| Api.Validate | src/library/api.py:99-103 | Without a validator the verdict is (True, None). Otherwise it is the validator's verdict on the built input, or the schema's ValidationError raised while building it. |
| Api.Compute | src/library/api.py:96-97 | The input is built again. A schema error is raised, not caught. Otherwise the computer's envelope is returned, or its exception raised. |
| Api.Handle | src/library/api.py:75-87 | Either only validation runs, and the result is a VALIDATION_FAILED failure, or validation, the hook and the computation run in that order, and the result is the computation's. Only the latter can raise. Without a validator it always takes the latter path. |
| Api.HandleRejected | src/library/api.py:81-82 | A validator's (False, reason) ends the call with `error("VALIDATION_FAILED", reason)` before the hook and the computer. |
| Api.HandleSchemaErrorCaught | src/library/api.py:76-79 | A ValidationError raised during `_validate` becomes the grouped VALIDATION_FAILED envelope. |
| Api.HandleSchemaErrorEscapes | src/library/api.py:75-97 | Without a validator, a schema error is raised from `_compute`, after the hook, and escapes `handle`. |
| Api.HandlePasses | src/library/api.py:84-87 | After a passing validation the hook runs once. The computer's envelope is then returned unchanged, or its exception propagates. |
| FlaskBoundary.HandlePydanticValidationErrors | src/library/flask.py:12-21 | It produces the same envelope and the same grouping as the handler-level translator. |
| FlaskBoundary.Handle400 | src/library/flask.py:24-33 | A CustomException gives `error("CLIENT_ERROR", description)` and is checked first. An MLModelException gives `error("ML_ERROR", description)`. Anything else is re-raised unchanged. |
| FlaskBoundary.MLDefaultDescription | src/library/flask.py:29-31 | An MLModelException without a description yields ML_ERROR with "There was a error in ML model". |
| FlaskBoundary.HandleGenericException | src/library/flask.py:36-38 | Whatever the exception, the result is the FAILURE envelope with exactly code INTERNAL_SERVER_ERROR and description "Internal Server Error.". |
| FlaskBoundary.GetOutput | src/library/flask.py:55-70 | Body and headers are kept. An object body whose `status` is "SUCCESS" gets 200, "FAILURE" 400 and "INTERNAL_SERVER_ERROR" 500. An unparsable body, a body that is not an object, and an object without `status` or with another status all come back unchanged. |
| FlaskBoundary.EnvelopeStatusMapping | src/library/flask.py:60-63 | Any envelope leaves with 200 if its status is SUCCESS and 400 otherwise, with the same body. |
| FlaskBoundary.InternalServerErrorUnreachable | src/library/flask.py:64-65 | No envelope ever gets 500, and the generic-exception envelope gets 400. |
| FlaskBoundary.InternalServerErrorTag | src/library/flask.py:64-65 | A hand-written object body whose status is "INTERNAL_SERVER_ERROR" gets 500. |
| FlaskBoundary.InternalServerErrorOnlyIf | src/library/flask.py:57-70 | A response leaves with 500 only when its body is an object tagged "INTERNAL_SERVER_ERROR", or when it already had 500 and is passed through unchanged. |
| PhishingEmail.Compute | src/resources/modules/phishing/is_phishing_email/compute.py:6-16 | The result is a SUCCESS envelope with message "Phishing email analysed". Its data is exactly `{"is_phishing": true}`. |
| PhishingEmail.ComputeIgnoresInput | src/resources/modules/phishing/is_phishing_email/compute.py:6-16 | Every input yields the same envelope. |
| PhishingEmail.NewHandler | src/resources/modules/phishing/is_phishing_email/handler.py:6-17 | The handler keeps the raw dict and the schema constructor. Its validator is None. Its computer never raises and returns the stub's envelope. |
| PhishingEmail.ValidationAlwaysPasses | src/resources/modules/phishing/is_phishing_email/handler.py:15-17 | `_validate` always yields (True, None). |
| PhishingEmail.HandleWellFormed | src/resources/modules/phishing/is_phishing_email/handler.py:7-13 | A body the schema accepts gets the computer's constant SUCCESS envelope. |
| PhishingEmail.HandleMalformed | src/resources/modules/phishing/is_phishing_email/handler.py:7-17 | The schema's ValidationError escapes `handle` instead of becoming an envelope. |
| PhishingUrl.Compute | src/resources/modules/phishing/is_phishing_url/compute.py:6-16 | The result is a SUCCESS envelope with message "Phishing url analysed". Its data is exactly `{"is_phishing": true}`. |
| PhishingUrl.ComputeIgnoresInput | src/resources/modules/phishing/is_phishing_url/compute.py:6-16 | Every input yields the same envelope. |
| PhishingUrl.NoConfidence | src/resources/modules/phishing/is_phishing_url/compute.py:13-15 | The data has no confidence key. |
| PhishingUrl.NewHandler | src/resources/modules/phishing/is_phishing_url/handler.py:6-17 | The handler keeps the raw dict and the schema constructor. Its validator is None. Its computer never raises and returns the stub's envelope. |
| PhishingUrl.ValidationAlwaysPasses | src/resources/modules/phishing/is_phishing_url/handler.py:15-17 | `_validate` always yields (True, None). |
| PhishingUrl.HandleWellFormed | src/resources/modules/phishing/is_phishing_url/handler.py:7-13 | A body the schema accepts gets the computer's constant SUCCESS envelope. |
| PhishingUrl.HandleMalformed | src/resources/modules/phishing/is_phishing_url/handler.py:7-17 | The schema's ValidationError escapes `handle` instead of becoming an envelope. |
| Text.CountIf | src/library/model_managers.py:108-109 | `sum(p(c) for c in s)` is at most `len(s)`. It is 0 exactly when no character qualifies, and `len(s)` exactly when all do. |
| Text.ContainsIff | src/library/model_managers.py:131 | `sub in s` holds exactly when some window of `s` equals `sub`. |
| Text.LowerContains | src/library/model_managers.py:132-137 | For a lower-case keyword, `kw in s.lower()` is containment ignoring case. |
| Text.Occurrences | src/library/model_managers.py:111-113 | `s.count(sub)` for a non-empty `sub` is at most `len(s)`. |
| Text.OccurrencesContains | src/library/model_managers.py:138-142 | `s.count(sub)` for a non-empty `sub` is positive exactly when `sub in s`. |
| Text.OccurrencesOfChar | src/library/model_managers.py:107 | The count of a character is 0 exactly when it does not occur. |
| Text.Split | src/library/model_managers.py:121 | `s.split(sep)` has at least one piece. |
| Text.SplitPieces | src/library/model_managers.py:121 | No piece of `s.split(sep)` holds `sep`, and none is longer than `s`. |
| Text.SplitCount | src/library/model_managers.py:120-121 | There is one piece more than there are separators. |
| Text.JoinSplit | src/library/model_managers.py:121 | Joining the pieces with `sep` gives `s` back. |
| Text.SplitJoin | src/library/model_managers.py:121 | Splitting the join of separator-free pieces gives the pieces back. |
| Text.SplitLast | src/library/model_managers.py:97 | `s.split(sep)[-1]` is a suffix of `s`. It is all of `s` when there is one piece, and preceded by `sep` otherwise. |
| Text.Strip | src/library/model_managers.py:126 | `s.strip()` is a slice of `s` with only whitespace removed before and after it, and it neither starts nor ends with whitespace. |
| Text.StripBlank | src/library/model_managers.py:126 | `s.strip()` is empty exactly when every character of `s` is whitespace. |
| Text.MaxLength | src/library/model_managers.py:121 | `max((len(l) for l in lines), default=0)` bounds every length and is attained, and it is 0 for no lines. |
| UrlDetector.Indices | src/library/model_managers.py:91 | One `char2idx.get(c, 0)` per character, in order. |
| UrlDetector.TextToSeq | src/library/model_managers.py:90-92 | The result has exactly `maxlen` entries. The first `min(len(text), maxlen)` are the characters' indices, 0 when unknown, and the rest are 0. |
| UrlDetector.TextToSeqKeepsPrefix | src/library/model_managers.py:90-92 | Text beyond `maxlen` characters does not change the encoding. |
| UrlDetector.DottedQuadIff | src/library/model_managers.py:99 | The split-based check holds exactly when the domain is four groups of 1 to 3 digits joined by dots. |
| UrlDetector.NoOctetRangeCheck | src/library/model_managers.py:99 | "999.999.999.999" counts as an IP: no group is compared with 255. |
| UrlDetector.TrailingNewlineAccepted | src/library/model_managers.py:99 | Because of the regex's `$`, a netloc "1.2.3.4\n" counts as an IP. |
| UrlDetector.ExtractUrlFeatures | src/library/model_managers.py:94-115 | A URL `urlparse` rejects raises ValueError, and an empty URL raises ZeroDivisionError. Otherwise the dict has exactly the 13 URL keys, each holding its feature. |
| UrlDetector.UrlCountsBounded | src/library/model_managers.py:108-114 | The counts of digits, letters, `=`, `?`, `&` and `$+,:;@` are whole numbers between 0 and the URL length. |
| UrlDetector.SpecialCharRatio | src/library/model_managers.py:102-110 | URLLength is `len(url)`. SpacialCharRatioInURL is the count of non-word characters over it: at most 1, and 0 exactly when every character is a word character. |
| UrlDetector.SubDomainCount | src/library/model_managers.py:107 | NoOfSubDomain is the number of dots minus 1: at least -1, and -1 exactly for a dotless domain. |
| UrlDetector.TldIsAfterLastDot | src/library/model_managers.py:97 | The TLD holds no dot. It is empty for a dotless domain, and otherwise the suffix after the last dot. |
| UrlDetector.DomainFeatures | src/library/model_managers.py:97-105 | IsDomainIP is 1 exactly for a dotted quad of 1 to 3 digit groups, optionally followed by one newline, and 0 otherwise. TLDLength is the TLD's length. |
| UrlDetector.ExtractHtmlFeatures | src/library/model_managers.py:117-152 | A title element whose `.string` is None raises AttributeError. Apart from a parser rejection, nothing else raises. Otherwise the dict has exactly the 32 HTML keys, each holding its feature. |
| UrlDetector.TitleFeature | src/library/model_managers.py:126 | HasTitle is 1 exactly when there is a title whose text holds a non-whitespace character, and 0 otherwise. |
| UrlDetector.LineFeatures | src/library/model_managers.py:120-121 | LineOfCode is the number of newline-split lines minus 1. LargestLineLength is the longest line's length: attained, at most the HTML's length, and 0 for empty HTML. |
| UrlDetector.HasKeywordIgnoresCase | src/library/model_managers.py:132-137 | For a keyword of lower-case letters, `kw in html.lower()` holds exactly when the keyword occurs in the HTML in any mix of cases. |
| UrlDetector.KeywordFlags | src/library/model_managers.py:132-137 | Bank, Pay, Crypto, HasCopyrightInfo, Robots and IsResponsive are 1 exactly when their keyword occurs ignoring case, and 0 otherwise. |
| UrlDetector.ExternalRefIsRedirectCount | src/library/model_managers.py:138-143 | NoOfURLRedirect and NoOfExternalRef are both the count of "http". |
| UrlDetector.ScoreFeaturesZero | src/library/model_managers.py:144-151 | The eight score features are 0 whatever the HTML. |
| UrlDetector.Vectorize | src/library/model_managers.py:154-155 | One entry per column, in order: the feature's value if the dict has it, else 0. |
| UrlDeploy.ColumnAtPosition | src/library/ml_resources/url_deploy.py:104-115 | Every feature name sits at its own position in the fixed column list. |
| UrlDeploy.OrderedColumnsAreTheFeatures | src/library/ml_resources/url_deploy.py:104-115 | The list has 45 entries, and entry i's position is i, so no name repeats. |
| UrlDeploy.EveryFeatureExtracted | src/library/ml_resources/url_deploy.py:104-115 | Every column name is produced by one of the two extractors. |
| UrlDeploy.UrlColumnsFirst | src/library/ml_resources/url_deploy.py:104-107 | The 13 URL features are the first 13 columns. |
| UrlDeploy.HtmlColumnsAfter | src/library/ml_resources/url_deploy.py:108-115 | The HTML features are the remaining columns. |
| UrlDeploy.FeatureDictsDisjoint | src/library/ml_resources/url_deploy.py:27 | The URL and HTML feature dicts share no key. |
| UrlDeploy.MergeFeatures | src/library/ml_resources/url_deploy.py:27 | `{**u, **h}` has the keys of both. The HTML value wins on a shared key, and a URL value is kept otherwise. |
| UrlDeploy.MergeLosesNoFeature | src/library/ml_resources/url_deploy.py:25-27 | When both extractors succeed, the merged dict holds every URL feature and every HTML feature with the value its extractor computed. |
| UrlDeploy.VectorizeFixed | src/library/ml_resources/url_deploy.py:103-116 | The fixed projection has one entry per column. |
| UrlDeploy.VectorizeFixedAt | src/library/ml_resources/url_deploy.py:103-116 | A feature present in the dict lands at its own column position with its value. |
| UrlDeploy.StructuredVector | src/library/ml_resources/url_deploy.py:25-28 | Building the vector raises ValueError when `urlparse` rejects the URL, else ZeroDivisionError for an empty URL, else AttributeError for a title without `.string`. Apart from a parser rejection, it succeeds in every other case. |
| UrlDeploy.StructuredVectorEntries | src/library/ml_resources/url_deploy.py:28 | When it is built, the vector has 45 entries. The entry at each feature's position is that feature's extracted value, so the default 0 is never used. |
| UrlDeploy.PredictInputs | src/library/ml_resources/url_deploy.py:21-28 | `predict` encodes the URL to 200 indices and the given title to 120, and builds the 45-entry feature vector. It raises exactly when building the vector raises, with the same exception. |

## Left out

- Keras/TensorFlow models, the tokenizer, the label encoder, the scaler and loading them from pickle, joblib or JSON files are not modelled. They are foreign libraries and file I/O. `char2idx` is a parameter.
- `PhishingEmailDetector` is not modelled. Its `predict` is tokenizer, padding and model calls only.
- The rest of `PhishingUrlDetector.predict` is not modelled:
  - the probability threshold and the confidence, which are floating point;
  - the scaler transform;
  - the in-place write into the 50-wide zero buffer.
  `UrlDeploy.PredictInputs` stops at the model's unscaled inputs.
- In `model_managers.py`, `predict` and `load` are left out. `predict` derives the title from BeautifulSoup, and its column list comes from a pickle. That column list is a parameter of `UrlDetector.Vectorize`. A column named after no feature is `Unknown`.
- BeautifulSoup is not modelled. The element counts and presence tests it supplies are an input (`SoupFacts`). This covers images, scripts, stylesheets, iframes, title, description, submit button, hidden fields and password field. For the title it records whether the element is missing, has a `.string`, or has none.
- UrlDetector.ExtractHtmlFeatures, UrlDeploy.StructuredVector: the `BeautifulSoup(html, "html.parser")` parse is taken to succeed. Markup the parser rejects, which bs4 raises as `ParserRejectedMarkup`, is not modelled, because the parse result is an input.
- `urlparse` is not modelled. What it returns (`netloc` and `scheme`), or the fact that it raises ValueError, is an input. Which URLs it rejects is not modelled.
- Character classes are ASCII only: `isdigit`, `isalpha`, `\d`, `\w` and `lower()`. Python's Unicode classes are wider.
- SpacialCharRatioInURL is kept as an exact fraction (`Fraction(num, den)`), not a float.
- Logging (`LOGGER.exception`, request ids, `library/logger.py`) is not modelled, nor the Flask plumbing:
  - `before_request` and `after_request`;
  - `APIGetHandler`;
  - the service classes;
  - route registration.
- Pydantic's schema checking is not modelled. The schemas themselves are not part of this model. A schema is a constructor parameter that either builds the input or fails with `(type, loc[0])` records. An error with an empty `loc` (an IndexError in the source) is not representable.
- A validator or hook that raises is not modelled. The `_handle` hook does nothing in the source, so it appears only as a stage of the run.
- JSON floats are not modelled: `Json` has no float case, so a response body holding a float, which `json.loads` in `get_output` accepts, cannot be represented. Such a body takes the same path as any other object body.
- A JSON object's key order is not modelled. The envelope and `data.errors` are maps. The order of error types is modelled separately (`Api.FirstSeen`).
- Exception descriptions follow werkzeug's `HTTPException`: a constructor argument, else the class attribute. werkzeug is not part of this model.
- The duplicated helpers of `url_deploy.py` (`_text_to_seq`, `_extract_url_features`, `_extract_html_features`) are modelled once, in `UrlDetector`.
- The module-level script of `url_deploy.py` and the `__main__` block of `model_managers.py` are not modelled. They load files and print.
