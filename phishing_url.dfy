/** The URL endpoint: `PhishingUrlComputer` and `PhishingUrlHandler`.
    The input schema `PhishingUrlInput` is not part of this model; its
    constructor is the parameter `build` and its type the parameter `I`. */
module PhishingUrl {
  import opened Wrappers
  import opened JsonValues
  import opened Exceptions
  import opened Api

  const AnalysedMessage: string := "Phishing url analysed"

  /** `PhishingUrlComputer.compute`: a stub that ignores its input and always
      reports `is_phishing = True`. */
  function Compute<I(!new)>(input: I): (r: Envelope)
    ensures r.status == SUCCESS && r.message == AnalysedMessage
    ensures r.data.Keys == {"is_phishing"} && r.data["is_phishing"] == JBool(true)
  {
    Success(map["is_phishing" := JBool(true)], Some(AnalysedMessage))
  }

  /** The detector's `predict` returns `(label, confidence)`, but the stub
      reports no confidence. */
  lemma NoConfidence<I(!new)>(input: I)
    ensures "confidence" !in Compute(input).data
  {
  }

  /** Every input yields the same envelope. */
  lemma ComputeIgnoresInput<I(!new)>(a: I, b: I)
    ensures Compute(a) == Compute(b)
  {
  }

  /** `PhishingUrlHandler(raw)`: `api_input` rebuilds the input from the raw
      dict on each access, `computer` is a fresh stateless computer that never
      raises, and `validator` is None. */
  function NewHandler<I(!new)>(raw: Raw, build: Raw -> Result<I, seq<ErrorRecord>>): (h: Handler<I>)
    ensures h.rawInput == raw && h.build == build && h.validator.None?
    ensures forall i :: h.computer(i) == Ok(Compute(i))
  {
    Handler(raw, build, None, (i: I) => Ok(Compute(i)))
  }

  /** With no validator, `_validate` always passes. */
  lemma ValidationAlwaysPasses<I(!new)>(raw: Raw, build: Raw -> Result<I, seq<ErrorRecord>>)
    ensures Validate(NewHandler(raw, build)) == Ok(Verdict(true, None))
  {
  }

  /** A body the schema accepts gets the computer's constant SUCCESS envelope. */
  lemma HandleWellFormed<I(!new)>(raw: Raw, build: Raw -> Result<I, seq<ErrorRecord>>)
    requires build(raw).Ok?
    ensures Handle(NewHandler(raw, build)).outcome == Returned(Compute(build(raw).value))
    ensures Handle(NewHandler(raw, build)).outcome.envelope.status == SUCCESS
  {
  }

  /** A body the schema rejects raises its ValidationError out of `handle`
      instead of becoming a VALIDATION_FAILED envelope. */
  lemma HandleMalformed<I(!new)>(raw: Raw, build: Raw -> Result<I, seq<ErrorRecord>>)
    requires build(raw).Err?
    ensures Handle(NewHandler(raw, build)).outcome == Raised(ValidationError(build(raw).error))
  {
  }
}
