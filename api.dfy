/** The response envelope and the generic request pipeline of `library/api.py`:
    `APIOutput.success` / `APIOutput.error`, the grouping of pydantic errors by
    type, and `APIHandler.handle` with its validate, hook and compute stages. */
module Api {
  import opened Wrappers
  import opened JsonValues
  import opened Exceptions

  // ---------------------------------------------------------------------------
  // Envelope

  datatype OutputStatus = SUCCESS | FAILURE {
    /** The enum member's `.value`, the string that is written into the envelope. */
    function Value(): (v: string)
      ensures v == "SUCCESS" || v == "FAILURE"
      ensures (v == "SUCCESS") == (this == SUCCESS)
    {
      match this
      case SUCCESS => "SUCCESS"
      case FAILURE => "FAILURE"
    }
  }

  /** An `APIOutput`: a dict with the three keys status, message and data. */
  datatype Envelope = Envelope(status: OutputStatus, message: string, data: map<string, Json>) {
    /** The envelope as the dict the client receives. */
    function AsDict(): (d: map<string, Json>)
      ensures d.Keys == {"status", "message", "data"}
      ensures d["status"] == JStr("SUCCESS") || d["status"] == JStr("FAILURE")
      ensures d["status"] == JStr("SUCCESS") <==> status == SUCCESS
      ensures d["message"] == JStr(message) && d["data"] == JObject(data)
    {
      map["status" := JStr(status.Value()), "message" := JStr(message), "data" := JObject(data)]
    }

    function AsJson(): Json {
      JObject(AsDict())
    }
  }

  const DefaultSuccessMessage: string := "Ok."
  const FailureMessage: string := "Request failed."

  /** `APIOutput.success(data, message)`: `message or "Ok."`, so both a missing
      and an empty message fall back to the default. */
  function Success(data: map<string, Json>, message: Option<string>): (r: Envelope)
    ensures r.status == SUCCESS && r.data == data
    ensures message.Some? && message.value != "" ==> r.message == message.value
    ensures message.None? || message.value == "" ==> r.message == DefaultSuccessMessage
  {
    Envelope(SUCCESS, if message.Some? && message.value != "" then message.value else DefaultSuccessMessage, data)
  }

  /** `APIOutput.error(code, description, **kwargs)`. Python's call syntax
      already forbids a keyword argument named `code` or `description`. */
  function Error(code: string, description: Json, extra: map<string, Json>): (r: Envelope)
    requires "code" !in extra && "description" !in extra
    ensures r.status == FAILURE && r.message == FailureMessage
    ensures r.data.Keys == {"code", "description"} + extra.Keys
    ensures r.data["code"] == JStr(code) && r.data["description"] == description
    ensures forall k | k in extra :: r.data[k] == extra[k]
  {
    Envelope(FAILURE, FailureMessage, map["code" := JStr(code), "description" := description] + extra)
  }

  /** Serialising loses nothing: two envelopes with the same dict are the same
      envelope, so a client reading status, message and data sees all of it. */
  lemma AsDictLosesNothing(e1: Envelope, e2: Envelope)
    ensures e1.AsDict() == e2.AsDict() <==> e1 == e2
  {
    if e1.AsDict() == e2.AsDict() {
      assert e1.AsDict()["status"] == e2.AsDict()["status"];
      assert e1.AsDict()["message"] == e2.AsDict()["message"];
      assert e1.AsDict()["data"] == e2.AsDict()["data"];
    }
  }

  // ---------------------------------------------------------------------------
  // Grouping of validation errors by type

  /** The list a `defaultdict(lambda: [])` yields for key `k`. */
  function GroupOf(g: map<string, seq<LocItem>>, k: string): seq<LocItem> {
    if k in g then g[k] else []
  }

  /** The dict the grouping loop has built after the records `errs`, one append
      per record, specified record by record from the left. */
  function Grouped(errs: seq<ErrorRecord>): map<string, seq<LocItem>>
    decreases |errs|
  {
    if errs == [] then map[]
    else
      var prior := Grouped(errs[..|errs| - 1]);
      var e := errs[|errs| - 1];
      prior[e.kind := GroupOf(prior, e.kind) + [e.loc0]]
  }

  /** The dict's key order: error types in order of first appearance. */
  function FirstSeen(errs: seq<ErrorRecord>): seq<string>
    decreases |errs|
  {
    if errs == [] then []
    else
      var prior := FirstSeen(errs[..|errs| - 1]);
      var k := errs[|errs| - 1].kind;
      if k in prior then prior else prior + [k]
  }

  /** Reference definition: the locations of the records of type `k`, in order. */
  function LocsOf(errs: seq<ErrorRecord>, k: string): seq<LocItem>
  {
    if errs == [] then []
    else (if errs[0].kind == k then [errs[0].loc0] else []) + LocsOf(errs[1..], k)
  }

  /** Reference definition: the error types that occur at all. */
  function Kinds(errs: seq<ErrorRecord>): set<string> {
    set e | e in errs :: e.kind
  }

  /** The summed lengths of the groups listed in `keys`. */
  function TotalSize(g: map<string, seq<LocItem>>, keys: seq<string>): nat
    decreases |keys|
  {
    if keys == [] then 0
    else TotalSize(g, keys[..|keys| - 1]) + |GroupOf(g, keys[|keys| - 1])|
  }

  predicate Distinct(keys: seq<string>) {
    forall i, j | 0 <= i < j < |keys| :: keys[i] != keys[j]
  }

  lemma {:induction false} LocsOfAppend(a: seq<ErrorRecord>, b: seq<ErrorRecord>, k: string)
    ensures LocsOf(a + b, k) == LocsOf(a, k) + LocsOf(b, k)
    decreases |a|
  {
    if a == [] {
      assert a + b == b;
    } else {
      assert (a + b)[0] == a[0] && (a + b)[1..] == a[1..] + b;
      var h := if a[0].kind == k then [a[0].loc0] else [];
      assert LocsOf(a + b, k) == h + LocsOf(a[1..] + b, k);
      LocsOfAppend(a[1..], b, k);
      assert h + (LocsOf(a[1..], k) + LocsOf(b, k)) == (h + LocsOf(a[1..], k)) + LocsOf(b, k);
    }
  }

  lemma {:induction false} LocsOfEmpty(errs: seq<ErrorRecord>, k: string)
    ensures LocsOf(errs, k) == [] <==> k !in Kinds(errs)
    decreases |errs|
  {
    if errs != [] {
      LocsOfEmpty(errs[1..], k);
      assert Kinds(errs) == {errs[0].kind} + Kinds(errs[1..]) by {
        assert forall e :: e in errs <==> e == errs[0] || e in errs[1..];
      }
    }
  }

  /** The grouping agrees with the reference: its keys are exactly the error
      types that occur, each key lists the locations of its records in order,
      and so no key holds an empty list. */
  lemma {:induction false} GroupedIsFilter(errs: seq<ErrorRecord>)
    ensures Grouped(errs).Keys == Kinds(errs)
    ensures forall k | k in Grouped(errs) :: Grouped(errs)[k] == LocsOf(errs, k)
    ensures forall k | k in Grouped(errs) :: |Grouped(errs)[k]| > 0
    decreases |errs|
  {
    if errs != [] {
      var p, e := errs[..|errs| - 1], errs[|errs| - 1];
      assert errs == p + [e];
      GroupedIsFilter(p);
      var g := Grouped(p);
      assert Grouped(errs) == g[e.kind := GroupOf(g, e.kind) + [e.loc0]];
      assert Kinds(errs) == Kinds(p) + {e.kind} by {
        assert forall x :: x in errs <==> x in p || x == e;
      }
      forall k | k in Grouped(errs)
        ensures Grouped(errs)[k] == LocsOf(errs, k)
      {
        LocsOfAppend(p, [e], k);
        assert LocsOf([e], k) == (if e.kind == k then [e.loc0] else []) by {
          assert [e][1..] == [];
        }
        if k == e.kind && k !in g {
          LocsOfEmpty(p, k);
        }
      }
    }
  }

  /** The key order lists every key of the grouping exactly once. */
  lemma {:induction false} FirstSeenIsKeyOrder(errs: seq<ErrorRecord>)
    ensures Distinct(FirstSeen(errs))
    ensures forall k :: k in FirstSeen(errs) <==> k in Grouped(errs)
    decreases |errs|
  {
    if errs != [] {
      FirstSeenIsKeyOrder(errs[..|errs| - 1]);
    }
  }

  lemma {:induction false} TotalSizeUpdate(g: map<string, seq<LocItem>>, keys: seq<string>, k: string, v: seq<LocItem>)
    requires Distinct(keys)
    ensures k in keys ==> TotalSize(g[k := v], keys) + |GroupOf(g, k)| == TotalSize(g, keys) + |v|
    ensures k !in keys ==> TotalSize(g[k := v], keys) == TotalSize(g, keys)
    decreases |keys|
  {
    if keys != [] {
      var front := keys[..|keys| - 1];
      assert Distinct(front);
      TotalSizeUpdate(g, front, k, v);
      assert k in keys ==> k in front || k == keys[|keys| - 1];
    }
  }

  /** No record is lost or counted twice: the group lengths, taken in key
      order, add up to the number of records. */
  lemma {:induction false} GroupedSizes(errs: seq<ErrorRecord>)
    ensures TotalSize(Grouped(errs), FirstSeen(errs)) == |errs|
    decreases |errs|
  {
    if errs != [] {
      var p, e := errs[..|errs| - 1], errs[|errs| - 1];
      GroupedSizes(p);
      FirstSeenIsKeyOrder(p);
      var g, keys := Grouped(p), FirstSeen(p);
      TotalSizeUpdate(g, keys, e.kind, GroupOf(g, e.kind) + [e.loc0]);
      if e.kind !in keys {
        FirstSeenIsKeyOrder(errs);
        assert FirstSeen(errs)[..|FirstSeen(errs)| - 1] == keys;
      }
    }
  }

  /** The loop of `_handle_validation_failed_exc`: appends each record's
      `loc[0]` to the list of its type, creating the list on first use. */
  method GroupErrors(errs: seq<ErrorRecord>) returns (order: seq<string>, groups: map<string, seq<LocItem>>)
    ensures groups == Grouped(errs)
    ensures order == FirstSeen(errs)
  {
    order, groups := [], map[];
    for i := 0 to |errs|
      invariant groups == Grouped(errs[..i])
      invariant order == FirstSeen(errs[..i])
    {
      FirstSeenIsKeyOrder(errs[..i]);
      var e := errs[i];
      if e.kind !in groups {
        groups := groups[e.kind := []];
        order := order + [e.kind];
      }
      groups := groups[e.kind := groups[e.kind] + [e.loc0]];
      assert errs[..i + 1][..i] == errs[..i];
    }
    assert errs[..|errs|] == errs;
  }

  function LocJson(l: LocItem): Json {
    match l
    case Field(name) => JStr(name)
    case Index(i) => JInt(i)
  }

  /** The grouped errors as the JSON object placed under `data.errors`. */
  function ErrorsJson(groups: map<string, seq<LocItem>>): (j: Json)
    ensures j.JObject? && j.fields.Keys == groups.Keys
    ensures forall k | k in groups :: j.fields[k].JArray? && |j.fields[k].items| == |groups[k]|
    ensures forall k | k in groups :: forall i | 0 <= i < |groups[k]| :: j.fields[k].items[i] == LocJson(groups[k][i])
  {
    JObject(map k | k in groups :: JArray(seq(|groups[k]|, i requires 0 <= i < |groups[k]| => LocJson(groups[k][i]))))
  }

  const ValidationFailedCode: string := "VALIDATION_FAILED"
  const ValidationFailedDescription: string := "Request Body Validation Failed."

  /** The envelope built for a caught pydantic `ValidationError`. */
  function ValidationFailedOutput(errs: seq<ErrorRecord>): (r: Envelope)
    ensures r.status == FAILURE && r.message == FailureMessage
    ensures r.data.Keys == {"code", "description", "errors"}
    ensures r.data["code"] == JStr(ValidationFailedCode)
    ensures r.data["description"] == JStr(ValidationFailedDescription)
    ensures r.data["errors"].JObject? && r.data["errors"].fields.Keys == Kinds(errs)
    ensures forall k | k in Kinds(errs) ::
      r.data["errors"].fields[k].JArray? &&
      |r.data["errors"].fields[k].items| == |LocsOf(errs, k)| &&
      forall i | 0 <= i < |LocsOf(errs, k)| :: r.data["errors"].fields[k].items[i] == LocJson(LocsOf(errs, k)[i])
  {
    GroupedIsFilter(errs);
    Error(ValidationFailedCode, JStr(ValidationFailedDescription), map["errors" := ErrorsJson(Grouped(errs))])
  }

  /** `APIHandler._handle_validation_failed_exc` (logging left out). */
  method HandleValidationFailedExc(errs: seq<ErrorRecord>) returns (out: Envelope)
    ensures out == ValidationFailedOutput(errs)
  {
    var order, groups := GroupErrors(errs);
    out := Error(ValidationFailedCode, JStr(ValidationFailedDescription), map["errors" := ErrorsJson(groups)]);
  }

  // ---------------------------------------------------------------------------
  // Request pipeline

  /** What an `InputValidator` returns: `(ok, reason)`. */
  datatype Verdict = Verdict(ok: bool, reason: Option<string>)

  /** An `APIHandler`: its stored `_raw_input` and the three capabilities a
      subclass supplies as properties. `build` is the input schema's constructor
      applied to the raw dict (failing with pydantic's error records),
      `validator` the optional semantic check and `computer` the computer's
      `compute`, which may raise. */
  datatype Handler<!I> = Handler(
    rawInput: Raw,
    build: Raw -> Result<I, seq<ErrorRecord>>,
    validator: Option<I -> Verdict>,
    computer: I -> Result<Envelope, Exception>)

  /** The stages `handle` enters: `_validate`, the `_handle` hook and `_compute`. */
  datatype Stage = Validation | Hook | Computation

  datatype Outcome = Returned(envelope: Envelope) | Raised(exc: Exception)

  /** One call of `handle`: the stages it ran, in order, and how it ended. */
  datatype Run = Run(stages: seq<Stage>, outcome: Outcome)

  /** The `api_input` property: the typed input, rebuilt from the raw dict. */
  function ApiInput<I>(h: Handler<I>): Result<I, seq<ErrorRecord>> {
    h.build(h.rawInput)
  }

  /** `_validate`: `(True, None)` without a validator; otherwise the validator's
      verdict on `api_input`, whose construction may raise `ValidationError`. */
  function Validate<I>(h: Handler<I>): (r: Result<Verdict, seq<ErrorRecord>>)
    ensures h.validator.None? ==> r == Ok(Verdict(true, None))
    ensures h.validator.Some? && ApiInput(h).Err? ==> r == Err(ApiInput(h).error)
    ensures h.validator.Some? && ApiInput(h).Ok? ==> r == Ok(h.validator.value(ApiInput(h).value))
  {
    match h.validator
    case None => Ok(Verdict(true, None))
    case Some(check) =>
      match ApiInput(h)
      case Err(errs) => Err(errs)
      case Ok(input) => Ok(check(input))
  }

  /** `_compute`: builds `api_input` again and hands it to the computer. Neither
      a `ValidationError` from the construction nor an exception from the
      computer is caught here. */
  function Compute<I>(h: Handler<I>): (r: Outcome)
    ensures ApiInput(h).Err? ==> r == Raised(ValidationError(ApiInput(h).error))
    ensures ApiInput(h).Ok? && h.computer(ApiInput(h).value).Ok? ==>
      r == Returned(h.computer(ApiInput(h).value).value)
    ensures ApiInput(h).Ok? && h.computer(ApiInput(h).value).Err? ==>
      r == Raised(h.computer(ApiInput(h).value).error)
  {
    match ApiInput(h)
    case Err(errs) => Raised(ValidationError(errs))
    case Ok(input) =>
      match h.computer(input)
      case Ok(out) => Returned(out)
      case Err(exc) => Raised(exc)
  }

  /** The validator's reason as it lands in the envelope (`None` becomes null). */
  function ReasonJson(reason: Option<string>): Json {
    match reason
    case Some(text) => JStr(text)
    case None => JNull
  }

  /** `APIHandler.handle`. */
  function Handle<I>(h: Handler<I>): (r: Run)
    ensures r.stages == [Validation] || r.stages == [Validation, Hook, Computation]
    ensures r.stages == [Validation] ==>
      r.outcome.Returned? && r.outcome.envelope.status == FAILURE &&
      "code" in r.outcome.envelope.data && r.outcome.envelope.data["code"] == JStr(ValidationFailedCode)
    ensures r.stages == [Validation, Hook, Computation] ==> r.outcome == Compute(h)
    ensures r.outcome.Raised? ==> r.stages == [Validation, Hook, Computation]
    ensures h.validator.None? ==> r == Run([Validation, Hook, Computation], Compute(h))
  {
    match Validate(h)
    case Err(errs) => Run([Validation], Returned(ValidationFailedOutput(errs)))
    case Ok(verdict) =>
      if !verdict.ok then
        Run([Validation], Returned(Error(ValidationFailedCode, ReasonJson(verdict.reason), map[])))
      else
        Run([Validation, Hook, Computation], Compute(h))
  }

  /** A validator's rejection ends the request with its reason, before the hook
      and the computer run. */
  lemma HandleRejected<I>(h: Handler<I>)
    requires h.validator.Some? && ApiInput(h).Ok?
    requires !h.validator.value(ApiInput(h).value).ok
    ensures Handle(h) == Run([Validation],
      Returned(Error(ValidationFailedCode, ReasonJson(h.validator.value(ApiInput(h).value).reason), map[])))
  {
  }

  /** A schema error raised while validating is caught and grouped. */
  lemma HandleSchemaErrorCaught<I>(h: Handler<I>)
    requires h.validator.Some? && ApiInput(h).Err?
    ensures Handle(h) == Run([Validation], Returned(ValidationFailedOutput(ApiInput(h).error)))
  {
  }

  /** Without a validator the input is first built inside `_compute`, outside
      the `try`: the schema error escapes `handle`, after the hook has run. */
  lemma HandleSchemaErrorEscapes<I>(h: Handler<I>)
    requires h.validator.None? && ApiInput(h).Err?
    ensures Handle(h) == Run([Validation, Hook, Computation], Raised(ValidationError(ApiInput(h).error)))
  {
  }

  /** Once validation passes, the hook runs once, then the computer's envelope
      is returned unchanged (or its exception propagates). */
  lemma HandlePasses<I>(h: Handler<I>)
    requires Validate(h).Ok? && Validate(h).value.ok
    requires ApiInput(h).Ok?
    ensures Handle(h).stages == [Validation, Hook, Computation]
    ensures h.computer(ApiInput(h).value).Ok? ==>
      Handle(h).outcome == Returned(h.computer(ApiInput(h).value).value)
    ensures h.computer(ApiInput(h).value).Err? ==>
      Handle(h).outcome == Raised(h.computer(ApiInput(h).value).error)
  {
  }
}
