/**
 assistant/paste_core.py: the pipeline behind "Paste & inspect". Redact, apply the
 view, scan, gate, ask for consent, and only then call a model.
 */
module PasteCore {
  import opened Common
  import opened Injection
  import opened Json
  import opened JsonParts
  import opened Occurrences
  import opened Prompts
  import opened Redact
  import opened Views

  const MAX_JSON_DEPTH := 20
  const MAX_JSON_NODES := 10_000

  function Max(a: nat, b: nat): nat { if a < b then b else a }

  /** `_depth`: stops descending once the limit is passed. */
  function Depth(j: Json, d: nat): nat {
    if d > MAX_JSON_DEPTH then d
    else
      match j
      case Obj(members) => DepthOfMembers(members, d)
      case Arr(items) => DepthOfItems(items, d)
      case _ => d
  }

  function DepthOfItems(items: seq<Json>, d: nat): nat {
    if items == [] then d else Max(Depth(items[0], d + 1), DepthOfItems(items[1..], d))
  }

  function DepthOfMembers(members: seq<(Text, Json)>, d: nat): nat {
    if members == [] then d else Max(DepthOfMember(members[0], d + 1), DepthOfMembers(members[1..], d))
  }

  function DepthOfMember(member: (Text, Json), d: nat): nat {
    Depth(member.1, d)
  }

  /** How many containers enclose the deepest value. */
  function Height(j: Json): nat {
    match j
    case Obj(members) => HeightOfMembers(members)
    case Arr(items) => HeightOfItems(items)
    case _ => 0
  }

  function HeightOfItems(items: seq<Json>): nat {
    if items == [] then 0 else Max(1 + Height(items[0]), HeightOfItems(items[1..]))
  }

  function HeightOfMembers(members: seq<(Text, Json)>): nat {
    if members == [] then 0 else Max(1 + HeightOfMember(members[0]), HeightOfMembers(members[1..]))
  }

  function HeightOfMember(member: (Text, Json)): nat {
    Height(member.1)
  }

  /** The early stop does not change which trees are too deep. */
  lemma {:induction false} DepthDecides(j: Json, d: nat)
    requires d <= MAX_JSON_DEPTH + 1
    ensures Depth(j, d) > MAX_JSON_DEPTH <==> d + Height(j) > MAX_JSON_DEPTH
    ensures d <= MAX_JSON_DEPTH && d + Height(j) <= MAX_JSON_DEPTH ==> Depth(j, d) == d + Height(j)
    decreases j
  {
    if d <= MAX_JSON_DEPTH {
      match j
      case Obj(members) => DepthDecidesMembers(members, d);
      case Arr(items) => DepthDecidesItems(items, d);
      case _ =>
    }
  }

  lemma {:induction false} DepthDecidesItems(items: seq<Json>, d: nat)
    requires d <= MAX_JSON_DEPTH
    ensures DepthOfItems(items, d) > MAX_JSON_DEPTH <==> d + HeightOfItems(items) > MAX_JSON_DEPTH
    ensures d + HeightOfItems(items) <= MAX_JSON_DEPTH ==> DepthOfItems(items, d) == d + HeightOfItems(items)
    decreases items
  {
    if items != [] {
      DepthDecides(items[0], d + 1);
      DepthDecidesItems(items[1..], d);
    }
  }

  lemma {:induction false} DepthDecidesMembers(members: seq<(Text, Json)>, d: nat)
    requires d <= MAX_JSON_DEPTH
    ensures DepthOfMembers(members, d) > MAX_JSON_DEPTH <==> d + HeightOfMembers(members) > MAX_JSON_DEPTH
    ensures d + HeightOfMembers(members) <= MAX_JSON_DEPTH ==> DepthOfMembers(members, d) == d + HeightOfMembers(members)
    decreases members
  {
    if members != [] {
      DepthDecidesMember(members[0], d + 1);
      DepthDecidesMembers(members[1..], d);
    }
  }

  lemma {:induction false} DepthDecidesMember(member: (Text, Json), d: nat)
    requires d <= MAX_JSON_DEPTH + 1
    ensures DepthOfMember(member, d) > MAX_JSON_DEPTH <==> d + HeightOfMember(member) > MAX_JSON_DEPTH
    ensures d <= MAX_JSON_DEPTH && d + HeightOfMember(member) <= MAX_JSON_DEPTH
            ==> DepthOfMember(member, d) == d + HeightOfMember(member)
    decreases member
  {
    DepthDecides(member.1, d);
  }

  function Nodes(j: Json): nat {
    match j
    case Obj(members) => 1 + NodesOfMembers(members)
    case Arr(items) => 1 + NodesOfItems(items)
    case _ => 1
  }

  function NodesOfItems(items: seq<Json>): nat {
    if items == [] then 0 else Nodes(items[0]) + NodesOfItems(items[1..])
  }

  function NodesOfMembers(members: seq<(Text, Json)>): nat {
    if members == [] then 0 else NodesOfMember(members[0]) + NodesOfMembers(members[1..])
  }

  function NodesOfMember(member: (Text, Json)): nat {
    Nodes(member.1)
  }

  const MAX_PASTE_CHARS := 50_000

  datatype InputError = Empty | TooLong | TooDeep | TooManyNodes

  function CheckLimits(j: Json): Option<InputError> {
    if Depth(j, 0) > MAX_JSON_DEPTH then Some(TooDeep)
    else if Nodes(j) > MAX_JSON_NODES then Some(TooManyNodes)
    else None
  }

  // ----- The pipeline -----

  datatype Config = Config(provider: string, model: string, system: Text, evaluation: bool,
                           consentRequired: bool, consent: bool, allowCall: bool)

  /** The arguments of the one model call. */
  datatype ModelCall = ModelCall(provider: string, system: Text, user: Text, model: string)

  /** An exception: its text, and the metadata it may carry. */
  datatype Failure = Failure(error: string, meta: Option<string>)

  datatype Reply = Answered(raw: Text, meta: string) | CallFailed(failure: Failure)

  /** What validation makes of a response; the errors count only when it does not pass. */
  datatype Judged = Judged(passes: bool, errors: seq<string>, output: Json)

  datatype Status = NotCalled | BlockedBoundary | BlockedConsent | CallOk | CallError

  datatype ParseMode = JsonObject | WrappedJson | PlainText

  /** The result record, without its identifier, times and hashes, and with the call that was made. */
  datatype Outcome = Outcome(
    mode: ParseMode, redacted: Json, modelBound: Json, trace: seq<Row>, hits: seq<Hit>, userMessage: Text, status: Status,
    call: Option<ModelCall>, meta: Option<string>, parsed: Option<Json>, errors: seq<string>, valid: Option<bool>)

  /**
   What the pipeline uses without looking inside: patterns, tables, the JSON parser (`None`
   for text that is not JSON), the provider, and what is made of its answer.
   */
  datatype Services = Services(
    policy: Policy, unicode: Unicode, rules: seq<Rule>, loads: Text -> Option<Json>, provider: ModelCall -> Reply,
    parse: Text -> Result<Json, Failure>, validate: Json -> Result<Judged, Failure>)

  // ----- The input -----

  predicate Blank(text: Text, u: Unicode) { forall i :: 0 <= i < |text| ==> u.space(text[i]) }

  /** The object around input that is not one. */
  function Wrapped(field: string, value: Json): Json {
    Obj([(T("alert_id"), Str(T("PASTED-01"))), (T(field), value)])
  }

  /** `parse_input` */
  function ParseInput(text: Text, services: Services): (r: Result<(Json, ParseMode), InputError>)
    ensures r.Ok? ==> r.value.0.Obj?
  {
    if Blank(text, services.unicode) then Err(Empty)
    else if |text| > MAX_PASTE_CHARS then Err(TooLong)
    else
      match services.loads(text)
      case None => Ok((Wrapped("raw_text", Str(text)), PlainText))
      case Some(parsed) => Ok(if parsed.Obj? then (parsed, JsonObject) else (Wrapped("raw_value", parsed), WrappedJson))
  }

  // ----- The run -----

  function ApplyView(j: Json, evaluation: bool, u: Unicode): Json
    requires j.Obj?
  {
    if evaluation then EvaluationView(j, u) else j
  }

  /** The outcome of a call that was made. */
  function AfterCall(quiet: Outcome, call: ModelCall, services: Services): Outcome {
    var sent := quiet.(call := Some(call));
    match services.provider(call)
    case CallFailed(failure) => Failed(sent, failure)
    case Answered(raw, meta) =>
      var answered := sent.(meta := Some(meta));
      var parsed := services.parse(raw);
      if parsed.Err? then Failed(answered, parsed.error)
      else
        var judged := services.validate(parsed.value);
        if judged.Err? then Failed(answered, judged.error)
        else answered.(status := CallOk, parsed := Some(judged.value.output), valid := Some(judged.value.passes),
             errors := if judged.value.passes then [] else judged.value.errors)
  }

  /** An exception keeps whatever metadata there is. */
  function Failed(o: Outcome, failure: Failure): Outcome {
    o.(status := CallError, errors := [failure.error], meta := if failure.meta.Some? then failure.meta else o.meta)
  }

  /** What is recorded before the gate. */
  function Prepared(alert: Json, mode: ParseMode, config: Config, services: Services): Outcome
    requires alert.Obj?
  {
    var redacted := Redacted(alert, services.policy);
    var bound := ApplyView(redacted, config.evaluation, services.unicode);
    Outcome(mode, redacted, bound, Rows(alert, [], services.policy), ScanAlert(bound, services.rules), BuildUserPrompt(bound),
            NotCalled, None, None, None, [], None)
  }

  /** The gate, the consent and the call. */
  function Decide(prepared: Outcome, config: Config, services: Services): Outcome {
    if ContainsBoundary(prepared.modelBound) then prepared.(status := BlockedBoundary)
    else if config.consentRequired && !config.consent then prepared.(status := BlockedConsent)
    else if !config.allowCall then prepared
    else AfterCall(prepared, ModelCall(config.provider, config.system, prepared.userMessage, config.model), services)
  }

  /** What an alert within the limits leads to. */
  function Inspect(alert: Json, mode: ParseMode, config: Config, services: Services): Outcome
    requires alert.Obj?
  {
    Decide(Prepared(alert, mode, config, services), config, services)
  }

  function Pipeline(text: Text, config: Config, services: Services): Result<Outcome, InputError> {
    var input := ParseInput(text, services);
    if input.Err? then Err(input.error)
    else
      var limits := CheckLimits(input.value.0);
      if limits.Some? then Err(limits.value) else Ok(Inspect(input.value.0, input.value.1, config, services))
  }

  /** The `try` block around the call: what was filled in before an exception stays. */
  method CallModel(before: Outcome, config: Config, services: Services) returns (result: Outcome)
    ensures result == AfterCall(before, ModelCall(config.provider, config.system, before.userMessage, config.model), services)
  {
    var call := ModelCall(config.provider, config.system, before.userMessage, config.model);
    result := before.(call := Some(call));
    var reply := services.provider(call);
    if reply.CallFailed? {
      return Failed(result, reply.failure);
    }
    result := result.(meta := Some(reply.meta), status := CallOk);
    var parsed := services.parse(reply.raw);
    if parsed.Err? {
      return Failed(result, parsed.error);
    }
    var judged := services.validate(parsed.value);
    if judged.Err? {
      return Failed(result, judged.error);
    }
    result := result.(parsed := Some(judged.value.output));
    result := result.(errors := if judged.value.passes then [] else judged.value.errors);
    result := result.(valid := Some(judged.value.passes));
  }

  /** `run_paste_pipeline`: the result record is filled in stage by stage. */
  method RunPastePipeline(text: Text, config: Config, services: Services) returns (r: Result<Outcome, InputError>)
    ensures r == Pipeline(text, config, services)
  {
    var input := ParseInput(text, services);
    if input.Err? {
      return Err(input.error);
    }
    var (alert, mode) := input.value;
    var limits := CheckLimits(alert);
    if limits.Some? {
      return Err(limits.value);
    }
    var trace := new Trace();
    var redacted := RedactNode(alert, [], trace, services.policy);
    assert [] + Rows(alert, [], services.policy) == Rows(alert, [], services.policy);
    var bound := ApplyView(redacted, config.evaluation, services.unicode);
    var result := Outcome(mode, redacted, bound, trace.rows, [], [], NotCalled, None, None, None, [], None);
    var hits := new HitList();
    hits.Walk(bound, [], Rules(services.rules));
    assert [] + ScanAlert(bound, services.rules) == ScanAlert(bound, services.rules);
    result := result.(hits := hits.rows);
    result := result.(userMessage := BuildUserPrompt(bound));
    if ContainsBoundary(bound) {
      return Ok(result.(status := BlockedBoundary));
    }
    if config.consentRequired && !config.consent {
      return Ok(result.(status := BlockedConsent));
    }
    if !config.allowCall {
      return Ok(result);
    }
    result := CallModel(result, config, services);
    r := Ok(result);
  }

  // ----- Redaction and view keep numbers well formed -----

  lemma {:induction false} RedactedWellFormed(j: Json, policy: Policy)
    requires WellFormed(j)
    ensures WellFormed(Redacted(j, policy))
    decreases j
  {
    match j
    case Obj(members) => RedactedMembersWellFormed(members, policy);
    case Arr(items) => RedactedItemsWellFormed(items, policy);
    case _ =>
  }

  lemma {:induction false} RedactedMembersWellFormed(members: seq<(Text, Json)>, policy: Policy)
    requires WellFormed(Obj(members))
    ensures WellFormed(Obj(RedactedMembers(members, policy)))
    decreases members
  {
    if members != [] {
      RedactedMemberWellFormed(members[0], policy);
      RedactedMembersWellFormed(members[1..], policy);
    }
  }

  lemma {:induction false} RedactedMemberWellFormed(member: (Text, Json), policy: Policy)
    requires WellFormed(member.1)
    ensures WellFormed(RedactedMember(member, policy).1)
    decreases member
  {
    RedactedWellFormed(member.1, policy);
  }

  lemma {:induction false} RedactedItemsWellFormed(items: seq<Json>, policy: Policy)
    requires WellFormed(Arr(items))
    ensures WellFormed(Arr(RedactedItems(items, policy)))
    decreases items
  {
    if items != [] {
      RedactedWellFormed(items[0], policy);
      RedactedItemsWellFormed(items[1..], policy);
    }
  }

  lemma {:induction false} ViewedWellFormed(j: Json, u: Unicode)
    requires WellFormed(j)
    ensures WellFormed(WithoutLabels(j, u)) && WellFormed(Stripped(j, u))
    decreases j
  {
    match j
    case Obj(members) => ViewedMembersWellFormed(members, u);
    case Arr(items) => ViewedItemsWellFormed(items, u);
    case _ =>
  }

  lemma {:induction false} ViewedMembersWellFormed(members: seq<(Text, Json)>, u: Unicode)
    requires WellFormed(Obj(members))
    ensures WellFormed(Obj(WithoutLabelMembers(members, u))) && WellFormed(Obj(StrippedMembers(members, u)))
    decreases members
  {
    if members != [] {
      ViewedMemberWellFormed(members[0], u);
      ViewedMembersWellFormed(members[1..], u);
    }
  }

  lemma {:induction false} ViewedMemberWellFormed(member: (Text, Json), u: Unicode)
    requires WellFormed(member.1)
    ensures WellFormed(Obj(WithoutLabelMember(member, u))) && WellFormed(StrippedMember(member, u).1)
    decreases member
  {
    ViewedWellFormed(member.1, u);
  }

  lemma {:induction false} ViewedItemsWellFormed(items: seq<Json>, u: Unicode)
    requires WellFormed(Arr(items))
    ensures WellFormed(Arr(WithoutLabelItems(items, u))) && WellFormed(Arr(StrippedItems(items, u)))
    decreases items
  {
    if items != [] {
      ViewedWellFormed(items[0], u);
      ViewedItemsWellFormed(items[1..], u);
    }
  }

  lemma ViewWellFormed(redacted: Json, u: Unicode)
    requires redacted.Obj? && WellFormed(redacted)
    ensures WellFormed(EvaluationView(redacted, u))
  {
    var popped := Obj(PopLabels(redacted.members));
    PoppedWellFormed(redacted.members);
    ViewedWellFormed(popped, u);
    ViewedWellFormed(WithoutLabels(popped, u), u);
  }

  lemma PoppedWellFormed(members: seq<(Text, Json)>)
    requires WellFormed(Obj(members))
    ensures WellFormed(Obj(PopLabels(members)))
  {
  }

  lemma BoundWellFormed(alert: Json, mode: ParseMode, config: Config, services: Services)
    requires alert.Obj? && WellFormed(alert)
    ensures WellFormed(Prepared(alert, mode, config, services).modelBound)
  {
    RedactedWellFormed(alert, services.policy);
    if config.evaluation {
      ViewWellFormed(Redacted(alert, services.policy), services.unicode);
    }
  }

  /** Consent was given where it is required. */
  predicate Consented(config: Config) { config.consentRequired ==> config.consent }

  /** The later stages change nothing that was recorded before, and how they end is decided by the gate, the consent and the switch. */
  lemma DecisionKeeps(o: Outcome, config: Config, services: Services)
    requires o.status == NotCalled && o.call.None?
    ensures var end := Decide(o, config, services);
            && end.mode == o.mode && end.redacted == o.redacted && end.modelBound == o.modelBound && end.trace == o.trace
            && end.hits == o.hits && end.userMessage == o.userMessage
    ensures var end, blocked := Decide(o, config, services), ContainsBoundary(o.modelBound);
            && (end.status == BlockedBoundary <==> blocked)
            && (end.status == BlockedConsent <==> !blocked && !Consented(config))
            && (end.status == NotCalled <==> !blocked && Consented(config) && !config.allowCall)
            && (end.call.Some? <==> !blocked && Consented(config) && config.allowCall)
            && (end.call.Some? ==> end.call.value == ModelCall(config.provider, config.system, o.userMessage, config.model))
    ensures var end := Decide(o, config, services); end.call.Some? ==> end == AfterCall(o, end.call.value, services)
  {
  }

  /** The trace is only carried along. */
  lemma DecisionIgnoresTrace(o: Outcome, config: Config, services: Services)
    ensures Decide(o.(trace := []), config, services) == Decide(o, config, services).(trace := [])
  {
  }

  /** The parser gives numbers as Python prints them. */
  ghost predicate Loads(services: Services) {
    forall text :: services.loads(text).Some? ==> WellFormed(services.loads(text).value)
  }

  lemma InputWellFormed(text: Text, services: Services)
    requires Loads(services) && ParseInput(text, services).Ok?
    ensures WellFormed(ParseInput(text, services).value.0)
  {
  }

  // ----- What the whole pipeline guarantees -----

  /**
   Inputs whose alerts differ only below sensitive keys are told apart by nothing but the
   trace: neither by what is sent and what comes of the answer nor by anything recorded.
   */
  lemma NonInterference(a: Text, b: Text, config: Config, services: Services)
    requires Pipeline(a, config, services).Ok? && Pipeline(b, config, services).Ok?
    requires var (x, y) := (ParseInput(a, services).value, ParseInput(b, services).value);
             x.1 == y.1 && SameOutsideSecrets(x.0, y.0, services.policy)
    ensures Pipeline(a, config, services).value.(trace := []) == Pipeline(b, config, services).value.(trace := [])
  {
    var (x, mode) := ParseInput(a, services).value;
    var y := ParseInput(b, services).value.0;
    RedactionHidesSecrets(x, y, services.policy);
    DecisionIgnoresTrace(Prepared(x, mode, config, services), config, services);
    DecisionIgnoresTrace(Prepared(y, mode, config, services), config, services);
    assert Prepared(x, mode, config, services).(trace := []) == Prepared(y, mode, config, services).(trace := []);
  }

  /** The pipeline blocks exactly the inputs with a delimiter in some string that would be sent. */
  lemma BlocksExactlyDelimiters(text: Text, config: Config, services: Services)
    requires Loads(services) && OtherRules(services.rules) && Pipeline(text, config, services).Ok?
    ensures var o := Pipeline(text, config, services).value;
            (o.status == BlockedBoundary <==> AnyDelimiter(Strings(o.modelBound)))
            && (o.status == BlockedBoundary <==> HasBoundaryBreak(o.hits))
  {
    var (alert, mode) := ParseInput(text, services).value;
    InputWellFormed(text, services);
    BoundWellFormed(alert, mode, config, services);
    DecisionKeeps(Prepared(alert, mode, config, services), config, services);
    GateAgreement(Prepared(alert, mode, config, services).modelBound, services.rules);
  }

  /** Nothing that would be sent holds a delimiter. */
  ghost predicate Clean(o: Outcome) { !AnyDelimiter(Strings(o.modelBound)) }

  /**
   The model is called exactly when calls are allowed, no string that would be sent holds a
   delimiter, and consent was given where it is required; then once, as configured, with
   the recorded message. Otherwise the status names the first of these that is missing.
   */
  lemma CallsExactlyWhenAllowed(text: Text, config: Config, services: Services)
    requires Loads(services) && Pipeline(text, config, services).Ok?
    ensures var o := Pipeline(text, config, services).value;
            && (o.call.Some? <==> Clean(o) && Consented(config) && config.allowCall)
            && (o.call.Some? ==> o.call.value == ModelCall(config.provider, config.system, o.userMessage, config.model))
            && (o.status == BlockedBoundary <==> !Clean(o))
            && (o.status == BlockedConsent <==> Clean(o) && !Consented(config))
            && (o.status == NotCalled <==> Clean(o) && Consented(config) && !config.allowCall)
  {
    var (alert, mode) := ParseInput(text, services).value;
    var prepared := Prepared(alert, mode, config, services);
    InputWellFormed(text, services);
    BoundWellFormed(alert, mode, config, services);
    DecisionKeeps(prepared, config, services);
    GateDecides(prepared.modelBound, services.rules);
  }

  lemma GateDecides(j: Json, rules: seq<Rule>)
    requires WellFormed(j)
    ensures ContainsBoundary(j) <==> AnyDelimiter(Strings(j))
  {
    GateAgreement(j, []);
  }

  /**
   What is recorded: the redacted alert, its evaluation view or itself as the model-bound
   one, the trace of the redaction, and the markers and the prompt of what is model-bound.
   */
  lemma RecordsWhatItIs(text: Text, config: Config, services: Services)
    requires Pipeline(text, config, services).Ok?
    ensures var (alert, mode) := ParseInput(text, services).value;
            var o := Pipeline(text, config, services).value;
            && o.mode == mode && o.redacted == Redacted(alert, services.policy) && o.redacted.Obj?
            && o.modelBound == (if config.evaluation then EvaluationView(o.redacted, services.unicode) else o.redacted)
            && o.trace == Rows(alert, [], services.policy)
            && o.hits == ScanAlert(o.modelBound, services.rules) && o.userMessage == BuildUserPrompt(o.modelBound)
  {
    var (alert, mode) := ParseInput(text, services).value;
    DecisionKeeps(Prepared(alert, mode, config, services), config, services);
  }

  /** The provider answers, and the answer can be parsed and validated. */
  predicate AnswersWell(call: ModelCall, services: Services) {
    && services.provider(call).Answered?
    && var parsed := services.parse(services.provider(call).raw);
    parsed.Ok? && services.validate(parsed.value).Ok?
  }

  /** What a call leaves in the record: metadata whenever the provider answered, and of the answer all or one error. */
  predicate Recorded(o: Outcome, call: ModelCall, services: Services) {
    var reply := services.provider(call);
    && (reply.Answered? ==> o.meta.Some?)
    && if AnswersWell(call, services) then
         var judged := services.validate(services.parse(reply.raw).value).value;
         && o.status == CallOk && o.meta == Some(reply.meta) && o.parsed == Some(judged.output)
         && o.valid == Some(judged.passes) && o.errors == if judged.passes then [] else judged.errors
       else o.status == CallError && o.parsed.None? && o.valid.None? && |o.errors| == 1
  }

  lemma AfterCallRecords(quiet: Outcome, call: ModelCall, services: Services)
    requires quiet.parsed.None? && quiet.valid.None?
    ensures Recorded(AfterCall(quiet, call, services), call, services)
  {
  }

  lemma CallIsRecorded(text: Text, config: Config, services: Services)
    requires Pipeline(text, config, services).Ok? && Pipeline(text, config, services).value.call.Some?
    ensures Recorded(Pipeline(text, config, services).value, Pipeline(text, config, services).value.call.value, services)
  {
    var (alert, mode) := ParseInput(text, services).value;
    var prepared := Prepared(alert, mode, config, services);
    DecisionKeeps(prepared, config, services);
    AfterCallRecords(prepared, Decide(prepared, config, services).call.value, services);
  }

  // ----- Which inputs are usable -----

  lemma {:induction false} NodesCountParts(j: Json, path: seq<Step>)
    ensures Nodes(j) == |Parts(j, path)|
    decreases j
  {
    match j
    case Obj(members) => MemberNodesCount(members, path);
    case Arr(items) => ItemNodesCount(items, 0, path);
    case _ =>
  }

  lemma {:induction false} MemberNodesCount(members: seq<(Text, Json)>, path: seq<Step>)
    ensures NodesOfMembers(members) == |MemberParts(members, path)|
    decreases members
  {
    if members != [] {
      PairNodesCount(members[0], path);
      MemberNodesCount(members[1..], path);
    }
  }

  lemma {:induction false} PairNodesCount(member: (Text, Json), path: seq<Step>)
    ensures NodesOfMember(member) == |PairParts(member, path)|
    decreases member
  {
    NodesCountParts(member.1, path + [Key(member.0)]);
  }

  lemma {:induction false} ItemNodesCount(items: seq<Json>, i: nat, path: seq<Step>)
    ensures NodesOfItems(items) == |ItemParts(items, i, path)|
    decreases items
  {
    if items != [] {
      NodesCountParts(items[0], path + [Index(i)]);
      ItemNodesCount(items[1..], i + 1, path);
    }
  }

  /** What the pipeline works on: an object as pasted, any other JSON or plain text as one field of a new object. */
  lemma InputIsKept(text: Text, services: Services)
    requires ParseInput(text, services).Ok?
    ensures var (alert, mode) := ParseInput(text, services).value;
            match mode
            case JsonObject => services.loads(text) == Some(alert)
            case WrappedJson => services.loads(text).Some? && Part([Key(T("raw_value"))], Shell(services.loads(text).value)) in Parts(alert, [])
            case PlainText => services.loads(text).None? && Part([Key(T("raw_text"))], Str(text)) in Parts(alert, [])
  {
    if services.loads(text).None? {
      WrappedPart("raw_text", Str(text));
    } else {
      WrappedPart("raw_value", services.loads(text).value);
    }
  }

  lemma WrappedPart(field: string, value: Json)
    ensures Part([Key(T(field))], Shell(value)) in Parts(Wrapped(field, value), [])
  {
    var name: (Text, Json), whole: (Text, Json) := (T("alert_id"), Str(T("PASTED-01"))), (T(field), value);
    var members: seq<(Text, Json)> := [name, whole];
    assert members[1..] == [whole] && members[1..][1..] == [];
    var path: seq<Step> := [];
    assert path + [Key(whole.0)] == [Key(whole.0)];
    assert Parts(value, [Key(whole.0)])[0] == Part([Key(whole.0)], Shell(value));
    assert Part([Key(whole.0)], Shell(value)) in PairParts(whole, path);
    assert MemberParts(members, path) == PairParts(name, path) + (PairParts(whole, path) + MemberParts([], path));
  }

  /** Input is refused exactly when it is blank, longer than 50000 characters, nested more than 20 deep or of more than 10000 parts. */
  lemma UsableExactly(text: Text, config: Config, services: Services)
    ensures Pipeline(text, config, services).Ok? <==>
            && !Blank(text, services.unicode) && |text| <= 50_000
            && var alert := ParseInput(text, services).value.0;
            Height(alert) <= 20 && |Parts(alert, [])| <= 10_000
  {
    if ParseInput(text, services).Ok? {
      var alert := ParseInput(text, services).value.0;
      DepthDecides(alert, 0);
      NodesCountParts(alert, []);
    }
  }

  /** A message that is sent had consent where required, and frames exactly the redacted, reduced alert. */
  lemma SentMessagesAreFramed(text: Text, config: Config, services: Services, open: nat, close: nat)
    requires Loads(services) && Pipeline(text, config, services).Ok?
    requires var o := Pipeline(text, config, services).value;
             o.call.Some? && OccursAt(o.call.value.user, Open(), open) && OccursAt(o.call.value.user, Close(), close)
    ensures config.consentRequired ==> config.consent
    ensures var o := Pipeline(text, config, services).value;
            open + |Open()| + 1 <= close - 1 <= |o.call.value.user|
            && Framed(o.call.value.user, open, close) == Dump(o.modelBound, Indented, 0)
  {
    var (alert, mode) := ParseInput(text, services).value;
    InputWellFormed(text, services);
    BoundWellFormed(alert, mode, config, services);
    DecisionKeeps(Prepared(alert, mode, config, services), config, services);
    FramingIsUnambiguous(Prepared(alert, mode, config, services).modelBound, open, close);
  }
}
