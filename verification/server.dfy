/** The `POST /api/generate-email` handler of the server: required-field
    check, the provider payload, the unwrapping of the provider's response
    and the mapping of errors to HTTP replies. The provider call and
    `JSON.parse` are parameters. */
module Server {
  import opened Wrappers
  import Seqs
  import Text
  import opened JsonValues

  /** The fields a request must carry, in declared order (server.js:43). */
  const RequiredFields: seq<string> := ["name", "school", "grade", "major", "academic_background", "lab_website"]

  const MissingFieldsPrefix := "Missing required fields: "

  /** The required fields whose value in the body is falsy or absent
      (server.js:43-44): exactly those, in declared order. */
  function MissingFields(body: Json): (missing: seq<string>)
    ensures Seqs.IsSubsequence(missing, RequiredFields)
    ensures forall f :: f in missing <==> f in RequiredFields && !Present(Get(body, f))
  {
    Seqs.FilterMembers(RequiredFields, f => !Present(Get(body, f)));
    Seqs.Filter(RequiredFields, f => !Present(Get(body, f)))
  }

  /** The error text of a rejected request (server.js:49). */
  function MissingFieldsMessage(missing: seq<string>): (msg: string)
    ensures MissingFieldsPrefix <= msg
    ensures |missing| == 1 ==> msg == MissingFieldsPrefix + missing[0]
  {
    MissingFieldsPrefix + Text.Join(missing, ", ")
  }

  /** The message names exactly the missing fields, in order: splitting
      what follows the prefix at the `", "` separators gives them back. */
  lemma MissingFieldsMessageRoundTrip(missing: seq<string>)
    requires missing != [] && Seqs.IsSubsequence(missing, RequiredFields)
    ensures Text.SplitOn(MissingFieldsMessage(missing)[|MissingFieldsPrefix|..], ", ") == missing
  {
    Seqs.SubsequenceMembers(missing, RequiredFields);
    assert forall f :: f in RequiredFields ==> ',' !in f;
    assert MissingFieldsMessage(missing)[|MissingFieldsPrefix|..] == Text.Join(missing, ", ");
    Text.JoinSplitRoundTrip(missing, ", ");
  }

  /** Different sets of missing fields give different messages. */
  lemma MissingFieldsMessageInjective(a: seq<string>, b: seq<string>)
    requires Seqs.IsSubsequence(a, RequiredFields) && Seqs.IsSubsequence(b, RequiredFields)
    requires MissingFieldsMessage(a) == MissingFieldsMessage(b)
    ensures a == b
  {
    Seqs.SubsequenceMembers(a, RequiredFields);
    Seqs.SubsequenceMembers(b, RequiredFields);
    assert forall f :: f in RequiredFields ==> f != "";
    if a != [] && b != [] {
      MissingFieldsMessageRoundTrip(a);
      MissingFieldsMessageRoundTrip(b);
    }
  }

  /** The parameters of the provider's workflow (server.js:54-64). */
  datatype CozePayload = CozePayload(
    labWebsite: Json,
    name: Json,
    school: Json,
    grade: Json,
    academicBackground: Json,
    major: Json,
    researchExperience: Json,
    skill: Json,
    interestArea: Json)

  /** Every required field is present and truthy. */
  lemma RequiredPresent(body: Json)
    requires MissingFields(body) == []
    ensures forall f :: f in RequiredFields ==> Present(Get(body, f))
  {
  }

  /** The payload built once the check passed (server.js:54-64): the six
      required values copied as they are, each optional value replaced by
      the empty string when it is falsy or absent. */
  function BuildPayload(body: Json): (p: CozePayload)
    requires MissingFields(body) == []
    ensures p.labWebsite == Get(body, "lab_website").value && Truthy(p.labWebsite)
    ensures p.name == Get(body, "name").value && Truthy(p.name)
    ensures p.school == Get(body, "school").value && Truthy(p.school)
    ensures p.grade == Get(body, "grade").value && Truthy(p.grade)
    ensures p.academicBackground == Get(body, "academic_background").value && Truthy(p.academicBackground)
    ensures p.major == Get(body, "major").value && Truthy(p.major)
    ensures Present(Get(body, "research_experience")) ==> p.researchExperience == Get(body, "research_experience").value
    ensures !Present(Get(body, "research_experience")) ==> p.researchExperience == JStr("")
    ensures Present(Get(body, "skill")) ==> p.skill == Get(body, "skill").value
    ensures !Present(Get(body, "skill")) ==> p.skill == JStr("")
    ensures Present(Get(body, "interest_area")) ==> p.interestArea == Get(body, "interest_area").value
    ensures !Present(Get(body, "interest_area")) ==> p.interestArea == JStr("")
  {
    RequiredPresent(body);
    assert "lab_website" in RequiredFields && "name" in RequiredFields && "school" in RequiredFields;
    assert "grade" in RequiredFields && "academic_background" in RequiredFields && "major" in RequiredFields;
    CozePayload(
      Get(body, "lab_website").value,
      Get(body, "name").value,
      Get(body, "school").value,
      Get(body, "grade").value,
      Get(body, "academic_background").value,
      Get(body, "major").value,
      Or(Get(body, "research_experience"), JStr("")),
      Or(Get(body, "skill"), JStr("")),
      Or(Get(body, "interest_area"), JStr("")))
  }

  /** The mock branch is taken when `NODE_ENV` is `development` and
      `COZE_API_WORKING` is unset or empty (server.js:69). */
  predicate MockMode(nodeEnv: Option<string>, apiWorking: Option<string>)
  {
    nodeEnv == Some("development") && !(apiWorking.Some? && apiWorking.value != "")
  }

  /** An optional part of the mock email (server.js:82): the heading and the
      value when the value is truthy, nothing otherwise; `None` when the
      value cannot be turned into a string. */
  function Section(heading: string, v: Json): (r: Option<string>)
    ensures !Truthy(v) ==> r == Some("")
    ensures Truthy(v) ==> (r.None? <==> ToText(v).None?)
    ensures Truthy(v) && r.Some? ==> heading <= r.value && |r.value| > |heading|
  {
    if !Truthy(v) then Some("")
    else match ToText(v)
      case Some(t) => Some(heading + t + "\n\n")
      case None => None
  }

  const MockSubject := "Subject: Research Assistant Application - "

  /** The text of the mock email (server.js:71-90); `None` when one of the
      interpolated values throws on conversion to a string. */
  function MockEmail(p: CozePayload): (r: Option<string>)
    ensures r.Some? ==> MockSubject <= r.value
    ensures r.Some? ==> Section("Research Experience:\n", p.researchExperience).Some?
                        && Section("Relevant Skills:\n", p.skill).Some?
                        && Section("Research Interests:\n", p.interestArea).Some?
    ensures r.Some? <==> ToText(p.name).Some? && ToText(p.grade).Some? && ToText(p.major).Some?
                         && ToText(p.school).Some? && ToText(p.labWebsite).Some?
                         && ToText(p.academicBackground).Some?
                         && Section("Research Experience:\n", p.researchExperience).Some?
                         && Section("Relevant Skills:\n", p.skill).Some?
                         && Section("Research Interests:\n", p.interestArea).Some?
    ensures r.Some? ==>
              var tail := Section("Research Experience:\n", p.researchExperience).value
                          + Section("Relevant Skills:\n", p.skill).value
                          + Section("Research Interests:\n", p.interestArea).value
                          + MockClosing + ToText(p.name).value + MockFooter;
              |tail| <= |r.value| && r.value[|r.value| - |tail|..] == tail
  {
    var name := ToText(p.name);
    var grade := ToText(p.grade);
    var major := ToText(p.major);
    var school := ToText(p.school);
    var lab := ToText(p.labWebsite);
    var background := ToText(p.academicBackground);
    var research := Section("Research Experience:\n", p.researchExperience);
    var skill := Section("Relevant Skills:\n", p.skill);
    var interest := Section("Research Interests:\n", p.interestArea);
    if name.Some? && grade.Some? && major.Some? && school.Some? && lab.Some? && background.Some?
       && research.Some? && skill.Some? && interest.Some?
    then
      var head := Text.Concat([
        MockSubject, name.value, MockGreeting, name.value, MockGrade, grade.value, MockMajor, major.value,
        MockSchool, school.value, MockLab, lab.value, MockLabEnd, background.value, MockBackgroundEnd]);
      var tail := research.value + skill.value + interest.value + MockClosing + name.value + MockFooter;
      Some(head + tail)
    else None
  }

  // The fixed text of the mock email, between the interpolated values.
  const MockGreeting := "\n\nDear Professor,\n\nI hope this email finds you well. My name is "
  const MockGrade := ", and I am a "
  const MockMajor := " student majoring in "
  const MockSchool := " at "
  const MockLab := ".\n\nI am writing to express my strong interest in joining your research team as a "
    + "research assistant. After reviewing your lab's work on "
  const MockLabEnd := ", I am particularly excited about the research directions and methodologies employed "
    + "in your laboratory.\n\nAcademic Background:\n"
  const MockBackgroundEnd := "\n\n"
  const MockClosing := "I am eager to contribute to your research and learn from your expertise. I would be "
    + "grateful for the opportunity to discuss how I can contribute to your lab's ongoing projects.\n\n"
    + "Thank you for considering my application. I look forward to hearing from you.\n\nBest regards,\n"
  const MockFooter := "\n\n---\nThis is a mock email generated for testing purposes. "
    + "Configure your Coze API to generate real emails."

  /** `JSON.parse` applied to a value (after its conversion to a string),
      left uninterpreted: `None` when it throws. */
  type JsonParser = Json -> Option<Json>

  const DefaultEmail := "Email generated successfully"

  /** The fallback of server.js:145: the first truthy of `data.data`,
      `data.output`, `data.result`, else the default text. It only runs when
      `data.data` is truthy, where it always yields `data.data` itself: its
      `output` and `result` alternatives are never reached. */
  function FallbackEmail(data: Json): (email: Json)
    ensures Truthy(email)
    ensures Present(Get(data, "data")) ==> email == Get(data, "data").value
    ensures !Present(Get(data, "data")) && Present(Get(data, "output")) ==> email == Get(data, "output").value
    ensures !Present(Get(data, "data")) && !Present(Get(data, "output")) && Present(Get(data, "result")) ==>
              email == Get(data, "result").value
    ensures !Present(Get(data, "data")) && !Present(Get(data, "output")) && !Present(Get(data, "result")) ==>
              email == JStr(DefaultEmail)
  {
    Or(Get(data, "data"), Or(Get(data, "output"), Or(Get(data, "result"), JStr(DefaultEmail))))
  }

  /** Whether reading `output` from the parsed value throws: only `null`
      has no properties to read. */
  predicate ParseFails(parsed: Option<Json>) {
    parsed.None? || parsed.value.JNull?
  }

  /** The email extracted from the provider's response body `data`
      (server.js:133-151). Reading a property of a falsy or non-object
      value gives `undefined`, which is how the `data && data.x` guards are
      modelled. */
  function ExtractEmail(data: Json, parse: JsonParser): (email: Json)
    ensures Truthy(email)
    ensures !Present(Get(data, "data")) && Present(Get(data, "output")) ==> email == Get(data, "output").value
    ensures !Present(Get(data, "data")) && !Present(Get(data, "output")) && Present(Get(data, "result")) ==>
              email == Get(data, "result").value
    ensures !Present(Get(data, "data")) && !Present(Get(data, "output")) && !Present(Get(data, "result")) ==>
              email == JStr(DefaultEmail)
    ensures Present(Get(data, "data")) && !ParseFails(parse(Get(data, "data").value)) ==>
              var parsed := parse(Get(data, "data").value).value;
              email == if Present(Get(parsed, "output")) then Get(parsed, "output").value else JStr(DefaultEmail)
    ensures Present(Get(data, "data")) && ParseFails(parse(Get(data, "data").value)) ==>
              email == FallbackEmail(data)
  {
    if Present(Get(data, "data")) then
      var parsed := parse(Get(data, "data").value);
      if ParseFails(parsed) then FallbackEmail(data)
      else if Present(Get(parsed.value, "output")) then Get(parsed.value, "output").value
      else JStr(DefaultEmail)
    else if Present(Get(data, "output")) then Get(data, "output").value
    else if Present(Get(data, "result")) then Get(data, "result").value
    else JStr(DefaultEmail)
  }

  /** How the provider call can fail, as axios reports it. */
  datatype HttpFailure =
    | ErrorResponse(status: int, data: Option<Json>)   // the provider answered with an error status
    | NoResponse                                       // the request went out, no answer came back
    | OtherError(message: string)                      // anything else thrown in the handler

  /** The provider call with the payload, left uninterpreted: the response
      body on success. */
  type Upstream = CozePayload -> Result<Json, HttpFailure>

  /** A reply's JSON body: `success: true` with an email, or `success: false`
      with an error. The timestamp is not modelled. */
  datatype ReplyBody = EmailReply(email: Json, mock: bool) | ErrorReply(error: Json)

  datatype Reply = Reply(status: int, body: ReplyBody) {
    predicate Success() { body.EmailReply? }
  }

  const DefaultError := "Failed to generate email"
  const NoResponseError := "No response from Coze API. Please check your internet connection."
  const ConversionError := "Cannot convert object to primitive value"

  /** `v?.key`: `undefined` when `v` is absent. */
  function GetOptional(v: Option<Json>, key: string): Option<Json> {
    if v.Some? then Get(v.value, key) else None
  }

  /** The catch block of the handler (server.js:159-184). */
  function FailureReply(e: HttpFailure): (r: Reply)
    ensures !r.Success()
    ensures e.ErrorResponse? ==> r.status == e.status
    ensures e.ErrorResponse? && Present(GetOptional(e.data, "message")) ==>
              r.body.error == GetOptional(e.data, "message").value
    ensures e.ErrorResponse? && !Present(GetOptional(e.data, "message")) && Present(GetOptional(e.data, "error")) ==>
              r.body.error == GetOptional(e.data, "error").value
    ensures e.ErrorResponse? && !Present(GetOptional(e.data, "message")) && !Present(GetOptional(e.data, "error")) ==>
              r.body.error == JStr(DefaultError)
    ensures e.NoResponse? ==> r == Reply(500, ErrorReply(JStr(NoResponseError)))
    ensures e.OtherError? ==> r == Reply(500, ErrorReply(JStr(e.message)))
    ensures !e.OtherError? ==> Truthy(r.body.error)
  {
    match e
    case ErrorResponse(status, data) =>
      Reply(status, ErrorReply(Or(GetOptional(data, "message"), Or(GetOptional(data, "error"), JStr(DefaultError)))))
    case NoResponse => Reply(500, ErrorReply(JStr(NoResponseError)))
    case OtherError(message) => Reply(500, ErrorReply(JStr(message)))
  }

  /** What the handler answers and which provider call, if any, it made. */
  datatype Exchange = Exchange(reply: Reply, upstreamCall: Option<CozePayload>)

  /** The `/api/generate-email` handler (server.js:28-185), with the values
      of `NODE_ENV` and `COZE_API_WORKING` it reads at line 69. */
  function HandleGenerateEmail(body: Json, nodeEnv: Option<string>, apiWorking: Option<string>,
                               upstream: Upstream, parse: JsonParser): (x: Exchange)
    ensures MissingFields(body) != [] ==>
              x == Exchange(Reply(400, ErrorReply(JStr(MissingFieldsMessage(MissingFields(body))))), None)
    ensures x.upstreamCall.Some? <==> MissingFields(body) == [] && !MockMode(nodeEnv, apiWorking)
    ensures x.upstreamCall.Some? ==> x.upstreamCall.value == BuildPayload(body)
    ensures MissingFields(body) == [] && MockMode(nodeEnv, apiWorking) ==>
              match MockEmail(BuildPayload(body))
              case Some(text) => x.reply == Reply(200, EmailReply(JStr(text), true))
              case None => x.reply == Reply(500, ErrorReply(JStr(ConversionError)))
    ensures MissingFields(body) == [] && !MockMode(nodeEnv, apiWorking) ==>
              match upstream(BuildPayload(body))
              case Success(data) => x.reply == Reply(200, EmailReply(ExtractEmail(data, parse), false))
              case Failure(e) => x.reply == FailureReply(e)
    ensures x.reply.Success() ==> x.reply.status == 200 && Truthy(x.reply.body.email)
    ensures x.reply.Success() <==>
              (MissingFields(body) == [] &&
               (if MockMode(nodeEnv, apiWorking) then MockEmail(BuildPayload(body)).Some? else upstream(BuildPayload(body)).Success?))
  {
    var missing := MissingFields(body);
    if missing != [] then
      Exchange(Reply(400, ErrorReply(JStr(MissingFieldsMessage(missing)))), None)
    else
      var payload := BuildPayload(body);
      if MockMode(nodeEnv, apiWorking) then
        match MockEmail(payload)
        case Some(text) => Exchange(Reply(200, EmailReply(JStr(text), true)), None)
        case None => Exchange(FailureReply(OtherError(ConversionError)), None)
      else
        match upstream(payload)
        case Success(data) => Exchange(Reply(200, EmailReply(ExtractEmail(data, parse), false)), Some(payload))
        case Failure(e) => Exchange(FailureReply(e), Some(payload))
  }

  /** In mock mode the reply does not depend on the provider or the parser:
      neither is ever consulted. */
  lemma MockModeIgnoresProvider(body: Json, nodeEnv: Option<string>, apiWorking: Option<string>,
                                u1: Upstream, u2: Upstream, p1: JsonParser, p2: JsonParser)
    requires MockMode(nodeEnv, apiWorking)
    ensures HandleGenerateEmail(body, nodeEnv, apiWorking, u1, p1) == HandleGenerateEmail(body, nodeEnv, apiWorking, u2, p2)
    ensures HandleGenerateEmail(body, nodeEnv, apiWorking, u1, p1).upstreamCall == None
  {
  }

  /** Outside development, or with `COZE_API_WORKING` set to a non-empty
      value, a request that passes validation always reaches the provider. */
  lemma ProviderOutsideMockMode(body: Json, nodeEnv: Option<string>, apiWorking: Option<string>, u: Upstream, p: JsonParser)
    requires MissingFields(body) == []
    requires nodeEnv != Some("development") || (apiWorking.Some? && apiWorking.value != "")
    ensures HandleGenerateEmail(body, nodeEnv, apiWorking, u, p).upstreamCall == Some(BuildPayload(body))
  {
  }

  /** A request that fails validation is answered the same way in every
      environment and without calling the provider. */
  lemma RejectionIgnoresMode(body: Json, env1: Option<string>, working1: Option<string>,
                             env2: Option<string>, working2: Option<string>, u: Upstream, p: JsonParser)
    requires MissingFields(body) != []
    ensures HandleGenerateEmail(body, env1, working1, u, p) == HandleGenerateEmail(body, env2, working2, u, p)
    ensures HandleGenerateEmail(body, env1, working1, u, p).reply.status == 400
  {
  }
}
