/** The two pieces of local logic in the LLM routes (backend/routes/llm.js): the prompt
    templates, and the post-processing of /extract that turns whatever the model replied
    into a record with exactly five keys. The chat-completion call itself and JSON.parse
    are parameters. */
module Llm {
  import opened Wrappers
  import opened Text
  import opened Js
  import opened Http

  // ---------------------------------------------------------------------------
  // createExtractPrompt
  // ---------------------------------------------------------------------------

  /** The extraction instructions up to the opening quote around the transcription. */
  const ExtractHead: string := @"
  你是一个信息提取助理。你的任务是分析一段可能包含停顿、重复、口误或语气词的原始语音转录文本，然后提取出关键的旅行信息。

  请按照以下两步执行：

  **第一步：分析与总结**
  请先在脑中分析以下原始文本，并总结出用户的核心需求。
  原始文本: """

  /** From the closing quote around the transcription to the end of the instructions. */
  const ExtractTail: string := @"""

  **第二步：提取信息**
  根据你的分析总结，严格按照以下 JSON 格式返回提取的信息。
  * **所有键都必须存在。**
  * 如果未提及，**必须**返回 null。
  * **请进行合理的单位转换** (例如 ""一周"" -> 7, ""2万"" -> 20000, ""五天"" -> 5)。

  {
    ""destination"": ""..."", // (string | null) 目的地
    ""days"": ...,        // (number | null) 天数 (仅数字)
    ""budget"": ...,      // (number | null) 预算 (仅数字)
    ""companions"": ""..."",  // (string | null) 同行描述
    ""preferences"": ""..."" // (string | null) 除去以上信息的其他偏好
  }

  **示例 1:**
  原始文本: ""嗯...我想去...我想去美国吧...大概...玩...一个星期...预算...一...两万...都行...就我一个人...然后...喜欢...嗯...自然风光...""
  (你的内心分析：用户想去美国，玩7天，预算10000-20000，一个人，喜欢自然风光。)
  返回 JSON:
  {
    ""destination"": ""美国"",
    ""days"": 7,
    ""budget"": 20000,
    ""companions"": ""一个人"",
    ""preferences"": ""喜欢自然风光""
  }

  **示例 2:**
  原始文本: ""那个...去成都...对...成都...玩五天...想吃火锅...看熊猫""
  (你的内心分析：用户想去成都，玩5天，偏好是吃火锅和看熊猫。未提预算和同伴。)
  返回 JSON:
  {
    ""destination"": ""成都"",
    ""days"": 5,
    ""budget"": null,
    ""companions"": null,
    ""preferences"": ""想吃火锅看熊猫""
  }

  **示例 3:**
  原始文本: ""喜欢看自然风光，喜欢吃美食""
  (你的内心分析：用户只提了偏好。未提其他。)
  返回 JSON:
  {
    ""destination"": null,
    ""days"": null,
    ""budget"": null,
    ""companions"": null,
    ""preferences"": ""喜欢看自然风光，喜欢吃美食""
  }

  请只返回最终的 JSON 对象，不要包含任何解释性文字、markdown 标记或你的内心分析过程。
  "

  /** createExtractPrompt(text): the instructions with the raw text quoted verbatim. */
  function ExtractPrompt(text: string): (prompt: string)
    ensures |prompt| == |ExtractHead| + |text| + |ExtractTail|
    ensures prompt[|ExtractHead|..|ExtractHead| + |text|] == text
  {
    ExtractHead + text + ExtractTail
  }

  /** Reads the quoted text back out of an extraction prompt. */
  function QuotedText(prompt: string): Option<string> {
    if |prompt| >= |ExtractHead| + |ExtractTail|
       && prompt[..|ExtractHead|] == ExtractHead
       && prompt[|prompt| - |ExtractTail|..] == ExtractTail
    then Some(prompt[|ExtractHead|..|prompt| - |ExtractTail|])
    else None
  }

  /** The prompt carries the text unaltered: it can be recovered exactly. */
  lemma {:induction false} ExtractPromptRoundTrip(text: string)
    ensures QuotedText(ExtractPrompt(text)) == Some(text)
  {
    var p := ExtractPrompt(text);
    assert p[..|ExtractHead|] == ExtractHead;
    assert p[|p| - |ExtractTail|..] == ExtractTail;
  }

  /** Different texts give different prompts. */
  lemma {:induction false} ExtractPromptInjective(a: string, b: string)
    requires ExtractPrompt(a) == ExtractPrompt(b)
    ensures a == b
  {
    ExtractPromptRoundTrip(a);
    ExtractPromptRoundTrip(b);
  }

  // ---------------------------------------------------------------------------
  // createTravelPrompt
  // ---------------------------------------------------------------------------

  /** The planner's role statement, the first line of the prompt text. */
  const PlannerRole: string := "  请你扮演一个专业的旅行规划师。根据以下需求，为我生成一份详细的旅行计划。"

  /** The planner instructions before the first requirement line. */
  const TravelIntro: string := "\n" + PlannerRole + "\n\n" + RequirementsHeading + "\n"

  /** The heading above the requirement lines. */
  const RequirementsHeading: string := "  需求："

  /** The labels of the five requirement lines, in order. */
  const RequirementLabels: seq<string> :=
    ["  - 目的地: ", "  - 天数: ", "  - 预算 (人民币): ", "  - 同行人数: ", "  - 偏好: "]

  /** The output-format instructions after the last requirement line and its line break. */
  const TravelOutro: string := @"
  请严格按照以下 JSON 格式返回你的规划，不要包含任何 JSON 格式之外的解释性文字：
  {
    ""title"": ""关于[目的地]的[天数]日游"",
    ""budget_analysis"": {
      ""total_estimate"": ""约 XXXX 元"",
      ""breakdown"": [
        {""category"": ""机票/交通"", ""cost"": ""XXXX 元"", ""notes"": ""...""},
        {""category"": ""住宿"", ""cost"": ""XXXX 元"", ""notes"": ""...""},
        {""category"": ""餐饮"", ""cost"": ""XXXX 元"", ""notes"": ""...""},
        {""category"": ""景点门票"", ""cost"": ""XXXX 元"", ""notes"": ""...""},
        {""category"": ""其他"", ""cost"": ""XXXX 元"", ""notes"": ""...""}
      ]
    },
    ""daily_plan"": [
      {
        ""day"": 1,
        ""theme"": ""抵达与城市初探"",
        ""activities"": [
          {""time"": ""下午"", ""activity"": ""抵达[机场/车站]"", ""description"": ""..."", ""location"": {""name"": ""地点名称"", ""lat"": 0.0, ""lng"": 0.0}},
          {""time"": ""傍晚"", ""activity"": ""酒店入住"", ""description"": ""..."", ""location"": {""name"": ""酒店名称"", ""lat"": 0.0, ""lng"": 0.0}},
          {""time"": ""晚上"", ""activity"": ""晚餐：[餐厅名]"", ""description"": ""推荐菜：..."", ""location"": {""name"": ""餐厅名称"", ""lat"": 0.0, ""lng"": 0.0}}
        ]
      },
      // ... 更多天的计划
    ]
  }
  "

  /** `const { destination, days, budget, companions, preferences } = inputs`: the five
      inputs in FieldNames order, read as /extract's record reads them; throws when the
      body is null or undefined. */
  function ReadTravelRequest(inputs: JsValue): (r: Result<seq<JsValue>, Thrown>)
    ensures r.Err? <==> inputs.Null? || inputs.Undefined?
    ensures r.Ok? ==> |r.value| == 5 && forall i :: 0 <= i < 5 ==> r.value[i] == Field(inputs, FieldNames[i])
  {
    var destination :- Member(inputs, "destination");
    // the first read succeeded, so `inputs` is an object and the others cannot throw
    Ok([destination, Member(inputs, "days").value, Member(inputs, "budget").value,
        Member(inputs, "companions").value, Member(inputs, "preferences").value])
  }

  /** The requirement lines: each label followed by its rendered input. */
  function RequirementLines(values: seq<string>): seq<string>
    requires |values| == 5
  {
    seq(5, i requires 0 <= i < 5 => RequirementLabels[i] + values[i])
  }

  /** The prompt text around the five rendered inputs. */
  function TravelPrompt(values: seq<string>): string
    requires |values| == 5
  {
    TravelIntro + JoinWith(RequirementLines(values), '\n') + "\n" + TravelOutro
  }

  /** createTravelPrompt(inputs): the destructuring, then each `${}` in turn. */
  function CreateTravelPrompt(inputs: JsValue): Result<string, Thrown> {
    var request :- ReadTravelRequest(inputs);
    var values :- ToStrAll(request);
    Ok(TravelPrompt(values))
  }

  /** The builder throws exactly when there is no body object to destructure, or when one
      of the five inputs cannot be rendered as a string (an object with its own
      `toString` key, or an array holding one; see Js.ToStrThrows). */
  lemma {:induction false} CreateTravelPromptThrows(inputs: JsValue)
    ensures CreateTravelPrompt(inputs).Err? <==>
      inputs.Null? || inputs.Undefined?
      || exists i :: 0 <= i < 5 && ToStr(Field(inputs, FieldNames[i])).Err?
  {
    var request := ReadTravelRequest(inputs);
    if request.Ok? {
      var values := ToStrAll(request.value);
      if values.Err? {
        var i :| 0 <= i < 5 && ToStr(request.value[i]).Err?;
        assert ToStr(Field(inputs, FieldNames[i])).Err?;
      }
    }
  }

  /** Whenever the prompt is built, every input is rendered and appears in it, right
      after its label. */
  lemma {:induction false} CreateTravelPromptEmbeds(inputs: JsValue, i: nat)
    requires CreateTravelPrompt(inputs).Ok? && i < 5
    ensures ToStr(Field(inputs, FieldNames[i])).Ok?
    ensures IsInfix(RequirementLabels[i] + ToStr(Field(inputs, FieldNames[i])).value,
                    CreateTravelPrompt(inputs).value)
  {
    var request := ReadTravelRequest(inputs).value;
    var values := ToStrAll(request).value;
    assert values[i] == ToStr(Field(inputs, FieldNames[i])).value;
    TravelPromptEmbedsInputs(values, i);
  }

  /** Each input, and each whole requirement line, appears in the prompt. */
  lemma {:induction false} TravelPromptEmbedsInputs(values: seq<string>, i: nat)
    requires |values| == 5 && i < 5
    ensures IsInfix(RequirementLabels[i] + values[i], TravelPrompt(values))
    ensures IsInfix(values[i], TravelPrompt(values))
  {
    var lines := RequirementLines(values);
    assert lines[i] == RequirementLabels[i] + values[i];
    TravelPromptRegrouped(values);
    LineEmbedded(TravelIntro, lines, "\n" + TravelOutro, i, RequirementLabels[i], values[i]);
  }

  lemma {:induction false} TravelPromptRegrouped(values: seq<string>)
    requires |values| == 5
    ensures TravelPrompt(values) == TravelIntro + JoinWith(RequirementLines(values), '\n') + ("\n" + TravelOutro)
  {
    Regroup(TravelIntro, JoinWith(RequirementLines(values), '\n'), "\n", TravelOutro);
  }

  lemma {:induction false} Regroup(a: string, b: string, c: string, d: string)
    ensures a + b + c + d == a + b + (c + d)
  {
  }

  lemma {:induction false} LineEmbedded(pre: string, lines: seq<string>, post: string, i: nat, tag: string, value: string)
    requires i < |lines| && lines[i] == tag + value
    ensures IsInfix(lines[i], pre + JoinWith(lines, '\n') + post)
    ensures IsInfix(value, pre + JoinWith(lines, '\n') + post)
  {
    var whole := pre + JoinWith(lines, '\n') + post;
    InfixOfJoinWith(lines, '\n', i);
    InfixExtend(lines[i], pre, JoinWith(lines, '\n'), post);
    var j :| OccursAt(lines[i], whole, j);
    var k := j + |tag|;
    assert whole[k..k + |value|] == lines[i][|tag|..];
    assert OccursAt(value, whole, k);
  }

  /** When no input renders with a line break, the requirement lines are exactly lines
      five to nine of the prompt, in order. */
  lemma {:induction false} TravelPromptLines(values: seq<string>)
    requires |values| == 5 && forall i :: 0 <= i < 5 ==> '\n' !in values[i]
    ensures |Split(TravelPrompt(values), '\n')| >= 9
    ensures Split(TravelPrompt(values), '\n')[4..9] == RequirementLines(values)
  {
    var lines := RequirementLines(values);
    LinesUnbroken(values);
    IntroUnbroken();
    IntroSplit(PlannerRole, RequirementsHeading, lines, TravelOutro);
    TravelPromptParts(values);
  }

  lemma {:induction false} LinesUnbroken(values: seq<string>)
    requires |values| == 5 && forall i :: 0 <= i < 5 ==> '\n' !in values[i]
    ensures forall i :: 0 <= i < 5 ==> '\n' !in RequirementLines(values)[i]
  {
    var lines := RequirementLines(values);
    forall i | 0 <= i < 5
      ensures '\n' !in lines[i]
    {
      assert lines[i] == RequirementLabels[i] + values[i];
    }
  }

  lemma {:induction false} IntroUnbroken()
    ensures '\n' !in PlannerRole && '\n' !in RequirementsHeading
  {
  }

  lemma {:induction false} TravelPromptParts(values: seq<string>)
    requires |values| == 5
    ensures TravelPrompt(values) == "\n" + PlannerRole + "\n\n" + RequirementsHeading + "\n"
                                    + JoinWith(RequirementLines(values), '\n') + "\n" + TravelOutro
  {
  }

  lemma {:induction false} IntroSplit(role: string, heading: string, lines: seq<string>, outro: string)
    requires '\n' !in role && '\n' !in heading
    requires |lines| >= 1 && forall i :: 0 <= i < |lines| ==> '\n' !in lines[i]
    ensures var whole := "\n" + role + "\n\n" + heading + "\n" + JoinWith(lines, '\n') + "\n" + outro;
      |Split(whole, '\n')| >= 4 + |lines| && Split(whole, '\n')[4..4 + |lines|] == lines
  {
    var body := JoinWith(lines, '\n') + ['\n'] + outro;
    SplitJoinWith(lines, '\n', outro);
    HeaderSplit(role, heading, body);
    var whole := "\n" + role + "\n\n" + heading + "\n" + JoinWith(lines, '\n') + "\n" + outro;
    assert whole == ['\n'] + role + ['\n'] + ['\n'] + heading + ['\n'] + body;
    var parts := [[], role, [], heading] + (lines + Split(outro, '\n'));
    assert parts[4..4 + |lines|] == lines;
  }

  /** A blank first line, the role, a blank line and the heading, then the body. */
  lemma {:induction false} HeaderSplit(role: string, heading: string, body: string)
    requires '\n' !in role && '\n' !in heading
    ensures Split(['\n'] + role + ['\n'] + ['\n'] + heading + ['\n'] + body, '\n')
            == [[], role, [], heading] + Split(body, '\n')
  {
    var rest := ['\n'] + heading + ['\n'] + body;
    BlankThenLine(heading, body);
    BlankThenLine(role, rest);
    assert ['\n'] + role + ['\n'] + ['\n'] + heading + ['\n'] + body == ['\n'] + role + ['\n'] + rest;
  }

  /** A blank line, then one line, then the rest. */
  lemma {:induction false} BlankThenLine(line: string, rest: string)
    requires '\n' !in line
    ensures Split(['\n'] + line + ['\n'] + rest, '\n') == ["", line] + Split(rest, '\n')
  {
    SplitCons(line, '\n', rest);
    SplitLeading('\n', line + ['\n'] + rest);
    assert ['\n'] + line + ['\n'] + rest == ['\n'] + (line + ['\n'] + rest);
  }

  // ---------------------------------------------------------------------------
  // /extract post-processing
  // ---------------------------------------------------------------------------

  /** The keys of the record /extract returns, in the order the source lists them. */
  const FieldNames: seq<string> := ["destination", "days", "budget", "companions", "preferences"]

  /** `partialData.name` read the way the record template evidently means it: a missing
      key, and a reply that is not an object at all, give undefined. */
  function Field(partial: JsValue, name: string): JsValue {
    match Member(partial, name)
    case Ok(v) => v
    case Err(_) => Undefined
  }

  /** guaranteedData: every key present, each falsy value replaced by null. */
  function Guarantee(partial: JsValue): map<string, JsValue> {
    map[
      "destination" := OrNull(Field(partial, "destination")),
      "days" := OrNull(Field(partial, "days")),
      "budget" := OrNull(Field(partial, "budget")),
      "companions" := OrNull(Field(partial, "companions")),
      "preferences" := OrNull(Field(partial, "preferences"))]
  }

  /** guaranteedData exactly as written: each `partialData.x` is a property read, which
      throws when JSON.parse returned null. */
  function GuaranteeAsWritten(partial: JsValue): Result<map<string, JsValue>, Thrown> {
    var destination :- Member(partial, "destination");
    // the first read succeeded, so the others cannot throw
    var days := Member(partial, "days").value;
    var budget := Member(partial, "budget").value;
    var companions := Member(partial, "companions").value;
    var preferences := Member(partial, "preferences").value;
    Ok(map[
      "destination" := OrNull(destination),
      "days" := OrNull(days),
      "budget" := OrNull(budget),
      "companions" := OrNull(companions),
      "preferences" := OrNull(preferences)])
  }

  /** The record always has exactly the five keys, whatever the model returned; any
      other key of the reply is dropped. */
  lemma {:induction false} GuaranteeShape(partial: JsValue)
    ensures Guarantee(partial).Keys == set name | name in FieldNames
  {
  }

  /** Each value is the parsed field when that is truthy, and null otherwise: 0, "",
      false, null and a missing key all come out as null. */
  lemma {:induction false} GuaranteeFields(partial: JsValue, name: string)
    requires name in FieldNames
    ensures Truthy(Field(partial, name)) ==> Guarantee(partial)[name] == Field(partial, name)
    ensures !Truthy(Field(partial, name)) ==> Guarantee(partial)[name] == Null
  {
  }

  /** Normalising an already normalised record changes nothing. */
  lemma {:induction false} GuaranteeIdempotent(partial: JsValue)
    ensures Guarantee(Obj(Guarantee(partial))) == Guarantee(partial)
  {
  }

  /** The as-written record agrees with the intended one on every reply except null,
      where the source throws instead. */
  lemma {:induction false} GuaranteeAsWrittenAgrees(partial: JsValue)
    ensures !partial.Null? && !partial.Undefined? ==> GuaranteeAsWritten(partial) == Ok(Guarantee(partial))
    ensures partial.Null? ==> GuaranteeAsWritten(partial) == Err(TypeError)
  {
  }

  /** The request the route makes of the language model, and the reply it sends. */
  datatype Exchange = Exchange(prompts: seq<string>, reply: Reply)

  /** How far POST /extract gets before the record is built: an early reply, or the
      prompt sent and the model's reply parsed (or the fallback when it does not parse). */
  datatype Stage = Replied(exchange: Exchange) | Parsed(prompt: string, partial: JsValue)

  /** POST /extract with body field `text`, up to JSON.parse. Rendering `${text}` throws
      inside the try for an object with its own `toString` key. `llm` is the
      chat-completion call, giving `choices[0].message.content` as JSON.parse sees it:
      None when the request fails or the reply has no `choices[0].message`, and
      "undefined" when the message has no content. `parse` is JSON.parse, None when it
      throws, as it does on "undefined", which then takes the fallback. */
  function ExtractUntilParsed(text: JsValue, llm: string -> Option<string>, parse: string -> Option<JsValue>)
    : Stage
  {
    if !Truthy(text) then Replied(Exchange([], Reply(400, ErrorBody("缺少文本"))))
    else
      match ToStr(text)
      case Err(_) => Replied(Exchange([], Reply(500, ErrorBody("提取信息失败"))))
      case Ok(rendered) =>
        var prompt := ExtractPrompt(rendered);
        match llm(prompt)
        case None => Replied(Exchange([prompt], Reply(500, ErrorBody("提取信息失败"))))
        case Some(content) =>
          Parsed(prompt, match parse(content)
            case Some(v) => v
            case None => Obj(map["preferences" := text]))
  }

  /** POST /extract as written: building guaranteedData throws, and the catch answers
      500, when the model's reply parses to null. */
  function ExtractRoute(text: JsValue, llm: string -> Option<string>, parse: string -> Option<JsValue>)
    : Exchange
  {
    match ExtractUntilParsed(text, llm, parse)
    case Replied(exchange) => exchange
    case Parsed(prompt, partial) =>
      match GuaranteeAsWritten(partial)
      case Err(_) => Exchange([prompt], Reply(500, ErrorBody("提取信息失败")))
      case Ok(record) => Exchange([prompt], Reply(200, Obj(record)))
  }

  /** POST /extract as its comments promise: every parsed reply, null included, is
      normalised into the five-key record. */
  function ExtractRouteIntended(text: JsValue, llm: string -> Option<string>, parse: string -> Option<JsValue>)
    : Exchange
  {
    match ExtractUntilParsed(text, llm, parse)
    case Replied(exchange) => exchange
    case Parsed(prompt, partial) => Exchange([prompt], Reply(200, Obj(Guarantee(partial))))
  }

  /** A missing or empty text is refused with 400 before any call to the model. */
  lemma {:induction false} ExtractRejectsMissingText(text: JsValue, llm: string -> Option<string>, parse: string -> Option<JsValue>)
    requires !Truthy(text)
    ensures ExtractRoute(text, llm, parse).prompts == []
    ensures ExtractRoute(text, llm, parse).reply.status == 400
  {
  }

  /** A text that cannot be rendered into the prompt is answered 500 without a call to
      the model. */
  lemma {:induction false} ExtractUnprintableText(text: JsValue, llm: string -> Option<string>, parse: string -> Option<JsValue>)
    requires Truthy(text) && ToStr(text).Err?
    ensures ExtractRoute(text, llm, parse) == Exchange([], Reply(500, ErrorBody("提取信息失败")))
  {
  }

  /** Otherwise the model is asked exactly once, with the text quoted in the prompt; a
      failed call answers 500, and a reply that parses to anything but null or undefined
      answers 200 with the five-key record. */
  lemma {:induction false} ExtractAsksOnce(text: JsValue, llm: string -> Option<string>, parse: string -> Option<JsValue>)
    requires Truthy(text) && ToStr(text).Ok?
    ensures |ExtractRoute(text, llm, parse).prompts| == 1
    ensures QuotedText(ExtractRoute(text, llm, parse).prompts[0]) == Some(ToStr(text).value)
    ensures var prompt := ExtractPrompt(ToStr(text).value);
      llm(prompt).None? ==> ExtractRoute(text, llm, parse).reply == Reply(500, ErrorBody("提取信息失败"))
    ensures var prompt := ExtractPrompt(ToStr(text).value);
      var reply := ExtractRoute(text, llm, parse).reply;
      llm(prompt).Some? && !(parse(llm(prompt).value) in {Some(Null), Some(Undefined)}) ==>
        reply.status == 200 && reply.body.Obj? && reply.body.fields.Keys == set name | name in FieldNames
  {
    ExtractPromptRoundTrip(ToStr(text).value);
  }

  /** A model reply of `null` parses, but reading `destination` from it throws: the
      route answers 500 where the intended route answers the all-null record. */
  lemma {:induction false} ExtractNullReply(text: JsValue, llm: string -> Option<string>, parse: string -> Option<JsValue>)
    requires Truthy(text) && ToStr(text).Ok?
    requires llm(ExtractPrompt(ToStr(text).value)).Some?
    requires parse(llm(ExtractPrompt(ToStr(text).value)).value) == Some(Null)
    ensures ExtractRoute(text, llm, parse)
            == Exchange([ExtractPrompt(ToStr(text).value)], Reply(500, ErrorBody("提取信息失败")))
    ensures ExtractRouteIntended(text, llm, parse).reply == Reply(200, Obj(map[
      "destination" := Null, "days" := Null, "budget" := Null, "companions" := Null,
      "preferences" := Null]))
  {
  }

  /** The intended route answers every successful model call with the five-key record. */
  lemma {:induction false} ExtractIntendedAlwaysRecord(text: JsValue, llm: string -> Option<string>, parse: string -> Option<JsValue>)
    requires Truthy(text) && ToStr(text).Ok?
    requires llm(ExtractPrompt(ToStr(text).value)).Some?
    ensures var reply := ExtractRouteIntended(text, llm, parse).reply;
      reply.status == 200 && reply.body.Obj? && reply.body.fields.Keys == set name | name in FieldNames
  {
    GuaranteeShape(ExtractUntilParsed(text, llm, parse).partial);
  }

  /** The two routes differ exactly when the model's reply parses to null or undefined. */
  lemma {:induction false} ExtractRoutesAgree(text: JsValue, llm: string -> Option<string>, parse: string -> Option<JsValue>)
    ensures ExtractRoute(text, llm, parse) != ExtractRouteIntended(text, llm, parse) <==>
      var stage := ExtractUntilParsed(text, llm, parse);
      stage.Parsed? && (stage.partial.Null? || stage.partial.Undefined?)
  {
    var stage := ExtractUntilParsed(text, llm, parse);
    if stage.Parsed? {
      GuaranteeAsWrittenAgrees(stage.partial);
    }
  }

  /** A reply that is not JSON degrades to the whole text as the preferences. */
  lemma {:induction false} ExtractFallback(text: JsValue, llm: string -> Option<string>, parse: string -> Option<JsValue>)
    requires Truthy(text) && ToStr(text).Ok?
    requires llm(ExtractPrompt(ToStr(text).value)).Some?
    requires parse(llm(ExtractPrompt(ToStr(text).value)).value).None?
    ensures ExtractRoute(text, llm, parse).reply == Reply(200, Obj(map[
      "destination" := Null, "days" := Null, "budget" := Null, "companions" := Null,
      "preferences" := text]))
  {
  }
}
