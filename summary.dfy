/** get_content_summary's request to the Bedrock Converse API, and the rough
    token counts main reports. The wording of the prompt around the area
    description is kept abstract: Introduction and Instructions stand for the
    fixed text before and after it. */
module Summary {
  import opened Wrappers

  const ModelId: string := "anthropic.claude-3-5-sonnet-20241022-v2:0"

  /** The prompt text up to and including the blank line before
      <area_description>. */
  const Introduction: string

  /** The prompt text after </area_description>: the instructions, the
      example report and the closing indentation. */
  const Instructions: string

  const OpenTag: string := "<area_description>\n"
  const CloseTag: string := "\n</area_description>"

  /** The template filled in by str.format: the corpus replaces {text},
      which sits on a line of its own between the tags. */
  function Prompt(corpus: string): (prompt: string)
    ensures |prompt| == |Introduction| + |OpenTag| + |corpus| + |CloseTag| + |Instructions|
  {
    Introduction + OpenTag + corpus + CloseTag + Instructions
  }

  /** Reads the corpus back out of a prompt. */
  function CorpusOfPrompt(prompt: string): Option<string>
  {
    var head := Introduction + OpenTag;
    var tail := CloseTag + Instructions;
    if |prompt| >= |head| + |tail| && prompt[..|head|] == head && prompt[|prompt| - |tail|..] == tail
    then Some(prompt[|head|..|prompt| - |tail|])
    else None
  }

  /** The prompt carries the corpus verbatim, whatever it holds. */
  lemma PromptRoundTrip(corpus: string)
    ensures CorpusOfPrompt(Prompt(corpus)) == Some(corpus)
  {
    var head := Introduction + OpenTag;
    var tail := CloseTag + Instructions;
    var p := Prompt(corpus);
    assert p == head + corpus + tail;
    assert p[..|head|] == head;
    assert p[|p| - |tail|..] == tail;
    assert p[|head|..|p| - |tail|] == corpus;
  }

  /** Different corpora give different prompts. */
  lemma PromptInjective(c1: string, c2: string)
    requires Prompt(c1) == Prompt(c2)
    ensures c1 == c2
  {
    PromptRoundTrip(c1);
    PromptRoundTrip(c2);
  }

  datatype ContentItem = ContentItem(text: string)
  datatype Message = Message(role: string, content: seq<ContentItem>)

  /** The inferenceConfig dictionary. */
  datatype InferenceConfig = InferenceConfig(temperature: real, maxTokens: int, topP: int)

  /** The arguments of bedrock_runtime.converse. */
  datatype ConverseRequest = ConverseRequest(modelId: string, messages: seq<Message>, inferenceConfig: InferenceConfig)

  /** Greedy decoding: temperature 0, at most 2048 output tokens, no nucleus
      cut-off. */
  const Config: InferenceConfig := InferenceConfig(0.0, 2048, 1)

  function SummaryRequest(corpus: string): (r: ConverseRequest)
  {
    ConverseRequest(ModelId, [Message("user", [ContentItem(Prompt(corpus))])], Config)
  }

  /** The shape every summary request has: the fixed model and settings, and
      a single user message with a single text item. */
  predicate WellFormedRequest(r: ConverseRequest)
  {
    r.modelId == ModelId && r.inferenceConfig == Config &&
    |r.messages| == 1 && r.messages[0].role == "user" && |r.messages[0].content| == 1
  }

  /** The corpus a request asks to summarise, if it is a summary request. */
  function CorpusOfRequest(r: ConverseRequest): Option<string>
  {
    if WellFormedRequest(r) then CorpusOfPrompt(r.messages[0].content[0].text) else None
  }

  /** Every request is well formed and asks about exactly its corpus. */
  lemma RequestRoundTrip(corpus: string)
    ensures WellFormedRequest(SummaryRequest(corpus))
    ensures CorpusOfRequest(SummaryRequest(corpus)) == Some(corpus)
  {
    PromptRoundTrip(corpus);
  }

  /** len(text) // 4: the character count divided by four, rounded down. */
  function ApproxTokens(s: string): (t: nat)
    ensures 4 * t <= |s| < 4 * t + 4
  {
    |s| / 4
  }

  /** tokens // 1000: the whole thousands billed. */
  function BilledThousands(tokens: nat): (k: nat)
    ensures 1000 * k <= tokens < 1000 * k + 1000
  {
    tokens / 1000
  }

  /** Price per thousand tokens, in dollars. */
  const InputRate: real := 0.0008
  const OutputRate: real := 0.0032

  /** The token estimates and prices main prints. */
  datatype Usage = Usage(inputTokens: nat, outputTokens: nat, inputPrice: real, outputPrice: real)

  function UsageOf(corpus: string, summary: string): Usage
  {
    Usage(ApproxTokens(corpus), ApproxTokens(summary),
          BilledThousands(ApproxTokens(corpus)) as real * InputRate,
          BilledThousands(ApproxTokens(summary)) as real * OutputRate)
  }

  /** Rounding down twice is rounding down once: the thousands billed are
      the character count divided by 4000. */
  lemma BilledByCharacters(s: string)
    ensures BilledThousands(ApproxTokens(s)) == |s| / 4000
  {
    var t := ApproxTokens(s);
    var k := BilledThousands(t);
    assert 4000 * k <= |s| < 4000 * k + 4000;
    DivFromBounds(|s|, 4000, k);
  }

  lemma DivFromBounds(n: int, d: int, k: int)
    requires 0 < d && d * k <= n < d * k + d
    ensures n / d == k
  {
    var q, r := n / d, n % d;
    assert n == d * q + r && 0 <= r < d;
    if q < k {
      MulMonotone(d, q + 1, k);
    } else if q > k {
      MulMonotone(d, k + 1, q);
    }
  }

  lemma MulMonotone(d: int, a: int, b: int)
    requires 0 < d && a <= b
    ensures d * a <= d * b
  {
  }

  /** A corpus shorter than 4000 characters is estimated at no cost, though
      it is not free to send. */
  lemma ShortInputIsFree(corpus: string, summary: string)
    requires |corpus| < 4000
    ensures UsageOf(corpus, summary).inputPrice == 0.0
  {
    BilledByCharacters(corpus);
  }

  /** The estimate grows with the text: a longer text never gets fewer
      tokens or a lower price. */
  lemma UsageMonotone(c1: string, c2: string, summary: string)
    requires |c1| <= |c2|
    ensures UsageOf(c1, summary).inputTokens <= UsageOf(c2, summary).inputTokens
    ensures UsageOf(c1, summary).inputPrice <= UsageOf(c2, summary).inputPrice
  {
    BilledByCharacters(c1);
    BilledByCharacters(c2);
    DivMonotone(|c1|, |c2|, 4000);
  }

  lemma DivMonotone(a: nat, b: nat, d: nat)
    requires a <= b && 0 < d
    ensures a / d <= b / d
  {
    if a / d > b / d {
      MulMonotone(d, b / d + 1, a / d);
    }
  }
}
