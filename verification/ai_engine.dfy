/**
 * The generation engine (class `AIEngine` of ai_engine.py): its settings and
 * load state, the clamped settings update, the primary/fallback model load,
 * the localized prompt templates, the slicing of the decoded output, and the
 * four task wrappers.
 *
 * The transformers library is not modelled. Whether a checkpoint can be
 * loaded is an oracle `loads` on its name; what the tokenizer, `generate` and
 * `decode` make of a prompt is an oracle `decode` on the whole generation
 * call, answering `None` when any of them raises.
 */
module AiEngine {
  import opened Wrappers
  import opened Text

  // ---------------------------------------------------------------------------
  // Settings
  // ---------------------------------------------------------------------------

  const DefaultModel := "google/gemma-2-9b-it"
  const FallbackModel := "microsoft/DialoGPT-medium"

  const MinTemperature := 0.1
  const MaxTemperature := 2.0
  const MinTopP := 0.1
  const MaxTopP := 1.0
  const MinMaxLength := 100
  const MaxMaxLength := 4096

  /** `max(lo, min(hi, x))` on reals: `x` when it lies in `[lo, hi]`, otherwise the nearer bound. */
  function ClampReal(lo: real, hi: real, x: real): (r: real)
    requires lo <= hi
    ensures lo <= r <= hi
    ensures lo <= x <= hi ==> r == x
    ensures x < lo ==> r == lo
    ensures x > hi ==> r == hi
  {
    var m := if x < hi then x else hi;
    if m > lo then m else lo
  }

  /** `max(lo, min(hi, x))` on integers: the real clamp, which never leaves the integers. */
  function ClampInt(lo: int, hi: int, x: int): (r: int)
    requires lo <= hi
    ensures r as real == ClampReal(lo as real, hi as real, x as real)
    ensures lo <= r <= hi
    ensures lo <= x <= hi ==> r == x
    ensures x < lo ==> r == lo
    ensures x > hi ==> r == hi
  {
    ClampReal(lo as real, hi as real, x as real).Floor
  }

  /** A temperature of 5.0 becomes 2.0, one of 0.0 becomes 0.1, and a length of 10000 becomes 4096. */
  lemma ClampExamples()
    ensures ClampReal(MinTemperature, MaxTemperature, 5.0) == 2.0
    ensures ClampReal(MinTemperature, MaxTemperature, 0.0) == 0.1
    ensures ClampInt(MinMaxLength, MaxMaxLength, 10000) == 4096
  {
  }

  // ---------------------------------------------------------------------------
  // Prompt templates
  // ---------------------------------------------------------------------------

  /** A template with its single placeholder: the text before it and the text after it. */
  datatype Template = Template(before: string, after: string)

  /** `template.format(...)`: the payload goes verbatim between the two fixed parts. */
  function Fill(t: Template, payload: string): (prompt: string)
    ensures |prompt| == |t.before| + |payload| + |t.after|
    ensures prompt[..|t.before|] == t.before
    ensures prompt[|t.before|..|t.before| + |payload|] == payload
    ensures prompt[|t.before| + |payload|..] == t.after
  {
    t.before + payload + t.after
  }

  /** Two payloads that fill a template to the same prompt are the same: the filling loses nothing. */
  lemma FillInjective(t: Template, a: string, b: string)
    requires Fill(t, a) == Fill(t, b)
    ensures a == b
  {
    var p := Fill(t, a);
    assert a == p[|t.before|..|t.before| + |a|];
    assert b == p[|t.before|..|t.before| + |b|];
  }

  /** The languages every template table covers. */
  const TemplateLanguages: set<string> := {"en", "es", "fr", "de"}

  const SummarizeTemplates: map<string, Template> := map[
    "en" := Template(
      "You are a helpful educational " +
      "assistant. Summarize the following " +
      "textbook content in simple terms " +
      "that a 12-year-old student can " +
      "understand. Focus on the main " +
      "concepts and explain them clearly:\n\n",
      "\n\nSummary:"),
    "es" := Template(
      "Eres un asistente educativo \U{FA}til. " +
      "Resume el siguiente contenido " +
      "del libro de texto en t\U{E9}rminos " +
      "simples que un estudiante de 12 " +
      "a\U{F1}os pueda entender. Enf\U{F3}cate " +
      "en los conceptos principales y " +
      "expl\U{ED}calos claramente:\n\n",
      "\n\nResumen:"),
    "fr" := Template(
      "Vous \U{EA}tes un assistant \U{E9}ducatif " +
      "utile. R\U{E9}sumez le contenu suivant " +
      "du manuel en termes simples qu'un " +
      "\U{E9}tudiant de 12 ans peut comprendre. " +
      "Concentrez-vous sur les concepts " +
      "principaux et expliquez-les clairement:\n\n",
      "\n\nR\U{E9}sum\U{E9}:"),
    "de" := Template(
      "Sie sind ein hilfreicher Bildungsassistent. " +
      "Fassen Sie den folgenden Lehrbuchinhalt " +
      "in einfachen Begriffen zusammen, " +
      "die ein 12-j\U{E4}hriger Sch\U{FC}ler verstehen " +
      "kann. Konzentrieren Sie sich auf " +
      "die Hauptkonzepte und erkl\U{E4}ren " +
      "Sie sie klar:\n\n",
      "\n\nZusammenfassung:")
  ]

  const AnswerTemplates: map<string, Template> := map[
    "en" := Template(
      "You are a helpful educational " +
      "assistant. Answer the following " +
      "question in a way that a school " +
      "student can understand. Provide " +
      "a clear, accurate, and educational " +
      "response:\n\nQuestion: ",
      "\n\nAnswer:"),
    "es" := Template(
      "Eres un asistente educativo \U{FA}til. " +
      "Responde la siguiente pregunta " +
      "de una manera que un estudiante " +
      "escolar pueda entender. Proporciona " +
      "una respuesta clara, precisa y " +
      "educativa:\n\nPregunta: ",
      "\n\nRespuesta:"),
    "fr" := Template(
      "Vous \U{EA}tes un assistant \U{E9}ducatif " +
      "utile. R\U{E9}pondez \U{E0} la question " +
      "suivante d'une mani\U{E8}re qu'un \U{E9}tudiant " +
      "peut comprendre. Fournissez une " +
      "r\U{E9}ponse claire, pr\U{E9}cise et \U{E9}ducative:\n\nQuestion: ",
      "\n\nR\U{E9}ponse:"),
    "de" := Template(
      "Sie sind ein hilfreicher Bildungsassistent. " +
      "Beantworten Sie die folgende Frage " +
      "so, dass ein Sch\U{FC}ler sie verstehen " +
      "kann. Geben Sie eine klare, genaue " +
      "und lehrreiche Antwort:\n\nFrage: ",
      "\n\nAntwort:")
  ]

  const ExplainTemplates: map<string, Template> := map[
    "en" := Template(
      "You are a helpful educational " +
      "assistant. Explain the following " +
      "concept in simple terms that a " +
      "student can understand. Use examples " +
      "and analogies if helpful:\n\nConcept: ",
      "\n\nExplanation:"),
    "es" := Template(
      "Eres un asistente educativo \U{FA}til. " +
      "Explica el siguiente concepto " +
      "en t\U{E9}rminos simples que un estudiante " +
      "pueda entender. Usa ejemplos y " +
      "analog\U{ED}as si es \U{FA}til:\n\nConcepto: ",
      "\n\nExplicaci\U{F3}n:"),
    "fr" := Template(
      "Vous \U{EA}tes un assistant \U{E9}ducatif " +
      "utile. Expliquez le concept suivant " +
      "en termes simples qu'un \U{E9}tudiant " +
      "peut comprendre. Utilisez des " +
      "exemples et des analogies si c'est " +
      "utile:\n\nConcept: ",
      "\n\nExplication:"),
    "de" := Template(
      "Sie sind ein hilfreicher Bildungsassistent. " +
      "Erkl\U{E4}ren Sie das folgende Konzept " +
      "in einfachen Begriffen, die ein " +
      "Sch\U{FC}ler verstehen kann. Verwenden " +
      "Sie Beispiele und Analogien, wenn " +
      "es hilfreich ist:\n\nKonzept: ",
      "\n\nErkl\U{E4}rung:")
  ]

  const TranslateTemplates: map<string, Template> := map[
    "es" := Template(
      "Translate the following text to " +
      "Spanish:\n\n",
      "\n\nTranslation:"),
    "fr" := Template(
      "Translate the following text to " +
      "French:\n\n",
      "\n\nTranslation:"),
    "de" := Template(
      "Translate the following text to " +
      "German:\n\n",
      "\n\nTranslation:"),
    "en" := Template(
      "Translate the following text to " +
      "English:\n\n",
      "\n\nTranslation:")
  ]

  /** The three tables `__init__` stores in `self.prompts`, under the names of their tasks. */
  const DefaultPrompts: map<string, map<string, Template>> := map[
    "summarize" := SummarizeTemplates,
    "answer_question" := AnswerTemplates,
    "explain_concept" := ExplainTemplates
  ]

  /**
   * `table.get(language, table['en'])`: the template of the language, or the
   * English one for any other code. The English entry must exist, since the
   * default is looked up before the call.
   */
  function SelectTemplate(table: map<string, Template>, language: string): (t: Template)
    requires "en" in table
    ensures t in table.Values
    ensures language in table ==> t == table[language]
    ensures language !in table ==> t == table["en"]
  {
    if language in table then table[language] else table["en"]
  }

  /** Every default table covers exactly English, Spanish, French and German. */
  lemma SummarizeLanguages()
    ensures SummarizeTemplates.Keys == TemplateLanguages
  {
  }

  lemma AnswerLanguages()
    ensures AnswerTemplates.Keys == TemplateLanguages
  {
  }

  lemma ExplainLanguages()
    ensures ExplainTemplates.Keys == TemplateLanguages
  {
  }

  lemma TranslateLanguages()
    ensures TranslateTemplates.Keys == TemplateLanguages
  {
  }

  /**
   * With the default tables, a task's template is the one of the language for
   * English, Spanish, French and German, and the English one for any other code.
   */
  lemma DefaultSelection(task: string, language: string)
    requires task in DefaultPrompts
    ensures "en" in DefaultPrompts[task]
    ensures var table := DefaultPrompts[task];
      SelectTemplate(table, language) == table[if language in TemplateLanguages then language else "en"]
  {
    SummarizeLanguages();
    AnswerLanguages();
    ExplainLanguages();
  }

  // ---------------------------------------------------------------------------
  // Generation
  // ---------------------------------------------------------------------------

  /**
   * One call of tokenizer, `generate` and `decode`: the checkpoint, the
   * prompt, the input truncation length, the output length cap and the two
   * sampling settings.
   */
  datatype GenerationCall = GenerationCall(
    checkpoint: string, prompt: string, inputLimit: int, outputLimit: int, temperature: real, topP: real)

  /**
   * `response[len(prompt):].strip()`: the decoded output without as many
   * characters as the prompt has, stripped. Nothing is left when the output
   * is no longer than the prompt.
   */
  function Reply(prompt: string, decoded: string): (r: string)
    ensures |decoded| <= |prompt| ==> r == ""
    ensures |r| <= |decoded| - |prompt| || r == ""
    ensures r == [] || (!IsWhitespace(r[0]) && !IsWhitespace(r[|r| - 1]))
  {
    if |decoded| <= |prompt| then "" else Strip(decoded[|prompt|..])
  }

  /**
   * The cut counts characters and never compares them: whatever the first
   * `len(prompt)` characters of the output are, the reply is the rest,
   * stripped, with all of its non-whitespace.
   */
  lemma ReplyCutsPromptLength(prompt: string, head: string, continuation: string)
    requires |head| == |prompt|
    ensures Reply(prompt, head + continuation) == Strip(continuation)
    ensures NonWs(Reply(prompt, head + continuation)) == NonWs(continuation)
  {
    var d := head + continuation;
    if continuation == [] {
      assert Strip(continuation) == [];
    } else {
      assert d[|prompt|..] == continuation;
    }
    StripKeepsNonWs(continuation);
  }

  /** When the decoded output echoes the prompt, the reply is the stripped continuation. */
  lemma ReplyOfEcho(prompt: string, continuation: string)
    ensures Reply(prompt, prompt + continuation) == Strip(continuation)
    ensures NonWs(Reply(prompt, prompt + continuation)) == NonWs(continuation)
  {
    ReplyCutsPromptLength(prompt, prompt, continuation);
  }

  /** An output that does not start with the prompt still loses its first `len(prompt)` characters. */
  lemma ReplyIgnoresHead()
    ensures Reply("Hi", "Xiab") == "ab"
  {
    ReplyCutsPromptLength("Hi", "Xi", "ab");
    assert "Xi" + "ab" == "Xiab";
    NotWhitespace('a');
    NotWhitespace('b');
    StripUnpadded("ab");
  }

  /**
   * Dropping `len(prompt)` characters removes one echo of the prompt only: a
   * model that repeats the prompt twice gets a reply that starts with it.
   */
  lemma ReplyMayRepeatPrompt()
    ensures Reply("Hi", "HiHi") == "Hi"
  {
    NotWhitespace('H');
    NotWhitespace('i');
    assert "HiHi"[2..] == "Hi";
    StripUnpadded("Hi");
  }

  /** The table of a task is present and has an English entry. */
  predicate HasEnglish(prompts: map<string, map<string, Template>>, task: string) {
    task in prompts && "en" in prompts[task]
  }

  /** The values `get_model_info` reports. */
  datatype InfoValue = Str(s: string) | Int(i: int) | Real(x: real)

  /**
   * The engine. `checkpoint` stands for the model object: the name of the
   * checkpoint whose weights it holds, `None` before any load succeeded.
   * `prompts` holds the three task tables; nothing after the constructor
   * changes it.
   */
  class Engine {
    var checkpoint: Option<string>
    var device: string
    var modelLoaded: bool
    var modelName: string
    var maxLength: int
    var temperature: real
    var topP: real
    var prompts: map<string, map<string, Template>>

    /** The settings lie in their ranges and the engine is loaded exactly when it holds a model. */
    predicate Valid()
      reads this
    {
      && MinTemperature <= temperature <= MaxTemperature
      && MinTopP <= topP <= MaxTopP
      && MinMaxLength <= maxLength <= MaxMaxLength
      && (modelLoaded <==> checkpoint.Some?)
      && (device == "cuda" || device == "cpu")
      && HasEnglish(prompts, "summarize") && HasEnglish(prompts, "answer_question") && HasEnglish(prompts, "explain_concept")
    }

    /** `AIEngine.__init__`: default settings, no model, the device chosen from whether CUDA is available. */
    constructor(cudaAvailable: bool)
      ensures Valid()
      ensures checkpoint == None && !modelLoaded
      ensures device == (if cudaAvailable then "cuda" else "cpu")
      ensures modelName == DefaultModel
      ensures maxLength == 2048 && temperature == 0.7 && topP == 0.9
      ensures prompts == DefaultPrompts
      ensures GetModelInfo() == map["status" := Str("Not loaded")]
    {
      checkpoint := None;
      device := if cudaAvailable then "cuda" else "cpu";
      modelLoaded := false;
      modelName := DefaultModel;
      maxLength := 2048;
      temperature := 0.7;
      topP := 0.9;
      prompts := DefaultPrompts;
      SummarizeLanguages();
      AnswerLanguages();
      ExplainLanguages();
    }

    /**
     * `update_settings`: each supplied value is clamped into its range and
     * stored; an omitted one leaves its setting alone, and nothing else changes.
     */
    method UpdateSettings(newTemperature: Option<real>, newTopP: Option<real>, newMaxLength: Option<int>)
      requires Valid()
      modifies this
      ensures Valid()
      ensures temperature == (if newTemperature.Some? then ClampReal(MinTemperature, MaxTemperature, newTemperature.value) else old(temperature))
      ensures topP == (if newTopP.Some? then ClampReal(MinTopP, MaxTopP, newTopP.value) else old(topP))
      ensures maxLength == (if newMaxLength.Some? then ClampInt(MinMaxLength, MaxMaxLength, newMaxLength.value) else old(maxLength))
      ensures checkpoint == old(checkpoint) && device == old(device)
      ensures modelLoaded == old(modelLoaded) && modelName == old(modelName) && prompts == old(prompts)
    {
      if newTemperature.Some? {
        temperature := ClampReal(MinTemperature, MaxTemperature, newTemperature.value);
      }
      if newTopP.Some? {
        topP := ClampReal(MinTopP, MaxTopP, newTopP.value);
      }
      if newMaxLength.Some? {
        maxLength := ClampInt(MinMaxLength, MaxMaxLength, newMaxLength.value);
      }
    }

    /**
     * `load_model`: a non-empty name replaces `modelName` before the attempt,
     * whatever its outcome; the named checkpoint is tried first, then the
     * fallback. Success sets `modelLoaded`; failure of both leaves the model
     * as it was. `modelName` never becomes the fallback's name, so after a
     * fallback load the reported name is not the loaded checkpoint.
     */
    method LoadModel(name: Option<string>, loads: string -> bool) returns (ok: bool)
      requires Valid()
      modifies this
      ensures Valid()
      ensures modelName == (if name.Some? && name.value != "" then name.value else old(modelName))
      ensures ok <==> loads(modelName) || loads(FallbackModel)
      ensures modelLoaded == (old(modelLoaded) || ok)
      ensures loads(modelName) ==> checkpoint == Some(modelName)
      ensures !loads(modelName) && loads(FallbackModel) ==> checkpoint == Some(FallbackModel)
      ensures !ok ==> checkpoint == old(checkpoint)
      ensures ok ==> GetModelInfo()["status"] == Str("Loaded") && GetModelInfo()["model_name"] == Str(modelName)
      ensures temperature == old(temperature) && topP == old(topP) && maxLength == old(maxLength)
      ensures device == old(device) && prompts == old(prompts)
    {
      if name.Some? && name.value != "" {
        modelName := name.value;
      }
      if loads(modelName) {
        checkpoint := Some(modelName);
        modelLoaded := true;
        ok := true;
      } else if loads(FallbackModel) {
        checkpoint := Some(FallbackModel);
        modelLoaded := true;
        ok := true;
      } else {
        ok := false;
      }
    }

    /** The generation call `generate_response` makes: `max_length or self.max_length` caps the output. */
    function CallFor(prompt: string, cap: Option<int>): (call: GenerationCall)
      reads this
      requires Valid() && modelLoaded
      ensures call.prompt == prompt && call.checkpoint == checkpoint.value
      ensures call.outputLimit == (if cap.Some? && cap.value != 0 then cap.value else maxLength)
      ensures call.inputLimit == maxLength
      ensures call.temperature == temperature && call.topP == topP
    {
      var limit := if cap.Some? && cap.value != 0 then cap.value else maxLength;
      GenerationCall(checkpoint.value, prompt, maxLength, limit, temperature, topP)
    }

    /**
     * `generate_response`: `""` when no model is loaded or generation raises,
     * otherwise the reply cut from the decoded output.
     */
    function GenerateResponse(prompt: string, cap: Option<int>, decode: GenerationCall -> Option<string>): (r: string)
      reads this
      requires Valid()
      ensures !modelLoaded ==> r == ""
      ensures modelLoaded && decode(CallFor(prompt, cap)).None? ==> r == ""
      ensures modelLoaded && decode(CallFor(prompt, cap)).Some? ==> r == Reply(prompt, decode(CallFor(prompt, cap)).value)
      ensures r == [] || (!IsWhitespace(r[0]) && !IsWhitespace(r[|r| - 1]))
    {
      if !modelLoaded then ""
      else
        match decode(CallFor(prompt, cap))
        case None => ""
        case Some(decoded) => Reply(prompt, decoded)
    }

    /**
     * `summarize_text`: a fixed message for blank text, otherwise the
     * generated summary, or a fixed apology when nothing was generated; never
     * empty.
     */
    function SummarizeText(text: string, language: string, decode: GenerationCall -> Option<string>): (r: string)
      reads this
      requires Valid()
      ensures IsBlank(text) ==> r == "No text provided for summarization."
      ensures !IsBlank(text) ==>
        var g := GenerateResponse(Fill(SelectTemplate(prompts["summarize"], language), text), Some(500), decode);
        r == (if g == "" then "Unable to generate summary at this time." else g)
      ensures !IsBlank(text) && !modelLoaded ==> r == "Unable to generate summary at this time."
      ensures r != ""
    {
      if IsBlank(text) then "No text provided for summarization."
      else
        var summary := GenerateResponse(Fill(SelectTemplate(prompts["summarize"], language), text), Some(500), decode);
        if summary == "" then "Unable to generate summary at this time." else summary
    }

    /** `answer_question`: as `summarize_text`, with its own messages and a cap of 800. */
    function AnswerQuestion(question: string, language: string, decode: GenerationCall -> Option<string>): (r: string)
      reads this
      requires Valid()
      ensures IsBlank(question) ==> r == "No question provided."
      ensures !IsBlank(question) ==>
        var g := GenerateResponse(Fill(SelectTemplate(prompts["answer_question"], language), question), Some(800), decode);
        r == (if g == "" then "Unable to generate answer at this time." else g)
      ensures !IsBlank(question) && !modelLoaded ==> r == "Unable to generate answer at this time."
      ensures r != ""
    {
      if IsBlank(question) then "No question provided."
      else
        var answer := GenerateResponse(Fill(SelectTemplate(prompts["answer_question"], language), question), Some(800), decode);
        if answer == "" then "Unable to generate answer at this time." else answer
    }

    /** `explain_concept`: as `summarize_text`, with its own messages and a cap of 600. */
    function ExplainConcept(concept: string, language: string, decode: GenerationCall -> Option<string>): (r: string)
      reads this
      requires Valid()
      ensures IsBlank(concept) ==> r == "No concept provided for explanation."
      ensures !IsBlank(concept) ==>
        var g := GenerateResponse(Fill(SelectTemplate(prompts["explain_concept"], language), concept), Some(600), decode);
        r == (if g == "" then "Unable to generate explanation at this time." else g)
      ensures !IsBlank(concept) && !modelLoaded ==> r == "Unable to generate explanation at this time."
      ensures r != ""
    {
      if IsBlank(concept) then "No concept provided for explanation."
      else
        var explanation := GenerateResponse(Fill(SelectTemplate(prompts["explain_concept"], language), concept), Some(600), decode);
        if explanation == "" then "Unable to generate explanation at this time." else explanation
    }

    /**
     * `translate_text`: `""` for blank text, otherwise the generated
     * translation, or the text itself when nothing was generated (so an
     * engine without a model echoes its input). The result is empty exactly
     * when the text is blank.
     */
    function TranslateText(text: string, targetLanguage: string, decode: GenerationCall -> Option<string>): (r: string)
      reads this
      requires Valid()
      ensures IsBlank(text) ==> r == ""
      ensures !IsBlank(text) ==>
        var g := GenerateResponse(Fill(SelectTemplate(TranslateTemplates, targetLanguage), text), Some(400), decode);
        r == (if g == "" then text else g)
      ensures !IsBlank(text) && !modelLoaded ==> r == text
      ensures r == "" <==> IsBlank(text)
    {
      if IsBlank(text) then ""
      else
        var translation := GenerateResponse(Fill(SelectTemplate(TranslateTemplates, targetLanguage), text), Some(400), decode);
        if translation == "" then text else translation
    }

    /**
     * `get_model_info`: only the status while no model is loaded, otherwise
     * the name, the device, the three settings and the status.
     */
    function GetModelInfo(): (info: map<string, InfoValue>)
      reads this
      ensures !modelLoaded ==> info.Keys == {"status"} && info["status"] == Str("Not loaded")
      ensures modelLoaded ==>
        && info.Keys == {"model_name", "device", "max_length", "temperature", "top_p", "status"}
        && info["status"] == Str("Loaded")
        && info["model_name"] == Str(modelName) && info["device"] == Str(device)
        && info["max_length"] == Int(maxLength)
        && info["temperature"] == Real(temperature) && info["top_p"] == Real(topP)
    {
      if !modelLoaded then map["status" := Str("Not loaded")]
      else map[
        "model_name" := Str(modelName),
        "device" := Str(device),
        "max_length" := Int(maxLength),
        "temperature" := Real(temperature),
        "top_p" := Real(topP),
        "status" := Str("Loaded")
      ]
    }
  }
}
