# Educational assistant core: OCR post-processing, generation engine, utilities

This project models, in Dafny, the logic of a Streamlit educational assistant
that reads a textbook photo and asks a language model to summarize it, answer
questions or explain concepts. The logic has three parts:

- **Text extraction** (`OCRProcessor` in `ocr_processor.py`). `clean_text`
  collapses each line's whitespace and drops blank lines. Other steps average
  Tesseract's token confidences and guess the language from the share of
  non-ASCII characters. `extract_text` and `process_uploaded_image` fail soft.
- **Generation engine** (`AIEngine` in `ai_engine.py`). This is a mutable
  object with sampling settings, a load state and a model name. It clamps
  settings updates and loads a primary model with a fallback. It fills
  localized prompt templates, cuts the echoed prompt from the decoded output,
  and wraps four tasks with input guards and fixed messages.
- **Utilities** (`utils.py`). A second language heuristic with per-language
  character sets, a code-to-name lookup, the upload check, and the session
  store with its interaction log.

Files:

- `text.dfy` (module `Text`) models the Python `str` primitives the code
  relies on. These are `str.isspace` (its exact set of code points),
  `strip`, `split()`, `split(sep)`, `join` and the count of characters above
  code point 127.
- `ocr_processor.dfy` (module `OcrProcessor`) models text extraction. The
  loop of `clean_text` is the method `CleanText`, proved against the function
  `Clean`. Tesseract and image decoding are oracles on an abstract image.
- `ai_engine.dfy` (module `AiEngine`) models the engine as the class
  `Engine`. `UpdateSettings` and `LoadModel` change its fields. The read-only
  operations are functions that read it. Checkpoint loading and
  tokenize/generate/decode are oracles.
- `utils.dfy` (module `Utils`) models the utilities. The session store is the
  class `SessionState`.
- `wrappers.dfy` (module `Wrappers`) holds `Option`. `None` stands for
  Python's `None` and for a call that raised.

Behaviours of the code worth knowing, each proved:

- The comment at `ai_engine.py:147` says the input prompt is removed from
  the decoded output. The code drops only as many characters as the prompt
  has, so a model that repeats the prompt gets a reply that starts with it
  (`ReplyMayRepeatPrompt`).
- With no model loaded and non-blank input, summarize, answer and explain
  return their fixed "unable to generate" messages, and `translate_text`
  returns the input text instead (`TranslateText`). Blank input gets the
  "No … provided" messages, and `""` from `translate_text`.
- `LoadModel` never records the fallback's name. After a fallback load,
  `get_model_info` reports the primary name while the fallback checkpoint is
  loaded.
- As written, the character sets of `detect_language_simple` are mojibake.
  The heuristic therefore never answers French or German for text made of
  ASCII and the accented letters U+00C0–U+00FF (see Findings). It can still
  answer French for text holding a non-breaking space or a guillemet
  (U+00A0, U+00AB, U+00BB), which the French set as written contains
  (`FrenchPunctuationReadsFrench`).

## Model

| member | source | states |
|---|---|---|
| Text.WhitespaceCodes | ocr_processor.py:89 | The characters `split()` and `strip()` treat as whitespace are exactly Python's `isspace` set, listed by code point. |
| Text.Strip | ai_engine.py:148 | `strip()` returns an unbroken slice of the input with only whitespace before and after it, so inner characters and inner whitespace stay. The slice has no whitespace at either end and is empty exactly when the input is all whitespace. |
| Text.StripKeepsNonWs | ai_engine.py:148 | `strip()` removes whitespace only: the non-whitespace characters stay, in order. |
| Text.StripUnpadded | ai_engine.py:148 | A string with no whitespace at either end is its own `strip()`. |
| Text.LeadingRun | ocr_processor.py:89 | The run `split()` cuts off is the longest whitespace-free prefix. It is non-empty when the string starts with non-whitespace. |
| Text.Words | ocr_processor.py:89 | Every part `split()` returns is a non-empty word with no whitespace. |
| Text.WordsSkipGap | ocr_processor.py:89 | Whitespace at the start of a string produces no part of `split()`. |
| Text.WordsCutAtGap | ocr_processor.py:89 | `split()` cuts at every whitespace run: a word, a run of whitespace and a rest give the word followed by the parts of the rest. |
| Text.NonWsWords | ocr_processor.py:89 | The parts of `split()` hold exactly the non-whitespace characters of the string, in order. |
| Text.WordsJoin | ocr_processor.py:89 | `' '.join(words).split()` gives back the words (round trip). |
| Text.Join | ocr_processor.py:96 | A join starts with its first part. |
| Text.NonWsJoin | ocr_processor.py:96 | Joining with a whitespace separator adds no non-whitespace character. |
| Text.SplitOn | ocr_processor.py:84 | `split('\n')` returns at least one part, and no part contains the separator. |
| Text.JoinSplit | ocr_processor.py:84-96 | Joining the parts of a split on the same separator gives back the string. |
| Text.SplitJoin | ocr_processor.py:84-96 | Splitting a join of separator-free parts gives back the parts. |
| Text.NonAsciiCount | ocr_processor.py:146 | A single character counts 1 exactly when its code point exceeds 127. The count is at most the length, 0 exactly when all characters are ASCII, and the length exactly when all lie above 127. |
| Text.NonAsciiCountAppend | ocr_processor.py:146 | The count of a concatenation is the sum of the counts, so with the one-character case it is `sum(1 for char in text if ord(char) > 127)` for every text. |
| OcrProcessor.JoinedWordsAreClean | ocr_processor.py:89 | Words joined by single spaces form a clean line: non-empty, unpadded, single spaces only. |
| OcrProcessor.CollapseIsClean | ocr_processor.py:89-92 | A collapsed line is clean, or empty exactly when the line was blank. It keeps every non-whitespace character and splits into the same words as the line, so each whitespace run became one space where it was. |
| OcrProcessor.CollapseFixesCleanLine | ocr_processor.py:89 | Collapsing an already clean line leaves it unchanged. |
| OcrProcessor.CleanedLinesAreClean | ocr_processor.py:87-93 | Every line the loop keeps is clean. |
| OcrProcessor.CleanedLinesFixesCleanLines | ocr_processor.py:87-93 | The loop keeps a list of clean lines unchanged. |
| OcrProcessor.CleanedLinesKeepNonWs | ocr_processor.py:87-93 | The kept lines hold exactly the non-whitespace characters of all input lines, in order. |
| OcrProcessor.CleanText | ocr_processor.py:73-98 | The loop computes `Clean(text)`. Its output is clean text and keeps the non-whitespace characters of the input. |
| OcrProcessor.CleanOutputIsClean | ocr_processor.py:84-96 | No output line is empty or padded, and no line has two whitespace characters in a row. |
| OcrProcessor.CleanFixpoint | ocr_processor.py:73-98 | `clean_text` leaves a text unchanged exactly when the text is clean. |
| OcrProcessor.CleanIdempotent | ocr_processor.py:73-98 | Cleaning twice is cleaning once. |
| OcrProcessor.CleanKeepsNonWs | ocr_processor.py:89-93 | Cleaning keeps the sequence of non-whitespace characters exactly. |
| OcrProcessor.CleanEmptyIffBlank | ocr_processor.py:84-96 | The output is `""` exactly when the input is empty or all whitespace. |
| OcrProcessor.PositiveEntries | ocr_processor.py:121 | The filter keeps every entry above 0 as often as it occurs, and no other entry. It is no longer than its input. |
| OcrProcessor.Mean | ocr_processor.py:124 | The mean times the number of entries is their sum (`sum(xs) / len(xs)`), and it lies between the smallest and the largest entry. |
| OcrProcessor.AverageConfidence | ocr_processor.py:121-126 | The average is 0 when no entry is positive, and otherwise the mean of the kept entries, lying between the smallest and largest of them. It is 0 exactly when no entry is positive, never negative, and at most 100 when the entries are. |
| OcrProcessor.GetTextConfidence | ocr_processor.py:110-130 | The result is 0.0 when reading the confidences raises, otherwise their average. It is never negative. |
| OcrProcessor.DetectLanguage | ocr_processor.py:146-159 | The answer is `'en'` or `'es'`. It is `'es'` exactly when the text is non-empty and 10 × non-ASCII count > 3 × length. |
| OcrProcessor.AsciiTextIsEnglish | ocr_processor.py:146-159 | ASCII-only text is always English. |
| OcrProcessor.SpanishNeedsNonAscii | ocr_processor.py:146-159 | A Spanish verdict needs a character above 127. |
| OcrProcessor.AccentedSampleIsSpanish | ocr_processor.py:152-157 | Five accented capitals in an 11-character text exceed the 30% threshold. |
| OcrProcessor.ExtractText | ocr_processor.py:54-71 | The result is `""` when OCR raises, otherwise the cleaned OCR text. It is always clean text. |
| OcrProcessor.ProcessUploadedImage | ocr_processor.py:171-189 | The result is `("", 0.0, "en")` when opening the upload raises. Otherwise it holds the extracted text, its confidence, and the `detect_language` of that same text. |
| AiEngine.ClampReal | ai_engine.py:290 | `max(lo, min(hi, x))` lies in `[lo, hi]`. It equals `x` inside the range and the nearer bound outside. |
| AiEngine.ClampInt | ai_engine.py:294 | The integer clamp agrees with the real clamp on the same values. It lies in `[lo, hi]` and equals `x` inside the range and the nearer bound outside. |
| AiEngine.ClampExamples | ai_engine.py:289-294 | A temperature of 5.0 becomes 2.0 and 0.0 becomes 0.1. A length of 10000 becomes 4096. |
| AiEngine.Fill | ai_engine.py:172 | The prompt is the template's prefix, the payload verbatim, then the suffix. |
| AiEngine.FillInjective | ai_engine.py:172 | Different payloads give different prompts, so no user text is lost. |
| AiEngine.SelectTemplate | ai_engine.py:171 | `.get(language, table['en'])` returns the language's template, or the English one for a code not in the table. |
| AiEngine.SummarizeLanguages | ai_engine.py:25-30 | The summarize table covers exactly en, es, fr and de. |
| AiEngine.AnswerLanguages | ai_engine.py:31-36 | The question table covers exactly en, es, fr and de. |
| AiEngine.ExplainLanguages | ai_engine.py:37-42 | The concept table covers exactly en, es, fr and de. |
| AiEngine.TranslateLanguages | ai_engine.py:249-254 | The translation table covers exactly en, es, fr and de. |
| AiEngine.DefaultSelection | ai_engine.py:24-43 | With the default tables, any code outside en, es, fr and de selects the English template. |
| AiEngine.Reply | ai_engine.py:148 | The reply is `""` when the decoded output is no longer than the prompt. It is never longer than what follows the first `len(prompt)` characters, and it is unpadded. |
| AiEngine.ReplyCutsPromptLength | ai_engine.py:148 | Whatever the first `len(prompt)` characters of the output are, the reply is the rest of the output, stripped, with all of its non-whitespace. |
| AiEngine.ReplyOfEcho | ai_engine.py:142-148 | When the output starts with the prompt, the reply is the stripped continuation with all its non-whitespace. |
| AiEngine.ReplyIgnoresHead | ai_engine.py:148 | Output `"Xiab"` for prompt `"Hi"` yields `"ab"`: the cut does not check that the output starts with the prompt. |
| AiEngine.ReplyMayRepeatPrompt | ai_engine.py:148 | Output `"HiHi"` for prompt `"Hi"` yields the reply `"Hi"`: the reply can start with the prompt. |
| AiEngine.Engine.constructor | ai_engine.py:10-43 | A fresh engine has temperature 0.7, top_p 0.9, max_length 2048, no model and the default name. Its device comes from CUDA availability. Its info is only `status: "Not loaded"`. |
| AiEngine.Engine.UpdateSettings | ai_engine.py:289-294 | Each supplied setting is clamped into its range. An omitted one is unchanged, nothing else changes, and the ranges invariant holds. |
| AiEngine.Engine.LoadModel | ai_engine.py:55-98 | A non-empty name overwrites `model_name` even when loading fails. The result is true exactly when the primary or fallback load succeeds. `model_loaded` is never reset, the settings are untouched, and the fallback's name is never recorded. |
| AiEngine.Engine.CallFor | ai_engine.py:118-139 | The output cap is `max_length or self.max_length`, and input truncation uses `self.max_length`. The call carries the engine's current temperature and top_p. |
| AiEngine.Engine.GenerateResponse | ai_engine.py:111-154 | The result is `""` with no model loaded or when generation raises, otherwise the reply cut from the decoded output. It is always unpadded. |
| AiEngine.Engine.SummarizeText | ai_engine.py:167-180 | Blank text gives the fixed message. Otherwise the result is the generated summary with cap 500, or the fixed apology when it is empty. The result is never `""`. |
| AiEngine.Engine.AnswerQuestion | ai_engine.py:193-206 | The same shape, with cap 800 and its own messages. |
| AiEngine.Engine.ExplainConcept | ai_engine.py:219-232 | The same shape, with cap 600 and its own messages. |
| AiEngine.Engine.TranslateText | ai_engine.py:245-259 | Blank text gives `""`. Otherwise the result is the translation with cap 400, or the input itself when nothing was generated. It is `""` exactly when the input is blank. |
| AiEngine.Engine.GetModelInfo | ai_engine.py:268-278 | An unloaded engine reports only its status. A loaded one reports exactly name, device, the three settings and `status: "Loaded"`. |
| Utils.HasAnyIff | utils.py:62 | `any(char in text for char in marks)` holds exactly when some mark occurs in the text. |
| Utils.Classify | utils.py:48-72 | The result is `'en'` exactly when the non-ASCII share is at most 0.3. Otherwise the first set matching the text decides, in the order es, fr, de, with `'es'` as the default. |
| Utils.DetectLanguageSimple | utils.py:38-72 | The answer is one of en, es, fr and de. It is `'en'` exactly for text that is not mostly non-ASCII. |
| Utils.SimpleAgreesOnEnglish | utils.py:48-72 | Both detectors answer English for exactly the same texts. |
| Utils.GermanNeedsZAcute | utils.py:62-67 | As written, a German verdict needs a U+017A in the text. |
| Utils.BreveAMeansSpanish | utils.py:62-63 | Mostly non-ASCII text containing 'Ă' is Spanish. |
| Utils.MarksAreMojibake | utils.py:63-67 | No character of the three sets is ASCII or a Latin-1 letter U+00C0–U+00FF. |
| Utils.PlainTextNeverFrenchOrGerman | utils.py:61-70 | Text of ASCII and U+00C0–U+00FF letters is never classified French or German. |
| Utils.FrenchPunctuationReadsFrench | utils.py:61-66 | Mostly non-ASCII text of ASCII, U+00C0–U+00FF letters, non-breaking spaces and guillemets that holds at least one of U+00A0, '«' and '»' is French, because the French set as written holds those three. |
| Utils.SharpSReadAsSpanish | utils.py:61-70 | Text made of 'ß' is classified Spanish. |
| Utils.DetectLanguageIntended | utils.py:61-70 | With the intended sets, a verdict of German means mostly non-ASCII text with a German letter and no Spanish or French one. |
| Utils.SharpSReadAsGermanIntended | utils.py:61-70 | With the intended sets, text made of 'ß' is German. |
| Utils.GetLanguageName | utils.py:84-96 | Each of the ten codes gets its name. The result is `'Unknown'` exactly for any other code. |
| Utils.DetectedLanguagesHaveNames | utils.py:84-96 | Every answer of either detector has a known name. |
| Utils.ValidateImageFile | utils.py:246-261 | A file is accepted exactly when present, of one of the five types and at most 10 MiB. A missing file is rejected without a message. A wrong type is rejected for its type, even when also too large. An allowed type that is too large is rejected for its size. |
| Utils.SizeLimitIsInclusive | utils.py:256-259 | Exactly 10 MiB passes; one byte more is rejected. |
| Utils.LogEntry | utils.py:306-310 | The entry holds exactly a timestamp, the type and the details. |
| Utils.SessionState.Load | utils.py:128 | The result is the stored value, or the default when the key is absent. |
| Utils.SessionState.Logs | utils.py:313 | The log is the stored list, and empty when none is stored. |
| Utils.SessionState.Save | utils.py:115 | The key holds the data and every other key is untouched. Loading the key then returns the data. |
| Utils.SessionState.LogInteraction | utils.py:306-315 | The log grows by one entry at its end with the given type and details. Earlier entries are unchanged, and an absent log counts as empty. |

## Left out

- Image preprocessing (`preprocess_image`), `Image.open`, the array conversion and Tesseract's two calls are not modelled. They are oracles on an abstract image, and an oracle answers `None` where the call would raise.
- The OCR configuration string (engine mode, page segmentation, character whitelist) is passed to Tesseract only. It lives in the oracles.
- `int(conf)` on Tesseract's confidence strings is inside the `readConfidences` oracle. A conversion error is its `None`.
- `GetTextConfidence` and `AverageConfidence` compute the exact rational mean. Python's float division rounds, and that rounding is not modelled.
- `DetectLanguage` and `Classify` compare `10 × count > 3 × length`, where Python compares the float ratio with 0.3. The two agree except possibly at lengths beyond any real text.
- The transformers library is not modelled: tokenization, truncation, `generate`, `decode`, dtype and device placement. The output of one call is an oracle on the call's parameters.
- `LoadModel`: whether a checkpoint loads is an oracle on its name, shared by both attempts. The tokenizer that Python replaces before a model load fails, and the pad-token setup, are not modelled. The model's `checkpoint` field stands for the model object.
- `UpdateSettings`: temperature and top_p are reals, so a NaN argument is not modelled.
- The Streamlit messages (`st.error`, `st.warning`, `st.success`, `st.info`, `st.spinner`) are not modelled. Only the message `validate_image_file` shows is kept, as the `Reject` payload.
- `SessionState`: Python appends in place to the list object the store holds. The model stores a new list value, which leaves the same store contents. When the key holds something other than a list, Python's `append` raises. `LogInteraction` instead returns `false` and changes nothing.
- `format_timestamp` reads the clock. `LogInteraction` takes the timestamp as a parameter.
- `create_temp_file`, `cleanup_temp_files`, `get_system_info`, `get_file_size_mb` and the HTML and widget helpers of utils.py are not modelled. They are file system, environment, float formatting or UI work. The same holds for `create_download_button`, `display_confidence_bar` and `create_model_status_display`.
- app.py (page layout, tabs, audio, session wiring) is not part of this model.

## Findings

| source | as written | input that shows it | evidently intended | confidence | as-written member | corrected member |
|---|---|---|---|---|---|---|
| utils.py:63-67 | The three sets hold UTF-8 accented letters decoded as Windows-1250 (`'Ă±'` for `'ñ'`), so none holds a real accented letter. Mostly non-ASCII text of ASCII and U+00C0–U+00FF letters is always `'es'`, and `'de'` needs U+017A. | `"ß"` (also `"äöü"`, `"çà"`): answered `'es'` | Sets `'ñáéíóúü'`, `'àâäéèêëïîôöùûüÿç'` and `'äöüß'`, under which `"ß"` is `'de'` | high (not executed) | Utils.PlainTextNeverFrenchOrGerman | Utils.SharpSReadAsGermanIntended |

`DetectLanguageSimple` keeps the sets as written, because it models the
function as it stands. `DetectLanguageIntended` runs the same `Classify` with
the intended sets. No other part of the model calls either function. The
application itself calls the `ocr_processor.py` detector.
