/**
 * The helpers of utils.py that carry logic: the second language heuristic,
 * the language-name lookup, the upload check, and the session store with its
 * interaction log.
 *
 * The session store stands for Streamlit's `st.session_state`; the clock that
 * `format_timestamp` reads is replaced by a timestamp parameter.
 */
module Utils {
  import opened Wrappers
  import opened Text
  import OcrProcessor

  // ---------------------------------------------------------------------------
  // detect_language_simple
  // ---------------------------------------------------------------------------

  /**
   * The three character sets of utils.py as they stand in the file: UTF-8
   * accented letters read back as Windows-1250, so that every accented
   * letter became two characters, the first of them always U+0102 ('Ă').
   */
  const SpanishMarks: string :=
    "\U{102}\U{B1}\U{102}\U{2C7}\U{102}\U{A9}\U{102}\U{AD}\U{102}\U{142}\U{102}\U{15F}\U{102}\U{13D}"
  const FrenchMarks: string :=
    "\U{102}\U{A0}\U{102}\U{2D8}\U{102}\U{A4}\U{102}\U{A9}\U{102}\U{A8}\U{102}\U{15E}\U{102}\U{AB}\U{102}\U{17B}" +
    "\U{102}\U{AE}\U{102}\U{B4}\U{102}\U{B6}\U{102}\U{105}\U{102}\U{BB}\U{102}\U{13D}\U{102}\U{17C}\U{102}\U{A7}"
  const GermanMarks: string := "\U{102}\U{A4}\U{102}\U{B6}\U{102}\U{13D}\U{102}\U{17A}"

  /** The same sets as their authors meant them: 'ñáéíóúü', 'àâäéèêëïîôöùûüÿç' and 'äöüß'. */
  const IntendedSpanishMarks: string := "\U{F1}\U{E1}\U{E9}\U{ED}\U{F3}\U{FA}\U{FC}"
  const IntendedFrenchMarks: string :=
    "\U{E0}\U{E2}\U{E4}\U{E9}\U{E8}\U{EA}\U{EB}\U{EF}\U{EE}\U{F4}\U{F6}\U{F9}\U{FB}\U{FC}\U{FF}\U{E7}"
  const IntendedGermanMarks: string := "\U{E4}\U{F6}\U{FC}\U{DF}"

  /** `any(char in text for char in marks)`. */
  predicate HasAny(text: string, marks: string) {
    marks != [] && (marks[0] in text || HasAny(text, marks[1..]))
  }

  /** `HasAny` holds exactly when some mark occurs in the text. */
  lemma {:induction false} HasAnyIff(text: string, marks: string)
    ensures HasAny(text, marks) <==> exists i :: 0 <= i < |marks| && marks[i] in text
  {
    if marks != [] {
      HasAnyIff(text, marks[1..]);
      if HasAny(text, marks[1..]) {
        var i :| 0 <= i < |marks[1..]| && marks[1..][i] in text;
        assert marks[i + 1] in text;
      }
      if exists i :: 0 <= i < |marks| && marks[i] in text {
        var i :| 0 <= i < |marks| && marks[i] in text;
        if i > 0 {
          assert marks[1..][i - 1] in text;
        }
      }
    }
  }

  lemma {:induction false} HasAnyIntro(text: string, marks: string, j: int)
    requires 0 <= j < |marks| && marks[j] in text
    ensures HasAny(text, marks)
  {
    if j > 0 {
      assert marks[1..][j - 1] == marks[j];
      HasAnyIntro(text, marks[1..], j - 1);
    }
  }

  /** A one-character text has a mark exactly when its character is one. */
  lemma {:induction false} HasAnySingle(c: char, marks: string)
    ensures HasAny([c], marks) <==> c in marks
  {
    if marks != [] {
      HasAnySingle(c, marks[1..]);
      assert c in marks <==> c == marks[0] || c in marks[1..];
    }
  }

  /**
   * The body of `detect_language_simple` for given mark sets: `'en'` unless
   * more than 30% of the characters lie above code point 127; otherwise the
   * first set, in the order Spanish, French, German, with a character in the
   * text decides, and Spanish is the default.
   */
  function Classify(text: string, es: string, fr: string, de: string): (code: string)
    ensures code == "en" <==> !MostlyNonAscii(text)
    ensures code == "es" <==> MostlyNonAscii(text) && (HasAny(text, es) || (!HasAny(text, fr) && !HasAny(text, de)))
    ensures code == "fr" <==> MostlyNonAscii(text) && !HasAny(text, es) && HasAny(text, fr)
    ensures code == "de" <==> MostlyNonAscii(text) && !HasAny(text, es) && !HasAny(text, fr) && HasAny(text, de)
  {
    if text == [] then "en"
    else
      var nonAscii := NonAsciiCount(text);
      var total := |text|;
      if total == 0 then "en"
      else if 10 * nonAscii > 3 * total then
        if HasAny(text, es) then "es"
        else if HasAny(text, fr) then "fr"
        else if HasAny(text, de) then "de"
        else "es"
      else "en"
  }

  /** utils.py `detect_language_simple`, with the character sets as written. */
  function DetectLanguageSimple(text: string): (code: string)
    ensures code in {"en", "es", "fr", "de"}
    ensures code == "en" <==> !MostlyNonAscii(text)
    ensures code == "de" ==> HasAny(text, GermanMarks)
  {
    Classify(text, SpanishMarks, FrenchMarks, GermanMarks)
  }

  /** The same heuristic with the character sets its authors meant. */
  function DetectLanguageIntended(text: string): (code: string)
    ensures code in {"en", "es", "fr", "de"}
    ensures code == "de" <==>
      MostlyNonAscii(text) && !HasAny(text, IntendedSpanishMarks) && !HasAny(text, IntendedFrenchMarks)
      && HasAny(text, IntendedGermanMarks)
  {
    Classify(text, IntendedSpanishMarks, IntendedFrenchMarks, IntendedGermanMarks)
  }

  /** Both detectors answer English for exactly the same texts. */
  lemma SimpleAgreesOnEnglish(text: string)
    ensures DetectLanguageSimple(text) == "en" <==> OcrProcessor.DetectLanguage(text) == "en"
  {
  }

  /**
   * As written, every German mark but U+017A ('ź', a Polish letter) also
   * belongs to the Spanish or the French set, so a German verdict needs a
   * 'ź' in the text.
   */
  lemma GermanNeedsZAcute(text: string)
    requires DetectLanguageSimple(text) == "de"
    ensures '\U{17A}' in text
  {
    HasAnyIff(text, GermanMarks);
    var i :| 0 <= i < |GermanMarks| && GermanMarks[i] in text;
    if i == 0 || i == 2 || i == 4 || i == 6 {
      HasAnyIntro(text, SpanishMarks, 0);
    } else if i == 1 {
      HasAnyIntro(text, FrenchMarks, 5);
    } else if i == 3 {
      HasAnyIntro(text, FrenchMarks, 21);
    } else if i == 5 {
      HasAnyIntro(text, SpanishMarks, 13);
    }
  }

  /** With enough non-ASCII characters, an 'Ă' anywhere makes the text Spanish. */
  lemma BreveAMeansSpanish(text: string)
    requires MostlyNonAscii(text)
    requires '\U{102}' in text
    ensures DetectLanguageSimple(text) == "es"
  {
    assert SpanishMarks[0] == '\U{102}';
  }

  /** Every mark lies above ASCII and outside the Latin-1 letters U+00C0 to U+00FF. */
  predicate NoPlainLetter(marks: string) {
    forall i :: 0 <= i < |marks| ==> marks[i] as int > 0x7F && !(0xC0 <= marks[i] as int <= 0xFF)
  }

  /** Text of ASCII characters and the accented Latin-1 letters U+00C0 to U+00FF. */
  predicate PlainLatin1(text: string) {
    forall i :: 0 <= i < |text| ==> text[i] as int <= 0x7F || 0xC0 <= text[i] as int <= 0xFF
  }

  /** None of the three sets as written holds an ASCII character or an accented Latin-1 letter. */
  lemma MarksAreMojibake()
    ensures NoPlainLetter(SpanishMarks) && NoPlainLetter(FrenchMarks) && NoPlainLetter(GermanMarks)
  {
  }

  /** A set of mojibake characters never matches plain Latin-1 text. */
  lemma PlainTextHasNoMark(text: string, marks: string)
    requires PlainLatin1(text) && NoPlainLetter(marks)
    ensures !HasAny(text, marks)
  {
    HasAnyIff(text, marks);
  }

  /**
   * As written, the heuristic never answers French or German for text spelt
   * with ASCII and the accented letters U+00C0 to U+00FF, the letters those
   * languages use: such text comes out English or Spanish.
   */
  lemma PlainTextNeverFrenchOrGerman(text: string)
    requires PlainLatin1(text)
    ensures DetectLanguageSimple(text) == "en" || DetectLanguageSimple(text) == "es"
  {
    MarksAreMojibake();
    PlainTextHasNoMark(text, FrenchMarks);
    PlainTextHasNoMark(text, GermanMarks);
  }

  /**
   * The French set as written does hold three real characters, the
   * non-breaking space and the two guillemets: mostly non-ASCII text of
   * ASCII, accented Latin-1 letters and those three, holding at least one of
   * them, is French.
   */
  lemma FrenchPunctuationReadsFrench(text: string)
    requires MostlyNonAscii(text)
    requires forall i :: 0 <= i < |text| ==>
      || text[i] as int <= 0x7F || 0xC0 <= text[i] as int <= 0xFF
      || text[i] == '\U{A0}' || text[i] == '\U{AB}' || text[i] == '\U{BB}'
    requires '\U{A0}' in text || '\U{AB}' in text || '\U{BB}' in text
    ensures DetectLanguageSimple(text) == "fr"
  {
    assert forall j :: 0 <= j < |SpanishMarks| ==>
      SpanishMarks[j] as int > 0x7F && !(0xC0 <= SpanishMarks[j] as int <= 0xFF)
      && SpanishMarks[j] != '\U{A0}' && SpanishMarks[j] != '\U{AB}' && SpanishMarks[j] != '\U{BB}';
    HasAnyIff(text, SpanishMarks);
    assert FrenchMarks[1] == '\U{A0}' && FrenchMarks[13] == '\U{AB}' && FrenchMarks[25] == '\U{BB}';
    if '\U{A0}' in text {
      HasAnyIntro(text, FrenchMarks, 1);
    } else if '\U{AB}' in text {
      HasAnyIntro(text, FrenchMarks, 13);
    } else {
      HasAnyIntro(text, FrenchMarks, 25);
    }
  }

  /** Text made only of 'ß' is taken for Spanish as written. */
  lemma SharpSReadAsSpanish(text: string)
    requires text != [] && forall i :: 0 <= i < |text| ==> text[i] == '\U{DF}'
    ensures DetectLanguageSimple(text) == "es"
  {
    PlainTextNeverFrenchOrGerman(text);
  }

  /** With the intended sets, text made only of 'ß' is taken for German. */
  lemma SharpSReadAsGermanIntended(text: string)
    requires text != [] && forall i :: 0 <= i < |text| ==> text[i] == '\U{DF}'
    ensures DetectLanguageIntended(text) == "de"
  {
    assert '\U{DF}' !in IntendedSpanishMarks && '\U{DF}' !in IntendedFrenchMarks;
    HasAnyIff(text, IntendedSpanishMarks);
    HasAnyIff(text, IntendedFrenchMarks);
    assert IntendedGermanMarks[3] == text[0];
    HasAnyIntro(text, IntendedGermanMarks, 3);
  }

  // ---------------------------------------------------------------------------
  // get_language_name
  // ---------------------------------------------------------------------------

  const LanguageNames: map<string, string> := map[
    "en" := "English",
    "es" := "Spanish",
    "fr" := "French",
    "de" := "German",
    "it" := "Italian",
    "pt" := "Portuguese",
    "ru" := "Russian",
    "ja" := "Japanese",
    "ko" := "Korean",
    "zh" := "Chinese"
  ]

  /** utils.py `get_language_name`: the name of one of the ten known codes, `'Unknown'` for any other. */
  function GetLanguageName(code: string): (name: string)
    ensures code in LanguageNames ==> name == LanguageNames[code]
    ensures name == "Unknown" <==> code !in LanguageNames
  {
    if code in LanguageNames then LanguageNames[code] else "Unknown"
  }

  /** Whatever either detector answers has a known name. */
  lemma DetectedLanguagesHaveNames(text: string)
    ensures GetLanguageName(DetectLanguageSimple(text)) != "Unknown"
    ensures GetLanguageName(OcrProcessor.DetectLanguage(text)) != "Unknown"
  {
  }

  // ---------------------------------------------------------------------------
  // validate_image_file
  // ---------------------------------------------------------------------------

  /** The two attributes of an uploaded file the check reads. */
  datatype UploadedFile = UploadedFile(mimeType: string, size: int)

  /** The verdict: accepted, or rejected with the error shown to the user (none for a missing upload). */
  datatype FileCheck = Accept | Reject(error: Option<string>)

  const AllowedTypes: seq<string> := ["image/jpeg", "image/jpg", "image/png", "image/bmp", "image/tiff"]
  const MaxUploadSize := 10 * 1024 * 1024
  const TypeError := "Please upload a valid image file (JPEG, PNG, BMP, or TIFF)"
  const SizeError := "File size too large. Please upload an image smaller than 10MB"

  /**
   * utils.py `validate_image_file`: a file is accepted exactly when it is
   * present, of one of the five image types and at most 10 MiB; a file that
   * fails both checks is rejected for its type.
   */
  function ValidateImageFile(file: Option<UploadedFile>): (r: FileCheck)
    ensures r.Accept? <==> file.Some? && file.value.mimeType in AllowedTypes && file.value.size <= MaxUploadSize
    ensures file.None? ==> r == Reject(None)
    ensures file.Some? && file.value.mimeType !in AllowedTypes ==> r == Reject(Some(TypeError))
    ensures file.Some? && file.value.mimeType in AllowedTypes && file.value.size > MaxUploadSize ==> r == Reject(Some(SizeError))
  {
    match file
    case None => Reject(None)
    case Some(f) =>
      if f.mimeType !in AllowedTypes then Reject(Some(TypeError))
      else if f.size > MaxUploadSize then Reject(Some(SizeError))
      else Accept
  }

  /** The size limit is inclusive: a PNG of exactly 10 MiB passes, one byte more does not. */
  lemma SizeLimitIsInclusive()
    ensures ValidateImageFile(Some(UploadedFile("image/png", 10485760))) == Accept
    ensures ValidateImageFile(Some(UploadedFile("image/png", 10485761))) == Reject(Some(SizeError))
  {
    assert "image/png" == AllowedTypes[2];
  }

  // ---------------------------------------------------------------------------
  // Session store and interaction log
  // ---------------------------------------------------------------------------

  /** The values kept in the session: what the application stores there, and log entries; `Null` is Python's `None`. */
  datatype Value =
    | Null
    | Str(s: string)
    | Int(i: int)
    | Real(x: real)
    | Bool(b: bool)
    | List(items: seq<Value>)
    | Dict(fields: map<string, Value>)

  const LogKey := "interaction_logs"

  /** The entry `log_interaction` appends: timestamp, type and details. */
  function LogEntry(timestamp: string, kind: string, details: map<string, Value>): (entry: Value)
    ensures entry.Dict? && entry.fields.Keys == {"timestamp", "type", "details"}
    ensures entry.fields["type"] == Str(kind) && entry.fields["details"] == Dict(details)
    ensures entry.fields["timestamp"] == Str(timestamp)
  {
    Dict(map["timestamp" := Str(timestamp), "type" := Str(kind), "details" := Dict(details)])
  }

  /** The session state: a keyed store that starts empty. */
  class SessionState {
    var entries: map<string, Value>

    constructor()
      ensures entries == map[]
    {
      entries := map[];
    }

    /** utils.py `load_session_data`: the stored value, or the default when the key is absent. */
    function Load(key: string, default: Value): (v: Value)
      reads this
      ensures key in entries ==> v == entries[key]
      ensures key !in entries ==> v == default
    {
      if key in entries then entries[key] else default
    }

    /** The interaction log: the stored list, empty when none was stored. */
    function Logs(): (log: seq<Value>)
      reads this
      ensures Load(LogKey, List([])).List? ==> log == Load(LogKey, List([])).items
      ensures LogKey !in entries ==> log == []
    {
      match Load(LogKey, List([]))
      case List(items) => items
      case _ => []
    }

    /** utils.py `save_session_data`: the key now holds the data and every other key is untouched. */
    method Save(key: string, data: Value)
      modifies this
      ensures entries == old(entries)[key := data]
      ensures forall default :: Load(key, default) == data
      ensures forall k :: k != key ==> (k in entries <==> k in old(entries))
      ensures forall k :: k != key && k in entries ==> entries[k] == old(entries)[k]
    {
      entries := entries[key := data];
    }

    /**
     * utils.py `log_interaction`: the log, empty when absent, gets one more
     * entry at its end and keeps the earlier ones. When the key holds
     * something other than a list, appending raises; the model then answers
     * `false` and changes nothing.
     */
    method LogInteraction(kind: string, details: map<string, Value>, timestamp: string) returns (ok: bool)
      modifies this
      ensures ok <==> old(Load(LogKey, List([]))).List?
      ensures ok ==> entries == old(entries)[LogKey := List(old(Logs()) + [LogEntry(timestamp, kind, details)])]
      ensures ok ==> Logs() == old(Logs()) + [LogEntry(timestamp, kind, details)]
      ensures ok ==> |Logs()| == |old(Logs())| + 1 && Logs()[..|Logs()| - 1] == old(Logs())
      ensures !ok ==> entries == old(entries)
    {
      var entry := LogEntry(timestamp, kind, details);
      var logs := Load(LogKey, List([]));
      if logs.List? {
        Save(LogKey, List(logs.items + [entry]));
        ok := true;
      } else {
        ok := false;
      }
    }
  }
}
