/**
 * The text extractor (class `OCRProcessor` of ocr_processor.py): cleaning of
 * the raw OCR text, the average of the per-token confidences, the non-ASCII
 * language heuristic, and the soft-fail shape of the two entry points.
 *
 * The image work (preprocessing, Tesseract) is not modelled: it reaches the
 * model as two oracles on an abstract image, `readText` (what
 * `image_to_string` returns for the preprocessed image) and `readConfidences`
 * (the `conf` column of `image_to_data`, each entry already passed through
 * `int`). Either answers `None` when preprocessing, OCR or the conversion
 * raises.
 */
module OcrProcessor {
  import opened Wrappers
  import opened Text

  // ---------------------------------------------------------------------------
  // clean_text
  // ---------------------------------------------------------------------------

  /**
   * A line as `clean_text` leaves it: not empty, no whitespace at either end,
   * its only whitespace single spaces (so it holds no newline and no two
   * whitespace characters in a row).
   */
  predicate IsCleanLine(l: string) {
    && l != []
    && !IsWhitespace(l[0])
    && !IsWhitespace(l[|l| - 1])
    && (forall i :: 0 <= i < |l| && IsWhitespace(l[i]) ==> l[i] == ' ')
    && (forall i, j :: 0 <= i < |l| && 0 <= j < |l| && j == i + 1 ==> !(IsWhitespace(l[i]) && IsWhitespace(l[j])))
  }

  /** The lines of a text as `text.split('\n')` gives them, with no line at all for the empty text. */
  function Lines(text: string): seq<string> {
    if text == [] then [] else SplitOn(text, '\n')
  }

  /** Text as `clean_text` leaves it: every line is clean (the empty text has no line). */
  predicate IsCleanText(text: string) {
    var ls := Lines(text);
    forall k :: 0 <= k < |ls| ==> IsCleanLine(ls[k])
  }

  lemma CleanLineHasNoNewline(l: string)
    requires IsCleanLine(l)
    ensures '\n' !in l
  {
    SpaceAndNewlineAreWhitespace();
  }

  /** Words joined by single spaces form a clean line. */
  lemma {:induction false} JoinedWordsAreClean(ws: seq<string>)
    requires ws != []
    requires forall k :: 0 <= k < |ws| ==> IsWord(ws[k])
    ensures IsCleanLine(Join(" ", ws))
  {
    if |ws| > 1 {
      var w := ws[0];
      var tail := Join(" ", ws[1..]);
      JoinedWordsAreClean(ws[1..]);
      var l := Join(" ", ws);
      assert l == w + " " + tail;
      SpaceAndNewlineAreWhitespace();
      forall i | 0 <= i < |l|
        ensures IsWhitespace(l[i]) ==> l[i] == ' '
        ensures i < |l| - 1 && IsWhitespace(l[i]) ==> !IsWhitespace(l[i + 1])
      {
        if i < |w| {
          assert l[i] == w[i];
        } else if i == |w| {
          assert l[i + 1] == tail[0];
        } else {
          assert l[i] == tail[i - |w| - 1];
          assert i < |l| - 1 ==> l[i + 1] == tail[i - |w|];
        }
      }
    }
  }

  /** A clean line is not blank. */
  lemma CleanLineIsNotBlank(l: string)
    requires IsCleanLine(l)
    ensures !IsBlank(l)
  {
    assert !AllWhitespace(l);
  }

  /** `' '.join(line.split())`: the line's words separated by single spaces. */
  function Collapse(line: string): string {
    Join(" ", Words(line))
  }

  /**
   * Collapsing yields a clean line, or nothing at all exactly when the line
   * was whitespace only, and loses no non-whitespace character.
   */
  lemma CollapseIsClean(line: string)
    ensures Collapse(line) == [] || IsCleanLine(Collapse(line))
    ensures Collapse(line) == [] <==> AllWhitespace(line)
    ensures NonWs(Collapse(line)) == NonWs(line)
    ensures Words(Collapse(line)) == Words(line)
  {
    var ws := Words(line);
    WordsJoin(ws);
    SpaceAndNewlineAreWhitespace();
    NonWsJoin(" ", ws);
    NonWsWords(line);
    NonWsEmptyIffWhitespace(line);
    if ws != [] {
      JoinedWordsAreClean(ws);
      NonWsEmptyIffWhitespace(Join(" ", ws));
    }
  }

  /** What one pass of the loop of `clean_text` keeps of a line: its collapsed form unless that is blank. */
  function Kept(line: string): seq<string> {
    var c := Collapse(line);
    if IsBlank(c) then [] else [c]
  }

  /** What the loop of `clean_text` keeps: each line collapsed, blank results dropped. */
  function CleanedLines(lines: seq<string>): seq<string> {
    if lines == [] then [] else Kept(lines[0]) + CleanedLines(lines[1..])
  }

  /** Every line `clean_text` keeps is clean. */
  lemma {:induction false} CleanedLinesAreClean(lines: seq<string>)
    ensures forall k :: 0 <= k < |CleanedLines(lines)| ==> IsCleanLine(CleanedLines(lines)[k])
  {
    if lines != [] {
      CleanedLinesAreClean(lines[1..]);
      CollapseIsClean(lines[0]);
    }
  }

  lemma {:induction false} CleanedLinesAppend(lines: seq<string>, last: string)
    ensures CleanedLines(lines + [last]) == CleanedLines(lines) + CleanedLines([last])
  {
    if lines != [] {
      var all := lines + [last];
      assert all[0] == lines[0];
      assert all[1..] == lines[1..] + [last];
      CleanedLinesAppend(lines[1..], last);
      assert CleanedLines(all) == Kept(lines[0]) + CleanedLines(all[1..]);
    } else {
      assert lines + [last] == [last];
    }
  }

  /** `clean_text` as a function of its input. */
  function Clean(text: string): string {
    Join("\n", CleanedLines(SplitOn(text, '\n')))
  }

  /**
   * ocr_processor.py `clean_text`: split on newlines, collapse each line's
   * whitespace, keep the lines that are not blank, rejoin with newlines.
   */
  method CleanText(text: string) returns (cleaned: string)
    ensures cleaned == Clean(text)
    ensures IsCleanText(cleaned)
    ensures NonWs(cleaned) == NonWs(text)
  {
    var lines := SplitOn(text, '\n');
    var cleanedLines: seq<string> := [];
    for i := 0 to |lines|
      invariant cleanedLines == CleanedLines(lines[..i])
    {
      var line := Collapse(lines[i]);
      CleanedLinesAppend(lines[..i], lines[i]);
      assert lines[..i + 1] == lines[..i] + [lines[i]];
      assert CleanedLines([lines[i]]) == Kept(lines[i]);
      if !IsBlank(line) {
        cleanedLines := cleanedLines + [line];
      }
    }
    assert lines[..|lines|] == lines;
    cleaned := Join("\n", cleanedLines);
    CleanOutputIsClean(text);
    CleanKeepsNonWs(text);
  }

  /** Whatever the input, every line `clean_text` produces is clean. */
  lemma CleanOutputIsClean(text: string)
    ensures IsCleanText(Clean(text))
  {
    var ls := CleanedLines(SplitOn(text, '\n'));
    CleanedLinesAreClean(SplitOn(text, '\n'));
    if ls != [] {
      forall k | 0 <= k < |ls| ensures '\n' !in ls[k] {
        CleanLineHasNoNewline(ls[k]);
      }
      SplitJoin(ls, '\n');
    }
  }

  /** A clean line is already collapsed. */
  lemma {:induction false} CollapseFixesCleanLine(l: string)
    requires IsCleanLine(l)
    ensures Collapse(l) == l
    decreases |l|
  {
    var w := LeadingRun(l);
    assert Words(l) == [w] + Words(l[|w|..]);
    if |w| == |l| {
      assert l[|w|..] == [];
      assert w == l;
    } else {
      assert l[|w|] == ' ';
      var rest := l[|w| + 1..];
      assert l[|w|..][1..] == rest;
      assert Words(l[|w|..]) == Words(rest);
      assert rest != [] && rest[0] == l[|w| + 1];
      assert IsCleanLine(rest) by {
        forall i | 0 <= i < |rest|
          ensures rest[i] == l[|w| + 1 + i]
        {
        }
      }
      CollapseFixesCleanLine(rest);
      var ws := Words(rest);
      assert ws != [];
      assert Join(" ", [w] + ws) == w + " " + Join(" ", ws);
      assert l == w + " " + rest;
    }
  }

  lemma {:induction false} CleanedLinesFixesCleanLines(lines: seq<string>)
    requires forall k :: 0 <= k < |lines| ==> IsCleanLine(lines[k])
    ensures CleanedLines(lines) == lines
  {
    if lines != [] {
      CollapseFixesCleanLine(lines[0]);
      CleanLineIsNotBlank(lines[0]);
      CleanedLinesFixesCleanLines(lines[1..]);
    }
  }

  /** Clean text is exactly the text `clean_text` leaves unchanged. */
  lemma CleanFixpoint(text: string)
    ensures Clean(text) == text <==> IsCleanText(text)
  {
    CleanOutputIsClean(text);
    if IsCleanText(text) {
      if text == [] {
        assert Words([]) == [];
        assert Collapse([]) == [];
        assert CleanedLines([[]]) == [];
      } else {
        assert Lines(text) == SplitOn(text, '\n');
        CleanedLinesFixesCleanLines(SplitOn(text, '\n'));
        JoinSplit(text, '\n');
      }
    }
  }

  /** Cleaning twice is cleaning once. */
  lemma CleanIdempotent(text: string)
    ensures Clean(Clean(text)) == Clean(text)
  {
    CleanOutputIsClean(text);
    CleanFixpoint(Clean(text));
  }

  lemma {:induction false} CleanedLinesKeepNonWs(lines: seq<string>)
    ensures NonWsAll(CleanedLines(lines)) == NonWsAll(lines)
  {
    if lines != [] {
      CleanedLinesKeepNonWs(lines[1..]);
      var line := Collapse(lines[0]);
      CollapseIsClean(lines[0]);
      assert NonWsAll(lines) == NonWs(lines[0]) + NonWsAll(lines[1..]);
      if IsBlank(line) {
        NonWsEmptyIffWhitespace(lines[0]);
        assert CleanedLines(lines) == CleanedLines(lines[1..]);
      } else {
        assert NonWsAll([line] + CleanedLines(lines[1..])) == NonWs(line) + NonWsAll(CleanedLines(lines[1..]));
      }
    }
  }

  /** `clean_text` keeps every non-whitespace character of its input, in order, and adds none. */
  lemma CleanKeepsNonWs(text: string)
    ensures NonWs(Clean(text)) == NonWs(text)
  {
    var lines := SplitOn(text, '\n');
    SpaceAndNewlineAreWhitespace();
    NonWsJoin("\n", CleanedLines(lines));
    CleanedLinesKeepNonWs(lines);
    NonWsJoin("\n", lines);
    JoinSplit(text, '\n');
  }

  /** `clean_text` returns the empty string exactly for empty or all-whitespace input. */
  lemma CleanEmptyIffBlank(text: string)
    ensures Clean(text) == [] <==> IsBlank(text)
  {
    var r := Clean(text);
    CleanKeepsNonWs(text);
    CleanOutputIsClean(text);
    NonWsEmptyIffWhitespace(text);
    NonWsEmptyIffWhitespace(r);
    if r != [] {
      var ls := Lines(r);
      assert IsCleanLine(ls[0]);
      JoinSplit(r, '\n');
      assert r[..|ls[0]|] == ls[0];
      assert r[0] == ls[0][0];
    }
  }

  // ---------------------------------------------------------------------------
  // get_text_confidence
  // ---------------------------------------------------------------------------

  /** `[c for c in confs if c > 0]`: the entries Tesseract reports for real tokens. */
  function PositiveEntries(confs: seq<int>): (kept: seq<int>)
    ensures |kept| <= |confs|
    ensures forall c :: c in kept <==> c in confs && c > 0
    ensures forall c :: multiset(kept)[c] == (if c > 0 then multiset(confs)[c] else 0)
  {
    if confs == [] then []
    else
      var rest := PositiveEntries(confs[1..]);
      assert confs == [confs[0]] + confs[1..];
      assert multiset(confs) == multiset{confs[0]} + multiset(confs[1..]);
      (if confs[0] > 0 then [confs[0]] else []) + rest
  }

  function Sum(xs: seq<int>): int {
    if xs == [] then 0 else xs[0] + Sum(xs[1..])
  }

  /** The smallest entry of a non-empty sequence. */
  function Min(xs: seq<int>): (m: int)
    requires xs != []
    ensures m in xs && forall x :: x in xs ==> m <= x
  {
    if |xs| == 1 then xs[0]
    else
      var m := Min(xs[1..]);
      assert forall x :: x in xs ==> x == xs[0] || x in xs[1..];
      if xs[0] <= m then xs[0] else m
  }

  /** The largest entry of a non-empty sequence. */
  function Max(xs: seq<int>): (m: int)
    requires xs != []
    ensures m in xs && forall x :: x in xs ==> x <= m
  {
    if |xs| == 1 then xs[0]
    else
      var m := Max(xs[1..]);
      assert forall x :: x in xs ==> x == xs[0] || x in xs[1..];
      if xs[0] >= m then xs[0] else m
  }

  /** A sum of entries between `lo` and `hi` lies between `|xs| * lo` and `|xs| * hi`. */
  lemma {:induction false} SumBounds(xs: seq<int>, lo: int, hi: int)
    requires forall x :: x in xs ==> lo <= x <= hi
    ensures |xs| * lo <= Sum(xs) <= |xs| * hi
  {
    if xs != [] {
      var n := |xs| - 1;
      assert xs[0] in xs;
      assert forall x :: x in xs[1..] ==> x in xs;
      SumBounds(xs[1..], lo, hi);
      MulSucc(n, lo);
      MulSucc(n, hi);
    }
  }

  lemma MulSucc(n: int, k: int)
    ensures (n + 1) * k == n * k + k
  {
  }

  /** The mean of a non-empty sequence of integers, as an exact real. */
  function Mean(xs: seq<int>): (r: real)
    requires xs != []
    ensures r * |xs| as real == Sum(xs) as real
    ensures Min(xs) as real <= r <= Max(xs) as real
  {
    var r := Sum(xs) as real / |xs| as real;
    SumBounds(xs, Min(xs), Max(xs));
    MeanBetween(Sum(xs), |xs|, Min(xs), Max(xs), r);
    r
  }

  lemma MeanBetween(sum: int, n: int, lo: int, hi: int, r: real)
    requires n > 0
    requires n * lo <= sum <= n * hi
    requires r == sum as real / n as real
    ensures r * n as real == sum as real
    ensures lo as real <= r <= hi as real
  {
    assert (n * lo) as real == n as real * lo as real;
    assert (n * hi) as real == n as real * hi as real;
  }

  /**
   * The averaging in `get_text_confidence`: the mean of the positive entries,
   * or 0 when there is none. The result lies between the smallest and the
   * largest kept entry, so it is 0 exactly when nothing was kept and at most
   * 100 when Tesseract's entries are.
   */
  function AverageConfidence(confs: seq<int>): (r: real)
    ensures PositiveEntries(confs) == [] ==> r == 0.0
    ensures PositiveEntries(confs) != [] ==> r == Mean(PositiveEntries(confs))
    ensures PositiveEntries(confs) != [] ==>
      Min(PositiveEntries(confs)) as real <= r <= Max(PositiveEntries(confs)) as real
    ensures r == 0.0 <==> forall c :: c in confs ==> c <= 0
    ensures r >= 0.0
    ensures (forall c :: c in confs ==> c <= 100) ==> r <= 100.0
  {
    var kept := PositiveEntries(confs);
    if kept == [] then
      assert forall c :: c in confs ==> c <= 0;
      0.0
    else
      assert Min(kept) >= 1;
      assert kept[0] in confs;
      Mean(kept)
  }

  /**
   * ocr_processor.py `get_text_confidence`: the average of the positive
   * confidences of the preprocessed image, or 0.0 when reading them raised.
   */
  function GetTextConfidence<Image>(image: Image, readConfidences: Image -> Option<seq<int>>): (r: real)
    ensures readConfidences(image).None? ==> r == 0.0
    ensures readConfidences(image).Some? ==> r == AverageConfidence(readConfidences(image).value)
    ensures r >= 0.0
  {
    match readConfidences(image)
    case None => 0.0
    case Some(confs) => AverageConfidence(confs)
  }

  // ---------------------------------------------------------------------------
  // detect_language
  // ---------------------------------------------------------------------------

  /**
   * ocr_processor.py `detect_language`: `'en'` for the empty text, otherwise
   * `'es'` exactly when more than 30% of the characters lie above code
   * point 127.
   */
  function DetectLanguage(text: string): (code: string)
    ensures code == "en" || code == "es"
    ensures code == "es" <==> |text| > 0 && 10 * NonAsciiCount(text) > 3 * |text|
  {
    var nonAscii := NonAsciiCount(text);
    var total := |text|;
    if total == 0 then "en"
    else if 10 * nonAscii > 3 * total then "es"
    else "en"
  }

  /** Text made of ASCII characters only is always taken for English. */
  lemma AsciiTextIsEnglish(text: string)
    requires forall i :: 0 <= i < |text| ==> text[i] as int <= 127
    ensures DetectLanguage(text) == "en"
  {
  }

  /** A Spanish verdict needs at least one character above code point 127. */
  lemma SpanishNeedsNonAscii(text: string)
    requires DetectLanguage(text) == "es"
    ensures exists i :: 0 <= i < |text| && text[i] as int > 127
  {
  }

  /** Five accented capitals before " hello" (5 of 11 characters) make the text Spanish. */
  lemma AccentedSampleIsSpanish()
    ensures DetectLanguage("\U{C0}\U{C0}\U{C0}\U{C0}\U{C0} hello") == "es"
  {
    assert NonAsciiCount("\U{C0}\U{C0}\U{C0}\U{C0}\U{C0} hello") == 5;
  }

  // ---------------------------------------------------------------------------
  // extract_text and process_uploaded_image
  // ---------------------------------------------------------------------------

  /** The triple `process_uploaded_image` returns. */
  datatype Extraction = Extraction(text: string, confidence: real, language: string)

  /** The triple returned when opening the upload raises. */
  const Failed := Extraction("", 0.0, "en")

  /**
   * ocr_processor.py `extract_text`: the cleaned OCR text of the image, or
   * `""` when preprocessing or OCR raises.
   */
  method ExtractText<Image>(image: Image, readText: Image -> Option<string>) returns (text: string)
    ensures readText(image).None? ==> text == ""
    ensures readText(image).Some? ==> text == Clean(readText(image).value)
    ensures IsCleanText(text)
  {
    match readText(image)
    case None =>
      text := "";
    case Some(raw) =>
      text := CleanText(raw);
  }

  /**
   * ocr_processor.py `process_uploaded_image`: open the upload, then extract
   * the text, its confidence and its language; when opening raises, the
   * triple `("", 0.0, "en")`. The two inner steps fail soft on their own, so
   * only opening reaches the outer handler.
   */
  method ProcessUploadedImage<Upload, Image>(
    upload: Upload,
    open: Upload -> Option<Image>,
    readText: Image -> Option<string>,
    readConfidences: Image -> Option<seq<int>>)
    returns (result: Extraction)
    ensures open(upload).None? ==> result == Failed
    ensures open(upload).Some? ==>
      && result.text == (match readText(open(upload).value)
                         case None => ""
                         case Some(raw) => Clean(raw))
      && result.confidence == GetTextConfidence(open(upload).value, readConfidences)
    ensures result.language == DetectLanguage(result.text)
    ensures result.language == "en" || result.language == "es"
    ensures result.confidence >= 0.0
    ensures IsCleanText(result.text)
  {
    match open(upload)
    case None =>
      result := Failed;
    case Some(image) =>
      var text := ExtractText(image, readText);
      var confidence := GetTextConfidence(image, readConfidences);
      var language := DetectLanguage(text);
      result := Extraction(text, confidence, language);
  }
}
