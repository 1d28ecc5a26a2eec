/**
 * The line rules and the pipeline of the document cleaner
 * (fastapi_backend/helpers/document_cleaner.py): the noise-line classifier,
 * the line filter, the four-step `clean_document` and the batch loop.
 * HTML removal relies on an HTML parser and is taken as a parameter.
 */
module DocumentCleaner {
  import opened Sequences
  import opened Text
  import opened CleanerPatterns

  // ---------------------------------------------------------------------
  // is_noise_line

  /** The position `k` is where a non-MULTILINE `$` matches: the end, or just before a final newline. */
  predicate AnchoredEnd(line: string, k: nat)
  {
    k == |line| || (k + 1 == |line| && line[k] == '\n')
  }

  /** What `re.match(r'^[^\w]*$', line)` accepts, read off the pattern. */
  predicate MatchesNoWordPattern(line: string)
  {
    exists k: nat :: k <= |line| && AnchoredEnd(line, k) && forall i :: 0 <= i < k ==> !IsWordChar(line[i])
  }

  /** What `re.match(r'^\d+$', line)` accepts, read off the pattern. */
  predicate MatchesDigitsPattern(line: string)
  {
    exists k: nat :: 0 < k <= |line| && AnchoredEnd(line, k) && forall i :: 0 <= i < k ==> IsDigit(line[i])
  }

  /** The line holds no word character at all. */
  predicate HasNoWordChar(line: string)
  {
    forall i :: 0 <= i < |line| ==> !IsWordChar(line[i])
  }

  /** The line is one or more digits, with at most a final newline after them. */
  predicate IsNumberLine(line: string)
  {
    var n := if |line| > 0 && line[|line| - 1] == '\n' then |line| - 1 else |line|;
    n > 0 && forall i :: 0 <= i < n ==> IsDigit(line[i])
  }

  /** `set(line)` */
  function DistinctChars(line: string): set<char>
  {
    set c | c in line
  }

  /** `is_noise_line`: the four tests, in the order the source makes them. */
  predicate IsNoiseLine(line: string)
    ensures !IsNoiseLine(line) ==> |line| >= 3 && exists i :: 0 <= i < |line| && IsWordChar(line[i])
  {
    if |line| < 3 then true
    else if HasNoWordChar(line) then true
    else if IsNumberLine(line) then true
    else if |DistinctChars(line)| <= 2 && |line| > 5 then true
    else false
  }

  /** The second test is exactly the match of `^[^\w]*$`. */
  lemma NoWordCharIsPattern(line: string)
    ensures HasNoWordChar(line) <==> MatchesNoWordPattern(line)
  {
    if HasNoWordChar(line) {
      assert AnchoredEnd(line, |line|);
    }
    if MatchesNoWordPattern(line) {
      var k: nat :| k <= |line| && AnchoredEnd(line, k) && forall i :: 0 <= i < k ==> !IsWordChar(line[i]);
      if k < |line| {
        assert line[k] == '\n';
      }
    }
  }

  /** The third test is exactly the match of `^\d+$`. */
  lemma NumberLineIsPattern(line: string)
    ensures IsNumberLine(line) <==> MatchesDigitsPattern(line)
  {
    var n := if |line| > 0 && line[|line| - 1] == '\n' then |line| - 1 else |line|;
    if IsNumberLine(line) {
      assert AnchoredEnd(line, n);
    }
    if MatchesDigitsPattern(line) {
      var k: nat :| 0 < k <= |line| && AnchoredEnd(line, k) && forall i :: 0 <= i < k ==> IsDigit(line[i]);
      assert !IsDigit('\n');
      assert k == n;
    }
  }

  /**
   * A line is noise exactly when it is shorter than three characters, or
   * `^[^\w]*$` matches it, or `^\d+$` matches it, or it is longer than five
   * characters and holds at most two distinct characters.
   */
  lemma NoiseLineCases(line: string)
    ensures IsNoiseLine(line) <==>
      |line| < 3 || MatchesNoWordPattern(line) || MatchesDigitsPattern(line) ||
      (|line| > 5 && |DistinctChars(line)| <= 2)
  {
    NoWordCharIsPattern(line);
    NumberLineIsPattern(line);
  }

  // ---------------------------------------------------------------------
  // remove_noise_lines

  /** The stripped form of every line, in order. */
  function StrippedLines(lines: seq<string>): (r: seq<string>)
    ensures |r| == |lines|
    decreases |lines|
  {
    if lines == [] then [] else [Strip(lines[0])] + StrippedLines(lines[1..])
  }

  /** The `i`-th stripped line is the `i`-th line, stripped. */
  lemma {:induction false} StrippedLinesAt(lines: seq<string>, i: nat)
    requires i < |lines|
    ensures StrippedLines(lines)[i] == Strip(lines[i])
    decreases i
  {
    if i > 0 {
      StrippedLinesAt(lines[1..], i - 1);
    }
  }

  /** A line the filter keeps once it is stripped. */
  predicate IsImportantLine(line: string)
  {
    line != [] && IsStripped(line) && !IsNoiseLine(line)
  }

  /** The stripped lines that are neither empty nor noise, in their order. */
  function KeptLines(lines: seq<string>): (r: seq<string>)
    ensures |r| <= |lines|
    decreases |lines|
  {
    if lines == [] then []
    else
      var line := Strip(lines[0]);
      var rest := KeptLines(lines[1..]);
      if line == [] || IsNoiseLine(line) then rest else [line] + rest
  }

  /**
   * The text `remove_noise_lines` returns. It is stripped, and when it is not
   * empty its lines are exactly the kept lines: none of them is empty or noise.
   */
  function NoiseLinesRemoved(text: string): (r: string)
    ensures IsStripped(r)
    ensures r != [] ==> Split(r) == KeptLines(Split(text))
    ensures r != [] ==> forall i :: 0 <= i < |Split(r)| ==> IsImportantLine(Split(r)[i])
  {
    var kept := KeptLines(Split(text));
    KeptLinesImportant(Split(text));
    if kept == [] then Join(kept)
    else
      KeptLinesNoNewline(Split(text));
      SplitJoin(kept);
      JoinEnds(kept);
      Join(kept)
  }

  /** The loop of `remove_noise_lines`: strip each line, skip it if it is empty or noise. */
  method KeepImportantLines(lines: seq<string>) returns (important: seq<string>)
    ensures important == KeptLines(lines)
  {
    important := [];
    assert lines[0..] == lines;
    for i := 0 to |lines|
      invariant important + KeptLines(lines[i..]) == KeptLines(lines)
    {
      assert lines[i..][1..] == lines[i + 1..];
      var line := Strip(lines[i]);
      if line == [] {
        continue;
      }
      if IsNoiseLine(line) {
        continue;
      }
      important := important + [line];
    }
    assert lines[|lines|..] == [];
  }

  /** `remove_noise_lines` */
  method RemoveNoiseLines(text: string) returns (r: string)
    ensures r == NoiseLinesRemoved(text)
  {
    var lines := Split(text);
    var important := KeepImportantLines(lines);
    r := Join(important);
  }

  /** Every kept line is stripped, non-empty and not noise. */
  lemma {:induction false} KeptLinesImportant(lines: seq<string>)
    ensures forall i :: 0 <= i < |KeptLines(lines)| ==> IsImportantLine(KeptLines(lines)[i])
    decreases |lines|
  {
    if lines != [] {
      KeptLinesImportant(lines[1..]);
    }
  }

  /** The kept lines are stripped input lines, in input order. */
  lemma {:induction false} KeptLinesInOrder(lines: seq<string>)
    ensures IsSubsequence(KeptLines(lines), StrippedLines(lines))
    decreases |lines|
  {
    if lines != [] {
      KeptLinesInOrder(lines[1..]);
    }
  }

  /** A line is kept exactly when it is a stripped input line that is neither empty nor noise. */
  lemma {:induction false} KeptLinesMembership(lines: seq<string>, line: string)
    ensures line in KeptLines(lines) <==> line in StrippedLines(lines) && line != [] && !IsNoiseLine(line)
    decreases |lines|
  {
    if lines != [] {
      KeptLinesMembership(lines[1..], line);
    }
  }

  /** Stripping a line without newlines gives a line without newlines. */
  lemma {:induction false} KeptLinesNoNewline(lines: seq<string>)
    requires forall i :: 0 <= i < |lines| ==> '\n' !in lines[i]
    ensures forall i :: 0 <= i < |KeptLines(lines)| ==> '\n' !in KeptLines(lines)[i]
    decreases |lines|
  {
    if lines != [] {
      KeptLinesNoNewline(lines[1..]);
      StripChars(lines[0]);
    }
  }

  /** Lines that are all important pass the filter unchanged. */
  lemma {:induction false} KeptLinesOfImportant(lines: seq<string>)
    requires forall i :: 0 <= i < |lines| ==> IsImportantLine(lines[i])
    ensures KeptLines(lines) == lines
    decreases |lines|
  {
    if lines != [] {
      KeptLinesOfImportant(lines[1..]);
      StripStripped(lines[0]);
      assert lines == [lines[0]] + lines[1..];
    }
  }

  /** Joined non-empty lines start with the first line's first character and end with the last line's last one. */
  lemma {:induction false} JoinEnds(lines: seq<string>)
    requires |lines| >= 1
    requires forall i :: 0 <= i < |lines| ==> lines[i] != []
    ensures Join(lines) != []
    ensures Join(lines)[0] == lines[0][0]
    ensures Join(lines)[|Join(lines)| - 1] == lines[|lines| - 1][|lines[|lines| - 1]| - 1]
    decreases |lines|
  {
    if |lines| > 1 {
      JoinEnds(lines[1..]);
    }
  }

  /** Filtering the filtered text changes nothing. */
  lemma NoiseLinesRemovedIdempotent(text: string)
    ensures NoiseLinesRemoved(NoiseLinesRemoved(text)) == NoiseLinesRemoved(text)
  {
    var r := NoiseLinesRemoved(text);
    if r == [] {
      assert Split(r) == [[]];
    } else {
      KeptLinesOfImportant(Split(r));
    }
  }

  /** A string, a newline and another string: the cap on runs of `c` carries over the newline. */
  lemma {:induction false} CappedAroundNewline(a: string, b: string, c: char, pending: nat)
    requires c != '\n'
    requires RunsCapped(a, c, pending) && RunsCapped(b, c, 0)
    ensures RunsCapped(a + "\n" + b, c, pending)
    decreases |a|
  {
    if a == [] {
      assert a + "\n" + b == ['\n'] + b;
    } else {
      assert (a + "\n" + b)[1..] == a[1..] + "\n" + b;
      CappedAroundNewline(a[1..], b, c, if a[0] == c then pending + 1 else 0);
    }
  }

  lemma {:induction false} JoinCapped(lines: seq<string>, c: char)
    requires c != '\n'
    requires forall i :: 0 <= i < |lines| ==> RunsCapped(lines[i], c, 0)
    ensures RunsCapped(Join(lines), c, 0)
    decreases |lines|
  {
    if |lines| > 1 {
      JoinCapped(lines[1..], c);
      CappedAroundNewline(lines[0], Join(lines[1..]), c, 0);
    }
  }

  /** Every piece of a split keeps the cap on runs of `c`. */
  lemma {:induction false} SplitCapped(s: string, c: char, pending: nat)
    requires c != '\n'
    requires RunsCapped(s, c, pending)
    ensures RunsCapped(Split(s)[0], c, pending)
    ensures forall i :: 1 <= i < |Split(s)| ==> RunsCapped(Split(s)[i], c, 0)
    decreases |s|
  {
    if s != [] {
      var rest := Split(s[1..]);
      if s[0] == '\n' {
        SplitCapped(s[1..], c, 0);
        assert Split(s) == [[]] + rest;
      } else {
        SplitCapped(s[1..], c, if s[0] == c then pending + 1 else 0);
        assert ([s[0]] + rest[0])[1..] == rest[0];
      }
    }
  }

  lemma {:induction false} KeptLinesCapped(lines: seq<string>, c: char)
    requires !IsSpace(c)
    requires forall i :: 0 <= i < |lines| ==> RunsCapped(lines[i], c, 0)
    ensures forall i :: 0 <= i < |KeptLines(lines)| ==> RunsCapped(KeptLines(lines)[i], c, 0)
    decreases |lines|
  {
    if lines != [] {
      KeptLinesCapped(lines[1..], c);
      StripKeepsCaps(lines[0], c);
    }
  }

  /** The line filter creates no run of four copies of a non-space character. */
  lemma NoiseLinesKeepCaps(text: string, c: char)
    requires !IsSpace(c)
    requires NoLongRun(text, c)
    ensures NoLongRun(NoiseLinesRemoved(text), c)
  {
    SplitCapped(text, c, 0);
    KeptLinesCapped(Split(text), c);
    JoinCapped(KeptLines(Split(text)), c);
  }

  // ---------------------------------------------------------------------
  // clean_document and batch_clean_documents

  /** An entry of `steps_applied`. */
  datatype CleaningStep = HtmlRemoval | CodeCleaning | NoiseRemoval | NoiseLineRemoval
  {
    /** The string the source records for the step. */
    function Name(): (name: string)
    {
      match this
      case HtmlRemoval => "html_removal"
      case CodeCleaning => "code_cleaning"
      case NoiseRemoval => "noise_removal"
      case NoiseLineRemoval => "noise_line_removal"
    }
  }

  /** The `cleaning_info` dictionary, without `reduction_percentage`. */
  datatype CleaningInfo = CleaningInfo(
    originalLength: nat,
    stepsApplied: seq<CleaningStep>,
    llmUsed: bool,
    finalLength: nat)

  /** The steps `clean_document` records, in the order it applies them. */
  const CleaningSteps: seq<CleaningStep> := [HtmlRemoval, CodeCleaning, NoiseRemoval, NoiseLineRemoval]

  /** What one step does to the text; HTML removal is given as a parameter. */
  function ApplyStep(step: CleaningStep, text: string, removeHtmlTags: string -> string): string
  {
    match step
    case HtmlRemoval => removeHtmlTags(text)
    case CodeCleaning => CleanCodeArtifacts(text)
    case NoiseRemoval => RemoveNoisePatterns(text)
    case NoiseLineRemoval => NoiseLinesRemoved(text)
  }

  /**
   * The text after applying `steps` in order. Naming `text` in the
   * decreases clause keeps the verifier from unfolding every step when
   * `steps` is the literal `CleaningSteps`.
   */
  function RunSteps(steps: seq<CleaningStep>, text: string, removeHtmlTags: string -> string): string
    decreases |steps|, text
  {
    if steps == [] then text
    else RunSteps(steps[1..], ApplyStep(steps[0], text, removeHtmlTags), removeHtmlTags)
  }

  /** The text `clean_document` returns: the recorded steps, applied in order. */
  function CleanedText(text: string, removeHtmlTags: string -> string): string
  {
    RunSteps(CleaningSteps, text, removeHtmlTags)
  }

  /** The recorded steps amount to HTML removal, code cleaning, noise-pattern removal and the line filter, in that order. */
  lemma CleanedTextStages(text: string, removeHtmlTags: string -> string)
    ensures CleanedText(text, removeHtmlTags) ==
      NoiseLinesRemoved(RemoveNoisePatterns(CleanCodeArtifacts(removeHtmlTags(text))))
  {
    var s := CleaningSteps;
    var t1 := removeHtmlTags(text);
    var t2 := CleanCodeArtifacts(t1);
    var t3 := RemoveNoisePatterns(t2);
    var t4 := NoiseLinesRemoved(t3);
    assert RunSteps(s[1..][1..][1..][1..], t4, removeHtmlTags) == t4;
    assert RunSteps(s[1..][1..][1..], t3, removeHtmlTags) == t4;
    assert RunSteps(s[1..][1..], t2, removeHtmlTags) == t4;
    assert RunSteps(s[1..], t1, removeHtmlTags) == t4;
  }

  /** What `clean_document` returns for `text`. */
  function CleanResult(text: string, removeHtmlTags: string -> string): (r: (string, CleaningInfo))
    ensures r.0 == CleanedText(text, removeHtmlTags)
    ensures IsStripped(r.0) && NoLongRun(r.0, '!') && NoLongRun(r.0, '?')
    ensures r.1.originalLength == |text| && r.1.finalLength == |r.0|
    ensures r.1.stepsApplied == CleaningSteps && !r.1.llmUsed
  {
    var cleaned := CleanedText(text, removeHtmlTags);
    CleanedTextProperties(text, removeHtmlTags);
    (cleaned, CleaningInfo(|text|, CleaningSteps, false, |cleaned|))
  }

  /**
   * `clean_document`. The source divides by the input length when it
   * computes the reduction percentage, so an empty input is refused.
   */
  method CleanDocument(text: string, removeHtmlTags: string -> string) returns (cleaned: string, info: CleaningInfo)
    requires |text| > 0
    ensures cleaned == CleanedText(text, removeHtmlTags)
    ensures info.originalLength == |text|
    ensures info.stepsApplied == CleaningSteps
    ensures !info.llmUsed
    ensures info.finalLength == |cleaned|
    ensures (cleaned, info) == CleanResult(text, removeHtmlTags)
  {
    var steps: seq<CleaningStep> := [];
    var t := removeHtmlTags(text);
    steps := steps + [HtmlRemoval];
    t := CleanCodeArtifacts(t);
    steps := steps + [CodeCleaning];
    t := RemoveNoisePatterns(t);
    steps := steps + [NoiseRemoval];
    t := RemoveNoiseLines(t);
    steps := steps + [NoiseLineRemoval];
    AppendFour(HtmlRemoval, CodeCleaning, NoiseRemoval, NoiseLineRemoval);
    cleaned := t;
    CleanedTextStages(text, removeHtmlTags);
    info := CleaningInfo(|text|, steps, false, |t|);
  }

  /**
   * The line filter keeps caps on `!` and `?` runs, and its output is
   * stripped, made of important lines only, and a fixpoint of the filter.
   */
  lemma LineFilterProperties(text: string)
    requires NoLongRun(text, '!') && NoLongRun(text, '?')
    ensures IsStripped(NoiseLinesRemoved(text))
    ensures NoLongRun(NoiseLinesRemoved(text), '!')
    ensures NoLongRun(NoiseLinesRemoved(text), '?')
    ensures NoiseLinesRemoved(text) != [] ==>
      forall i :: 0 <= i < |Split(NoiseLinesRemoved(text))| ==> IsImportantLine(Split(NoiseLinesRemoved(text))[i])
    ensures NoiseLinesRemoved(NoiseLinesRemoved(text)) == NoiseLinesRemoved(text)
  {
    NoiseLinesKeepCaps(text, '!');
    NoiseLinesKeepCaps(text, '?');
    NoiseLinesRemovedIdempotent(text);
  }

  /**
   * A cleaned document has no whitespace at either end, no run of four `!`
   * or four `?`, no empty or noise line, and filtering it again changes nothing.
   */
  lemma CleanedTextProperties(text: string, removeHtmlTags: string -> string)
    ensures IsStripped(CleanedText(text, removeHtmlTags))
    ensures NoLongRun(CleanedText(text, removeHtmlTags), '!')
    ensures NoLongRun(CleanedText(text, removeHtmlTags), '?')
    ensures CleanedText(text, removeHtmlTags) != [] ==>
      forall i :: 0 <= i < |Split(CleanedText(text, removeHtmlTags))| ==>
        IsImportantLine(Split(CleanedText(text, removeHtmlTags))[i])
    ensures NoiseLinesRemoved(CleanedText(text, removeHtmlTags)) == CleanedText(text, removeHtmlTags)
  {
    CleanedTextStages(text, removeHtmlTags);
    var coded := CleanCodeArtifacts(removeHtmlTags(text));
    NoisePatternsRemoved(coded);
    LineFilterProperties(RemoveNoisePatterns(coded));
  }

  /** What `batch_clean_documents` returns: `clean_document` of each document, in order. */
  function CleanAll(documents: seq<string>, removeHtmlTags: string -> string): (r: seq<(string, CleaningInfo)>)
    ensures |r| == |documents|
    ensures forall i :: 0 <= i < |documents| ==> r[i] == CleanResult(documents[i], removeHtmlTags)
    decreases |documents|
  {
    if documents == [] then []
    else CleanAll(documents[..|documents| - 1], removeHtmlTags) + [CleanResult(documents[|documents| - 1], removeHtmlTags)]
  }

  /** `batch_clean_documents`: one result per document, in order. */
  method BatchCleanDocuments(documents: seq<string>, removeHtmlTags: string -> string)
    returns (results: seq<(string, CleaningInfo)>)
    requires forall i :: 0 <= i < |documents| ==> |documents[i]| > 0
    ensures results == CleanAll(documents, removeHtmlTags)
    ensures |results| == |documents|
    ensures forall i :: 0 <= i < |documents| ==> results[i] == CleanResult(documents[i], removeHtmlTags)
  {
    results := [];
    for k := 0 to |documents|
      invariant results == CleanAll(documents[..k], removeHtmlTags)
    {
      var cleaned, info := CleanDocument(documents[k], removeHtmlTags);
      results := results + [(cleaned, info)];
      assert documents[..k + 1][..k] == documents[..k];
    }
    assert documents[..|documents|] == documents;
  }
}
