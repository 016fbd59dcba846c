/** `get_script_progress` (`utils/script_runner.py`): a line-by-line scan of
    a script's output for the number of listings found, the number being
    processed, success and failure markers and the last message. */
module Progress {
  import opened Wrappers
  import opened Text

  /** The progress record the scan returns. */
  datatype Progress = Progress(total: int, processed: int, success: nat, failed: nat, lastMessage: string)

  const Start := Progress(0, 0, 0, 0, "")

  /** The count in a line such as `Found 12 listings`: the text between the
      first `Found` and the next `listings`, stripped, read as an integer;
      `None` when the line does not have both words or the text is not a
      number (the ValueError the scan ignores). */
  function TotalOf(line: string): Option<int> {
    if Contains(line, "Found") && Contains(line, "listings") then
      ParseInt(Strip(Before(SecondPiece(line, "Found").value, "listings")))
    else None
  }

  /** The count in a line such as `Processing [3/12] ...`: the text between
      the first `Processing` and the next `/`, stripped, and of that the
      part after the first `[`, if there is one, stripped again. */
  function ProcessedOf(line: string): Option<int> {
    if Contains(line, "Processing") && Contains(line, "/") then
      CountIn(Strip(Before(SecondPiece(line, "Processing").value, "/")))
    else None
  }

  /** The count in `parts`, or in what follows its first `[`. */
  function CountIn(parts: string): Option<int> {
    ParseInt(if Contains(parts, "[") then Strip(SecondPiece(parts, "[").value) else parts)
  }

  predicate IsSuccessLine(line: string) {
    Contains(line, "\U{2705}") || Contains(line, "Successfully")
  }

  predicate IsFailureLine(line: string) {
    Contains(line, "\U{274C}") || Contains(line, "Error") || Contains(line, "Failed")
  }

  /** What the scan reads off one line of output, once stripped. */
  datatype LineInfo = LineInfo(total: Option<int>, processed: Option<int>, success: bool, failure: bool, text: string)

  function Analyse(raw: string): LineInfo {
    var line := Strip(raw);
    LineInfo(TotalOf(line), ProcessedOf(line), IsSuccessLine(line), IsFailureLine(line), line)
  }

  /** What one line does to the record: a count read off it replaces the
      previous one, a marker adds one to its counter, a line that is not
      blank becomes the message. */
  function Step(p: Progress, info: LineInfo): Progress {
    Progress(
      match info.total case Some(n) => n case None => p.total,
      match info.processed case Some(n) => n case None => p.processed,
      if info.success then p.success + 1 else p.success,
      if info.failure then p.failed + 1 else p.failed,
      if info.text != [] then info.text else p.lastMessage)
  }

  /** The record after the lines described by `infos`, from the start
      values. */
  function Fold(infos: seq<LineInfo>): Progress {
    if infos == [] then Start else Step(Fold(infos[..|infos| - 1]), infos[|infos| - 1])
  }

  /** `infos` is what the scan reads off each of `lines`. */
  ghost predicate Describes(infos: seq<LineInfo>, lines: seq<string>) {
    && |infos| == |lines|
    && forall k {:trigger Analyse(lines[k])} :: 0 <= k < |lines| ==> infos[k] == Analyse(lines[k])
  }

  /** What the scan reads off each line. */
  function Infos(lines: seq<string>): (infos: seq<LineInfo>)
    ensures Describes(infos, lines)
  {
    seq(|lines|, k requires 0 <= k < |lines| => Analyse(lines[k]))
  }

  /** The lines the scan reads: the output stripped, then split at line
      feeds. */
  function OutputLines(stdout: string): (lines: seq<string>)
    ensures |lines| >= 1
    ensures Join(lines, '\n') == Strip(stdout)
  {
    JoinSplit(Strip(stdout), '\n');
    SplitOn(Strip(stdout), '\n')
  }

  /** `get_script_progress(result_stdout)`: `None` for missing or empty
      output, else the record after every line. */
  method GetScriptProgress(stdout: Option<string>) returns (r: Option<Progress>)
    ensures stdout.None? || stdout.value == [] ==> r.None?
    ensures stdout.Some? && stdout.value != [] ==> r == Some(Fold(Infos(OutputLines(stdout.value))))
  {
    if stdout.None? || stdout.value == [] {
      return None;
    }
    var lines := OutputLines(stdout.value);
    var p := ScanLines(lines, Infos(lines));
    return Some(p);
  }

  /** The loop of `get_script_progress`, from the start values, over lines
      that `infos` describes. */
  method ScanLines(lines: seq<string>, ghost infos: seq<LineInfo>) returns (r: Progress)
    requires Describes(infos, lines)
    ensures r == Fold(infos)
  {
    var total, processed, success, failed, lastMessage := 0, 0, 0, 0, "";
    for i := 0 to |lines|
      invariant Progress(total, processed, success, failed, lastMessage) == Fold(infos[..i])
    {
      assert infos[..i + 1][..i] == infos[..i];
      var info := AnalyseLine(lines, i, infos);
      if info.total.Some? {
        total := info.total.value;
      }
      if info.processed.Some? {
        processed := info.processed.value;
      }
      if info.success {
        success := success + 1;
      }
      if info.failure {
        failed := failed + 1;
      }
      if info.text != [] {
        lastMessage := info.text;
      }
    }
    assert infos[..|lines|] == infos;
    return Progress(total, processed, success, failed, lastMessage);
  }

  /** The tests the loop makes on one line, stripped. */
  method AnalyseLine(lines: seq<string>, i: int, ghost infos: seq<LineInfo>) returns (info: LineInfo)
    requires Describes(infos, lines) && 0 <= i < |lines|
    ensures info == infos[i]
  {
    var raw := lines[i];
    var found := LineTotal(raw);
    var processing := LineProcessed(raw);
    var succeeded := LineSuccess(raw);
    var failing := LineFailure(raw);
    info := LineInfo(found, processing, succeeded, failing, Strip(raw));
  }

  method LineTotal(raw: string) returns (count: Option<int>)
    ensures count == Analyse(raw).total
  {
    count := FoundCount(Strip(raw));
  }

  method LineProcessed(raw: string) returns (count: Option<int>)
    ensures count == Analyse(raw).processed
  {
    count := ProcessingCount(Strip(raw));
  }

  method LineSuccess(raw: string) returns (marked: bool)
    ensures marked == Analyse(raw).success
  {
    marked := IsSuccessLine(Strip(raw));
  }

  method LineFailure(raw: string) returns (marked: bool)
    ensures marked == Analyse(raw).failure
  {
    marked := IsFailureLine(Strip(raw));
  }

  /** The `Found ... listings` branch of the loop, with the ValueError of
      `int` as `None`. */
  method FoundCount(line: string) returns (count: Option<int>)
    ensures count == TotalOf(line)
  {
    count := None;
    if Contains(line, "Found") && Contains(line, "listings") {
      count := ParseInt(Strip(Before(SecondPiece(line, "Found").value, "listings")));
    }
  }

  /** The `Processing ... /` branch of the loop. */
  method ProcessingCount(line: string) returns (count: Option<int>)
    ensures count == ProcessedOf(line)
  {
    count := None;
    if Contains(line, "Processing") && Contains(line, "/") {
      var parts := Strip(Before(SecondPiece(line, "Processing").value, "/"));
      if Contains(parts, "[") {
        parts := Strip(SecondPiece(parts, "[").value);
      }
      count := ParseInt(parts);
    }
  }

  // ---------------------------------------------------------------------
  // Properties of the scan
  // ---------------------------------------------------------------------

  /** How many of the lines have the flag `test` picks. */
  function Tally(infos: seq<LineInfo>, test: LineInfo -> bool): (n: nat)
    ensures n <= |infos|
  {
    if infos == [] then 0
    else Tally(infos[..|infos| - 1], test) + (if test(infos[|infos| - 1]) then 1 else 0)
  }

  /** The counters count the success lines and the failure lines, so
      neither exceeds the number of lines; a line may count in both. */
  lemma {:induction false} FoldCounts(infos: seq<LineInfo>)
    ensures Fold(infos).success == Tally(infos, (i: LineInfo) => i.success) <= |infos|
    ensures Fold(infos).failed == Tally(infos, (i: LineInfo) => i.failure) <= |infos|
  {
    if infos != [] {
      FoldCounts(infos[..|infos| - 1]);
    }
  }

  /** `total` is the count of the last line that yields one, and stays 0
      when none does. */
  lemma {:induction false} TotalIsLastFound(infos: seq<LineInfo>, k: int)
    requires -1 <= k < |infos| && (k >= 0 ==> infos[k].total.Some?)
    requires forall j :: k < j < |infos| ==> infos[j].total.None?
    ensures Fold(infos).total == if k >= 0 then infos[k].total.value else 0
  {
    var n := |infos| - 1;
    if k < n {
      TotalIsLastFound(infos[..n], k);
    }
  }

  /** `processed` is the count of the last line that yields one, and stays
      0 when none does. */
  lemma {:induction false} ProcessedIsLastFound(infos: seq<LineInfo>, k: int)
    requires -1 <= k < |infos| && (k >= 0 ==> infos[k].processed.Some?)
    requires forall j :: k < j < |infos| ==> infos[j].processed.None?
    ensures Fold(infos).processed == if k >= 0 then infos[k].processed.value else 0
  {
    var n := |infos| - 1;
    if k < n {
      ProcessedIsLastFound(infos[..n], k);
    }
  }

  /** The last message is the last line that is not blank, and empty when
      every line is. */
  lemma {:induction false} LastMessageIsLastLine(infos: seq<LineInfo>, k: int)
    requires -1 <= k < |infos| && (k >= 0 ==> infos[k].text != [])
    requires forall j :: k < j < |infos| ==> infos[j].text == []
    ensures Fold(infos).lastMessage == if k >= 0 then infos[k].text else []
  {
    var n := |infos| - 1;
    if k < n {
      LastMessageIsLastLine(infos[..n], k);
    }
  }

  /** A line with `Found` and, after it, `listings`: the count is the
      text between the first `Found` and the first `listings` after it,
      stripped and read as an integer. `split("Found")[1]` ends at a second
      `Found`, so none may start before that `listings` ends. */
  lemma TotalBetween(line: string, a: string, b: string, c: string)
    requires line == a + "Found" + b + "listings" + c
    requires forall j :: 0 <= j < |a| ==> !OccursAt(line, "Found", j)
    requires forall j :: 0 <= j < |b| ==> !OccursAt(b + "listings" + c, "listings", j)
    requires forall j :: 0 <= j < |b| + 8 ==> !OccursAt(b + "listings" + c, "Found", j)
    ensures TotalOf(line) == ParseInt(Strip(b))
  {
    PieceBetween(line, a, "Found", b, "listings", c);
  }

  /** A line whose only `listings` comes before its first `Found`: the
      count is all the text after that `Found`, stripped. */
  lemma TotalToEnd(line: string, a: string, b: string)
    requires line == a + "Found" + b
    requires forall j :: 0 <= j < |a| ==> !OccursAt(line, "Found", j)
    requires forall j :: 0 <= j < |b| ==> !OccursAt(b, "listings", j) && !OccursAt(b, "Found", j)
    requires Contains(line, "listings")
    ensures TotalOf(line) == ParseInt(Strip(b))
  {
    SplitAround(a, "Found", b);
    SplitWithout(b, "Found");
    SplitWithout(b, "listings");
  }

  /** `Processing` followed by a `/` with no `[` in between: the count is
      the text between the first `Processing` and the next `/`,
      stripped. */
  lemma ProcessedPlain(line: string, a: string, b: string, c: string)
    requires line == a + "Processing" + b + "/" + c
    requires forall j :: 0 <= j < |a| ==> !OccursAt(line, "Processing", j)
    requires forall j :: 0 <= j <= |b| ==> !OccursAt(b + "/" + c, "Processing", j)
    requires '/' !in b && '[' !in Strip(b)
    ensures ProcessedOf(line) == ParseInt(Strip(b))
  {
    ProcessingPart(line, a, b, c);
    NotStartingIn(Strip(b), "[", |Strip(b)|);
    SplitWithout(Strip(b), "[");
  }

  /** With a `[` in that text, the count is what follows the first `[`, up
      to a second `[` if there is one, stripped. */
  lemma ProcessedBracketed(line: string, a: string, b: string, c: string, p: string, q: string)
    requires line == a + "Processing" + b + "/" + c
    requires forall j :: 0 <= j < |a| ==> !OccursAt(line, "Processing", j)
    requires forall j :: 0 <= j <= |b| ==> !OccursAt(b + "/" + c, "Processing", j)
    requires '/' !in b && Strip(b) == p + "[" + q && '[' !in p
    ensures ProcessedOf(line) == ParseInt(Strip(Before(q, "[")))
  {
    ProcessingPart(line, a, b, c);
    AfterBracket(p, q);
  }

  lemma AfterBracket(p: string, q: string)
    requires '[' !in p
    ensures CountIn(p + "[" + q) == ParseInt(Strip(Before(q, "[")))
  {
    var parts := p + "[" + q;
    assert parts[..|p|] == p;
    NotStartingIn(parts, "[", |p|);
    SplitAround(p, "[", q);
  }

  /** The text both `Processing` lemmas start from. */
  lemma ProcessingPart(line: string, a: string, b: string, c: string)
    requires line == a + "Processing" + b + "/" + c
    requires forall j :: 0 <= j < |a| ==> !OccursAt(line, "Processing", j)
    requires forall j :: 0 <= j <= |b| ==> !OccursAt(b + "/" + c, "Processing", j)
    requires '/' !in b
    ensures Contains(line, "Processing") && Contains(line, "/")
    ensures Strip(Before(SecondPiece(line, "Processing").value, "/")) == Strip(b)
  {
    assert (b + "/" + c)[..|b|] == b;
    NotStartingIn(b + "/" + c, "/", |b|);
    PieceBetween(line, a, "Processing", b, "/", c);
  }

  /** The scanner's readings of typical lines. */
  lemma ProgressLineExamples()
    ensures TotalOf("Found 12 listings") == Some(12)
    ensures ProcessedOf("Processing [3/12] 10 Main St") == Some(3)
    ensures ProcessedOf("Processing 3/12") == Some(3)
  {
    FoundExample("Found 12 listings");
    BracketedExample("Processing [3/12] 10 Main St");
    PlainExample("Processing 3/12");
  }

  lemma FoundExample(line: string)
    requires line == "Found 12 listings"
    ensures TotalOf(line) == Some(12)
  {
    FoundPieces(line);
    TotalBetween(line, "", " 12 ", "");
    TwelveText();
  }

  lemma FoundPieces(line: string)
    requires line == "Found 12 listings"
    ensures line == "" + "Found" + " 12 " + "listings" + ""
    ensures forall j :: 0 <= j < 4 ==> !OccursAt(" 12 " + "listings" + "", "listings", j)
    ensures forall j :: 0 <= j < 12 ==> !OccursAt(" 12 " + "listings" + "", "Found", j)
  {
    var rest := " 12 listings";
    assert rest == " 12 " + "listings" + "";
    NotStartingIn(rest, "listings", 4);
    NotStartingIn(rest, "Found", 12);
  }

  lemma BracketedExample(line: string)
    requires line == "Processing [3/12] 10 Main St"
    ensures ProcessedOf(line) == Some(3)
  {
    BracketedPieces(line);
    BracketedPart();
    ProcessedBracketed(line, "", " [3", "12] 10 Main St", "", "3");
    BracketTail();
    ThreeText();
  }

  lemma BracketTail()
    ensures Strip(Before("3", "[")) == "3"
  {
    NotStartingIn("3", "[", 1);
    SplitWithout("3", "[");
    assert Strip("3") == "3";
  }

  lemma BracketedPieces(line: string)
    requires line == "Processing [3/12] 10 Main St"
    ensures line == "" + "Processing" + " [3" + "/" + "12] 10 Main St"
    ensures forall j :: 0 <= j <= 3 ==> !OccursAt(" [3" + "/" + "12] 10 Main St", "Processing", j)
  {
    var rest := " [3/12] 10 Main St";
    assert rest == " [3" + "/" + "12] 10 Main St";
    NotStartingIn(rest, "Processing", 4);
  }

  lemma BracketedPart()
    ensures '/' !in " [3" && Strip(" [3") == "" + "[" + "3"
  {
    assert Strip(" [3") == "[3";
  }

  lemma PlainExample(line: string)
    requires line == "Processing 3/12"
    ensures ProcessedOf(line) == Some(3)
  {
    PlainPieces(line);
    ProcessedPlain(line, "", " 3", "12");
    ThreeText();
  }

  lemma PlainPieces(line: string)
    requires line == "Processing 3/12"
    ensures line == "" + "Processing" + " 3" + "/" + "12"
    ensures forall j :: 0 <= j <= 2 ==> !OccursAt(" 3" + "/" + "12", "Processing", j)
    ensures '/' !in " 3" && Strip(" 3") == "3" && '[' !in "3"
  {
    NotStartingIn(" 3/12", "Processing", 3);
  }

  /** `int(" 12 ".strip())` and `int("3")`, the numbers of the examples. */
  lemma TwelveText()
    ensures ParseInt(Strip(" 12 ")) == Some(12)
  {
    ParseIntOfString(12);
    assert Strip(" 12 ") == "12" == NatToDigits(1) + "2";
  }

  lemma ThreeText()
    ensures ParseInt("3") == Some(3)
  {
    ParseIntOfString(3);
    assert NatToDigits(3) == "3";
  }

  /** What the scan reads off a line is that line stripped, with neither a
      count nor a marker when the line is blank. */
  lemma AnalyseBlank(raw: string)
    ensures Analyse(raw).text == Strip(raw)
    ensures Strip(raw) == [] ==> Analyse(raw) == LineInfo(None, None, false, false, [])
  {
    if Strip(raw) == [] {
      BlankHasNothing(Strip(raw));
    }
  }

  lemma BlankHasNothing(line: string)
    requires line == []
    ensures TotalOf(line).None? && ProcessedOf(line).None?
    ensures !IsSuccessLine(line) && !IsFailureLine(line)
  {
    assert !Contains(line, "Found") && !Contains(line, "Processing");
    assert !Contains(line, "\U{2705}") && !Contains(line, "Successfully");
    assert !Contains(line, "\U{274C}") && !Contains(line, "Error") && !Contains(line, "Failed");
  }
}
