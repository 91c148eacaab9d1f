/** The countdown heuristic of the polling loop (`extractCountdownTimeFromPresentation`):
    a presentation that is a single countdown slide shows its clock text on
    the first line of a two-line layout or the middle line of a three-line
    layout, and that line is taken when it looks like a clock. */
module Countdown {
  import opened Wrappers
  import opened Values
  import opened JsString

  /** What the source does when it reads the first slide of an empty
      `slides` array: `p.slides[0].text` throws a TypeError. */
  datatype Fault = MissingFirstSlide

  /** The regular expression `^[\d:.]*$`: every character an ASCII digit,
      a colon or a period. The empty string matches. */
  predicate ClockChar(c: char) {
    '0' <= c <= '9' || c == ':' || c == '.'
  }

  predicate IsClockText(s: string) {
    forall i | 0 <= i < |s| :: ClockChar(s[i])
  }

  /** The descriptor passes the gate: type `unknown` or `countdown`, slide 1
      of 1, and a `slides` array present. */
  predicate Eligible(p: Presentation) {
    && (p.kind == Str("unknown") || p.kind == Str("countdown"))
    && LooselyOne(p.slideNumber)
    && LooselyOne(p.totalSlides)
    && p.slides.Some?
  }

  /** The row that may hold the clock: row 0 of two, row 1 of three. */
  function CandidateRow(rows: seq<string>): Option<string> {
    if |rows| == 2 then Some(rows[0])
    else if |rows| == 3 then Some(rows[1])
    else None
  }

  /** The heuristic itself. `p` is `None` for a null or missing descriptor.
      `Ok(None)` is the source's `null`, `Ok(Some(t))` its string result and
      `Err` the TypeError raised for an empty `slides` array. */
  function ExtractCountdown(p: Option<Presentation>): (r: Result<Option<string>, Fault>)
    ensures r.Err? <==> p.Some? && Eligible(p.value) && |p.value.slides.value| == 0
    ensures r.Ok? && r.value.Some? ==> p.Some? && Eligible(p.value) && IsClockText(r.value.value)
  {
    if p.None? || !Eligible(p.value) then Ok(None)
    else if |p.value.slides.value| == 0 then Err(MissingFirstSlide)
    else
      var rows := Split(p.value.slides.value[0].text, '\n');
      match CandidateRow(rows)
      case None => Ok(None)
      case Some(row) => if IsClockText(row) then Ok(Some(row)) else Ok(None)
  }

  /** Each rejection reason of the gate, on its own, gives `null`: a null
      descriptor, another `type`, a slide number or slide count other than 1,
      and a missing `slides` array. */
  lemma CountdownOfRejected(p: Presentation)
    ensures ExtractCountdown(None) == Ok(None)
    ensures p.kind != Str("unknown") && p.kind != Str("countdown") ==> ExtractCountdown(Some(p)) == Ok(None)
    ensures !LooselyOne(p.slideNumber) ==> ExtractCountdown(Some(p)) == Ok(None)
    ensures !LooselyOne(p.totalSlides) ==> ExtractCountdown(Some(p)) == Ok(None)
    ensures p.slides.None? ==> ExtractCountdown(Some(p)) == Ok(None)
  {
  }

  /** The text of the first slide, where the heuristic looks. */
  function FirstText(p: Presentation): string
    requires p.slides.Some? && |p.slides.value| > 0
  {
    p.slides.value[0].text
  }

  /** Two-line layout: the first line is returned exactly when it looks like a clock. */
  lemma CountdownOfTwoLines(p: Presentation, first: string, second: string)
    requires Eligible(p) && |p.slides.value| > 0
    requires FirstText(p) == first + "\n" + second
    requires Free(first, '\n') && Free(second, '\n')
    ensures ExtractCountdown(Some(p)) == Ok(if IsClockText(first) then Some(first) else None)
  {
    SplitTwo(first, '\n', second);
  }

  /** Three-line layout: the middle line is returned exactly when it looks like a clock. */
  lemma CountdownOfThreeLines(p: Presentation, first: string, middle: string, last: string)
    requires Eligible(p) && |p.slides.value| > 0
    requires FirstText(p) == first + "\n" + middle + "\n" + last
    requires Free(first, '\n') && Free(middle, '\n') && Free(last, '\n')
    ensures ExtractCountdown(Some(p)) == Ok(if IsClockText(middle) then Some(middle) else None)
  {
    SplitThree(first, '\n', middle, last);
  }

  /** Any other number of lines, one line in particular, gives `null`. */
  lemma CountdownOfOtherLayouts(p: Presentation)
    requires Eligible(p) && |p.slides.value| > 0
    requires Occurrences(FirstText(p), '\n') != 1 && Occurrences(FirstText(p), '\n') != 2
    ensures ExtractCountdown(Some(p)) == Ok(None)
  {
    SplitLength(FirstText(p), '\n');
  }

  /** Conversely, a result is always a whole line of the first slide's text:
      the text is `head + t + "\n" + tail`, where `head` is empty (two-line
      layout) or one line and its newline (three-line layout), and no part
      holds another newline. */
  lemma CountdownIsALine(p: Presentation, t: string) returns (head: string, tail: string)
    requires ExtractCountdown(Some(p)) == Ok(Some(t))
    ensures Eligible(p) && |p.slides.value| > 0
    ensures FirstText(p) == head + t + "\n" + tail
    ensures head == "" || (head[|head| - 1] == '\n' && Free(head[..|head| - 1], '\n'))
    ensures Free(t, '\n') && Free(tail, '\n') && IsClockText(t)
  {
    var text := FirstText(p);
    var rows := Split(text, '\n');
    JoinSplit(text, '\n');
    SplitPiecesFree(text, '\n');
    assert Free(rows[0], '\n') && Free(rows[1], '\n');
    if |rows| == 2 {
      head, tail := "", rows[1];
      assert Join(rows[1..], '\n') == rows[1];
    } else {
      assert |rows| == 3;
      assert Free(rows[2], '\n');
      head, tail := rows[0] + "\n", rows[2];
      assert head[..|head| - 1] == rows[0];
      assert Join(rows[2..], '\n') == rows[2];
      assert Join(rows[1..], '\n') == rows[1] + "\n" + rows[2];
    }
  }

  /** The worked examples: slide 1 of 1 of type `countdown`. */
  function CountdownSlide(text: string): Presentation {
    Presentation(Undefined, Str("countdown"), Undefined, Undefined, Undefined,
                 Num(1), Num(1), Some([Slide(text)]))
  }

  lemma CountdownExampleThreeLines()
    ensures ExtractCountdown(Some(CountdownSlide("A\n12:34.5\nB"))) == Ok(Some("12:34.5"))
  {
    assert "A\n12:34.5\nB" == "A" + "\n" + "12:34.5" + "\n" + "B";
    assert IsClockText("12:34.5");
    CountdownOfThreeLines(CountdownSlide("A\n12:34.5\nB"), "A", "12:34.5", "B");
  }

  lemma CountdownExampleTitleFirst()
    ensures ExtractCountdown(Some(CountdownSlide("Title\n12:34"))) == Ok(None)
  {
    assert "Title\n12:34" == "Title" + "\n" + "12:34";
    assert !ClockChar("Title"[0]);
    CountdownOfTwoLines(CountdownSlide("Title\n12:34"), "Title", "12:34");
  }

  lemma CountdownExampleSingleLine()
    ensures ExtractCountdown(Some(CountdownSlide("12:34"))) == Ok(None)
  {
  }

  lemma CountdownExampleEmptyRow()
    ensures ExtractCountdown(Some(CountdownSlide("\nEnd"))) == Ok(Some(""))
  {
  }
}
