// Where the lines of the export sit on their pages, as computed and as printed.
module Placement {
  import opened Numbers
  import opened FileFormat
  import opened Greedy
  import opened Layout
  import opened Content
  import opened Rendering
  import opened Document
  import opened Pipeline

  // ---- baselines ----

  lemma {:induction false} BaselineSteps(page: seq<PdfLine>, i: nat)
    requires i < |page|
    ensures Baseline(page, i) == 780.0 - Cost(LineCost, page[..i]) - page[i].gapBefore
    ensures Baseline(page, i) - StyleOf(page[i].style).leading == 780.0 - Cost(LineCost, page[..i + 1])
    ensures i + 1 < |page| ==>
              (Baseline(page, i + 1) == Baseline(page, i) - StyleOf(page[i].style).leading - page[i + 1].gapBefore)
  {
    hide StyleOf;
    CursorsAgree(page[..i]);
    CursorsAgree(page[..i + 1]);
    assert page[..i + 1][..i] == page[..i];
  }

  ghost predicate Clear(page: seq<PdfLine>) {
    forall i | 0 <= i < |page| :: Baseline(page, i) >= 72.0 + StyleOf(page[i].style).leading
  }

  // The renderer's cursor is the paginator's plus 14, so on any page without negative gaps the
  // baselines go strictly down from at most 780, and every line keeps its leading above 72 - clear
  // of the bottom margin (58) and the footer (34) - exactly when the page costs at most 708.
  lemma {:induction false} BaselinesOnPage(page: seq<PdfLine>)
    requires page != [] && GapsNonNegative(page)
    ensures forall i | 0 <= i < |page| :: Baseline(page, i) <= 780.0
    ensures forall i | 0 <= i < |page| - 1 :: Baseline(page, i + 1) < Baseline(page, i)
    ensures Clear(page) <==> Cost(LineCost, page) <= 708.0
  {
    hide StyleOf, Cost, Baseline;
    forall i | 0 <= i < |page|
      ensures Baseline(page, i) <= 780.0
    {
      BaselineAt(page, i);
    }
    forall i | 0 <= i < |page| - 1
      ensures Baseline(page, i + 1) < Baseline(page, i)
    {
      BaselineSteps(page, i);
    }
    if Cost(LineCost, page) <= 708.0 {
      forall i | 0 <= i < |page|
        ensures Baseline(page, i) >= 72.0 + StyleOf(page[i].style).leading
      {
        BaselineAt(page, i);
      }
    }
    BaselineSteps(page, |page| - 1);
    assert page[..|page| - 1 + 1] == page;
  }

  lemma {:induction false} BaselineAt(page: seq<PdfLine>, i: nat)
    requires i < |page| && GapsNonNegative(page)
    ensures Baseline(page, i) <= 780.0
    ensures Baseline(page, i) - StyleOf(page[i].style).leading >= 780.0 - Cost(LineCost, page)
  {
    hide StyleOf, Cost, Baseline;
    BaselineSteps(page, i);
    assert forall j | 0 <= j < |page| :: LineCost(page[j]) >= 0.0;
    assert forall j | 0 <= j < i :: page[..i][j] == page[j];
    CostNonNegative(LineCost, page[..i]);
    CostOfSlice(LineCost, page, 0, 0, i + 1, |page|);
    assert page[0..i + 1] == page[..i + 1] && page[0..|page|] == page;
  }

  // ---- no line is lost below the page ----

  lemma FitAppend(cap: real, a: seq<PdfLine>, b: seq<PdfLine>)
    ensures AtMost(cap, a + b) <==> AtMost(cap, a) && AtMost(cap, b)
    ensures GapsNonNegative(a + b) <==> GapsNonNegative(a) && GapsNonNegative(b)
  {
    hide LineCost;
    assert forall i | 0 <= i < |a| :: (a + b)[i] == a[i];
    assert forall i | 0 <= i < |b| :: (a + b)[|a| + i] == b[i];
  }

  lemma WrapLineCosts(cap: real, line: PdfLine)
    requires line.gapBefore >= 0.0
    ensures GapsNonNegative(WrapLine(line))
    ensures AtMost(cap, WrapLine(line)) <==> LineCost(line) <= cap
  {
    hide StyleOf, WrapText, AvailableUnits;
    var b := WrapLine(line);
    assert b[0].gapBefore == line.gapBefore && b[0].style == line.style;
    assert LineCost(b[0]) == LineCost(line);
    assert forall i | 0 <= i < |b| :: b[i].style == line.style && 0.0 <= b[i].gapBefore <= line.gapBefore;
  }

  lemma {:induction false} WrappedCosts(cap: real, lines: seq<PdfLine>)
    requires GapsNonNegative(lines)
    ensures GapsNonNegative(WrapLines(lines))
    ensures AtMost(cap, WrapLines(lines)) <==> AtMost(cap, lines)
  {
    hide LineCost, WrapLine;
    if lines != [] {
      var front, last := lines[..|lines| - 1], lines[|lines| - 1];
      WrappedCosts(cap, front);
      WrapLineCosts(cap, last);
      FitAppend(cap, WrapLines(front), WrapLine(last));
      assert lines == front + [last];
      FitAppend(cap, front, [last]);
      hide GapsNonNegative;
    }
  }

  lemma {:induction false} PageClear(pages: seq<seq<PdfLine>>, p: nat)
    requires p < |pages| && pages[p] != [] && GapsNonNegative(Flatten(pages))
    ensures Clear(pages[p]) <==> Cost(LineCost, pages[p]) <= 708.0
  {
    hide StyleOf, Cost, Baseline, Flatten, Clear;
    GapsOfPage(pages, p);
    BaselinesOnPage(pages[p]);
  }

  lemma {:induction false} GapsOfPage(pages: seq<seq<PdfLine>>, p: nat)
    requires p < |pages| && GapsNonNegative(Flatten(pages))
    ensures GapsNonNegative(pages[p])
  {
    hide Flatten;
    GroupSlice(pages, p + 1);
    assert forall j | 0 <= j < |pages[p]| :: pages[p][j] == Flatten(pages)[End(pages, p) + j];
  }

  // For lines without negative gaps, every line of every page of the export keeps clear of the
  // footer area if and only if no single input line is taller than the page.
  lemma ExportFits(lines: seq<PdfLine>)
    requires lines != [] && GapsNonNegative(lines)
    ensures (forall p | 0 <= p < |Pages(lines)| :: Clear(Pages(lines)[p])) <==> LinesFit(lines)
  {
    hide Cost, WrapLines, LineCost, Flatten, Clear, Paginate, AtMost, GapsNonNegative;
    WrappedCosts(708.0, lines);
    PagesFit(WrapLines(lines));
    PaginateConserves(WrapLines(lines));
    var pages := Paginate(WrapLines(lines));
    forall p | 0 <= p < |pages|
      ensures Clear(pages[p]) <==> Cost(LineCost, pages[p]) <= 708.0
    {
      PageClear(pages, p);
    }
    assert Within(LineCost, 708.0, pages) <==> forall p | 0 <= p < |pages| :: Clear(pages[p]);
    assert pages == Pages(lines);
  }

  // A line with a gap of 800 points is alone on its page and below the lower edge of it.
  lemma TooTall() returns (lines: seq<PdfLine>)
    ensures GapsNonNegative(lines) && !LinesFit(lines)
    ensures Pages(lines) == [lines] && |lines| == 1 && !Clear(lines) && Baseline(lines, 0) < 0.0
  {
    var line := PdfLine([], "body", 0.0, 800.0);
    lines := [line];
    assert lines[..0] == [];
    assert WrapLine(line) == [line];
    assert WrapLines(lines) == [line];
    assert Pack(LineCost, PAGE_CAPACITY, lines[..0]) == [];
  }

  // ---- printed marks ----

  // The marks of a page between the two of its header and its footer.
  function Shown(marks: seq<Mark>): seq<Mark> {
    if |marks| < 3 then [] else marks[2..|marks| - 1]
  }

  // One mark a line, strictly downwards from at most 780.
  ghost predicate Descend(page: seq<PdfLine>, marks: seq<Mark>) {
    && |marks| == |page|
    && (forall i | 0 <= i < |page| :: marks[i].Show? && marks[i].text == page[i].text && marks[i].y <= 780.0)
    && forall i | 0 < i < |page| :: marks[i].y < marks[i - 1].y
  }

  ghost predicate PrintedClear(page: seq<PdfLine>, marks: seq<Mark>) {
    |marks| == |page| && forall i | 0 <= i < |page| :: marks[i].y >= 72.0 + StyleOf(page[i].style).leading
  }

  lemma PrintedAt(page: seq<PdfLine>, i: nat)
    requires i < |page|
    ensures var y := LineMark(page, i).y;
            && Baseline(page, i) - 0.05 <= y <= Baseline(page, i) + 0.05
            && (Baseline(page, i) <= 780.0 ==> y <= 780.0)
            && (Baseline(page, i) >= 72.0 + StyleOf(page[i].style).leading
                ==> y >= 72.0 + StyleOf(page[i].style).leading)
  {
    var b := Baseline(page, i);
    LeadingOnGrid(page[i].style);
    assert Pow10(1) == 10;
    hide Baseline, StyleOf, Near, Pow10;
    NearBounds(b, 10.0);
    NearOrder(b, 780.0, 10.0);
    NearOrder(b, 72.0 + StyleOf(page[i].style).leading, 10.0);
  }

  lemma LeadingOnGrid(style: string)
    ensures OnGrid(72.0 + StyleOf(style).leading, 10.0)
  {
  }

  lemma {:induction false} MarkOfLine(page: seq<PdfLine>, number: nat, total: nat)
    ensures Shown(PageMarks(page, number, total)) == LineMarks(page, |page|)
  {
    hide LineMarks, FooterMark;
  }

  // The baselines printed on a page, rounded to tenths, still go strictly down from at most 780;
  // on a page that costs at most 708 they clear 72 plus the leading, and a page where they do
  // costs at most 708.05.
  lemma {:induction false} MarksOnPage(page: seq<PdfLine>, number: nat, total: nat)
    requires page != [] && GapsNonNegative(page)
    ensures var marks := Shown(PageMarks(page, number, total));
            && Descend(page, marks)
            && (Cost(LineCost, page) <= 708.0 ==> PrintedClear(page, marks))
            && (PrintedClear(page, marks) ==> Cost(LineCost, page) <= 708.05)
  {
    hide StyleOf, Cost, Baseline, PageMarks, Rounded, Shown;
    BaselinesOnPage(page);
    MarkOfLine(page, number, total);
    var marks := LineMarks(page, |page|);
    forall i | 0 <= i < |page|
      ensures marks[i].Show? && marks[i].text == page[i].text
      ensures marks[i].y <= 780.0 && (i > 0 ==> marks[i].y < marks[i - 1].y)
      ensures Clear(page) ==> marks[i].y >= 72.0 + StyleOf(page[i].style).leading
    {
      PrintedAt(page, i);
      if i > 0 {
        PrintedAt(page, i - 1);
        BaselineSteps(page, i - 1);
      }
    }
    var last := |page| - 1;
    PrintedAt(page, last);
    BaselineSteps(page, last);
    assert page[..last + 1] == page;
  }

  ghost predicate AllDescend(pages: seq<seq<PdfLine>>, shown: seq<seq<Mark>>) {
    |shown| == |pages| && forall p | 0 <= p < |pages| :: Descend(pages[p], Shown(shown[p]))
  }

  ghost predicate AllPrintedClear(pages: seq<seq<PdfLine>>, shown: seq<seq<Mark>>) {
    |shown| == |pages| && forall p | 0 <= p < |pages| :: PrintedClear(pages[p], Shown(shown[p]))
  }

  lemma {:induction false} MarksOnPages(pages: seq<seq<PdfLine>>)
    requires GapsNonNegative(Flatten(pages)) && forall p | 0 <= p < |pages| :: pages[p] != []
    ensures var shown := DocumentMarks(pages, |pages|);
            && AllDescend(pages, shown)
            && (Within(LineCost, 708.0, pages) ==> AllPrintedClear(pages, shown))
            && (AllPrintedClear(pages, shown) ==> Within(LineCost, 708.05, pages))
  {
    hide Cost, Flatten, Descend, PrintedClear, PageMarks, Shown;
    forall p | 0 <= p < |pages|
      ensures var marks := Shown(PageMarks(pages[p], p + 1, |pages|));
              && Descend(pages[p], marks)
              && (Cost(LineCost, pages[p]) <= 708.0 ==> PrintedClear(pages[p], marks))
              && (PrintedClear(pages[p], marks) ==> Cost(LineCost, pages[p]) <= 708.05)
    {
      GapsOfPage(pages, p);
      MarksOnPage(pages[p], p + 1, |pages|);
    }
  }

  // What the exported file shows when read back: on every page the lines go strictly down; if no
  // input line is taller than a page every one is printed clear of the footer area, and if every
  // one is, no input line takes more than 708.05 points.
  lemma {:induction false} ShownPlacement(lines: seq<PdfLine>)
    requires lines != [] && PageEncodable(lines) && GapsNonNegative(lines)
    ensures AllEncodable(Pages(lines))
    ensures AllFit(Offsets(Objects(Pages(lines)))) ==>
              var pages, shown := Pages(lines), ReadDocument(File(Objects(Pages(lines)), 1));
              && shown.Some? && AllDescend(pages, shown.value)
              && (LinesFit(lines) ==> AllPrintedClear(pages, shown.value))
              && (AllPrintedClear(pages, shown.value) ==> AtMost(708.05, lines))
  {
    hide AllEncodable, AllFit, Offsets, Objects, File, ReadDocument, DocumentMarks, Paginate, WrapLines, Within,
      AllDescend, AllPrintedClear, AtMost, GapsNonNegative, PageEncodable, Flatten;
    var pages, wrapped := Pages(lines), WrapLines(lines);
    EncodablePages(lines);
    ReadDocumentOf(pages);
    WrappedCosts(708.0, lines);
    WrappedCosts(708.05, lines);
    PaginateConserves(wrapped);
    PagesFit(wrapped);
    MarksOnPages(pages);
    if Within(LineCost, 708.05, pages) {
      WithinLines(pages, 708.05);
    }
  }

  lemma {:induction false} WithinLines(pages: seq<seq<PdfLine>>, cap: real)
    requires GapsNonNegative(Flatten(pages)) && Within(LineCost, cap, pages)
    ensures AtMost(cap, Flatten(pages))
  {
    hide Flatten, LineCost;
    forall i | 0 <= i < |Flatten(pages)| ensures LineCost(Flatten(pages)[i]) <= cap {
      LineOnPage(pages, cap, i);
    }
  }
}
