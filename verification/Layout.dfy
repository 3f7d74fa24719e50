// Wrapping and pagination of the styled lines of an itinerary.  Lengths are in points and, like
// the estimated glyph widths, are exact reals.
module Layout {
  import opened Text
  import opened Greedy

  const PAGE_WIDTH := 595.0
  const MARGIN_LEFT := 54.0
  const MARGIN_RIGHT := 54.0
  const MARGIN_TOP := 766.0
  const MARGIN_BOTTOM := 58.0
  const PAGE_CAPACITY := MARGIN_TOP - MARGIN_BOTTOM

  datatype Color = Color(red: real, green: real, blue: real)

  datatype Style = Style(size: real, leading: real, color: Color)

  datatype PdfLine = PdfLine(text: Text, style: string, indent: real, gapBefore: real)

  // The style table; an unknown name means body text.
  function StyleOf(name: string): (s: Style)
    ensures 8.5 <= s.size <= 18.0 && s.size < s.leading
  {
    if name == "title" then Style(18.0, 24.0, Color(0.02, 0.10, 0.18))
    else if name == "subtitle" then Style(10.2, 16.0, Color(0.23, 0.33, 0.42))
    else if name == "section" then Style(13.0, 19.0, Color(0.02, 0.10, 0.18))
    else if name == "day" then Style(13.2, 20.0, Color(0.0, 0.42, 0.45))
    else if name == "activity" then Style(11.4, 17.0, Color(0.03, 0.12, 0.22))
    else if name == "note" then Style(10.0, 16.0, Color(0.31, 0.38, 0.43))
    else if name == "footer" then Style(8.5, 10.0, Color(0.45, 0.50, 0.56))
    else Style(10.4, 16.2, Color(0.09, 0.13, 0.18))
  }

  // ---- wrapping one text ----

  function PdfCharUnits(c: CodePoint): (u: real)
    ensures u == 0.35 || u == 0.58 || u == 1.0
    ensures u == 0.35 <==> IsSpace(c)
    ensures u == 1.0 <==> !IsSpace(c) && c >= 128
  {
    if IsSpace(c) then 0.35 else if c < 128 then 0.58 else 1.0
  }

  function Width(t: Text): real {
    Cost(PdfCharUnits, t)
  }

  function Stripped(pieces: seq<Text>): (chunks: seq<Text>)
    ensures |chunks| == |pieces|
  {
    seq(|pieces|, i requires 0 <= i < |pieces| => Strip(pieces[i]))
  }

  function WrapText(text: Text, maxUnits: real): (chunks: seq<Text>)
    ensures chunks != []
    ensures text == [] ==> chunks == [[]]
  {
    if text == [] then [[]] else Stripped(Pack(PdfCharUnits, maxUnits, text))
  }

  method PdfWrapText(text: Text, maxUnits: real) returns (chunks: seq<Text>)
    ensures chunks == WrapText(text, maxUnits)
  {
    hide Pack, Cost;
    if text == [] {
      return [[]];
    }
    chunks := [];
    var current: Text := [];
    var currentUnits := 0.0;
    ghost var closed: seq<Text> := [];
    PackNext(PdfCharUnits, maxUnits, text, 0, [], []);
    for i := 0 to |text|
      invariant currentUnits == Cost(PdfCharUnits, current)
      invariant chunks == Stripped(closed)
      invariant if i == 0 then current == [] && closed == []
                else current != [] && Pack(PdfCharUnits, maxUnits, text[..i]) == closed + [current]
    {
      var units := PdfCharUnits(text[i]);
      PackNext(PdfCharUnits, maxUnits, text, i, closed, current);
      if current != [] && currentUnits + units > maxUnits {
        chunks := chunks + [Strip(current)];
        closed := closed + [current];
        current := [text[i]];
        currentUnits := units;
        CostOne(PdfCharUnits, text[i]);
      } else {
        current := current + [text[i]];
        currentUnits := currentUnits + units;
      }
    }
    assert text[..|text|] == text;
    chunks := chunks + [Strip(current)];
    assert Stripped(closed + [current]) == Stripped(closed) + [Strip(current)];
  }

  lemma UnitsNonNegative(t: Text)
    ensures NonNegativeOn(PdfCharUnits, t)
  {
  }

  lemma WidthOfStrip(t: Text)
    ensures Width(Strip(t)) <= Width(t)
  {
    var a, b := TrimParts(t, IsSpace);
    UnitsNonNegative(t);
    CostOfSlice(PdfCharUnits, t, 0, a, b, |t|);
    assert t[0..|t|] == t;
  }

  // A chunk is wider than the limit only when it is a single character; with room for one
  // character no chunk is.
  lemma ChunkWidth(text: Text, maxUnits: real, i: nat)
    requires maxUnits >= 1.0 && i < |WrapText(text, maxUnits)|
    ensures Width(WrapText(text, maxUnits)[i]) <= maxUnits
  {
    if text != [] {
      var pieces := Pack(PdfCharUnits, maxUnits, text);
      PackSound(PdfCharUnits, maxUnits, text);
      if |pieces[i]| == 1 {
        CostOne(PdfCharUnits, pieces[i][0]);
        assert pieces[i] == [pieces[i][0]];
      }
      WidthOfStrip(pieces[i]);
    }
  }

  lemma {:induction false} InkOfPieces(pieces: seq<Text>)
    ensures Ink(Concat(Stripped(pieces))) == Ink(Flatten(pieces))
  {
    if pieces != [] {
      var n := |pieces|;
      InkOfPieces(pieces[..n - 1]);
      assert Stripped(pieces)[..n - 1] == Stripped(pieces[..n - 1]);
      InkOfStrip(pieces[n - 1]);
      InkConcat(Concat(Stripped(pieces[..n - 1])), Strip(pieces[n - 1]));
      InkConcat(Flatten(pieces[..n - 1]), pieces[n - 1]);
    }
  }

  // Wrapping keeps every visible character, in order.
  lemma WrapLossless(text: Text, maxUnits: real)
    ensures Ink(Concat(WrapText(text, maxUnits))) == Ink(text)
  {
    if text == [] {
      var blank: seq<Text> := [[]];
      assert blank[..0] == [];
    } else {
      PackSound(PdfCharUnits, maxUnits, text);
      InkOfPieces(Pack(PdfCharUnits, maxUnits, text));
    }
  }

  // No way of cutting a text into consecutive pieces within the limit uses fewer pieces.
  lemma {:induction false} WrapOptimal(text: Text, maxUnits: real, pieces: seq<Text>)
    requires text != [] && Flatten(pieces) == text && Within(PdfCharUnits, maxUnits, pieces)
    ensures |WrapText(text, maxUnits)| <= |pieces|
  {
    UnitsNonNegative(text);
    PackOptimal(PdfCharUnits, maxUnits, text, pieces);
  }

  // ---- wrapping lines ----

  function AvailableUnits(line: PdfLine): (u: real)
    ensures u >= 8.0
  {
    var u := (PAGE_WIDTH - MARGIN_LEFT - MARGIN_RIGHT - line.indent) / StyleOf(line.style).size;
    if u > 8.0 then u else 8.0
  }

  function LineChunk(line: PdfLine, index: nat, chunk: Text): PdfLine {
    PdfLine(chunk, line.style, line.indent + (if index > 0 then 12.0 else 0.0),
            if index == 0 then line.gapBefore else 0.0)
  }

  function ChunkLines(line: PdfLine, chunks: seq<Text>): (wrapped: seq<PdfLine>)
    ensures |wrapped| == |chunks|
  {
    seq(|chunks|, i requires 0 <= i < |chunks| => LineChunk(line, i, chunks[i]))
  }

  function WrapLine(line: PdfLine): seq<PdfLine> {
    ChunkLines(line, WrapText(line.text, AvailableUnits(line)))
  }

  function WrapLines(lines: seq<PdfLine>): (wrapped: seq<PdfLine>)
    ensures lines != [] ==> wrapped != []
  {
    if lines == [] then [] else WrapLines(lines[..|lines| - 1]) + WrapLine(lines[|lines| - 1])
  }

  method WrapPdfLines(lines: seq<PdfLine>) returns (wrapped: seq<PdfLine>)
    ensures wrapped == WrapLines(lines)
  {
    hide AvailableUnits, WrapText, LineChunk, StyleOf;
    wrapped := [];
    for i := 0 to |lines|
      invariant wrapped == WrapLines(lines[..i])
    {
      var line := lines[i];
      assert lines[..i + 1][..i] == lines[..i];
      var chunks := PdfWrapText(line.text, AvailableUnits(line));
      ghost var before := wrapped;
      for index := 0 to |chunks|
        invariant wrapped == before + WrapLine(line)[..index]
      {
        wrapped := wrapped + [LineChunk(line, index, chunks[index])];
      }
      assert WrapLine(line)[..|chunks|] == WrapLine(line);
    }
    assert lines[..|lines|] == lines;
  }

  // The visible characters of some lines, each with the style it is set in.
  function StyledInk(lines: seq<PdfLine>): seq<(CodePoint, string)> {
    if lines == [] then []
    else
      var last := lines[|lines| - 1];
      StyledInk(lines[..|lines| - 1]) + Tagged(Ink(last.text), last.style)
  }

  function Tagged(t: Text, style: string): seq<(CodePoint, string)> {
    seq(|t|, i requires 0 <= i < |t| => (t[i], style))
  }

  function Gap(line: PdfLine): real {
    line.gapBefore
  }

  lemma {:induction false} StyledInkConcat(a: seq<PdfLine>, b: seq<PdfLine>)
    ensures StyledInk(a + b) == StyledInk(a) + StyledInk(b)
  {
    hide Ink, Tagged;
    if b == [] {
      assert a + b == a;
    } else {
      assert (a + b)[..|a| + |b| - 1] == a + b[..|b| - 1];
      StyledInkConcat(a, b[..|b| - 1]);
    }
  }

  lemma {:induction false} ChunksConserve(line: PdfLine, chunks: seq<Text>)
    ensures StyledInk(ChunkLines(line, chunks)) == Tagged(Ink(Concat(chunks)), line.style)
    ensures Cost(Gap, ChunkLines(line, chunks)) == if chunks == [] then 0.0 else line.gapBefore
  {
    if chunks != [] {
      var front, last := chunks[..|chunks| - 1], chunks[|chunks| - 1];
      ChunksConserve(line, front);
      assert ChunkLines(line, chunks)[..|front|] == ChunkLines(line, front);
      InkConcat(Concat(front), last);
      TaggedConcat(Ink(Concat(front)), Ink(last), line.style);
      hide Ink, Tagged;
    }
  }

  lemma TaggedConcat(a: Text, b: Text, style: string)
    ensures Tagged(a + b, style) == Tagged(a, style) + Tagged(b, style)
  {
  }

  // Wrapping keeps every visible character with its style, and the total of the gaps.
  lemma {:induction false} WrapConserves(lines: seq<PdfLine>)
    ensures StyledInk(WrapLines(lines)) == StyledInk(lines)
    ensures Cost(Gap, WrapLines(lines)) == Cost(Gap, lines)
  {
    if lines != [] {
      var front, line := lines[..|lines| - 1], lines[|lines| - 1];
      var chunks := WrapText(line.text, AvailableUnits(line));
      WrapConserves(front);
      ChunksConserve(line, chunks);
      WrapLossless(line.text, AvailableUnits(line));
      StyledInkConcat(WrapLines(front), WrapLine(line));
      CostConcat(Gap, WrapLines(front), WrapLine(line));
    }
  }

  // ---- pagination ----

  function LineCost(line: PdfLine): real {
    StyleOf(line.style).leading + line.gapBefore
  }

  // The cursor below the lines of a page, as the paginator moves it.
  function PaginatorCursor(page: seq<PdfLine>): real {
    if page == [] then MARGIN_TOP
    else
      var last := page[|page| - 1];
      PaginatorCursor(page[..|page| - 1]) - (StyleOf(last.style).leading + last.gapBefore)
  }

  lemma {:induction false} CursorOfCost(page: seq<PdfLine>)
    ensures PaginatorCursor(page) == 766.0 - Cost(LineCost, page)
  {
    hide StyleOf;
    if page != [] {
      CursorOfCost(page[..|page| - 1]);
    }
  }

  lemma CursorNext(page: seq<PdfLine>, line: PdfLine)
    ensures PaginatorCursor([]) == MARGIN_TOP
    ensures PaginatorCursor(page + [line])
            == PaginatorCursor(page) - (StyleOf(line.style).leading + line.gapBefore)
  {
    assert (page + [line])[..|page|] == page;
  }

  function BlankLine(): PdfLine {
    PdfLine(Points(" "), "body", 0.0, 0.0)
  }

  function Paginate(lines: seq<PdfLine>): (pages: seq<seq<PdfLine>>)
    ensures pages != []
    ensures lines == [] ==> pages == [[PdfLine([0x20], "body", 0.0, 0.0)]]
  {
    if lines == [] then
      assert BlankLine().text == [0x20];
      [[BlankLine()]]
    else
      Pack(LineCost, PAGE_CAPACITY, lines)
  }

  method PaginatePdfLines(lines: seq<PdfLine>) returns (pages: seq<seq<PdfLine>>)
    ensures pages == Paginate(lines)
  {
    hide StyleOf, Pack, Cost, PaginatorCursor;
    pages := [];
    var currentPage: seq<PdfLine> := [];
    var cursorY := MARGIN_TOP;
    CursorNext([], BlankLine());
    if lines != [] {
      PackNext(LineCost, PAGE_CAPACITY, lines, 0, [], []);
    }
    for i := 0 to |lines|
      invariant cursorY == PaginatorCursor(currentPage)
      invariant if i == 0 then currentPage == [] && pages == []
                else currentPage != [] && Pack(LineCost, PAGE_CAPACITY, lines[..i]) == pages + [currentPage]
    {
      var line := lines[i];
      var required := StyleOf(line.style).leading + line.gapBefore;
      PackNext(LineCost, PAGE_CAPACITY, lines, i, pages, currentPage);
      CursorOfCost(currentPage);
      if currentPage != [] && cursorY - required < MARGIN_BOTTOM {
        pages := pages + [currentPage];
        currentPage := [];
        cursorY := MARGIN_TOP;
        assert [] + [line] == [line];
      }
      CursorNext(currentPage, line);
      currentPage := currentPage + [line];
      cursorY := cursorY - required;
    }
    assert lines[..|lines|] == lines;
    pages := pages + [if currentPage == [] then [BlankLine()] else currentPage];
  }

  // Pages hold all the lines in order, and none is empty.
  lemma PaginateConserves(lines: seq<PdfLine>)
    ensures lines != [] ==> Flatten(Paginate(lines)) == lines
    ensures forall i | 0 <= i < |Paginate(lines)| :: Paginate(lines)[i] != []
  {
    PackSound(LineCost, PAGE_CAPACITY, lines);
  }

  ghost predicate GapsNonNegative(lines: seq<PdfLine>) {
    forall i | 0 <= i < |lines| :: lines[i].gapBefore >= 0.0
  }

  ghost predicate AtMost(cap: real, lines: seq<PdfLine>) {
    forall i | 0 <= i < |lines| :: LineCost(lines[i]) <= cap
  }

  ghost predicate LinesFit(lines: seq<PdfLine>) {
    AtMost(708.0, lines)
  }

  // No partition of the lines into pages within the capacity has fewer pages.
  lemma {:induction false} PaginateOptimal(lines: seq<PdfLine>, pages: seq<seq<PdfLine>>)
    requires lines != [] && GapsNonNegative(lines)
    requires Flatten(pages) == lines && Within(LineCost, 708.0, pages)
    ensures |Paginate(lines)| <= |pages|
  {
    PackOptimal(LineCost, PAGE_CAPACITY, lines, pages);
  }

  // Every page fits exactly when every line does.
  lemma PagesFit(lines: seq<PdfLine>)
    requires lines != [] && GapsNonNegative(lines)
    ensures Within(LineCost, 708.0, Paginate(lines)) <==> LinesFit(lines)
  {
    var pages := Paginate(lines);
    PackSound(LineCost, PAGE_CAPACITY, lines);
    hide StyleOf, Pack, Flatten;
    if LinesFit(lines) {
      forall i | 0 <= i < |pages| ensures Cost(LineCost, pages[i]) <= 708.0 {
        if |pages[i]| == 1 {
          GroupSlice(pages, i + 1);
          assert pages[i] == [pages[i][0]] && pages[i][0] in lines;
          CostOne(LineCost, pages[i][0]);
        }
      }
    }
    if Within(LineCost, 708.0, pages) {
      forall i | 0 <= i < |lines| ensures LineCost(lines[i]) <= 708.0 {
        LineOnPage(pages, 708.0, i);
      }
    }
  }

  lemma {:induction false} LineOnPage(pages: seq<seq<PdfLine>>, cap: real, i: nat)
    requires i < |Flatten(pages)| && GapsNonNegative(Flatten(pages)) && Within(LineCost, cap, pages)
    ensures LineCost(Flatten(pages)[i]) <= cap
  {
    var n := |pages|;
    var front := Flatten(pages[..n - 1]);
    assert Flatten(pages) == front + pages[n - 1];
    if i < |front| {
      assert forall k | 0 <= k < |front| :: front[k] == Flatten(pages)[k];
      LineOnPage(pages[..n - 1], cap, i);
    } else {
      hide Cost, StyleOf;
      var page, k := pages[n - 1], i - |front|;
      assert forall j | 0 <= j < |page| :: page[j] == Flatten(pages)[|front| + j];
      CostOfSlice(LineCost, page, 0, k, k + 1, |page|);
      assert page[k..k + 1] == [page[k]] && page[0..|page|] == page;
      CostOne(LineCost, page[k]);
    }
  }

  // Neighbouring pages together cost more than one page holds, so the number of pages is within a
  // factor of two of the total cost over the capacity.
  lemma PageCount(lines: seq<PdfLine>)
    requires lines != [] && GapsNonNegative(lines)
    ensures var n := |Paginate(lines)|;
            && (n >= 2 ==> (n / 2) as real * 708.0 < Cost(LineCost, lines))
            && (LinesFit(lines) ==> Cost(LineCost, lines) <= n as real * 708.0)
    ensures var pages := Paginate(lines);
            forall i | 0 < i < |pages| :: Cost(LineCost, pages[i - 1]) + Cost(LineCost, pages[i]) > 708.0
  {
    hide StyleOf, Pack, Cost, Flatten;
    var pages := Paginate(lines);
    PackSound(LineCost, PAGE_CAPACITY, lines);
    PagesFit(lines);
    PairsCost(pages, |pages| / 2);
    PrefixCost(pages, 2 * (|pages| / 2));
    PagesCost(pages, |pages|);
    assert pages[..|pages|] == pages;
    forall i | 0 < i < |pages| ensures Cost(LineCost, pages[i - 1]) + Cost(LineCost, pages[i]) > 708.0 {
      FullPair(pages, i + 1);
    }
  }

  lemma {:induction false} PrefixCost(pages: seq<seq<PdfLine>>, n: nat)
    requires n <= |pages| && GapsNonNegative(Flatten(pages))
    ensures Cost(LineCost, Flatten(pages[..n])) <= Cost(LineCost, Flatten(pages))
  {
    hide Cost, Flatten;
    var lines, front := Flatten(pages), Flatten(pages[..n]);
    assert pages == pages[..n] + pages[n..];
    FlattenConcat(pages[..n], pages[n..]);
    assert front == lines[0..|front|] && lines[0..|lines|] == lines;
    CostOfSlice(LineCost, lines, 0, 0, |front|, |lines|);
  }

  lemma {:induction false} PagesCost(pages: seq<seq<PdfLine>>, n: nat)
    requires n <= |pages|
    ensures Within(LineCost, 708.0, pages) ==> Cost(LineCost, Flatten(pages[..n])) <= n as real * 708.0
  {
    hide LineCost;
    if n > 0 {
      PagesCost(pages, n - 1);
      assert pages[..n][..n - 1] == pages[..n - 1];
      CostConcat(LineCost, Flatten(pages[..n - 1]), pages[n - 1]);
    }
  }

  lemma {:induction false} PairsCost(pages: seq<seq<PdfLine>>, k: nat)
    requires 2 * k <= |pages| && Tight(LineCost, 708.0, pages) && GapsNonNegative(Flatten(pages))
    ensures Cost(LineCost, Flatten(pages[..2 * k])) >= k as real * 708.0
    ensures k > 0 ==> Cost(LineCost, Flatten(pages[..2 * k])) > k as real * 708.0
  {
    hide Cost, Flatten, Tight, GapsNonNegative;
    if k == 0 {
      assert pages[..0] == [];
      NoCost();
    } else {
      PairsCost(pages, k - 1);
      TwoMore(pages, 2 * k);
      FullPair(pages, 2 * k);
    }
  }

  lemma NoCost()
    ensures Cost(LineCost, Flatten([])) == 0.0
  {
  }

  lemma {:induction false} FullPair(pages: seq<seq<PdfLine>>, n: nat)
    requires 2 <= n <= |pages| && Tight(LineCost, 708.0, pages) && GapsNonNegative(Flatten(pages))
    ensures Cost(LineCost, pages[n - 2]) + Cost(LineCost, pages[n - 1]) > 708.0
  {
    hide StyleOf, Cost, Flatten;
    GroupSlice(pages, n);
    var page := pages[n - 1];
    assert forall j | 0 <= j < |page| :: page[j] == Flatten(pages)[End(pages, n - 1) + j];
    Neighbours(LineCost, 708.0, pages, n - 1);
  }

  lemma TwoMore(pages: seq<seq<PdfLine>>, n: nat)
    requires 2 <= n <= |pages|
    ensures Cost(LineCost, Flatten(pages[..n]))
         == Cost(LineCost, Flatten(pages[..n - 2])) + Cost(LineCost, pages[n - 2]) + Cost(LineCost, pages[n - 1])
  {
    hide Cost;
    assert pages[..n][..n - 1] == pages[..n - 1] && pages[..n - 1][..n - 2] == pages[..n - 2];
    CostConcat(LineCost, Flatten(pages[..n - 2]), pages[n - 2]);
    CostConcat(LineCost, Flatten(pages[..n - 1]), pages[n - 1]);
  }
}
