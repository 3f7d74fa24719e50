// The whole export, from the styled lines to the bytes and back to what a page shows.
module Pipeline {
  import opened Wrappers
  import opened Text
  import opened Utf16
  import opened Numbers
  import opened FileFormat
  import opened Greedy
  import opened Layout
  import opened Content
  import opened Document

  function Pages(lines: seq<PdfLine>): seq<seq<PdfLine>> {
    Paginate(WrapLines(lines))
  }

  method BuildPolishedPdf(lines: seq<PdfLine>) returns (r: Option<string>)
    ensures r.Some? <==> PageEncodable(lines)
    ensures r.Some? ==> AllEncodable(Pages(lines)) && r.value == File(Objects(Pages(lines)), 1)
  {
    EncodablePages(lines);
    hide WrapLines, Paginate, Objects, File;
    var wrapped := WrapPdfLines(lines);
    var pages := PaginatePdfLines(wrapped);
    r := BuildSimplePdf(pages);
  }

  // ---- the export fails exactly on a surrogate in the input ----

  // No text holds a code point from D800 to DFFF.
  lemma EncodableExactly(lines: seq<PdfLine>)
    ensures PageEncodable(lines) <==>
              forall i, k | 0 <= i < |lines| && 0 <= k < |lines[i].text| ::
                lines[i].text[k] < 0xD800 || lines[i].text[k] > 0xDFFF
  {
  }

  ghost predicate SurrogateFree(ink: seq<(CodePoint, string)>) {
    forall i | 0 <= i < |ink| :: !IsSurrogate(ink[i].0)
  }

  lemma EncodableAppend(a: Text, b: Text)
    ensures Encodable(a + b) <==> Encodable(a) && Encodable(b)
  {
    assert forall i | 0 <= i < |a| :: (a + b)[i] == a[i];
    assert forall i | 0 <= i < |b| :: (a + b)[|a| + i] == b[i];
  }

  lemma {:induction false} InkEncodable(t: Text)
    ensures Encodable(Ink(t)) <==> Encodable(t)
  {
    hide Encodable, IsSpace;
    if t != [] {
      var front, last := t[..|t| - 1], t[|t| - 1];
      InkEncodable(front);
      assert t == front + [last];
      EncodableAppend(front, [last]);
      EncodableAppend(Ink(front), if IsSpace(last) then [] else [last]);
      SpacesEncodable(last);
    } else {
      assert Ink(t) == t;
    }
  }

  lemma SpacesEncodable(c: CodePoint)
    ensures Encodable([]) && (IsSpace(c) ==> Encodable([c]))
  {
  }

  lemma SurrogateFreeAppend(a: seq<(CodePoint, string)>, b: seq<(CodePoint, string)>)
    ensures SurrogateFree(a + b) <==> SurrogateFree(a) && SurrogateFree(b)
  {
    assert forall i | 0 <= i < |a| :: (a + b)[i] == a[i];
    assert forall i | 0 <= i < |b| :: (a + b)[|a| + i] == b[i];
  }

  lemma PageEncodableAppend(a: seq<PdfLine>, b: seq<PdfLine>)
    ensures PageEncodable(a + b) <==> PageEncodable(a) && PageEncodable(b)
  {
    assert forall i | 0 <= i < |a| :: (a + b)[i] == a[i];
    assert forall i | 0 <= i < |b| :: (a + b)[|a| + i] == b[i];
  }

  lemma TaggedSurrogates(ink: Text, style: string)
    ensures SurrogateFree(Tagged(ink, style)) <==> Encodable(ink)
  {
    assert forall i | 0 <= i < |ink| :: Tagged(ink, style)[i].0 == ink[i];
  }

  lemma {:induction false} EncodableByInk(lines: seq<PdfLine>)
    ensures PageEncodable(lines) <==> SurrogateFree(StyledInk(lines))
  {
    hide Encodable, SurrogateFree, Ink, Tagged;
    if lines == [] {
      SurrogateFreeNone();
    } else {
      var front, last := lines[..|lines| - 1], lines[|lines| - 1];
      EncodableByInk(front);
      InkEncodable(last.text);
      TaggedSurrogates(Ink(last.text), last.style);
      SurrogateFreeAppend(StyledInk(front), Tagged(Ink(last.text), last.style));
      PageEncodableAppend(front, [last]);
      assert lines == front + [last];
    }
  }

  lemma SurrogateFreeNone()
    ensures SurrogateFree([])
  {
  }

  lemma {:induction false} EncodableFlatten(pages: seq<seq<PdfLine>>)
    ensures AllEncodable(pages) <==> PageEncodable(Flatten(pages))
  {
    hide Encodable;
    if pages != [] {
      var front, last := pages[..|pages| - 1], pages[|pages| - 1];
      EncodableFlatten(front);
      PageEncodableAppend(Flatten(front), last);
      hide PageEncodable;
      assert pages == front + [last];
    }
  }

  lemma EncodablePages(lines: seq<PdfLine>)
    ensures AllEncodable(Pages(lines)) <==> PageEncodable(lines)
  {
    var wrapped := WrapLines(lines);
    if lines == [] {
      assert Pages(lines) == [[BlankLine()]];
    } else {
      hide WrapLines, Paginate, AllEncodable, PageEncodable;
      PaginateConserves(wrapped);
      EncodableFlatten(Pages(lines));
      WrapConserves(lines);
      EncodableByInk(wrapped);
      EncodableByInk(lines);
    }
  }

  // ---- what a reader of the file sees ----

  // A visible character with the size and the colour it is shown in.
  datatype Glyph = Glyph(point: CodePoint, size: real, color: Color)

  function Dress(ink: seq<(CodePoint, string)>): (glyphs: seq<Glyph>)
    ensures |glyphs| == |ink|
  {
    seq(|ink|, i requires 0 <= i < |ink| =>
      Glyph(ink[i].0, StyleOf(ink[i].1).size, StyleOf(ink[i].1).color))
  }

  function MarkGlyphs(m: Mark): seq<Glyph> {
    match m
    case Fill(_, _, _, _, _) => []
    case Show(_, size, color, _, _, text) =>
      var ink := Ink(text);
      seq(|ink|, i requires 0 <= i < |ink| => Glyph(ink[i], size, color))
  }

  function AllGlyphs(marks: seq<Mark>): seq<Glyph> {
    if marks == [] then [] else AllGlyphs(marks[..|marks| - 1]) + MarkGlyphs(marks[|marks| - 1])
  }

  // The glyphs of a document, without the footer that ends every page.
  function DocumentGlyphs(pages: seq<seq<Mark>>): seq<Glyph> {
    if pages == [] then []
    else
      var last := pages[|pages| - 1];
      DocumentGlyphs(pages[..|pages| - 1]) + AllGlyphs(if last == [] then [] else last[..|last| - 1])
  }

  lemma DressConcat(a: seq<(CodePoint, string)>, b: seq<(CodePoint, string)>)
    ensures Dress(a + b) == Dress(a) + Dress(b)
  {
    hide StyleOf;
  }

  lemma {:induction false} GlyphsOfLines(page: seq<PdfLine>, n: nat)
    requires n <= |page|
    ensures AllGlyphs(HEADER_MARKS + LineMarks(page, n)) == Dress(StyledInk(page[..n]))
  {
    hide StyleOf, Baseline, Rounded, Ink;
    if n == 0 {
      assert HEADER_MARKS + LineMarks(page, 0) == HEADER_MARKS;
      assert HEADER_MARKS[..1][..0] == [];
      assert AllGlyphs(HEADER_MARKS[..1]) == [];
      assert page[..0] == [];
    } else {
      GlyphsOfLines(page, n - 1);
      var marks, line := HEADER_MARKS + LineMarks(page, n), page[n - 1];
      assert marks[..|marks| - 1] == HEADER_MARKS + LineMarks(page, n - 1);
      assert page[..n][..n - 1] == page[..n - 1];
      DressConcat(StyledInk(page[..n - 1]), Tagged(Ink(line.text), line.style));
      GlyphsOfMark(page, n - 1);
      hide MarkGlyphs, LineMark, Dress, Tagged;
    }
  }

  lemma GlyphsOfMark(page: seq<PdfLine>, i: nat)
    requires i < |page|
    ensures MarkGlyphs(LineMark(page, i)) == Dress(Tagged(Ink(page[i].text), page[i].style))
  {
    hide StyleOf, Baseline, Rounded, Ink;
  }

  lemma {:induction false} GlyphsOfPages(pages: seq<seq<PdfLine>>, n: nat)
    requires n <= |pages|
    ensures DocumentGlyphs(DocumentMarks(pages, n)) == Dress(StyledInk(Flatten(pages[..n])))
  {
    hide *;
    if n == 0 {
      GlyphsOfNone(pages);
    } else {
      var ink := StyledInk(Flatten(pages[..n - 1]));
      GlyphsOfPages(pages, n - 1);
      GlyphsOfPage(pages[n - 1], n, |pages|);
      NextGlyphs(pages, n);
      FlattenNext(pages, n);
      StyledInkConcat(Flatten(pages[..n - 1]), pages[n - 1]);
      DressConcat(ink, StyledInk(pages[n - 1]));
    }
  }

  lemma GlyphsOfNone(pages: seq<seq<PdfLine>>)
    ensures DocumentGlyphs(DocumentMarks(pages, 0)) == Dress(StyledInk(Flatten(pages[..0])))
  {
    assert pages[..0] == [];
  }

  lemma FlattenNext(pages: seq<seq<PdfLine>>, n: nat)
    requires 0 < n <= |pages|
    ensures Flatten(pages[..n]) == Flatten(pages[..n - 1]) + pages[n - 1]
  {
    assert pages[..n][..n - 1] == pages[..n - 1];
  }

  lemma NextGlyphs(pages: seq<seq<PdfLine>>, n: nat)
    requires 0 < n <= |pages|
    ensures var marks := PageMarks(pages[n - 1], n, |pages|);
            && marks != []
            && DocumentGlyphs(DocumentMarks(pages, n))
               == DocumentGlyphs(DocumentMarks(pages, n - 1)) + AllGlyphs(marks[..|marks| - 1])
  {
    hide AllGlyphs, LineMarks, FooterMark;
    assert DocumentMarks(pages, n)[..n - 1] == DocumentMarks(pages, n - 1);
  }

  lemma GlyphsOfPage(page: seq<PdfLine>, n: nat, total: nat)
    ensures var marks := PageMarks(page, n, total);
            marks != [] && AllGlyphs(marks[..|marks| - 1]) == Dress(StyledInk(page))
  {
    hide AllGlyphs, LineMarks, FooterMark, StyledInk, Dress;
    var marks := PageMarks(page, n, total);
    GlyphsOfLines(page, |page|);
    assert page[..|page|] == page;
    assert marks[..|marks| - 1] == HEADER_MARKS + LineMarks(page, |page|);
  }

  // Main result on the export.  Whenever the file is small enough for its table, reading it back
  // shows, footers aside, the visible characters of the input lines in order, each in the size
  // and the colour of its line, and one page of marks for each page of lines.
  lemma ExportConserves(lines: seq<PdfLine>)
    requires PageEncodable(lines)
    ensures AllEncodable(Pages(lines))
    ensures AllFit(Offsets(Objects(Pages(lines)))) ==>
              var shown := ReadDocument(File(Objects(Pages(lines)), 1));
              && shown.Some? && |shown.value| == |Pages(lines)|
              && DocumentGlyphs(shown.value) == Dress(StyledInk(lines))
  {
    hide WrapLines, Paginate, PageEncodable, AllEncodable, Objects, File, Offsets, AllFit, Dress, DocumentGlyphs,
      StyledInk, Flatten, ReadDocument, DocumentMarks;
    var pages := Pages(lines);
    EncodablePages(lines);
    PagesInk(lines);
    ReadDocumentOf(pages);
    GlyphsOfPages(pages, |pages|);
    assert pages[..|pages|] == pages;
  }

  // Wrapping and pagination keep every visible character with its style, in order.
  lemma PagesInk(lines: seq<PdfLine>)
    ensures StyledInk(Flatten(Pages(lines))) == StyledInk(lines)
  {
    hide StyledInk, Flatten, Pack;
    PaginateConserves(WrapLines(lines));
    WrapConserves(lines);
    BlankPage();
  }

  lemma BlankPage()
    ensures StyledInk(Flatten([[BlankLine()]])) == StyledInk([])
  {
    var page := [BlankLine()];
    var pages := [page];
    assert pages[..0] == [] && page[..0] == [];
    assert Flatten(pages) == page;
    assert Ink(BlankLine().text) == [] by {
      InkOfSpaces(BlankLine().text);
    }
  }
}
