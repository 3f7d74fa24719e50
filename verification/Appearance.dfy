// What a reader sees of the page furniture and of the style table, in the program's own literals.
module Appearance {
  import opened Wrappers
  import opened Text
  import opened Numbers
  import opened Syntax
  import opened Printing
  import FileFormat
  import opened Greedy
  import opened Layout
  import opened Wrapping
  import opened Content
  import opened Document
  import opened Placement
  import opened Pipeline

  // ---- footers ----

  lemma FooterOf(page: seq<PdfLine>, number: nat, total: nat)
    ensures var marks := PageMarks(page, number, total);
            && |marks| == |page| + 3
            && marks[|page| + 2] == Show("/F1", 8.5, Color(0.45, 0.50, 0.56), 54.0, 34.0,
                                         Points("HuaXia TourismRAG · Page " + Dec(number) + "/" + Dec(total)))
  {
    hide LineMarks, Dec;
  }

  // The marks of one page of a file that is read back.
  function PageShown(pages: seq<seq<PdfLine>>, i: nat): (marks: Option<seq<Mark>>)
    requires AllEncodable(pages)
  {
    var shown :- ReadDocument(FileFormat.File(Objects(pages), 1));
    if i < |shown| then Some(shown[i]) else None
  }

  lemma PageShownOf(pages: seq<seq<PdfLine>>, i: nat)
    requires AllEncodable(pages) && FileFormat.AllFit(FileFormat.Offsets(Objects(pages))) && i < |pages|
    ensures PageShown(pages, i) == Some(PageMarks(pages[i], i + 1, |pages|))
  {
    hide Objects, PageMarks, ReadDocument, FileFormat.File, FileFormat.AllFit, FileFormat.Offsets;
    ReadDocumentOf(pages);
  }

  // The last mark of every page names the program and counts the pages: its first numeral reads as the
  // number of the page, from 1, and its second as the number of pages.
  lemma FooterReads(pages: seq<seq<PdfLine>>, i: nat) returns (page: string, total: string)
    requires AllEncodable(pages) && FileFormat.AllFit(FileFormat.Offsets(Objects(pages))) && i < |pages|
    ensures PageShown(pages, i).Some? && PageShown(pages, i).value != []
    ensures var marks := PageShown(pages, i).value;
            marks[|marks| - 1] == Show("/F1", 8.5, Color(0.45, 0.50, 0.56), 54.0, 34.0,
                                       Points("HuaXia TourismRAG · Page " + page + "/" + total))
    ensures AllDigits(page) && AllDigits(total) && Value(page) == i + 1 && Value(total) == |pages|
  {
    hide Objects, PageMarks, PageShown, FileFormat.AllFit, FileFormat.Offsets, Dec;
    page, total := Dec(i + 1), Dec(|pages|);
    PageShownOf(pages, i);
    FooterOf(pages[i], i + 1, |pages|);
    ValueDec(i + 1);
    ValueDec(|pages|);
  }

  // The first two are the band behind the title and the rule under it.
  lemma HeaderReads(pages: seq<seq<PdfLine>>, i: nat)
    requires AllEncodable(pages) && FileFormat.AllFit(FileFormat.Offsets(Objects(pages))) && i < |pages|
    ensures PageShown(pages, i).Some? && |PageShown(pages, i).value| == |pages[i]| + 3
    ensures PageShown(pages, i).value[0] == Fill(44.0, 760.0, 507.0, 46.0, Color(0.94, 0.98, 0.98))
    ensures PageShown(pages, i).value[1] == Fill(44.0, 758.0, 507.0, 2.0, Color(0.0, 0.70, 0.72))
  {
    hide Objects, PageShown, FileFormat.AllFit, FileFormat.Offsets, LineMarks, Footer;
    PageShownOf(pages, i);
  }

  // ---- styles ----

  // Size, leading and colour by name.
  const SHEET := map[
    "title" := (18.0, 24.0, Color(0.02, 0.10, 0.18)),
    "subtitle" := (10.2, 16.0, Color(0.23, 0.33, 0.42)),
    "section" := (13.0, 19.0, Color(0.02, 0.10, 0.18)),
    "day" := (13.2, 20.0, Color(0.0, 0.42, 0.45)),
    "activity" := (11.4, 17.0, Color(0.03, 0.12, 0.22)),
    "note" := (10.0, 16.0, Color(0.31, 0.38, 0.43)),
    "body" := (10.4, 16.2, Color(0.09, 0.13, 0.18)),
    "footer" := (8.5, 10.0, Color(0.45, 0.50, 0.56))
  ]

  function Look(name: string): (real, real, Color) {
    if name in SHEET then SHEET[name] else (10.4, 16.2, Color(0.09, 0.13, 0.18))
  }

  lemma LookOf(name: string)
    ensures Look(name) == (StyleOf(name).size, StyleOf(name).leading, StyleOf(name).color)
  {
  }

  lemma PrintedX(page: seq<PdfLine>, k: nat)
    requires k < |page|
    ensures -0.05 <= LineMark(page, k).x - 54.0 - page[k].indent <= 0.05
  {
    assert Pow10(1) == 10;
    hide Near, Pow10, StyleOf, Baseline;
    NearBounds(54.0 + page[k].indent, 10.0);
  }

  // Every line is shown at its indent from the left margin, in the size and the colour its style has
  // in the table, or the body's when the table has none, and the next one, as printed, below it by its
  // leading and the next one's gap.
  lemma StyleShown(pages: seq<seq<PdfLine>>, i: nat, k: nat)
    requires AllEncodable(pages) && FileFormat.AllFit(FileFormat.Offsets(Objects(pages)))
    requires i < |pages| && k < |pages[i]|
    ensures PageShown(pages, i).Some?
    ensures var marks, look := Shown(PageShown(pages, i).value), Look(pages[i][k].style);
            && |marks| == |pages[i]| && marks[k].Show? && marks[k].text == pages[i][k].text
            && marks[k].font == "/F1" && marks[k].size == look.0 && marks[k].color == look.2
            && -0.05 <= marks[k].x - 54.0 - pages[i][k].indent <= 0.05
            && (k + 1 < |marks| ==>
                  -0.1 <= marks[k].y - marks[k + 1].y - look.1 - pages[i][k + 1].gapBefore <= 0.1)
  {
    hide Objects, PageMarks, PageShown, Shown, FileFormat.AllFit, FileFormat.Offsets, StyleOf, Look, Baseline, Rounded;
    PageShownOf(pages, i);
    MarkOfLine(pages[i], i + 1, |pages|);
    LookOf(pages[i][k].style);
    PrintedX(pages[i], k);
    PrintedAt(pages[i], k);
    if k + 1 < |pages[i]| {
      PrintedAt(pages[i], k + 1);
      BaselineSteps(pages[i], k);
    }
  }
  // ---- page size and font ----

  lemma FontLooks()
    ensures Lookup(DictOf(FONT_PAIRS), "/BaseFont") == Some(Name("/STSong-Light"))
    ensures Lookup(DictOf(DESCENDANT_PAIRS), "/BaseFont") == Some(Name("/STSong-Light"))
    ensures Lookup(DictOf(DESCENDANT_PAIRS), "/CIDSystemInfo")
         == Some(DictOf([("/Registry", Literal("(Adobe)")), ("/Ordering", Literal("(GB1)")),
                         ("/Supplement", Number(2.0))]))
    ensures Lookup(DictOf(DESCRIPTOR_PAIRS), "/FontName") == Some(Name("/STSong-Light"))
  {
    hide Lookup, DictOf;
    LookupPairs(FONT_PAIRS, 2);
    LookupPairs(DESCENDANT_PAIRS, 2);
    LookupPairs(DESCENDANT_PAIRS, 3);
    LookupPairs(DESCRIPTOR_PAIRS, 1);
  }

  lemma DescriptorLooks()
    ensures Lookup(DictOf(DESCRIPTOR_PAIRS), "/Flags") == Some(Number(4.0))
    ensures Lookup(DictOf(DESCRIPTOR_PAIRS), "/FontBBox")
         == Some(Array([Number(0.0), Number(-120.0), Number(1000.0), Number(880.0)]))
    ensures Lookup(DictOf(DESCRIPTOR_PAIRS), "/Ascent") == Some(Number(880.0))
    ensures Lookup(DictOf(DESCRIPTOR_PAIRS), "/Descent") == Some(Number(-120.0))
    ensures Lookup(DictOf(DESCRIPTOR_PAIRS), "/CapHeight") == Some(Number(700.0))
    ensures Lookup(DictOf(DESCRIPTOR_PAIRS), "/StemV") == Some(Number(80.0))
  {
    hide Lookup, DictOf;
    LookupPairs(DESCRIPTOR_PAIRS, 2);
    LookupPairs(DESCRIPTOR_PAIRS, 3);
    LookupPairs(DESCRIPTOR_PAIRS, 4);
    LookupPairs(DESCRIPTOR_PAIRS, 5);
    LookupPairs(DESCRIPTOR_PAIRS, 6);
    LookupPairs(DESCRIPTOR_PAIRS, 7);
  }

  lemma BoxOfPage(p: nat, f: nat, c: nat)
    ensures Lookup(DictOf(PagePairs(p, f, c)), "/MediaBox")
         == Some(Array([Number(0.0), Number(0.0), Number(595.0), Number(842.0)]))
  {
    hide Lookup, DictOf;
    LookupPairs(PagePairs(p, f, c), 2);
  }

  // The value of a key of an object of the file.
  function Entry(objects: seq<string>, id: nat, kind: string, key: string): Option<Object> {
    var o :- TypedObject(objects, id, kind);
    Lookup(o, key)
  }

  // Every page measures 595 by 842 points, and the one font is a Chinese composite font with the
  // metrics of its descriptor.
  lemma PageAndFont(pages: seq<seq<PdfLine>>, i: nat)
    requires AllEncodable(pages) && i < |pages|
    ensures var objects := Objects(pages);
            && Entry(objects, 7 + 2 * i, "/Page", "/MediaBox")
               == Some(Array([Number(0.0), Number(0.0), Number(595.0), Number(842.0)]))
            && Entry(objects, 3, "/Font", "/BaseFont") == Some(Name("/STSong-Light"))
            && Entry(objects, 4, "/Font", "/BaseFont") == Some(Name("/STSong-Light"))
            && Entry(objects, 5, "/FontDescriptor", "/FontName") == Some(Name("/STSong-Light"))
            && Entry(objects, 5, "/FontDescriptor", "/FontBBox")
               == Some(Array([Number(0.0), Number(-120.0), Number(1000.0), Number(880.0)]))
            && Entry(objects, 4, "/Font", "/CIDSystemInfo")
               == Some(DictOf([("/Registry", Literal("(Adobe)")), ("/Ordering", Literal("(GB1)")),
                               ("/Supplement", Number(2.0))]))
            && Entry(objects, 5, "/FontDescriptor", "/Flags") == Some(Number(4.0))
            && Entry(objects, 5, "/FontDescriptor", "/Ascent") == Some(Number(880.0))
            && Entry(objects, 5, "/FontDescriptor", "/Descent") == Some(Number(-120.0))
            && Entry(objects, 5, "/FontDescriptor", "/CapHeight") == Some(Number(700.0))
            && Entry(objects, 5, "/FontDescriptor", "/StemV") == Some(Number(80.0))
  {
    hide *;
    var objects := Objects(pages);
    ObjectGraph(pages, i);
    FontObjects(pages);
    BoxOfPage(2, 3, 6 + 2 * i);
    FontLooks();
    DescriptorLooks();
    EntryOf(objects, 7 + 2 * i, "/Page", DictOf(PagePairs(2, 3, 6 + 2 * i)), "/MediaBox");
    EntryOf(objects, 3, "/Font", DictOf(FONT_PAIRS), "/BaseFont");
    EntryOf(objects, 4, "/Font", DictOf(DESCENDANT_PAIRS), "/BaseFont");
    EntryOf(objects, 4, "/Font", DictOf(DESCENDANT_PAIRS), "/CIDSystemInfo");
    forall key ensures Entry(objects, 5, "/FontDescriptor", key) == Lookup(DictOf(DESCRIPTOR_PAIRS), key) {
      EntryOf(objects, 5, "/FontDescriptor", DictOf(DESCRIPTOR_PAIRS), key);
    }
  }

  lemma EntryOf(objects: seq<string>, id: nat, kind: string, o: Object, key: string)
    requires TypedObject(objects, id, kind) == Some(o)
    ensures Entry(objects, id, kind, key) == Lookup(o, key)
  {
    hide TypedObject, Lookup;
  }

  // Objects 3 to 5 read as the font, its descendant and its descriptor.
  lemma FontObjects(pages: seq<seq<PdfLine>>)
    requires AllEncodable(pages)
    ensures var objects := Objects(pages);
            && TypedObject(objects, 3, "/Font") == Some(DictOf(FONT_PAIRS))
            && TypedObject(objects, 4, "/Font") == Some(DictOf(DESCENDANT_PAIRS))
            && TypedObject(objects, 5, "/FontDescriptor") == Some(DictOf(DESCRIPTOR_PAIRS))
  {
    hide *;
    ReadFont();
    ReadDescendant();
    ReadDescriptor();
    FontLookups();
    DescendantLookups();
    var objects := Objects(pages);
    ObjectAtIndex(pages);
    FixedAtIndex(objects, DictText(PagesParts(PageIds(|pages|))));
    TypedOf(objects, 3, "/Font", DictOf(FONT_PAIRS));
    TypedOf(objects, 4, "/Font", DictOf(DESCENDANT_PAIRS));
    TypedOf(objects, 5, "/FontDescriptor", DictOf(DESCRIPTOR_PAIRS));
  }
  // ---- the right margin of the export ----

  // Eight units fit beside the indent of every line.
  ghost predicate RoomForEight(lines: seq<PdfLine>) {
    forall i | 0 <= i < |lines| :: 8.0 * StyleOf(lines[i].style).size <= 487.0 - lines[i].indent
  }

  ghost predicate EndsBy(lines: seq<PdfLine>, edge: real) {
    forall i | 0 <= i < |lines| :: RightEdge(lines[i]) <= edge
  }

  lemma {:induction false} WrappedEdges(lines: seq<PdfLine>)
    requires RoomForEight(lines)
    ensures EndsBy(WrapLines(lines), 553.0)
  {
    hide StyleOf, RightEdge, WrapLine;
    if lines != [] {
      var front, last := lines[..|lines| - 1], lines[|lines| - 1];
      assert forall i | 0 <= i < |front| :: front[i] == lines[i];
      WrappedEdges(front);
      forall i | 0 <= i < |WrapLine(last)| ensures RightEdge(WrapLine(last)[i]) <= 553.0 {
        RightEdgeBound(last, i);
      }
    }
  }

  lemma {:induction false} PageEdges(pages: seq<seq<PdfLine>>, p: nat, edge: real)
    requires p < |pages| && EndsBy(Flatten(pages), edge)
    ensures EndsBy(pages[p], edge)
  {
    hide Flatten, RightEdge;
    GroupSlice(pages, p + 1);
    assert forall j | 0 <= j < |pages[p]| :: pages[p][j] == Flatten(pages)[End(pages, p) + j];
  }

  // In the exported file no line that is read back ends, by its estimated width, further right than 553,
  // give or take the rounding of its place.
  lemma {:induction false} ShownEdges(lines: seq<PdfLine>, p: nat, k: nat)
    requires lines != [] && PageEncodable(lines) && RoomForEight(lines)
    requires AllEncodable(Pages(lines)) && FileFormat.AllFit(FileFormat.Offsets(Objects(Pages(lines))))
    requires p < |Pages(lines)| && k < |Pages(lines)[p]|
    ensures PageShown(Pages(lines), p).Some?
    ensures var marks := Shown(PageShown(Pages(lines), p).value);
            k < |marks| && marks[k].Show? && marks[k].x + Width(marks[k].text) * marks[k].size <= 553.05
  {
    hide WrapLines, Paginate, Objects, PageShown, PageEncodable, AllEncodable, PageMarks, Shown, FileFormat.AllFit,
      FileFormat.Offsets, StyleOf, Baseline, Rounded, EndsBy, RoomForEight, Flatten, Width;
    var pages := Pages(lines);
    WrappedEdges(lines);
    PaginateConserves(WrapLines(lines));
    PageEdges(pages, p, 553.0);
    PageShownOf(pages, p);
    MarkOfLine(pages[p], p + 1, |pages|);
    PrintedX(pages[p], k);
    LineEnds(pages[p], k);
  }

  lemma LineEnds(page: seq<PdfLine>, k: nat)
    requires k < |page| && EndsBy(page, 553.0)
    ensures 54.0 + page[k].indent + Width(page[k].text) * StyleOf(page[k].style).size <= 553.0
  {
    hide Width, StyleOf;
    assert RightEdge(page[k]) <= 553.0;
  }
}
