// How long an exported file can get: a bound from the size of the input under which every offset
// fits in the table, so that the results on reading the file back need no condition on the output.
module FileSize {
  import opened Text
  import opened Numbers
  import opened Utf16
  import opened Printing
  import FileFormat
  import opened Greedy
  import opened Layout
  import opened Content
  import opened Document
  import opened Placement
  import opened Pipeline

  // ---- how many lines and pages there are ----

  // The characters of some lines, with one more for each line.
  function Load(lines: seq<PdfLine>): nat {
    if lines == [] then 0 else Load(lines[..|lines| - 1]) + |lines[|lines| - 1].text| + 1
  }

  function Letters(lines: seq<PdfLine>): nat {
    if lines == [] then 0 else Letters(lines[..|lines| - 1]) + |lines[|lines| - 1].text|
  }

  lemma {:induction false} LettersConcat(a: seq<PdfLine>, b: seq<PdfLine>)
    ensures Letters(a + b) == Letters(a) + Letters(b)
  {
    if b == [] {
      assert a + b == a;
    } else {
      assert (a + b)[..|a| + |b| - 1] == a + b[..|b| - 1];
      LettersConcat(a, b[..|b| - 1]);
    }
  }

  lemma {:induction false} FlattenLength<T>(groups: seq<seq<T>>)
    requires forall i | 0 <= i < |groups| :: groups[i] != []
    ensures |groups| <= |Flatten(groups)|
  {
    if groups != [] {
      FlattenLength(groups[..|groups| - 1]);
    }
  }

  lemma {:induction false} ChunkLetters(line: PdfLine, pieces: seq<Text>)
    ensures Letters(ChunkLines(line, Stripped(pieces))) <= |Flatten(pieces)|
  {
    if pieces != [] {
      var n := |pieces|;
      ChunkLetters(line, pieces[..n - 1]);
      var _, _ := TrimParts(pieces[n - 1], IsSpace);
      assert Stripped(pieces)[..n - 1] == Stripped(pieces[..n - 1]);
      assert ChunkLines(line, Stripped(pieces))[..n - 1] == ChunkLines(line, Stripped(pieces[..n - 1]));
    }
  }

  lemma WrapLineSize(line: PdfLine)
    ensures |WrapLine(line)| <= |line.text| + 1
    ensures Letters(WrapLine(line)) <= |line.text|
  {
    var units := AvailableUnits(line);
    hide AvailableUnits;
    if line.text == [] {
      assert WrapLine(line)[..0] == [];
    } else {
      var pieces := Pack(PdfCharUnits, units, line.text);
      PackSound(PdfCharUnits, units, line.text);
      FlattenLength(pieces);
      ChunkLetters(line, pieces);
    }
  }

  lemma {:induction false} WrapSize(lines: seq<PdfLine>)
    ensures |WrapLines(lines)| <= Load(lines)
    ensures Letters(WrapLines(lines)) <= Load(lines)
  {
    if lines != [] {
      var front, last := lines[..|lines| - 1], lines[|lines| - 1];
      WrapSize(front);
      WrapLineSize(last);
      LettersConcat(WrapLines(front), WrapLine(last));
    }
  }

  // ---- lengths of what is written ----

  function Total(parts: seq<string>): nat {
    if parts == [] then 0 else Total(parts[..|parts| - 1]) + |parts[|parts| - 1]|
  }

  lemma {:induction false} TotalConcat(a: seq<string>, b: seq<string>)
    ensures Total(a + b) == Total(a) + Total(b)
  {
    if b == [] {
      assert a + b == a;
    } else {
      assert (a + b)[..|a| + |b| - 1] == a + b[..|b| - 1];
      TotalConcat(a, b[..|b| - 1]);
    }
  }

  lemma TotalOne(p: string)
    ensures Total([p]) == |p|
  {
    assert [p][..0] == [];
    assert Total([p][..0]) == 0;
  }

  lemma {:induction false} TotalSix(parts: seq<string>)
    requires |parts| <= 6
    ensures |parts| == 2 ==> Total(parts) == |parts[0]| + |parts[1]|
    ensures |parts| == 3 ==> Total(parts) == |parts[0]| + |parts[1]| + |parts[2]|
    ensures |parts| == 4 ==> Total(parts) == |parts[0]| + |parts[1]| + |parts[2]| + |parts[3]|
    ensures |parts| == 5 ==> Total(parts) == |parts[0]| + |parts[1]| + |parts[2]| + |parts[3]| + |parts[4]|
    ensures |parts| == 6 ==>
              Total(parts) == |parts[0]| + |parts[1]| + |parts[2]| + |parts[3]| + |parts[4]| + |parts[5]|
  {
    if |parts| == 1 {
      TotalOne(parts[0]);
    } else if |parts| > 1 {
      TotalSix(parts[..|parts| - 1]);
      if |parts| == 2 {
        assert parts[..1] == [parts[0]];
        TotalOne(parts[0]);
      }
    }
  }

  lemma {:induction false} JoinLength(sep: string, parts: seq<string>)
    requires |sep| == 1
    ensures |Join(sep, parts)| <= Total(parts) + |parts|
  {
    if |parts| == 1 {
      TotalOne(parts[0]);
    } else if |parts| > 1 {
      JoinLength(sep, parts[..|parts| - 1]);
    }
  }

  lemma DictLength(parts: seq<string>)
    ensures |DictText(parts)| <= Total(parts) + |parts| + 6
  {
    JoinLength(" ", parts);
  }

  lemma DecLength(n: nat)
    ensures n < 10 ==> |Dec(n)| <= 1
    ensures n < 10000 ==> |Dec(n)| <= 4
    ensures n < 10000000000 ==> |Dec(n)| <= 10
  {
    DecWidth(n, 1);
    DecWidth(n, 4);
    DecWidth(n, 10);
    Powers();
    hide Pow10, Dec;
  }

  lemma Powers()
    ensures Pow10(1) == 10 && Pow10(3) == 1000 && Pow10(4) == 10000 && Pow10(10) == 10000000000
  {
    assert Pow10(5) == 100000;
  }

  lemma FixedLength(x: real, k: nat)
    requires 0.0 <= x <= 9999.0 && (k == 1 || k == 3)
    ensures |Fixed(x, k)| <= 5 + k
  {
    Powers();
    var p := Pow10(k);
    var m := Scaled(x, p as real);
    ScaledBound(x, k);
    var (q, r) := DivMod(m, p);
    hide Pow10, Dec, Scaled;
    assert q < 10000;
    DecLength(q);
    PadWidth(r, k);
  }

  lemma ScaledBound(x: real, k: nat)
    requires 0.0 <= x <= 9999.0 && (k == 1 || k == 3)
    ensures Scaled(x, Pow10(k) as real) <= 9999 * Pow10(k)
  {
    Powers();
    hide Pow10;
  }

  lemma {:induction false} EncodeLength(t: Text)
    requires Encodable(t)
    ensures |Encode(t)| <= 4 * |t|
  {
    if t != [] {
      EncodeLength(t[1..]);
    }
  }

  predicate Small(x: real) {
    0.0 <= x <= 9999.0
  }

  lemma CommandLength(text: Text, x: real, y: real, size: real, color: Color)
    requires Encodable(text) && Small(x) && Small(y) && Small(size)
    requires Small(color.red) && Small(color.green) && Small(color.blue)
    ensures |PdfTextCommand(text, x, y, size, color)| <= 8 * |text| + 100
  {
    FixedLength(color.red, 3);
    FixedLength(color.green, 3);
    FixedLength(color.blue, 3);
    FixedLength(size, 1);
    FixedLength(x, 1);
    FixedLength(y, 1);
    HexDigits(Encode(text));
    EncodeLength(text);
    assert |HexString(text)| <= 8 * |text| + 2;
    hide Fixed, HexString, Join;
    var words := [ColorLine(color), ["/F1", Fixed(size, 1), "Tf"], [Fixed(x, 1), Fixed(y, 1), "Td"],
                  [HexString(text), "Tj"]];
    forall i | 0 <= i < 4 ensures |Join(" ", words[i])| <= Total(words[i]) + |words[i]| {
      JoinLength(" ", words[i]);
    }
    TotalSix(words[0]);
    TotalSix(words[1]);
    TotalSix(words[2]);
    TotalSix(words[3]);
    var lines := ["BT", Join(" ", words[0]), Join(" ", words[1]), Join(" ", words[2]), Join(" ", words[3]), "ET"];
    JoinLength("\n", lines);
    TotalSix(lines);
  }

  // ---- lengths of streams ----

  // A page whose coordinates are written with few digits.
  ghost predicate Compact(page: seq<PdfLine>) {
    forall i | 0 <= i < |page| :: Small(54.0 + page[i].indent) && Small(Baseline(page, i))
  }

  lemma StyleSmall(name: string)
    ensures var s := StyleOf(name);
            Small(s.size) && Small(s.color.red) && Small(s.color.green) && Small(s.color.blue)
  {
  }

  lemma {:induction false} LinesLength(page: seq<PdfLine>, n: nat)
    requires n <= |page| && PageEncodable(page) && Compact(page)
    ensures Total(LineCommands(page, n)) <= 8 * Letters(page[..n]) + 100 * n
  {
    hide PdfTextCommand, StyleOf, Baseline, Small;
    if n > 0 {
      LinesLength(page, n - 1);
      var line := page[n - 1];
      StyleSmall(line.style);
      var style := StyleOf(line.style);
      CommandLength(line.text, MARGIN_LEFT + line.indent, Baseline(page, n - 1), style.size, style.color);
      assert page[..n][..n - 1] == page[..n - 1];
    }
  }

  lemma PreludeLength()
    ensures |PRELUDE| == 6 && Total(PRELUDE) <= 80
  {
    TotalSix(PRELUDE);
  }

  lemma FooterLength(number: nat, total: nat)
    requires number <= total < 10000000000
    ensures |FooterCommand(number, total)| <= 500
  {
    FooterEncodable(number, total);
    FooterText(number, total);
    StyleSmall("footer");
    hide Dec, StyleOf, PdfTextCommand, Footer;
    var style := StyleOf("footer");
    CommandLength(Footer(number, total), MARGIN_LEFT, 34.0, style.size, style.color);
  }

  lemma FooterText(number: nat, total: nat)
    requires number <= total < 10000000000
    ensures |Footer(number, total)| <= 50
  {
    hide Dec;
    DecLength(number);
    DecLength(total);
  }

  lemma StreamLength(page: seq<PdfLine>, number: nat, total: nat)
    requires PageEncodable(page) && Compact(page) && number <= total < 10000000000
    ensures |ContentStream(page, number, total)| <= 8 * Letters(page) + 101 * |page| + 600
  {
    PreludeLength();
    FooterLength(number, total);
    LinesLength(page, |page|);
    assert page[..|page|] == page;
    hide FooterCommand, LineCommands, Join, PRELUDE, Compact;
    var lines, footer := LineCommands(page, |page|), [FooterCommand(number, total)];
    JoinLength("\n", PRELUDE + lines + footer);
    TotalConcat(PRELUDE + lines, footer);
    TotalConcat(PRELUDE, lines);
    TotalOne(footer[0]);
    CommandCount(page, |page|);
  }

  lemma {:induction false} CommandCount(page: seq<PdfLine>, n: nat)
    requires n <= |page| && PageEncodable(page)
    ensures |LineCommands(page, n)| == n
  {
    hide LineCommand;
    if n > 0 {
      CommandCount(page, n - 1);
    }
  }

  // ---- lengths of objects ----

  lemma RefLength(id: nat)
    requires id < 10000000000
    ensures |Ref(id)| <= 14
  {
    DecLength(id);
  }

  lemma ContentLength(content: string)
    requires |content| < 10000000000
    ensures |StreamObject(content)| <= |content| + 60
  {
    hide Dec, DictText;
    DecLength(|content|);
    DictLength([Part("/Length", Dec(|content|))]);
    TotalOne(Part("/Length", Dec(|content|)));
  }

  lemma PageLength(p: nat, f: nat, c: nat)
    requires p < 10000000000 && f < 10000000000 && c < 10000000000
    ensures |PageObject(p, f, c)| <= 250
  {
    hide DictText, Ref, Total;
    RefLength(p);
    RefLength(f);
    RefLength(c);
    TotalOne(Part("/F1", Ref(f)));
    DictLength([Part("/F1", Ref(f))]);
    TotalOne(ResourceParts(f)[0]);
    DictLength(ResourceParts(f));
    TotalSix(PageParts(p, f, c));
    DictLength(PageParts(p, f, c));
  }

  lemma FixedLengths()
    ensures |DictText(CATALOG_PARTS)| <= 250 && |DictText(FONT_PARTS)| <= 250
    ensures |DictText(DESCENDANT_PARTS)| <= 250 && |DictText(DESCRIPTOR_PARTS)| <= 250
  {
    hide DictText, Total;
    DictLength(CATALOG_PARTS);
    DictLength(FONT_PARTS);
    DictLength(SYSTEM_PARTS);
    DictLength(DESCENDANT_PARTS);
    DictLength(DESCRIPTOR_PARTS);
    TotalSix(CATALOG_PARTS);
    TotalSix(FONT_PARTS);
    TotalSix(SYSTEM_PARTS);
    TotalSix(DESCENDANT_PARTS);
    TotalConcat(DESCRIPTOR_PARTS[..4], DESCRIPTOR_PARTS[4..]);
    assert DESCRIPTOR_PARTS == DESCRIPTOR_PARTS[..4] + DESCRIPTOR_PARTS[4..];
    TotalSix(DESCRIPTOR_PARTS[..4]);
    TotalSix(DESCRIPTOR_PARTS[4..]);
  }

  lemma {:induction false} KidsLength(ids: seq<nat>)
    requires forall i | 0 <= i < |ids| :: ids[i] < 10000000000
    ensures Total(References(ids)) <= 14 * |ids|
  {
    hide Ref;
    if ids != [] {
      var n := |ids|;
      KidsLength(ids[..n - 1]);
      RefLength(ids[n - 1]);
      assert References(ids)[..n - 1] == References(ids[..n - 1]);
    }
  }

  lemma TreeLength(n: nat)
    requires n < 1000000000
    ensures |DictText(PagesParts(PageIds(n)))| <= 15 * n + 80
  {
    hide DictText, Dec, Join;
    var ids := PageIds(n);
    KidsLength(ids);
    JoinLength(" ", References(ids));
    DecLength(n);
    DictLength(PagesParts(ids));
    TotalSix(PagesParts(ids));
  }

  // ---- the file ----

  lemma {:induction false} PagesLength(pages: seq<seq<PdfLine>>, n: nat)
    requires n <= |pages| < 1000000000 && AllEncodable(pages)
    requires forall p | 0 <= p < |pages| :: Compact(pages[p])
    requires 8 * Letters(Flatten(pages)) + 101 * |Flatten(pages)| + 600 < 10000000000
    ensures Total(PageObjects(pages, n)) <= 8 * Letters(Flatten(pages[..n])) + 101 * |Flatten(pages[..n])| + 910 * n
  {
    hide Compact, ContentObject, PageObject, ContentStream, StreamObject, Flatten, Letters;
    if n == 0 {
      assert PageObjects(pages, 0) == [];
    } else {
      PagesLength(pages, n - 1);
      PageShare(pages, n);
      StreamLength(pages[n - 1], n, |pages|);
      ContentLength(ContentStream(pages[n - 1], n, |pages|));
      PageLength(2, 3, 6 + 2 * (n - 1));
      var last := [ContentObject(pages, n - 1), PageObject(2, 3, 6 + 2 * (n - 1))];
      TotalConcat(PageObjects(pages, n - 1), last);
      TotalSix(last);
      assert |ContentObject(pages, n - 1)| <= |ContentStream(pages[n - 1], n, |pages|)| + 60 by {
        ContentIs(pages, n - 1);
      }
    }
  }

  lemma ContentIs(pages: seq<seq<PdfLine>>, i: nat)
    requires i < |pages| && AllEncodable(pages)
    ensures ContentObject(pages, i) == StreamObject(ContentStream(pages[i], i + 1, |pages|))
  {
    hide StreamObject, ContentStream;
  }

  // What the page behind n - 1 others adds, and what it is part of.
  lemma {:induction false} PageShare(pages: seq<seq<PdfLine>>, n: nat)
    requires 0 < n <= |pages|
    ensures Letters(Flatten(pages[..n])) == Letters(Flatten(pages[..n - 1])) + Letters(pages[n - 1])
    ensures |Flatten(pages[..n])| == |Flatten(pages[..n - 1])| + |pages[n - 1]|
    ensures Letters(Flatten(pages[..n])) <= Letters(Flatten(pages)) && |Flatten(pages[..n])| <= |Flatten(pages)|
  {
    hide Letters;
    assert pages[..n][..n - 1] == pages[..n - 1];
    LettersConcat(Flatten(pages[..n - 1]), pages[n - 1]);
    assert pages == pages[..n] + pages[n..];
    FlattenConcat(pages[..n], pages[n..]);
    LettersConcat(Flatten(pages[..n]), Flatten(pages[n..]));
  }

  lemma {:induction false} BodyLength(objects: seq<string>)
    requires |objects| < 10000000000
    ensures |FileFormat.Body(objects)| <= 9 + Total(objects) + 25 * |objects|
  {
    hide FileFormat.ObjectFrame;
    if objects != [] {
      BodyLength(objects[..|objects| - 1]);
      DecLength(|objects|);
      FileFormat.FrameLength(|objects|, objects[|objects| - 1]);
    }
  }

  lemma ObjectsLength(pages: seq<seq<PdfLine>>)
    requires |pages| < 1000000000 && AllEncodable(pages)
    requires forall p | 0 <= p < |pages| :: Compact(pages[p])
    requires 8 * Letters(Flatten(pages)) + 101 * |Flatten(pages)| + 600 < 10000000000
    ensures Total(Objects(pages)) <= 8 * Letters(Flatten(pages)) + 101 * |Flatten(pages)| + 925 * |pages| + 1080
  {
    hide Compact, DictText, PageObjects, PagesParts, Letters, Flatten, CATALOG_PARTS, FONT_PARTS, DESCENDANT_PARTS,
      DESCRIPTOR_PARTS, PageIds;
    PagesLength(pages, |pages|);
    assert pages[..|pages|] == pages;
    TreeLength(|pages|);
    FixedLengths();
    var fixed := FixedObjects(DictText(PagesParts(PageIds(|pages|))));
    TotalConcat(fixed, PageObjects(pages, |pages|));
    TotalSix(fixed);
  }

  // ---- from the input ----

  ghost predicate Indented(lines: seq<PdfLine>, most: real) {
    forall i | 0 <= i < |lines| :: 0.0 <= lines[i].indent <= most
  }

  lemma WrapLineIndented(line: PdfLine, most: real)
    requires 0.0 <= line.indent <= most
    ensures Indented(WrapLine(line), most + 12.0)
  {
    hide WrapText, AvailableUnits;
  }

  lemma {:induction false} WrapIndented(lines: seq<PdfLine>, most: real)
    requires Indented(lines, most)
    ensures Indented(WrapLines(lines), most + 12.0)
  {
    hide WrapLine;
    if lines != [] {
      WrapIndented(lines[..|lines| - 1], most);
      WrapLineIndented(lines[|lines| - 1], most);
    }
  }

  // Lines the exporter can place: no negative gap or indent, none taller or wider than fits.
  ghost predicate Placeable(lines: seq<PdfLine>) {
    GapsNonNegative(lines) && LinesFit(lines) && Indented(lines, 9000.0)
  }

  lemma CompactPage(page: seq<PdfLine>)
    requires page != [] && GapsNonNegative(page) && Cost(LineCost, page) <= 708.0 && Indented(page, 9012.0)
    ensures Compact(page)
  {
    BaselinesOnPage(page);
    hide Baseline, Cost;
  }

  lemma {:induction false} CompactPages(pages: seq<seq<PdfLine>>)
    requires GapsNonNegative(Flatten(pages)) && Indented(Flatten(pages), 9012.0)
    requires Within(LineCost, 708.0, pages) && forall p | 0 <= p < |pages| :: pages[p] != []
    ensures forall p | 0 <= p < |pages| :: Compact(pages[p])
  {
    hide Cost, Flatten, Compact;
    forall p | 0 <= p < |pages| ensures Compact(pages[p]) {
      GapsOfPage(pages, p);
      GroupSlice(pages, p + 1);
      assert forall j | 0 <= j < |pages[p]| :: pages[p][j] == Flatten(pages)[End(pages, p) + j];
      CompactPage(pages[p]);
    }
  }

  lemma {:induction false} PagesCompact(lines: seq<PdfLine>)
    requires Placeable(lines)
    ensures forall p | 0 <= p < |Pages(lines)| :: Compact(Pages(lines)[p])
    ensures |Pages(lines)| <= Load(lines) + 1
    ensures Letters(Flatten(Pages(lines))) <= Load(lines) + 1 && |Flatten(Pages(lines))| <= Load(lines) + 1
  {
    hide Compact, WrapLines, Letters, Flatten, Load, GapsNonNegative, AtMost, Indented, Cost;
    var wrapped := WrapLines(lines);
    if lines == [] {
      NothingToShow();
    } else {
      WrappedCosts(708.0, lines);
      WrapIndented(lines, 9000.0);
      PagesFit(wrapped);
      PaginateConserves(wrapped);
      WrapSize(lines);
      CompactPages(Paginate(wrapped));
      FlattenLength(Paginate(wrapped));
    }
  }

  lemma NothingToShow()
    ensures Pages([]) == [[BlankLine()]] && Compact([BlankLine()])
    ensures Letters(Flatten([[BlankLine()]])) == 1 && |Flatten([[BlankLine()]])| == 1
  {
    hide Compact, Letters;
    FlattenOne([BlankLine()]);
    CompactBlank();
  }

  lemma CompactBlank()
    ensures Compact([BlankLine()]) && Letters([BlankLine()]) == 1
  {
    hide Points, StyleOf;
    var page := [BlankLine()];
    assert page[..0] == [];
    assert RendererCursor(page[..0]) == 780.0 && Letters(page[..0]) == 0;
  }

  // Main result on the size.  Nine million characters and lines make a file below 10^10 bytes, so
  // every offset fits in its ten digits.
  lemma {:induction false} OffsetsFit(lines: seq<PdfLine>)
    requires PageEncodable(lines) && Placeable(lines) && Load(lines) <= 9000000
    ensures AllEncodable(Pages(lines))
    ensures |FileFormat.Body(Objects(Pages(lines)))| < 10000000000
    ensures FileFormat.AllFit(FileFormat.Offsets(Objects(Pages(lines))))
  {
    hide Pages, PageEncodable, AllEncodable, Placeable, Load, Letters, Flatten, Objects, Total, FileFormat.Body,
      Compact, FileFormat.AllFit, FileFormat.Offsets, Pow10;
    var pages := Pages(lines);
    EncodablePages(lines);
    PagesCompact(lines);
    ObjectsLength(pages);
    BodyLength(Objects(pages));
    Powers();
    BodyFits(Objects(pages));
  }

  lemma BodyFits(objects: seq<string>)
    requires |FileFormat.Body(objects)| < Pow10(10)
    ensures FileFormat.AllFit(FileFormat.Offsets(objects))
  {
    hide FileFormat.Body, FileFormat.Offsets, Pow10;
    FileFormat.LastOffset(objects);
  }

  // So the export of such lines always reads back: footers aside exactly the visible characters of
  // the lines, in order and dressed in their styles, every line clear of the footer area.
  lemma {:induction false} ExportReads(lines: seq<PdfLine>)
    requires lines != [] && PageEncodable(lines) && Placeable(lines) && Load(lines) <= 9000000
    ensures AllEncodable(Pages(lines))
    ensures var shown := ReadDocument(FileFormat.File(Objects(Pages(lines)), 1));
            && shown.Some? && DocumentGlyphs(shown.value) == Dress(StyledInk(lines))
            && AllDescend(Pages(lines), shown.value) && AllPrintedClear(Pages(lines), shown.value)
  {
    hide Pages, PageEncodable, AllEncodable, Objects, Load, GapsNonNegative, LinesFit, Indented, FileFormat.AllFit,
      FileFormat.Offsets, FileFormat.File, ReadDocument, DocumentGlyphs, Dress, StyledInk, AllDescend, AllPrintedClear;
    OffsetsFit(lines);
    ExportConserves(lines);
    ShownPlacement(lines);
  }
}
