// Every character of the exported file is below 128, so that its characters are its bytes and
// the offsets and stream lengths, counted in characters, are byte counts.
module Bytes {
  import opened Text
  import opened Numbers
  import opened Utf16
  import opened Printing
  import FileFormat
  import opened Layout
  import opened Content
  import opened Document

  predicate IsAscii(s: string) {
    forall i | 0 <= i < |s| :: s[i] as int < 128
  }

  ghost predicate AllAscii(parts: seq<string>) {
    forall i | 0 <= i < |parts| :: IsAscii(parts[i])
  }

  lemma AsciiConcat(a: string, b: string)
    requires IsAscii(a) && IsAscii(b)
    ensures IsAscii(a + b)
  {
  }

  lemma {:induction false} AsciiJoin(sep: string, parts: seq<string>)
    requires IsAscii(sep) && AllAscii(parts)
    ensures IsAscii(Join(sep, parts))
  {
    hide IsAscii;
    if |parts| <= 1 {
      AsciiEmpty();
    } else {
      var front := parts[..|parts| - 1];
      AsciiJoin(sep, front);
      AsciiConcat(Join(sep, front), sep);
      AsciiConcat(Join(sep, front) + sep, parts[|parts| - 1]);
    }
  }

  lemma AsciiEmpty()
    ensures IsAscii("") && IsAscii(" ") && IsAscii("\n")
  {
  }

  // ---- numerals and strings ----

  lemma AsciiDigits(s: string)
    requires AllDigits(s)
    ensures IsAscii(s)
  {
  }

  lemma AsciiFixed(x: real, k: nat)
    ensures IsAscii(Fixed(x, k))
  {
    hide Dec, Pad, Scaled, Pow10, DivMod;
    var (q, r) := DivMod(Scaled(x, Pow10(k) as real), Pow10(k));
    AsciiDigits(Dec(q));
    AsciiDigits(Pad(r, k));
  }

  lemma {:induction false} AsciiHex(bs: seq<Byte>)
    ensures IsAscii(Hex(bs))
  {
    if bs != [] {
      AsciiHex(bs[1..]);
    }
  }

  lemma AsciiRef(id: nat)
    ensures IsAscii(Ref(id)) && IsAscii(Dec(id))
  {
    hide Dec;
    AsciiDigits(Dec(id));
  }

  // ---- content streams ----

  lemma AsciiCommand(text: Text, x: real, y: real, size: real, color: Color)
    requires Encodable(text)
    ensures IsAscii(PdfTextCommand(text, x, y, size, color))
  {
    hide IsAscii, Fixed, Hex, Join, ColorLine;
    AsciiHex(Encode(text));
    AsciiColor(color);
    AsciiFixed(size, 1);
    AsciiFixed(x, 1);
    AsciiFixed(y, 1);
    AsciiOperators();
    var lines := ["BT", Join(" ", ColorLine(color)), Join(" ", ["/F1", Fixed(size, 1), "Tf"]),
                  Join(" ", [Fixed(x, 1), Fixed(y, 1), "Td"]), Join(" ", [HexString(text), "Tj"]), "ET"];
    AsciiAngles(Hex(Encode(text)));
    AsciiJoin(" ", ["/F1", Fixed(size, 1), "Tf"]);
    AsciiJoin(" ", [Fixed(x, 1), Fixed(y, 1), "Td"]);
    AsciiJoin(" ", [HexString(text), "Tj"]);
    AsciiJoin("\n", lines);
  }

  lemma AsciiAngles(s: string)
    requires IsAscii(s)
    ensures IsAscii("<" + s + ">") && IsAscii("<< " + s + " >>") && IsAscii("[" + s + "]")
  {
  }

  lemma AsciiOperators()
    ensures AllAscii(["BT", "ET", "Tf", "Td", "Tj", "/F1", "rg"]) && IsAscii(" ") && IsAscii("\n")
    ensures IsAscii("BT") && IsAscii("ET") && IsAscii("Tf") && IsAscii("Td") && IsAscii("Tj") && IsAscii("/F1")
  {
  }

  lemma AsciiColor(color: Color)
    ensures IsAscii(Join(" ", ColorLine(color)))
  {
    hide Fixed, Join;
    AsciiFixed(color.red, 3);
    AsciiFixed(color.green, 3);
    AsciiFixed(color.blue, 3);
    AsciiJoin(" ", ColorLine(color));
  }

  lemma AsciiPrelude()
    ensures AllAscii(PRELUDE)
  {
    AsciiColors();
    AsciiFills();
    hide IsAscii;
  }

  lemma AsciiColors()
    ensures IsAscii("0.94 0.98 0.98 rg") && IsAscii("0.0 0.70 0.72 rg") && IsAscii("q") && IsAscii("Q")
  {
  }

  lemma AsciiFills()
    ensures IsAscii("44 760 507 46 re f") && IsAscii("44 758 507 2 re f")
  {
  }

  lemma {:induction false} AsciiLines(page: seq<PdfLine>, n: nat)
    requires n <= |page| && PageEncodable(page)
    ensures AllAscii(LineCommands(page, n))
  {
    hide IsAscii, PdfTextCommand, StyleOf, Baseline;
    if n > 0 {
      AsciiLines(page, n - 1);
      var style := StyleOf(page[n - 1].style);
      AsciiCommand(page[n - 1].text, MARGIN_LEFT + page[n - 1].indent, Baseline(page, n - 1), style.size,
                   style.color);
    }
  }

  lemma AsciiStream(page: seq<PdfLine>, number: nat, total: nat)
    requires PageEncodable(page)
    ensures IsAscii(ContentStream(page, number, total))
  {
    AsciiPrelude();
    AsciiEmpty();
    hide IsAscii, PdfTextCommand, StyleOf, Join, LineCommands, Footer, PRELUDE;
    AsciiLines(page, |page|);
    FooterEncodable(number, total);
    var style := StyleOf("footer");
    AsciiCommand(Footer(number, total), MARGIN_LEFT, 34.0, style.size, style.color);
    AsciiJoin("\n", PRELUDE + LineCommands(page, |page|) + [FooterCommand(number, total)]);
  }

  // ---- objects ----

  lemma AsciiPart(key: string, value: string)
    requires IsAscii(key) && IsAscii(value)
    ensures IsAscii(Part(key, value))
  {
  }

  lemma AsciiDict(parts: seq<string>)
    requires AllAscii(parts)
    ensures IsAscii(DictText(parts))
  {
    hide IsAscii, Join;
    AsciiEmpty();
    AsciiJoin(" ", parts);
    AsciiAngles(Join(" ", parts));
  }

  lemma AsciiCatalog()
    ensures IsAscii(DictText(CATALOG_PARTS))
  {
    AsciiDict(CATALOG_PARTS);
  }

  lemma AsciiNames()
    ensures IsAscii("/Type") && IsAscii("/Subtype") && IsAscii("/BaseFont") && IsAscii("/STSong-Light")
    ensures IsAscii("/Font")
  {
  }

  lemma AsciiFontNames()
    ensures IsAscii("/Type0") && IsAscii("/Encoding") && IsAscii("/UniGB-UCS2-H")
    ensures IsAscii("/DescendantFonts") && IsAscii("[4 0 R]")
  {
  }

  lemma AsciiDescendantNames()
    ensures IsAscii("/CIDFontType0") && IsAscii("/CIDSystemInfo") && IsAscii("/FontDescriptor")
    ensures IsAscii("5 0 R")
  {
  }

  lemma AsciiFont()
    ensures IsAscii(DictText(FONT_PARTS))
  {
    AsciiNames();
    AsciiFontNames();
    hide IsAscii, Part, DictText;
    AsciiPart("/Type", "/Font");
    AsciiPart("/Subtype", "/Type0");
    AsciiPart("/BaseFont", "/STSong-Light");
    AsciiPart("/Encoding", "/UniGB-UCS2-H");
    AsciiPart("/DescendantFonts", "[4 0 R]");
    AsciiDict(FONT_PARTS);
  }

  lemma AsciiSystem()
    ensures IsAscii(DictText(SYSTEM_PARTS))
  {
    AsciiDict(SYSTEM_PARTS);
  }

  lemma AsciiDescendant()
    ensures IsAscii(DictText(DESCENDANT_PARTS))
  {
    AsciiNames();
    AsciiDescendantNames();
    AsciiSystem();
    hide IsAscii, Part, DictText, SYSTEM_PARTS;
    AsciiPart("/Type", "/Font");
    AsciiPart("/Subtype", "/CIDFontType0");
    AsciiPart("/BaseFont", "/STSong-Light");
    AsciiPart("/CIDSystemInfo", DictText(SYSTEM_PARTS));
    AsciiPart("/FontDescriptor", "5 0 R");
    AsciiDict(DESCENDANT_PARTS);
  }

  lemma AsciiDescriptorNames()
    ensures IsAscii("/FontDescriptor") && IsAscii("/FontName") && IsAscii("/STSong-Light") && IsAscii("/Flags")
    ensures IsAscii("4") && IsAscii("/FontBBox") && IsAscii("[0 -120 1000 880]") && IsAscii("/Ascent")
  {
  }

  lemma AsciiDescriptorNumbers()
    ensures IsAscii("880") && IsAscii("/Descent") && IsAscii("-120") && IsAscii("/CapHeight") && IsAscii("700")
    ensures IsAscii("/StemV") && IsAscii("80")
  {
  }

  lemma AsciiDescriptor()
    ensures IsAscii(DictText(DESCRIPTOR_PARTS))
  {
    AsciiNames();
    AsciiDescriptorNames();
    AsciiDescriptorNumbers();
    hide IsAscii, Part, DictText;
    AsciiPart("/Type", "/FontDescriptor");
    AsciiPart("/FontName", "/STSong-Light");
    AsciiPart("/Flags", "4");
    AsciiPart("/FontBBox", "[0 -120 1000 880]");
    AsciiPart("/Ascent", "880");
    AsciiPart("/Descent", "-120");
    AsciiPart("/CapHeight", "700");
    AsciiPart("/StemV", "80");
    AsciiDict(DESCRIPTOR_PARTS);
  }

  lemma AsciiPage(p: nat, f: nat, c: nat)
    ensures IsAscii(PageObject(p, f, c))
  {
    hide DictText, Ref;
    AsciiRef(p);
    AsciiRef(f);
    AsciiRef(c);
    AsciiDict([Part("/F1", Ref(f))]);
    AsciiDict(ResourceParts(f));
    AsciiDict(PageParts(p, f, c));
  }

  lemma AsciiTree(ids: seq<nat>)
    ensures IsAscii(DictText(PagesParts(ids)))
  {
    forall i | 0 <= i < |ids| ensures IsAscii(References(ids)[i]) {
      AsciiRef(ids[i]);
    }
    AsciiRef(|ids|);
    AsciiEmpty();
    AsciiJoin(" ", References(ids));
    AsciiAngles(Kids(ids));
    hide DictText, Dec, Kids;
    AsciiDict(PagesParts(ids));
  }

  lemma AsciiContent(content: string)
    requires IsAscii(content)
    ensures IsAscii(StreamObject(content))
  {
    hide DictText, Dec;
    AsciiRef(|content|);
    AsciiDict([Part("/Length", Dec(|content|))]);
  }

  lemma {:induction false} AsciiPages(pages: seq<seq<PdfLine>>, n: nat)
    requires n <= |pages| && AllEncodable(pages)
    ensures AllAscii(PageObjects(pages, n))
  {
    hide IsAscii, ContentStream, StreamObject, PageObject;
    if n > 0 {
      AsciiPages(pages, n - 1);
      AsciiStream(pages[n - 1], n, |pages|);
      AsciiContent(ContentStream(pages[n - 1], n, |pages|));
      AsciiPage(2, 3, 6 + 2 * (n - 1));
    }
  }

  lemma AsciiObjects(pages: seq<seq<PdfLine>>)
    requires AllEncodable(pages)
    ensures AllAscii(Objects(pages))
  {
    hide IsAscii, DictText, PagesParts, PageObjects, CATALOG_PARTS, FONT_PARTS, DESCENDANT_PARTS,
      DESCRIPTOR_PARTS, PageIds;
    AsciiCatalog();
    AsciiTree(PageIds(|pages|));
    AsciiFont();
    AsciiDescendant();
    AsciiDescriptor();
    AsciiPages(pages, |pages|);
  }

  // ---- the file ----

  lemma AsciiFrame(number: nat, content: string)
    requires IsAscii(content)
    ensures IsAscii(FileFormat.ObjectFrame(number, content))
  {
    hide Dec;
    AsciiDigits(Dec(number));
  }

  lemma {:induction false} AsciiBody(objects: seq<string>)
    requires AllAscii(objects)
    ensures IsAscii(FileFormat.Body(objects))
  {
    if objects != [] {
      hide IsAscii, FileFormat.ObjectFrame;
      var n := |objects|;
      AsciiBody(objects[..n - 1]);
      AsciiFrame(n, objects[n - 1]);
      AsciiConcat(FileFormat.Body(objects[..n - 1]), FileFormat.ObjectFrame(n, objects[n - 1]));
    }
  }

  lemma {:induction false} AsciiEntries(offsets: seq<nat>)
    ensures IsAscii(FileFormat.Entries(offsets))
  {
    hide Pad;
    if offsets != [] {
      AsciiEntries(offsets[..|offsets| - 1]);
      AsciiDigits(Pad(offsets[|offsets| - 1], 10));
    }
  }

  lemma AsciiEnds(size: nat, root: nat)
    ensures IsAscii(FileFormat.XrefHead(size)) && IsAscii(FileFormat.Trailer(size, root))
  {
    hide Dec, DictText;
    AsciiRef(size);
    AsciiRef(root);
    AsciiDict(FileFormat.TrailerParts(size, root));
  }

  // Main result on the bytes: no character of any exported file is above 127.
  lemma AsciiFile(pages: seq<seq<PdfLine>>)
    requires AllEncodable(pages)
    ensures IsAscii(FileFormat.File(Objects(pages), 1))
  {
    hide Objects, FileFormat.Body, FileFormat.XrefHead, FileFormat.Trailer, FileFormat.Entries,
      FileFormat.Offsets, Dec;
    var objects := Objects(pages);
    AsciiObjects(pages);
    AsciiBody(objects);
    AsciiEntries(FileFormat.Offsets(objects));
    AsciiEnds(|objects| + 1, 1);
    AsciiDigits(Dec(|FileFormat.Body(objects)|));
  }
}
