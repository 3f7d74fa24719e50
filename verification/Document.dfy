// The object graph of the exported document, and a reader that follows it from the trailer to
// the text drawn on each page.
module Document {
  import opened Wrappers
  import opened Numbers
  import opened Syntax
  import opened Printing
  import opened FileFormat
  import opened Layout
  import opened Content
  import opened Rendering

  // ---- the objects written ----

  const CATALOG_PARTS := [Part("/Type", "/Catalog"), Part("/Pages", "2 0 R")]

  const FONT_PARTS := [Part("/Type", "/Font"), Part("/Subtype", "/Type0"), Part("/BaseFont", "/STSong-Light"),
    Part("/Encoding", "/UniGB-UCS2-H"), Part("/DescendantFonts", "[4 0 R]")]

  const SYSTEM_PARTS := [Part("/Registry", "(Adobe)"), Part("/Ordering", "(GB1)"), Part("/Supplement", "2")]

  const DESCENDANT_PARTS := [Part("/Type", "/Font"), Part("/Subtype", "/CIDFontType0"),
    Part("/BaseFont", "/STSong-Light"), Part("/CIDSystemInfo", DictText(SYSTEM_PARTS)),
    Part("/FontDescriptor", "5 0 R")]

  const DESCRIPTOR_PARTS := [Part("/Type", "/FontDescriptor"), Part("/FontName", "/STSong-Light"),
    Part("/Flags", "4"), Part("/FontBBox", "[0 -120 1000 880]"), Part("/Ascent", "880"),
    Part("/Descent", "-120"), Part("/CapHeight", "700"), Part("/StemV", "80")]

  const STREAM := "\nstream\n"
  const END_STREAM := "\nendstream"

  function StreamObject(content: string): string {
    DictText([Part("/Length", Dec(|content|))]) + (STREAM + (content + END_STREAM))
  }

  function ResourceParts(fontId: nat): seq<string> {
    [Part("/Font", DictText([Part("/F1", Ref(fontId))]))]
  }

  function PageParts(pagesId: nat, fontId: nat, contentId: nat): seq<string> {
    [Part("/Type", "/Page"), Part("/Parent", Ref(pagesId)), Part("/MediaBox", "[0 0 595 842]"),
     Part("/Resources", DictText(ResourceParts(fontId))), Part("/Contents", Ref(contentId))]
  }

  function PageObject(pagesId: nat, fontId: nat, contentId: nat): string {
    DictText(PageParts(pagesId, fontId, contentId))
  }

  function Kids(pageIds: seq<nat>): string {
    Join(" ", References(pageIds))
  }

  function References(ids: seq<nat>): seq<string> {
    seq(|ids|, i requires 0 <= i < |ids| => Ref(ids[i]))
  }

  function PagesParts(pageIds: seq<nat>): seq<string> {
    [Part("/Type", "/Pages"), Part("/Kids", "[" + Kids(pageIds) + "]"), Part("/Count", Dec(|pageIds|))]
  }

  function PageIds(n: nat): seq<nat> {
    seq(n, i requires 0 <= i < n => 7 + 2 * i)
  }

  predicate AllEncodable(pages: seq<seq<PdfLine>>) {
    forall i | 0 <= i < |pages| :: PageEncodable(pages[i])
  }

  function ContentObject(pages: seq<seq<PdfLine>>, i: nat): string
    requires i < |pages| && AllEncodable(pages)
  {
    StreamObject(ContentStream(pages[i], i + 1, |pages|))
  }

  // Content and page objects of the first n pages.
  function PageObjects(pages: seq<seq<PdfLine>>, n: nat): (objects: seq<string>)
    requires n <= |pages| && AllEncodable(pages)
    ensures |objects| == 2 * n
  {
    if n == 0 then []
    else PageObjects(pages, n - 1) + [ContentObject(pages, n - 1), PageObject(2, 3, 6 + 2 * (n - 1))]
  }

  lemma {:induction false} PageObjectsAt(pages: seq<seq<PdfLine>>, n: nat, i: nat)
    requires i < n <= |pages| && AllEncodable(pages)
    ensures PageObjects(pages, n)[2 * i] == ContentObject(pages, i)
    ensures PageObjects(pages, n)[2 * i + 1] == PageObject(2, 3, 6 + 2 * i)
  {
    hide ContentObject, PageObject;
    if i < n - 1 {
      PageObjectsAt(pages, n - 1, i);
    }
  }

  // Objects 1 to 5, given the page tree.
  function FixedObjects(tree: string): (objects: seq<string>)
    ensures |objects| == 5
  {
    [DictText(CATALOG_PARTS), tree, DictText(FONT_PARTS), DictText(DESCENDANT_PARTS), DictText(DESCRIPTOR_PARTS)]
  }

  function Objects(pages: seq<seq<PdfLine>>): (objects: seq<string>)
    requires AllEncodable(pages)
    ensures |objects| == 5 + 2 * |pages|
  {
    FixedObjects(DictText(PagesParts(PageIds(|pages|)))) + PageObjects(pages, |pages|)
  }

  // The page-tree object is added empty and overwritten once the page numbers are known.  An
  // unencodable text makes the whole export fail.
  method BuildSimplePdf(pages: seq<seq<PdfLine>>) returns (r: Option<string>)
    ensures r.Some? <==> AllEncodable(pages)
    ensures AllEncodable(pages) ==> r == Some(File(Objects(pages), 1))
  {
    hide DictText, Dec, PagesParts, ContentStream, StreamObject, PageObject, File;
    var objects: seq<string> := [];
    objects := objects + [DictText(CATALOG_PARTS)];
    var catalogId := |objects|;
    objects := objects + [""];
    var pagesId := |objects|;
    objects := objects + [DictText(FONT_PARTS)];
    var fontId := |objects|;
    objects := objects + [DictText(DESCENDANT_PARTS)];
    objects := objects + [DictText(DESCRIPTOR_PARTS)];
    var pageIds := [];
    for i := 0 to |pages|
      invariant AllEncodable(pages[..i])
      invariant pageIds == PageIds(i)
      invariant |objects| == 5 + 2 * i
      invariant objects[..5] == FixedObjects("")
      invariant AllEncodable(pages) ==> objects[5..] == PageObjects(pages, i)
    {
      var content := PdfContentStream(pages[i], i + 1, |pages|);
      if content.None? {
        return None;
      }
      ghost var before := objects;
      objects := objects + [StreamObject(content.value)];
      var contentId := |objects|;
      objects := objects + [PageObject(pagesId, fontId, contentId)];
      pageIds := pageIds + [|objects|];
      assert objects[..5] == before[..5];
    }
    assert pages[..|pages|] == pages;
    objects := objects[pagesId - 1 := DictText(PagesParts(pageIds))];
    assert objects == FixedObjects(DictText(PagesParts(pageIds))) + PageObjects(pages, |pages|);
    var file := AssemblePdf(objects, catalogId);
    r := Some(file);
  }

  // ---- reading a document ----

  function ObjectAt(objects: seq<string>, id: nat): Option<Object> {
    if 1 <= id <= |objects| then ReadObject(objects[id - 1]) else None
  }

  // The dictionary numbered id, when its Type is the expected one.
  function TypedObject(objects: seq<string>, id: nat, kind: string): Option<Object> {
    var o :- ObjectAt(objects, id);
    var t :- Lookup(o, "/Type");
    if t == Name(kind) then Some(o) else None
  }

  // A composite font whose only descendant is a CID font with a descriptor.
  predicate IsFont(objects: seq<string>, id: nat) {
    var font := TypedObject(objects, id, "/Font");
    && font.Some?
    && Lookup(font.value, "/Subtype") == Some(Name("/Type0"))
    && Lookup(font.value, "/Encoding") == Some(Name("/UniGB-UCS2-H"))
    && var list := Lookup(font.value, "/DescendantFonts");
    && list.Some? && list.value.Array? && |list.value.items| == 1 && list.value.items[0].Reference?
    && IsCidFont(objects, list.value.items[0].id)
  }

  predicate IsCidFont(objects: seq<string>, id: nat) {
    var font := TypedObject(objects, id, "/Font");
    && font.Some?
    && Lookup(font.value, "/Subtype") == Some(Name("/CIDFontType0"))
    && var d := RefValue(font.value, "/FontDescriptor");
    && d.Some? && TypedObject(objects, d.value, "/FontDescriptor").Some?
  }

  // What stands before the first occurrence of a pattern, and what follows it.
  function Find(s: string, pattern: string): Option<(string, string)> {
    if pattern <= s then Some(("", s[|pattern|..]))
    else if s == [] then None
    else
      var (before, after) :- Find(s[1..], pattern);
      Some(([s[0]] + before, after))
  }

  // A stream is a dictionary and, between the keywords `stream` and `endstream`, exactly as many
  // bytes as its Length says (section 7.3.8).
  function ReadStream(s: string): Option<string> {
    var (text, s1) :- Find(s, "\nstream\n");
    var dict :- ReadObject(text);
    var n :- NatValue(dict, "/Length");
    if n <= |s1| && s1[n..] == "\nendstream" then Some(s1[..n]) else None
  }

  // What a page draws: its parent must be the page tree, its font and its contents must resolve.
  function ReadPage(objects: seq<string>, pagesId: nat, id: nat): Option<seq<Mark>> {
    var page :- TypedObject(objects, id, "/Page");
    var parent :- RefValue(page, "/Parent");
    var resources :- Lookup(page, "/Resources");
    var fonts :- Lookup(resources, "/Font");
    var font :- RefValue(fonts, "/F1");
    var contents :- RefValue(page, "/Contents");
    if parent == pagesId && IsFont(objects, font) && 1 <= contents <= |objects| then
      var stream :- ReadStream(objects[contents - 1]);
      Render(stream)
    else None
  }

  function ReadPages(objects: seq<string>, pagesId: nat, kids: seq<Object>): Option<seq<seq<Mark>>> {
    if kids == [] then Some([])
    else
      var front :- ReadPages(objects, pagesId, kids[..|kids| - 1]);
      var last := kids[|kids| - 1];
      if !last.Reference? then None
      else
        var page :- ReadPage(objects, pagesId, last.id);
        Some(front + [page])
  }

  function ReadTree(objects: seq<string>, root: nat): Option<seq<seq<Mark>>> {
    var catalog :- TypedObject(objects, root, "/Catalog");
    var pagesId :- RefValue(catalog, "/Pages");
    var tree :- TypedObject(objects, pagesId, "/Pages");
    var kids :- Lookup(tree, "/Kids");
    var count :- Lookup(tree, "/Count");
    if kids.Array? && count == Number(|kids.items| as real) then ReadPages(objects, pagesId, kids.items)
    else None
  }

  // From the end of the file to the marks of every page, in order.
  function ReadDocument(file: string): Option<seq<seq<Mark>>> {
    var (objects, root) :- ReadFile(file);
    ReadTree(objects, root)
  }

  // ---- every object is read as intended ----

  const CATALOG_PAIRS: Pairs := [("/Type", Name("/Catalog")), ("/Pages", Reference(2))]

  const FONT_PAIRS: Pairs := [("/Type", Name("/Font")), ("/Subtype", Name("/Type0")),
    ("/BaseFont", Name("/STSong-Light")), ("/Encoding", Name("/UniGB-UCS2-H")),
    ("/DescendantFonts", Array([Reference(4)]))]

  const SYSTEM_PAIRS: Pairs := [("/Registry", Literal("(Adobe)")), ("/Ordering", Literal("(GB1)")),
    ("/Supplement", Number(2.0))]

  const DESCENDANT_PAIRS: Pairs := [("/Type", Name("/Font")), ("/Subtype", Name("/CIDFontType0")),
    ("/BaseFont", Name("/STSong-Light")), ("/CIDSystemInfo", DictOf(SYSTEM_PAIRS)),
    ("/FontDescriptor", Reference(5))]

  const FONT_BOX := Array([Number(0.0), Number(-120.0), Number(1000.0), Number(880.0)])

  const DESCRIPTOR_PAIRS: Pairs := [("/Type", Name("/FontDescriptor")), ("/FontName", Name("/STSong-Light")),
    ("/Flags", Number(4.0)), ("/FontBBox", FONT_BOX),
    ("/Ascent", Number(880.0)), ("/Descent", Number(-120.0)), ("/CapHeight", Number(700.0)), ("/StemV", Number(80.0))]

  function FontResource(fontId: nat): Pairs {
    [("/F1", Reference(fontId))]
  }

  function ResourcePairs(fontId: nat): Pairs {
    [("/Font", DictOf(FontResource(fontId)))]
  }

  const MEDIA_BOX := Array([Number(0.0), Number(0.0), Number(595.0), Number(842.0)])

  function PagePairs(pagesId: nat, fontId: nat, contentId: nat): Pairs {
    [("/Type", Name("/Page")), ("/Parent", Reference(pagesId)), ("/MediaBox", MEDIA_BOX),
     ("/Resources", DictOf(ResourcePairs(fontId))), ("/Contents", Reference(contentId))]
  }

  function ReferenceObjects(ids: seq<nat>): seq<Object> {
    seq(|ids|, i requires 0 <= i < |ids| => Reference(ids[i]))
  }

  function PagesPairs(pageIds: seq<nat>): Pairs {
    [("/Type", Name("/Pages")), ("/Kids", Array(ReferenceObjects(pageIds))), ("/Count", Number(|pageIds| as real))]
  }

  lemma TypeNames()
    ensures IsName("/Type") && IsName("/Catalog") && IsName("/Pages") && IsName("/Page") && IsName("/Font")
    ensures IsName("/F1") && IsName("/Kids") && IsName("/Count") && IsName("/Parent") && IsName("/MediaBox")
    ensures IsName("/Resources") && IsName("/Contents")
  {
  }

  lemma FontNames()
    ensures IsName("/Subtype") && IsName("/Type0") && IsName("/BaseFont") && IsName("/STSong-Light")
    ensures IsName("/Encoding") && IsName("/UniGB-UCS2-H") && IsName("/DescendantFonts")
  {
  }

  lemma DescendantNames()
    ensures IsName("/CIDFontType0") && IsName("/CIDSystemInfo") && IsName("/FontDescriptor")
    ensures IsName("/Registry") && IsName("/Ordering") && IsName("/Supplement")
    ensures IsWord("(Adobe)") && IsWord("(GB1)")
  {
  }

  lemma DescriptorNames()
    ensures IsName("/FontName") && IsName("/Flags") && IsName("/FontBBox") && IsName("/Ascent")
    ensures IsName("/Descent") && IsName("/CapHeight") && IsName("/StemV")
  {
  }

  lemma ReadFont()
    ensures ReadObject(DictText(FONT_PARTS)) == Some(DictOf(FONT_PAIRS))
  {
    TypeNames();
    FontNames();
    PrintOneReference(4);
    assert Dec(4) == "4";
    hide IsName, Print, Dec, WritesPair, Join;
    NamePart("/Type", "/Font");
    NamePart("/Subtype", "/Type0");
    NamePart("/BaseFont", "/STSong-Light");
    NamePart("/Encoding", "/UniGB-UCS2-H");
    ValuePart("/DescendantFonts", Array([Reference(4)]));
    hide Part;
    ReadDict(FONT_PARTS, FONT_PAIRS);
  }

  lemma PrintOneReference(k: nat)
    ensures Print(Array([Reference(k)])) == "[" + Ref(k) + "]"
  {
    hide Dec;
    var os := [Reference(k)];
    assert PrintAll(os) == Print(os[0]);
  }

  lemma {:induction false} PrintJoin(os: seq<Object>, words: seq<string>)
    requires |os| == |words| && forall i | 0 <= i < |os| :: Print(os[i]) == words[i]
    ensures PrintAll(os) == Join(" ", words)
  {
    hide Print;
    if |os| > 1 {
      PrintJoin(os[..|os| - 1], words[..|os| - 1]);
    }
  }

  lemma PrintNumbers(os: seq<Object>, a: int, b: int, c: int, d: int)
    requires os == [Number(a as real), Number(b as real), Number(c as real), Number(d as real)]
    ensures Print(Array(os)) == "[" + (Integer(a) + " " + Integer(b) + " " + Integer(c) + " " + Integer(d)) + "]"
    ensures Plain(Array(os))
  {
    hide Integer;
    var w := [Integer(a), Integer(b), Integer(c), Integer(d)];
    PrintJoin(os, w);
    assert w[..3][..2] == w[..2] && w[..2][..1] == w[..1];
    assert Join(" ", w[..1]) == w[0] && Join(" ", w[..2]) == w[0] + " " + w[1];
    assert Join(" ", w[..3]) == w[0] + " " + w[1] + " " + w[2];
  }

  lemma Numerals()
    ensures Integer(0) == "0" && Integer(2) == "2" && Integer(4) == "4" && Integer(80) == "80"
    ensures Integer(595) == "595" && Integer(700) == "700" && Integer(842) == "842" && Integer(880) == "880"
    ensures Integer(-120) == "-120" && Integer(1000) == "1000"
  {
    assert Dec(10) == "10" && Dec(12) == "12" && Dec(59) == "59" && Dec(70) == "70" && Dec(84) == "84"
           && Dec(88) == "88" && Dec(100) == "100";
  }

  lemma Boxes()
    ensures Print(MEDIA_BOX) == "[0 0 595 842]" && Plain(MEDIA_BOX)
    ensures Print(FONT_BOX) == "[0 -120 1000 880]" && Plain(FONT_BOX)
  {
    Numerals();
    hide Integer, Dec;
    PrintNumbers(MEDIA_BOX.items, 0, 0, 595, 842);
    PrintNumbers(FONT_BOX.items, 0, -120, 1000, 880);
  }

  lemma ReadCatalog()
    ensures ReadObject(DictText(CATALOG_PARTS)) == Some(DictOf(CATALOG_PAIRS))
  {
    TypeNames();
    assert Dec(2) == "2";
    hide IsName, Print, Dec, WritesPair, Join;
    NamePart("/Type", "/Catalog");
    ReferencePart("/Pages", 2);
    hide Part;
    ReadDict(CATALOG_PARTS, CATALOG_PAIRS);
  }

  lemma SystemInfo()
    ensures Print(DictOf(SYSTEM_PAIRS)) == DictText(SYSTEM_PARTS) && Plain(DictOf(SYSTEM_PAIRS))
  {
    DescendantNames();
    Numerals();
    hide IsName, IsWord, Dec, Integer, WritesPair, Join;
    ValuePart("/Registry", Literal("(Adobe)"));
    ValuePart("/Ordering", Literal("(GB1)"));
    NumberPart("/Supplement", 2, "2");
    hide Part;
    ReadDict(SYSTEM_PARTS, SYSTEM_PAIRS);
  }

  lemma Five()
    ensures Ref(5) == "5 0 R"
  {
    assert Dec(5) == "5";
  }

  lemma ReadDescendant()
    ensures ReadObject(DictText(DESCENDANT_PARTS)) == Some(DictOf(DESCENDANT_PAIRS))
  {
    hide IsName, IsWord, Print, Dec, WritesPair, Join, DictText, DictOf, Plain;
    TypeNames();
    FontNames();
    DescendantNames();
    SystemInfo();
    Five();
    NamePart("/Type", "/Font");
    NamePart("/Subtype", "/CIDFontType0");
    NamePart("/BaseFont", "/STSong-Light");
    ValuePart("/CIDSystemInfo", DictOf(SYSTEM_PAIRS));
    ReferencePart("/FontDescriptor", 5);
    hide Part;
    ReadDict(DESCENDANT_PARTS, DESCENDANT_PAIRS);
  }

  lemma ReadDescriptor()
    ensures ReadObject(DictText(DESCRIPTOR_PARTS)) == Some(DictOf(DESCRIPTOR_PAIRS))
  {
    TypeNames();
    FontNames();
    DescendantNames();
    DescriptorNames();
    Boxes();
    Numerals();
    hide IsName, IsWord, Print, Dec, Integer, WritesPair, Join, DictText, DictOf, Plain;
    NamePart("/Type", "/FontDescriptor");
    NamePart("/FontName", "/STSong-Light");
    NumberPart("/Flags", 4, "4");
    ValuePart("/FontBBox", FONT_BOX);
    NumberPart("/Ascent", 880, "880");
    NumberPart("/Descent", -120, "-120");
    NumberPart("/CapHeight", 700, "700");
    NumberPart("/StemV", 80, "80");
    hide Part;
    ReadDict(DESCRIPTOR_PARTS, DESCRIPTOR_PAIRS);
  }

  lemma ReadPageObject(pagesId: nat, fontId: nat, contentId: nat)
    ensures ReadObject(PageObject(pagesId, fontId, contentId)) == Some(DictOf(PagePairs(pagesId, fontId, contentId)))
  {
    TypeNames();
    Boxes();
    hide IsName, IsWord, Print, Dec, Integer, WritesPair, Join, DictText, DictOf, Plain, Ref;
    ReferencePart("/F1", fontId);
    ReadDict([Part("/F1", Ref(fontId))], FontResource(fontId));
    ValuePart("/Font", DictOf(FontResource(fontId)));
    ReadDict(ResourceParts(fontId), ResourcePairs(fontId));
    NamePart("/Type", "/Page");
    ReferencePart("/Parent", pagesId);
    ValuePart("/MediaBox", MEDIA_BOX);
    ValuePart("/Resources", DictOf(ResourcePairs(fontId)));
    ReferencePart("/Contents", contentId);
    hide Part;
    ReadDict(PageParts(pagesId, fontId, contentId), PagePairs(pagesId, fontId, contentId));
  }

  lemma PrintKids(ids: seq<nat>)
    ensures Print(Array(ReferenceObjects(ids))) == "[" + Kids(ids) + "]"
    ensures Plain(Array(ReferenceObjects(ids)))
  {
    hide Dec;
    PrintJoin(ReferenceObjects(ids), References(ids));
  }

  lemma ReadPagesObject(ids: seq<nat>)
    ensures ReadObject(DictText(PagesParts(ids))) == Some(DictOf(PagesPairs(ids)))
  {
    TypeNames();
    PrintKids(ids);
    assert Integer(|ids|) == Dec(|ids|);
    hide IsName, IsWord, Print, Dec, Integer, WritesPair, Join, DictText, DictOf, Plain, Ref, Kids, ReferenceObjects;
    NamePart("/Type", "/Pages");
    ValuePart("/Kids", Array(ReferenceObjects(ids)));
    NumberPart("/Count", |ids|, Dec(|ids|));
    hide Part;
    ReadDict(PagesParts(ids), PagesPairs(ids));
  }

  lemma {:induction false} FindFirst(a: string, pattern: string, b: string)
    requires pattern != [] && forall i | 0 <= i < |a| :: a[i] != pattern[0]
    ensures Find(a + (pattern + b), pattern) == Some((a, b))
  {
    var s := a + (pattern + b);
    if a == [] {
      assert s == pattern + b && s[|pattern|..] == b;
    } else {
      assert s[0] == a[0] && s[1..] == a[1..] + (pattern + b);
      FindFirst(a[1..], pattern, b);
      assert [a[0]] + a[1..] == a;
    }
  }

  lemma ReadStreamObject(content: string)
    ensures ReadStream(StreamObject(content)) == Some(content)
  {
    hide Find, ReadObject, DictText, DictOf, Lookup;
    var parts, pairs: Pairs := [Part("/Length", Dec(|content|))], [("/Length", Number(|content| as real))];
    var rest := content + END_STREAM;
    LengthPart(|content|);
    ReadDict(parts, pairs);
    FindFirst(DictText(parts), STREAM, rest);
    LookupPairs(pairs, 0);
    assert rest[..|content|] == content && rest[|content|..] == END_STREAM;
  }

  lemma LengthPart(n: nat)
    ensures WritesPair(Part("/Length", Dec(n)), ("/Length", Number(n as real)))
    ensures var text := DictText([Part("/Length", Dec(n))]);
            forall i | 0 <= i < |text| :: text[i] != STREAM[0]
  {
    var part := Part("/Length", Dec(n));
    assert IsName("/Length");
    NumberPart("/Length", n, Dec(n));
    assert DictText([part]) == "<< " + part + " >>";
    assert STREAM[0] == '\n' && forall i | 0 <= i < |part| :: part[i] != '\n';
    hide WritesPair;
  }

  // ---- following the references ----

  lemma CatalogLookups()
    ensures Lookup(DictOf(CATALOG_PAIRS), "/Type") == Some(Name("/Catalog"))
    ensures Lookup(DictOf(CATALOG_PAIRS), "/Pages") == Some(Reference(2))
  {
    hide Lookup, DictOf;
    LookupPairs(CATALOG_PAIRS, 0);
    LookupPairs(CATALOG_PAIRS, 1);
  }

  lemma FontLookups()
    ensures Lookup(DictOf(FONT_PAIRS), "/Type") == Some(Name("/Font"))
    ensures Lookup(DictOf(FONT_PAIRS), "/Subtype") == Some(Name("/Type0"))
    ensures Lookup(DictOf(FONT_PAIRS), "/Encoding") == Some(Name("/UniGB-UCS2-H"))
    ensures Lookup(DictOf(FONT_PAIRS), "/DescendantFonts") == Some(Array([Reference(4)]))
  {
    hide Lookup, DictOf;
    LookupPairs(FONT_PAIRS, 0);
    LookupPairs(FONT_PAIRS, 1);
    LookupPairs(FONT_PAIRS, 3);
    LookupPairs(FONT_PAIRS, 4);
  }

  lemma DescendantLookups()
    ensures Lookup(DictOf(DESCENDANT_PAIRS), "/Type") == Some(Name("/Font"))
    ensures Lookup(DictOf(DESCENDANT_PAIRS), "/Subtype") == Some(Name("/CIDFontType0"))
    ensures Lookup(DictOf(DESCENDANT_PAIRS), "/FontDescriptor") == Some(Reference(5))
    ensures Lookup(DictOf(DESCRIPTOR_PAIRS), "/Type") == Some(Name("/FontDescriptor"))
  {
    hide Lookup, DictOf;
    LookupPairs(DESCENDANT_PAIRS, 0);
    LookupPairs(DESCENDANT_PAIRS, 1);
    LookupPairs(DESCENDANT_PAIRS, 4);
    LookupPairs(DESCRIPTOR_PAIRS, 0);
  }

  lemma PageLookups(p: nat, f: nat, c: nat)
    ensures var page := DictOf(PagePairs(p, f, c));
            && Lookup(page, "/Type") == Some(Name("/Page"))
            && Lookup(page, "/Parent") == Some(Reference(p))
            && Lookup(page, "/Resources") == Some(DictOf(ResourcePairs(f)))
            && Lookup(page, "/Contents") == Some(Reference(c))
            && Lookup(DictOf(ResourcePairs(f)), "/Font") == Some(DictOf(FontResource(f)))
            && Lookup(DictOf(FontResource(f)), "/F1") == Some(Reference(f))
  {
    hide Lookup, DictOf;
    var ps := PagePairs(p, f, c);
    LookupPairs(ps, 0);
    LookupPairs(ps, 1);
    LookupPairs(ps, 3);
    LookupPairs(ps, 4);
    LookupPairs(ResourcePairs(f), 0);
    LookupPairs(FontResource(f), 0);
  }

  lemma PagesLookups(ids: seq<nat>)
    ensures var tree := DictOf(PagesPairs(ids));
            && Lookup(tree, "/Type") == Some(Name("/Pages"))
            && Lookup(tree, "/Kids") == Some(Array(ReferenceObjects(ids)))
            && Lookup(tree, "/Count") == Some(Number(|ids| as real))
  {
    hide Lookup, DictOf;
    LookupPairs(PagesPairs(ids), 0);
    LookupPairs(PagesPairs(ids), 1);
    LookupPairs(PagesPairs(ids), 2);
  }

  // Main result on the object graph.  For p pages there are 5 + 2p objects; the catalog, the page
  // tree, the composite font, its descendant and its descriptor are objects 1 to 5; page i (from
  // 0) is object 7 + 2i, names the page tree as its parent and font 3 as its font, and has its
  // contents in object 6 + 2i; the tree lists exactly these pages and counts them.
  lemma ObjectGraph(pages: seq<seq<PdfLine>>, i: nat)
    requires AllEncodable(pages) && i < |pages|
    ensures var objects, p := Objects(pages), |pages|;
            && |objects| == 5 + 2 * p
            && TypedObject(objects, 1, "/Catalog") == Some(DictOf(CATALOG_PAIRS))
            && TypedObject(objects, 2, "/Pages") == Some(DictOf(PagesPairs(PageIds(p))))
            && IsFont(objects, 3)
            && TypedObject(objects, 7 + 2 * i, "/Page") == Some(DictOf(PagePairs(2, 3, 6 + 2 * i)))
            && ReadStream(objects[5 + 2 * i]) == Some(ContentStream(pages[i], i + 1, p))
  {
    FixedGraph(pages);
    PageGraph(pages, i);
  }

  lemma TypedOf(objects: seq<string>, id: nat, kind: string, o: Object)
    requires 1 <= id <= |objects| && ReadObject(objects[id - 1]) == Some(o)
    requires Lookup(o, "/Type") == Some(Name(kind))
    ensures TypedObject(objects, id, kind) == Some(o)
  {
    hide ReadObject, Lookup;
  }

  lemma ObjectAtIndex(pages: seq<seq<PdfLine>>)
    requires AllEncodable(pages)
    ensures var objects := Objects(pages);
            && objects[..5] == FixedObjects(DictText(PagesParts(PageIds(|pages|))))
            && objects[5..] == PageObjects(pages, |pages|)
  {
    hide DictText, PageObjects, PagesParts, FixedObjects, PageIds;
  }

  lemma FixedAtIndex(objects: seq<string>, tree: string)
    requires |objects| >= 5 && objects[..5] == FixedObjects(tree)
    ensures objects[0] == DictText(CATALOG_PARTS) && objects[1] == tree && objects[2] == DictText(FONT_PARTS)
    ensures objects[3] == DictText(DESCENDANT_PARTS) && objects[4] == DictText(DESCRIPTOR_PARTS)
  {
    hide DictText, CATALOG_PARTS, FONT_PARTS, DESCENDANT_PARTS, DESCRIPTOR_PARTS;
    var fixed := FixedObjects(tree);
    assert objects[..5][0] == fixed[0] && objects[..5][1] == fixed[1] && objects[..5][2] == fixed[2]
           && objects[..5][3] == fixed[3] && objects[..5][4] == fixed[4];
  }

  lemma FixedGraph(pages: seq<seq<PdfLine>>)
    requires AllEncodable(pages)
    ensures var objects, p := Objects(pages), |pages|;
            && TypedObject(objects, 1, "/Catalog") == Some(DictOf(CATALOG_PAIRS))
            && TypedObject(objects, 2, "/Pages") == Some(DictOf(PagesPairs(PageIds(p))))
            && IsFont(objects, 3)
  {
    hide *;
    ReadCatalog();
    ReadPagesObject(PageIds(|pages|));
    CatalogLookups();
    PagesLookups(PageIds(|pages|));
    ObjectAtIndex(pages);
    var objects := Objects(pages);
    FixedAtIndex(objects, DictText(PagesParts(PageIds(|pages|))));
    TypedOf(objects, 1, "/Catalog", DictOf(CATALOG_PAIRS));
    TypedOf(objects, 2, "/Pages", DictOf(PagesPairs(PageIds(|pages|))));
    FontGraph(objects);
  }

  lemma FontGraph(objects: seq<string>)
    requires |objects| >= 5 && objects[2] == DictText(FONT_PARTS)
    requires objects[3] == DictText(DESCENDANT_PARTS) && objects[4] == DictText(DESCRIPTOR_PARTS)
    ensures IsFont(objects, 3)
  {
    ReadFont();
    ReadDescendant();
    ReadDescriptor();
    FontLookups();
    DescendantLookups();
    hide ReadObject, Lookup, DictText, DictOf;
  }

  lemma PageGraph(pages: seq<seq<PdfLine>>, i: nat)
    requires AllEncodable(pages) && i < |pages|
    ensures var objects := Objects(pages);
            && TypedObject(objects, 7 + 2 * i, "/Page") == Some(DictOf(PagePairs(2, 3, 6 + 2 * i)))
            && ReadStream(objects[5 + 2 * i]) == Some(ContentStream(pages[i], i + 1, |pages|))
  {
    hide *;
    PageObjectsAt(pages, |pages|, i);
    ObjectAtIndex(pages);
    PageGraphAt(Objects(pages), PageObjects(pages, |pages|), i, ContentObject(pages, i));
    ContentObjectOf(pages, i);
  }

  lemma PageGraphAt(objects: seq<string>, added: seq<string>, i: nat, content: string)
    requires |objects| >= 5 && objects[5..] == added && 2 * i + 1 < |added|
    requires added[2 * i] == content && added[2 * i + 1] == PageObject(2, 3, 6 + 2 * i)
    ensures TypedObject(objects, 7 + 2 * i, "/Page") == Some(DictOf(PagePairs(2, 3, 6 + 2 * i)))
    ensures objects[5 + 2 * i] == content
  {
    hide *;
    var page := DictOf(PagePairs(2, 3, 6 + 2 * i));
    assert objects[5..][2 * i + 1] == objects[6 + 2 * i];
    ReadPageObject(2, 3, 6 + 2 * i);
    PageLookups(2, 3, 6 + 2 * i);
    TypedOf(objects, 7 + 2 * i, "/Page", page);
  }

  lemma ContentObjectOf(pages: seq<seq<PdfLine>>, i: nat)
    requires AllEncodable(pages) && i < |pages|
    ensures ReadStream(ContentObject(pages, i)) == Some(ContentStream(pages[i], i + 1, |pages|))
  {
    hide ReadStream, StreamObject, ContentStream;
    ReadStreamObject(ContentStream(pages[i], i + 1, |pages|));
  }

  lemma ReadPageSteps(objects: seq<string>, id: nat, page: Object, resources: Object, fonts: Object,
                      c: nat, stream: string)
    requires TypedObject(objects, id, "/Page") == Some(page) && 1 <= c <= |objects|
    requires Lookup(page, "/Parent") == Some(Reference(2)) && Lookup(page, "/Resources") == Some(resources)
    requires Lookup(resources, "/Font") == Some(fonts) && Lookup(fonts, "/F1") == Some(Reference(3))
    requires Lookup(page, "/Contents") == Some(Reference(c)) && IsFont(objects, 3)
    requires ReadStream(objects[c - 1]) == Some(stream)
    ensures ReadPage(objects, 2, id) == Render(stream)
  {
    hide TypedObject, Lookup, IsFont, ReadStream, Render;
  }

  lemma PageEncodes(pages: seq<seq<PdfLine>>, i: nat)
    requires AllEncodable(pages) && i < |pages|
    ensures PageEncodable(pages[i])
  {
    hide PageEncodable;
  }

  lemma ReadPageOf(pages: seq<seq<PdfLine>>, i: nat)
    requires AllEncodable(pages) && i < |pages|
    ensures ReadPage(Objects(pages), 2, 7 + 2 * i) == Some(PageMarks(pages[i], i + 1, |pages|))
  {
    hide *;
    var c := 6 + 2 * i;
    PageEncodes(pages, i);
    FixedGraph(pages);
    PageGraph(pages, i);
    PageLookups(2, 3, c);
    ReadPageSteps(Objects(pages), 7 + 2 * i, DictOf(PagePairs(2, 3, c)), DictOf(ResourcePairs(3)),
                  DictOf(FontResource(3)), c, ContentStream(pages[i], i + 1, |pages|));
    RenderContent(pages[i], i + 1, |pages|);
  }

  // What the pages of a document should show.
  function DocumentMarks(pages: seq<seq<PdfLine>>, n: nat): (marks: seq<seq<Mark>>)
    requires n <= |pages|
    ensures |marks| == n && forall i | 0 <= i < n :: marks[i] == PageMarks(pages[i], i + 1, |pages|)
  {
    if n == 0 then [] else DocumentMarks(pages, n - 1) + [PageMarks(pages[n - 1], n, |pages|)]
  }

  lemma {:induction false} ReadPagesOf(pages: seq<seq<PdfLine>>, n: nat)
    requires AllEncodable(pages) && n <= |pages|
    ensures ReadPages(Objects(pages), 2, ReferenceObjects(PageIds(n))) == Some(DocumentMarks(pages, n))
  {
    hide Objects, ReadPage, PageMarks;
    if n > 0 {
      ReadPagesOf(pages, n - 1);
      ReadPageOf(pages, n - 1);
      assert ReferenceObjects(PageIds(n))[..n - 1] == ReferenceObjects(PageIds(n - 1));
    }
  }

  lemma ReadTreeSteps(objects: seq<string>, catalog: Object, tree: Object, kids: seq<Object>)
    requires TypedObject(objects, 1, "/Catalog") == Some(catalog) && TypedObject(objects, 2, "/Pages") == Some(tree)
    requires Lookup(catalog, "/Pages") == Some(Reference(2)) && Lookup(tree, "/Kids") == Some(Array(kids))
    requires Lookup(tree, "/Count") == Some(Number(|kids| as real))
    ensures ReadTree(objects, 1) == ReadPages(objects, 2, kids)
  {
    hide TypedObject, Lookup, ReadPages;
  }

  lemma PageIdCount(n: nat)
    ensures |PageIds(n)| == n && |ReferenceObjects(PageIds(n))| == n
  {
  }

  lemma ReadTreeOf(pages: seq<seq<PdfLine>>)
    requires AllEncodable(pages)
    ensures ReadTree(Objects(pages), 1) == Some(DocumentMarks(pages, |pages|))
  {
    hide *;
    var ids := PageIds(|pages|);
    PageIdCount(|pages|);
    FixedGraph(pages);
    CatalogLookups();
    PagesLookups(ids);
    ReadTreeSteps(Objects(pages), DictOf(CATALOG_PAIRS), DictOf(PagesPairs(ids)), ReferenceObjects(ids));
    ReadPagesOf(pages, |pages|);
  }

  // Main result on the document.  Reading back the exported bytes gives, page by page, exactly
  // the marks the pages call for: every line once, in order, in its style and at its place, and
  // one footer.  It does so if and only if the last object starts below 10^10.
  lemma ReadDocumentOf(pages: seq<seq<PdfLine>>)
    requires AllEncodable(pages)
    ensures ReadDocument(File(Objects(pages), 1))
            == if AllFit(Offsets(Objects(pages))) then Some(DocumentMarks(pages, |pages|)) else None
  {
    hide Objects, ReadTree, DocumentMarks, File, ReadFile, AllFit, Offsets;
    ReadTreeOf(pages);
    ReadFileOf(Objects(pages), 1);
  }
}
