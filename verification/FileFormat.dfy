// The file structure of the exported PDF: numbered objects, the cross-reference table of
// absolute offsets and the trailer (ISO 32000-1 sections 7.3.10, 7.5.4 and 7.5.5).
module FileFormat {
  import opened Wrappers
  import opened Numbers
  import opened Syntax
  import opened Printing

  const HEADER := "%PDF-1.4\n"
  const FREE_ENTRY := "0000000000 65535 f \n"
  const IN_USE := " 00000 n \n"
  const END_OBJECT := "\nendobj\n"
  const END_FILE := "\n%%EOF\n"
  const START_XREF := "startxref\n"
  const TRAILER := "trailer\n"

  // ---- what the file is ----

  function ObjectFrame(number: nat, content: string): string {
    Dec(number) + (" 0 obj\n" + (content + END_OBJECT))
  }

  // The file up to the cross-reference table.
  function Body(objects: seq<string>): string {
    if objects == [] then HEADER
    else Body(objects[..|objects| - 1]) + ObjectFrame(|objects|, objects[|objects| - 1])
  }

  // Where each object starts.
  function Offsets(objects: seq<string>): (offsets: seq<nat>)
    ensures |offsets| == |objects|
  {
    if objects == [] then []
    else
      var front := objects[..|objects| - 1];
      Offsets(front) + [|Body(front)|]
  }

  function Entry(offset: nat): string {
    Pad(offset, 10) + IN_USE
  }

  function Entries(offsets: seq<nat>): string {
    if offsets == [] then "" else Entries(offsets[..|offsets| - 1]) + Entry(offsets[|offsets| - 1])
  }

  function XrefHead(size: nat): string {
    "xref\n0 " + (Dec(size) + ("\n" + FREE_ENTRY))
  }

  function TrailerParts(size: nat, root: nat): seq<string> {
    [Part("/Size", Dec(size)), Part("/Root", Ref(root))]
  }

  function Trailer(size: nat, root: nat): string {
    TRAILER + (DictText(TrailerParts(size, root)) + "\n")
  }

  function File(objects: seq<string>, root: nat): string {
    var size := |objects| + 1;
    Body(objects) + (XrefHead(size) + (Entries(Offsets(objects))
    + (Trailer(size, root) + (START_XREF + (Dec(|Body(objects)|) + END_FILE)))))
  }

  // ---- writing it ----

  // The byte buffer and the list of offsets grow together, object by object.
  method AssemblePdf(objects: seq<string>, catalogId: nat) returns (file: string)
    ensures file == File(objects, catalogId)
  {
    var buffer := HEADER;
    var offsets := [0];
    var index := 1;
    while index <= |objects|
      invariant 1 <= index <= |objects| + 1
      invariant buffer == Body(objects[..index - 1])
      invariant |offsets| >= 1 && offsets[1..] == Offsets(objects[..index - 1])
    {
      assert objects[..index][..index - 1] == objects[..index - 1];
      offsets := offsets + [|buffer|];
      buffer := buffer + (Dec(index) + (" 0 obj\n" + (objects[index - 1] + END_OBJECT)));
      index := index + 1;
    }
    assert objects[..index - 1] == objects;
    ghost var body := buffer;
    var xrefOffset := |buffer|;
    var head := "xref\n0 " + (Dec(|objects| + 1) + ("\n" + FREE_ENTRY));
    var table := "";
    var next := 1;
    while next < |offsets|
      invariant 1 <= next <= |offsets|
      invariant table == Entries(offsets[1..next])
    {
      assert offsets[1..next + 1][..next - 1] == offsets[1..next];
      table := table + (Pad(offsets[next], 10) + IN_USE);
      next := next + 1;
    }
    assert offsets[1..next] == Offsets(objects);
    var trailer := Trailer(|objects| + 1, catalogId);
    file := buffer + (head + (table + (trailer + (START_XREF + (Dec(xrefOffset) + END_FILE)))));
  }

  // ---- reading a file ----

  function After(prefix: string, s: string): Option<string> {
    if prefix <= s then Some(s[|prefix|..]) else None
  }

  function Before(s: string, suffix: string): Option<string> {
    if |suffix| <= |s| && s[|s| - |suffix|..] == suffix then Some(s[..|s| - |suffix|]) else None
  }

  // How many digits end s.
  function DigitTail(s: string): (k: nat)
    ensures k <= |s| && AllDigits(s[|s| - k..])
  {
    if s == [] || !IsDigit(s[|s| - 1]) then 0
    else
      var k := DigitTail(s[..|s| - 1]);
      assert s[|s| - 1 - k..] == s[..|s| - 1][|s| - 1 - k..] + [s[|s| - 1]];
      k + 1
  }

  // The last two lines before the end-of-file marker give the position of the table; the rest of
  // the file is what stands before them.
  function ReadStartXref(f: string): Option<(string, nat)> {
    var g :- Before(f, "\n%%EOF\n");
    var k := DigitTail(g);
    var rest :- Before(g[..|g| - k], "startxref\n");
    if k == 0 then None else Some((rest, Value(g[|g| - k..])))
  }

  // An entry has exactly 20 bytes: ten digits, then the fixed part.
  function ReadEntry(s: string): Option<nat> {
    if |s| >= 20 && AllDigits(s[..10]) && s[10..20] == " 00000 n \n" then Some(Value(s[..10])) else None
  }

  function ReadEntries(s: string, n: nat): Option<(seq<nat>, string)> {
    if n == 0 then Some(([], s))
    else
      var offset :- ReadEntry(s);
      if |s| < 20 then None
      else
        var (offsets, rest) :- ReadEntries(s[20..], n - 1);
        Some(([offset] + offsets, rest))
  }

  // The number of entries a table announces, and what follows its free entry.
  function ReadXrefHead(s: string): Option<(nat, string)> {
    var s1 :- After("xref\n0 ", s);
    var (size, s2) :- ReadNat(s1);
    var s3 :- After("\n", s2);
    var s4 :- After("0000000000 65535 f \n", s3);
    Some((size, s4))
  }

  // The trailer is a dictionary with the size of the table and a reference to the root.
  function ReadTrailer(s: string): Option<(nat, nat)> {
    var text :- After("trailer\n", s);
    var dict :- ReadObject(text);
    var size :- NatValue(dict, "/Size");
    var root :- RefValue(dict, "/Root");
    Some((size, root))
  }

  // The content of the object between two offsets, when it bears the expected number.
  function ReadObjectAt(f: string, number: nat, from: nat, to: nat): Option<string> {
    if !(from <= to <= |f|) then None
    else
      var (n, s1) :- ReadNat(f[from..to]);
      var s2 :- After(" 0 obj\n", s1);
      if n == number then Before(s2, "\nendobj\n") else None
  }

  function ReadObjects(f: string, offsets: seq<nat>, end: nat): Option<seq<string>> {
    if offsets == [] then Some([])
    else
      var last := offsets[|offsets| - 1];
      var front :- ReadObjects(f, offsets[..|offsets| - 1], last);
      var content :- ReadObjectAt(f, |offsets|, last, end);
      Some(front + [content])
  }

  // A file starts with its version (section 7.5.2).
  function ReadFile(file: string): Option<(seq<string>, nat)> {
    var _ :- After("%PDF-1.4\n", file);
    var (f, start) :- ReadStartXref(file);
    if start > |f| then None
    else
      var (size, s1) :- ReadXrefHead(f[start..]);
      if size == 0 then None
      else
        var (offsets, s2) :- ReadEntries(s1, size - 1);
        var (size', root) :- ReadTrailer(s2);
        if size' != size then None
        else
          var objects :- ReadObjects(f, offsets, start);
          Some((objects, root))
  }

  // ---- reading undoes writing ----

  lemma AfterPrefix(p: string, s: string)
    ensures After(p, p + s) == Some(s)
  {
    assert (p + s)[..|p|] == p && (p + s)[|p|..] == s;
  }

  lemma BeforeSuffix(s: string, p: string)
    ensures Before(s + p, p) == Some(s)
  {
    assert (s + p)[|s|..] == p && (s + p)[..|s|] == s;
  }

  lemma {:induction false} DigitTailOf(h: string, d: string)
    requires AllDigits(d) && (h == [] || !IsDigit(h[|h| - 1]))
    ensures DigitTail(h + d) == |d|
  {
    if d == [] {
      assert h + d == h;
    } else {
      assert (h + d)[..|h| + |d| - 1] == h + d[..|d| - 1];
      DigitTailOf(h, d[..|d| - 1]);
    }
  }

  lemma StartXrefOf(p: string, x: nat)
    ensures ReadStartXref(p + START_XREF + Dec(x) + END_FILE) == Some((p, x))
  {
    var h := p + START_XREF;
    var g := h + Dec(x);
    BeforeSuffix(g, END_FILE);
    assert h[|h| - 1] == START_XREF[|START_XREF| - 1];
    DigitTailOf(h, Dec(x));
    assert g[..|g| - |Dec(x)|] == h && g[|g| - |Dec(x)|..] == Dec(x);
    BeforeSuffix(p, START_XREF);
    ValueDec(x);
  }

  lemma EntryOf(offset: nat, rest: string)
    ensures ReadEntry(Entry(offset) + rest) == if offset < Pow10(10) then Some(offset) else None
    ensures |Entry(offset)| == 20 <==> offset < Pow10(10)
  {
    hide Pad, Pow10, Value;
    var d := Pad(offset, 10);
    var s := Entry(offset) + rest;
    assert s == d + (IN_USE + rest);
    PadWidth(offset, 10);
    ValuePad(offset, 10);
    if |d| == 10 {
      assert s[..10] == d && s[10..20] == IN_USE;
    } else {
      assert s[10] == d[10];
      assert |s| >= 20 ==> s[10..20][0] == s[10] && s[10] != IN_USE[0];
    }
  }

  predicate AllFit(offsets: seq<nat>) {
    forall i | 0 <= i < |offsets| :: offsets[i] < Pow10(10)
  }

  lemma {:induction false} EntriesCons(offsets: seq<nat>)
    requires offsets != []
    ensures Entries(offsets) == Entry(offsets[0]) + Entries(offsets[1..])
  {
    hide Entry;
    var n := |offsets|;
    if n == 1 {
      assert Entries(offsets[..0]) == "" && Entries(offsets[1..]) == "";
    } else {
      var middle := offsets[1..][..n - 2];
      EntriesCons(offsets[..n - 1]);
      assert offsets[..n - 1][1..] == middle;
      Regroup(Entry(offsets[0]), Entries(middle), Entry(offsets[n - 1]));
    }
  }

  lemma Regroup(a: string, b: string, c: string)
    ensures a + b + c == a + (b + c)
  {
  }

  // The table is readable exactly when every offset fits in its ten digits.
  lemma {:induction false} EntriesOf(offsets: seq<nat>, rest: string)
    ensures ReadEntries(Entries(offsets) + rest, |offsets|)
            == if AllFit(offsets) then Some((offsets, rest)) else None
  {
    hide Entry, ReadEntry, Pow10;
    if offsets == [] {
      assert Entries(offsets) + rest == rest;
    } else {
      var tail := Entries(offsets[1..]) + rest;
      EntriesCons(offsets);
      Regroup(Entry(offsets[0]), Entries(offsets[1..]), rest);
      EntryOf(offsets[0], tail);
      if offsets[0] < Pow10(10) {
        assert (Entry(offsets[0]) + tail)[20..] == tail;
        EntriesOf(offsets[1..], rest);
        assert [offsets[0]] + offsets[1..] == offsets;
        assert AllFit(offsets[1..]) <==> AllFit(offsets);
      }
    }
  }

  lemma XrefHeadOf(size: nat, rest: string)
    ensures ReadXrefHead(XrefHead(size) + rest) == Some((size, rest))
  {
    var s3 := FREE_ENTRY + rest;
    var s2 := "\n" + s3;
    var s1 := Dec(size) + s2;
    assert XrefHead(size) + rest == "xref\n0 " + s1;
    AfterPrefix("xref\n0 ", s1);
    ReadDec(size, s2);
    AfterPrefix("\n", s3);
    AfterPrefix(FREE_ENTRY, rest);
  }

  lemma TrailerOf(size: nat, root: nat)
    ensures ReadTrailer(Trailer(size, root)) == Some((size, root))
  {
    hide ReadObject, DictText, DictOf, Lookup;
    var pairs: Pairs := [("/Size", Number(size as real)), ("/Root", Reference(root))];
    AfterPrefix(TRAILER, DictText(TrailerParts(size, root)) + "\n");
    TrailerPairs(size, root);
    ReadDict(TrailerParts(size, root), pairs);
    ReadObjectLine(DictText(TrailerParts(size, root)));
    LookupPairs(pairs, 0);
    LookupPairs(pairs, 1);
  }

  lemma TrailerPairs(size: nat, root: nat)
    ensures Writes(TrailerParts(size, root), [("/Size", Number(size as real)), ("/Root", Reference(root))])
  {
    assert IsName("/Size") && IsName("/Root");
    hide IsName, Dec, WritesPair, Part, Ref;
    NumberPart("/Size", size, Dec(size));
    ReferencePart("/Root", root);
  }

  lemma ObjectFrameOf(f: string, number: nat, content: string, from: nat, to: nat)
    requires from <= to <= |f| && f[from..to] == ObjectFrame(number, content)
    ensures ReadObjectAt(f, number, from, to) == Some(content)
  {
    ReadDec(number, " 0 obj\n" + (content + END_OBJECT));
    AfterPrefix(" 0 obj\n", content + END_OBJECT);
    BeforeSuffix(content, END_OBJECT);
  }

  lemma {:induction false} ObjectsOf(objects: seq<string>, rest: string)
    ensures ReadObjects(Body(objects) + rest, Offsets(objects), |Body(objects)|) == Some(objects)
  {
    hide ObjectFrame, ReadObjectAt;
    if objects != [] {
      var n := |objects|;
      var front := objects[..n - 1];
      var frame := ObjectFrame(n, objects[n - 1]);
      var f := Body(objects) + rest;
      assert f == Body(front) + (frame + rest);
      ObjectsOf(front, frame + rest);
      assert f[|Body(front)|..|Body(objects)|] == frame;
      ObjectFrameOf(f, n, objects[n - 1], |Body(front)|, |Body(objects)|);
      assert Offsets(objects)[..n - 1] == Offsets(front);
      assert front + [objects[n - 1]] == objects;
    }
  }

  // The file without its last two lines.
  function Front(objects: seq<string>, root: nat): string {
    Body(objects) + (XrefHead(|objects| + 1) + (Entries(Offsets(objects)) + Trailer(|objects| + 1, root)))
  }

  lemma FileStart(objects: seq<string>, root: nat)
    ensures ReadStartXref(File(objects, root)) == Some((Front(objects, root), |Body(objects)|))
  {
    hide Body, XrefHead, Entries, Offsets, ReadStartXref, Trailer;
    StartXrefOf(Front(objects, root), |Body(objects)|);
    assert File(objects, root) == Front(objects, root) + START_XREF + Dec(|Body(objects)|) + END_FILE;
  }

  // Every offset fits in its field exactly when the last one does.
  lemma {:induction false} LastOffset(objects: seq<string>)
    ensures forall i | 0 <= i < |objects| :: Offsets(objects)[i] <= |Body(objects)|
    ensures objects != [] ==>
              (AllFit(Offsets(objects)) <==> |Body(objects[..|objects| - 1])| < Pow10(10))
  {
    if objects != [] {
      var front := objects[..|objects| - 1];
      LastOffset(front);
      assert Offsets(objects) == Offsets(front) + [|Body(front)|];
      assert Offsets(objects)[|objects| - 1] == |Body(front)|;
    }
  }

  // Every file starts with the nine characters of its version, and its first object follows them.
  lemma {:induction false} FileHeader(objects: seq<string>, root: nat)
    ensures "%PDF-1.4\n" <= Body(objects) && "%PDF-1.4\n" <= File(objects, root)
    ensures objects != [] ==> Offsets(objects)[0] == 9
  {
    hide ObjectFrame, XrefHead, Entries, Trailer;
    if objects != [] {
      FileHeader(objects[..|objects| - 1], root);
      if |objects| == 1 {
        assert Offsets(objects[..0]) == [];
        assert |Body(objects[..0])| == 9;
      }
    }
  }

  // Main result on the file structure.  A reader that starts from the end of the file, follows
  // startxref to the table and each entry to its object recovers the objects and the root; it
  // does so exactly when the last object starts below 10^10, and otherwise finds a broken table.
  lemma ReadFileOf(objects: seq<string>, root: nat)
    ensures ReadFile(File(objects, root))
            == if AllFit(Offsets(objects)) then Some((objects, root)) else None
  {
    hide Body, XrefHead, Entries, Offsets, Trailer, File, ReadStartXref, ReadXrefHead, ReadEntries,
      ReadTrailer, ReadObjects, AllFit;
    var size := |objects| + 1;
    var s2 := Trailer(size, root);
    var s1 := Entries(Offsets(objects)) + s2;
    var table := XrefHead(size) + s1;
    FileHeader(objects, root);
    FileStart(objects, root);
    assert Front(objects, root)[|Body(objects)|..] == table;
    XrefHeadOf(size, s1);
    EntriesOf(Offsets(objects), s2);
    TrailerOf(size, root);
    ObjectsOf(objects, table);
  }

  // A file whose first object has 10^10 characters is written and cannot be read.
  lemma TooLong() returns (objects: seq<string>)
    ensures ReadFile(File(objects, 1)) == None
  {
    hide ReadFile, File, ObjectFrame, Pow10;
    objects := [Zeros(Pow10(10)), ""];
    var first := objects[..1];
    assert |ObjectFrame(1, objects[0])| >= Pow10(10) by { FrameLength(1, objects[0]); }
    assert first[..0] == [] && first[0] == objects[0];
    LastOffset(objects);
    ReadFileOf(objects, 1);
  }

  lemma FrameLength(number: nat, content: string)
    ensures |ObjectFrame(number, content)| == |Dec(number)| + 15 + |content|
  {
  }

  // Where each table entry points: at the bytes `i 0 obj` of its own object.
  lemma {:induction false} EntryPoints(objects: seq<string>, i: nat, rest: string)
    requires 1 <= i <= |objects|
    ensures var header := Dec(i) + " 0 obj\n";
            var o := Offsets(objects)[i - 1];
            o <= |Body(objects) + rest| && header <= (Body(objects) + rest)[o..]
  {
    var n := |objects|;
    var front, frame := objects[..n - 1], ObjectFrame(n, objects[n - 1]);
    assert Body(objects) + rest == Body(front) + (frame + rest);
    if i == n {
      assert (Body(objects) + rest)[|Body(front)|..] == frame + rest;
      assert frame + rest == (Dec(i) + " 0 obj\n") + (objects[n - 1] + END_OBJECT + rest);
    } else {
      EntryPoints(front, i, frame + rest);
    }
  }
}
