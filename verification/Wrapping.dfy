// How far wrapped lines reach to the right, and how few chunks would have been enough.
module Wrapping {
  import opened Text
  import opened Greedy
  import opened Layout

  // ---- the right margin ----

  // Where the estimated right end of a line falls.
  function RightEdge(line: PdfLine): real {
    MARGIN_LEFT + line.indent + Width(line.text) * StyleOf(line.style).size
  }

  lemma ChunkExtent(text: Text, room: real, size: real, i: nat)
    requires 8.0 * size <= room && 1.0 <= size && i < |WrapText(text, room / size)|
    ensures Width(WrapText(text, room / size)[i]) * size <= room
  {
    Division(room, size);
    ChunkWidth(text, room / size, i);
    hide WrapText, Width;
    var w, units := Width(WrapText(text, room / size)[i]), room / size;
    assert (units - w) * size >= 0.0;
  }

  // Whenever eight units fit beside the indent, first chunks stay left of the right margin (541)
  // and continuation chunks, whose extra 12 points are not deducted, left of 553.
  lemma RightEdgeBound(line: PdfLine, i: nat)
    requires 8.0 * StyleOf(line.style).size <= 487.0 - line.indent
    requires i < |WrapLine(line)|
    ensures RightEdge(WrapLine(line)[i]) <= if i == 0 then 541.0 else 553.0
  {
    hide StyleOf, WrapText, Cost, LineChunk;
    var size := StyleOf(line.style).size;
    Division(487.0 - line.indent, size);
    ChunkExtent(line.text, 487.0 - line.indent, size, i);
    assert AvailableUnits(line) == (487.0 - line.indent) / size;
    var chunk := WrapText(line.text, AvailableUnits(line))[i];
    assert WrapLine(line)[i] == LineChunk(line, i, chunk);
    ChunkEdge(line, i, chunk);
  }

  lemma ChunkEdge(line: PdfLine, i: nat, chunk: Text)
    ensures RightEdge(LineChunk(line, i, chunk))
            == 54.0 + line.indent + (if i > 0 then 12.0 else 0.0) + Width(chunk) * StyleOf(line.style).size
  {
    hide StyleOf, Width;
  }

  lemma Division(a: real, b: real)
    requires 8.0 * b <= a && b > 0.0
    ensures (a / b) * b == a && a / b >= 8.0
  {
    var q := a / b;
    assert q * b == a && (8.0 - q) * b <= 0.0;
  }

  function Wide(n: nat): (t: Text)
    ensures |t| == n && forall i | 0 <= i < n :: t[i] == 0x4E2D
  {
    seq(n, _ => 0x4E2D)
  }

  lemma {:induction false} WidthOfWide(n: nat)
    ensures Width(Wide(n)) == n as real
  {
    if n > 0 {
      assert Wide(n)[..n - 1] == Wide(n - 1);
      WidthOfWide(n - 1);
    }
  }

  // The condition is exact: when eight units do not fit beside the indent, a text of eight wide
  // characters crosses the margin.
  lemma RightEdgeExact(style: string, indent: real, gap: real)
    ensures 8.0 * StyleOf(style).size <= 487.0 - indent
       <==> forall t: Text :: RightEdge(WrapLine(PdfLine(t, style, indent, gap))[0]) <= 541.0
  {
    var size := StyleOf(style).size;
    if 8.0 * size <= 487.0 - indent {
      forall t: Text ensures RightEdge(WrapLine(PdfLine(t, style, indent, gap))[0]) <= 541.0 {
        RightEdgeBound(PdfLine(t, style, indent, gap), 0);
      }
    } else {
      var line := PdfLine(Wide(8), style, indent, gap);
      WrapWide(line.text, AvailableUnits(line));
      WidthOfWide(8);
      assert RightEdge(WrapLine(line)[0]) > 541.0;
    }
  }

  lemma WrapWide(t: Text, units: real)
    requires t == Wide(8) && units >= 8.0
    ensures WrapText(t, units) == [t]
  {
    WidthOfWide(8);
    UnitsNonNegative(t);
    PackFits(PdfCharUnits, units, t);
    TrimOfBare(t, IsSpace);
    assert Stripped([t]) == [t];
  }

  // Some wide characters and some letters, at most 0.35 units short of a limit.
  function Mixed(wide: nat, letters: nat): Text {
    Wide(wide) + seq(letters, _ => 97)
  }

  lemma {:induction false} WidthOfMixed(wide: nat, letters: nat)
    ensures Width(Mixed(wide, letters)) == wide as real + 0.58 * letters as real
  {
    if letters == 0 {
      assert Mixed(wide, 0) == Wide(wide);
      WidthOfWide(wide);
    } else {
      var t := Mixed(wide, letters);
      assert t[..|t| - 1] == Mixed(wide, letters - 1);
      WidthOfMixed(wide, letters - 1);
    }
  }

  lemma NearFill(units: real) returns (t: Text)
    requires units >= 8.0
    ensures units - 0.35 < Width(t) <= units
    ensures |t| >= 2 && t[0] == 0x4E2D && Bare(t, IsSpace)
  {
    var whole := units.Floor;
    var rest := units - whole as real;
    var (less, letters) := if rest < 0.35 then (0, 0) else if rest < 0.51 then (1, 2)
                         else if rest < 0.58 then (2, 4) else if rest < 0.93 then (0, 1) else (1, 3);
    t := Mixed(whole - less, letters);
    WidthOfMixed(whole - less, letters);
  }

  // A text that nearly fills a line, twice over, is two chunks.
  lemma WrapTwice(m: Text, units: real)
    requires |m| >= 2 && m[0] == 0x4E2D && Bare(m, IsSpace) && units - 0.35 < Width(m) <= units
    ensures WrapText(m + m, units) == [m, m]
  {
    hide Pack, Cost, Trim;
    UnitsNonNegative(m);
    PackFits(PdfCharUnits, units, m);
    PackAfter(PdfCharUnits, units, m, m);
    TrimOfBare(m, IsSpace);
    assert Stripped([m, m]) == [m, m];
  }

  // Continuation chunks keep the margin for no style and no indent: some text always takes its
  // second chunk beyond it.
  lemma ContinuationCrossesMargin(style: string, indent: real, gap: real) returns (t: Text)
    ensures var wrapped := WrapLine(PdfLine(t, style, indent, gap));
            |wrapped| == 2 && RightEdge(wrapped[1]) > 541.0
  {
    hide WrapText, Cost, LineChunk;
    var units := AvailableUnits(PdfLine([], style, indent, gap));
    var size := StyleOf(style).size;
    var m := NearFill(units);
    t := m + m;
    var line := PdfLine(t, style, indent, gap);
    assert AvailableUnits(line) == units;
    WrapTwice(m, units);
    ChunkEdge(line, 1, m);
    UnitsTimesSize(line);
    assert (Width(m) - units + 0.35) * size > 0.0;
  }

  lemma UnitsTimesSize(line: PdfLine)
    ensures AvailableUnits(line) * StyleOf(line.style).size >= 487.0 - line.indent
  {
    hide StyleOf;
    var size, room := StyleOf(line.style).size, 487.0 - line.indent;
    assert room / size * size == room;
    assert AvailableUnits(line) >= room / size;
    assert (AvailableUnits(line) - room / size) * size >= 0.0;
  }

  // The bound of 553 is reached: sixteen wide characters of title text whose indent leaves room
  // for exactly eight.
  lemma FarthestContinuation()
    ensures var wrapped := WrapLine(PdfLine(Wide(8) + Wide(8), "title", 343.0, 0.0));
            |wrapped| == 2 && RightEdge(wrapped[1]) == 553.0
  {
    var line := PdfLine(Wide(8) + Wide(8), "title", 343.0, 0.0);
    assert AvailableUnits(line) == 8.0;
    WidthOfWide(8);
    WrapTwice(Wide(8), 8.0);
  }

  // ---- how few chunks would do ----

  // A cut of a text whose pieces are within the limit once stripped.
  ghost predicate StrippedCut(text: Text, units: real, pieces: seq<Text>) {
    Flatten(pieces) == text && Within(PdfCharUnits, units, Stripped(pieces))
  }

  // Wrapping counts white space that it strips afterwards.  Whatever the limit, some text gets
  // three chunks or more although two would do.
  lemma WrapWasteful(units: real) returns (text: Text, pieces: seq<Text>)
    requires units >= 8.0
    ensures StrippedCut(text, units, pieces)
    ensures |pieces| == 2 && |WrapText(text, units)| >= 3
  {
    var m := NearFill(units);
    var space: Text := [32];
    text, pieces := m + (space + m), [m + space, m];
    UnitsNonNegative(m);
    CostOne(PdfCharUnits, 32);
    CostConcat(PdfCharUnits, space, m);
    PackFits(PdfCharUnits, units, m);
    PackAfter(PdfCharUnits, units, m, space + m);
    PackSplits(PdfCharUnits, units, space + m);
    TwoPieces(m, 32);
  }

  lemma {:induction false} TwoPieces(m: Text, c: CodePoint)
    requires Bare(m, IsSpace) && IsSpace(c)
    ensures Flatten([m + [c], m]) == m + ([c] + m)
    ensures Stripped([m + [c], m]) == [m, m]
  {
    FlattenConcat([m + [c]], [m]);
    FlattenOne(m + [c]);
    FlattenOne(m);
    TrimOfBare(m, IsSpace);
    StripSpace(m, c);
  }

  lemma {:induction false} TrimStartAppend(t: Text, c: CodePoint, drop: CodePoint -> bool)
    ensures TrimStart(t + [c], drop)
            == if TrimStart(t, drop) == [] && drop(c) then [] else TrimStart(t, drop) + [c]
  {
    if t == [] {
      assert t + [c] == [c] && [c][1..] == [];
    } else {
      assert (t + [c])[1..] == t[1..] + [c];
      TrimStartAppend(t[1..], c, drop);
    }
  }

  lemma StripSpace(t: Text, c: CodePoint)
    requires IsSpace(c)
    ensures Strip(t + [c]) == Strip(t)
  {
    TrimStartAppend(t, c, IsSpace);
    var s := TrimStart(t, IsSpace);
    assert (s + [c])[..|s|] == s;
  }

  lemma StripVisible(t: Text, c: CodePoint)
    requires !IsSpace(c)
    ensures Strip(t + [c]) == TrimStart(t, IsSpace) + [c]
  {
    TrimStartAppend(t, c, IsSpace);
  }

  // A visible character that does not fit behind the visible part of a group.
  predicate Opens(units: real, group: Text, c: CodePoint) {
    !IsSpace(c) && Width(TrimStart(group, IsSpace)) + PdfCharUnits(c) > units
  }

  // The packing that strips as it goes: only a visible character opens a new group, and the
  // white space that starts a group is not counted.
  function PackStripped(text: Text, units: real): (groups: seq<Text>)
    ensures text != [] ==> groups != []
  {
    if text == [] then []
    else
      var groups, c := PackStripped(text[..|text| - 1], units), text[|text| - 1];
      if groups == [] then [[c]]
      else
        var last := groups[|groups| - 1];
        if Opens(units, last, c) then groups + [[c]]
        else groups[..|groups| - 1] + [last + [c]]
  }

  ghost predicate StrippedTight(units: real, groups: seq<Text>) {
    && (forall i | 0 <= i < |groups| :: groups[i] != [])
    && forall i | 0 < i < |groups| :: Opens(units, groups[i - 1], groups[i][0])
  }

  lemma {:induction false} PackStrippedFlatten(text: Text, units: real)
    ensures Flatten(PackStripped(text, units)) == text
  {
    hide Opens;
    if text != [] {
      var front, c := text[..|text| - 1], text[|text| - 1];
      PackStrippedFlatten(front, units);
      var groups := PackStripped(front, units);
      assert front + [c] == text;
      if groups == [] {
        assert [[c]][..0] == [];
      } else {
        var n := |groups|;
        assert (groups + [[c]])[..n] == groups;
        assert (groups[..n - 1] + [groups[n - 1] + [c]])[..n - 1] == groups[..n - 1];
      }
    }
  }

  lemma {:induction false} PackStrippedWithin(text: Text, units: real)
    requires units >= 1.0
    ensures Within(PdfCharUnits, units, Stripped(PackStripped(text, units)))
  {
    if text != [] {
      var c := text[|text| - 1];
      PackStrippedWithin(text[..|text| - 1], units);
      var groups := PackStripped(text[..|text| - 1], units);
      var n := |groups|;
      GroupOfOne(c);
      hide Cost, TrimStart, TrimEnd, IsSpace, PdfCharUnits, Opens;
      if groups != [] {
        assert Stripped(groups)[n - 1] == Strip(groups[n - 1]);
        if !Opens(units, groups[n - 1], c) {
          Joined(groups[n - 1], c, units);
        }
        assert forall i | 0 <= i < n - 1 :: Stripped(PackStripped(text, units))[i] == Stripped(groups)[i];
      }
    }
  }

  lemma GroupOfOne(c: CodePoint)
    ensures Width(Strip([c])) <= 1.0
  {
    CostOne(PdfCharUnits, c);
    WidthOfStrip([c]);
  }

  lemma Joined(group: Text, c: CodePoint, units: real)
    requires Width(Strip(group)) <= units && !Opens(units, group, c)
    ensures Width(Strip(group + [c])) <= units
  {
    if IsSpace(c) {
      StripSpace(group, c);
    } else {
      StripVisible(group, c);
      CostConcat(PdfCharUnits, TrimStart(group, IsSpace), [c]);
      CostOne(PdfCharUnits, c);
    }
  }

  lemma {:induction false} PackStrippedTight(text: Text, units: real)
    ensures StrippedTight(units, PackStripped(text, units))
  {
    hide Opens;
    if text != [] {
      PackStrippedTight(text[..|text| - 1], units);
    }
  }

  // A piece that reaches over a visible character and over another after it keeps, once
  // stripped, all that lies between them.
  lemma KeptByStrip(s: Text, a: nat, b: nat, c: nat, d: nat)
    requires a <= b <= c < d <= |s| && !IsSpace(s[b]) && !IsSpace(s[c])
    ensures Width(s[b..c + 1]) <= Width(Strip(s[a..d]))
  {
    var t := s[a..d];
    var i, j := TrimParts(t, IsSpace);
    assert t[b - a] == s[b] && t[c - a] == s[c];
    assert forall n | i <= n < j :: t[n] == s[a + n];
    assert t[i..j] == s[a + i..a + j];
    UnitsNonNegative(s);
    CostOfSlice(PdfCharUnits, s, a + i, b, c + 1, a + j);
  }

  // The visible part of a full group and the next group's first character are too wide.
  lemma VisiblePart(units: real, s: Text, b: nat, c: nat) returns (k: nat)
    requires units >= 1.0 && b <= c < |s|
    requires Opens(units, s[b..c], s[c])
    ensures b <= k < c && !IsSpace(s[k]) && !IsSpace(s[c]) && Width(s[k..c + 1]) > units
  {
    var t := s[b..c];
    var i := TrimStartParts(t, IsSpace);
    k := b + i;
    var visible := t[i..];
    assert i == |t| ==> visible == [];
    assert s[k] == t[i] && s[k..c + 1] == visible + [s[c]];
    CostConcat(PdfCharUnits, visible, [s[c]]);
    CostOne(PdfCharUnits, s[c]);
  }

  lemma {:induction false} StrippedStaysAhead(units: real, p: seq<Text>, q: seq<Text>, j: nat)
    requires units >= 1.0 && StrippedTight(units, p) && StrippedCut(Flatten(p), units, q)
    requires j < |p| && j <= |q|
    ensures End(q, j) <= End(p, j)
  {
    hide Cost, Flatten, IsSpace, TrimStart, TrimEnd, PdfCharUnits, Opens;
    if j > 0 {
      StrippedStaysAhead(units, p, q, j - 1);
      GroupSlice(p, j);
      GroupSlice(p, j + 1);
      GroupSlice(q, j);
      var s := Flatten(p);
      var a, b, c, d := End(q, j - 1), End(p, j - 1), End(p, j), End(q, j);
      assert p[j][0] == s[c] && Stripped(q)[j - 1] == Strip(s[a..d]);
      if d > c {
        var k := VisiblePart(units, s, b, c);
        KeptByStrip(s, a, k, c, d);
        assert false;
      }
    } else {
      assert p[..0] == [] && q[..0] == [];
      assert End(p, 0) == End(q, 0);
    }
  }

  lemma {:induction false} StrippedOptimal(units: real, p: seq<Text>, q: seq<Text>)
    requires units >= 1.0 && StrippedTight(units, p) && StrippedCut(Flatten(p), units, q)
    ensures |p| <= |q|
  {
    hide Cost, Flatten, IsSpace, TrimStart, TrimEnd, PdfCharUnits, Opens;
    if |q| < |p| {
      StrippedStaysAhead(units, p, q, |q|);
      assert q[..|q|] == q;
      GroupSlice(p, |q| + 1);
      assert false;
    }
  }

  // The packing that strips as it goes is within the limit, and no cut has fewer pieces.
  lemma {:induction false} PackStrippedOptimal(text: Text, units: real)
    requires units >= 1.0
    ensures StrippedCut(text, units, PackStripped(text, units))
    ensures forall pieces :: StrippedCut(text, units, pieces) ==> |PackStripped(text, units)| <= |pieces|
  {
    PackStrippedFlatten(text, units);
    PackStrippedWithin(text, units);
    PackStrippedTight(text, units);
    hide *;
    forall pieces | StrippedCut(text, units, pieces) ensures |PackStripped(text, units)| <= |pieces| {
      StrippedOptimal(units, PackStripped(text, units), pieces);
    }
  }

  // Wrapping uses as few chunks as the stripped measure allows exactly when the packing that
  // strips as it goes has no fewer groups.
  lemma {:induction false} WrapOptimalExact(text: Text, units: real)
    requires units >= 1.0 && text != []
    ensures |Pack(PdfCharUnits, units, text)| <= |PackStripped(text, units)|
       <==> forall pieces :: StrippedCut(text, units, pieces) ==> |WrapText(text, units)| <= |pieces|
  {
    PackStrippedOptimal(text, units);
  }

  // It always does when no packed piece starts with white space.
  lemma {:induction false} WrapOptimalVisible(text: Text, units: real, pieces: seq<Text>)
    requires units >= 1.0 && text != [] && StrippedCut(text, units, pieces)
    requires forall piece | piece in Pack(PdfCharUnits, units, text) && piece != [] :: !IsSpace(piece[0])
    ensures |WrapText(text, units)| <= |pieces|
  {
    PackSound(PdfCharUnits, units, text);
    var p := Pack(PdfCharUnits, units, text);
    hide Pack, Cost, Flatten, IsSpace, PdfCharUnits;
    StrippedOptimal(units, p, pieces);
  }

  // In particular for a text without white space.
  lemma {:induction false} WrapOptimalUnspaced(text: Text, units: real, pieces: seq<Text>)
    requires units >= 1.0 && text != [] && StrippedCut(text, units, pieces)
    requires forall c | c in text :: !IsSpace(c)
    ensures |WrapText(text, units)| <= |pieces|
  {
    PackFlatten(PdfCharUnits, units, text);
    var p := Pack(PdfCharUnits, units, text);
    forall i | 0 <= i < |p| && p[i] != [] ensures p[i][0] in text {
      GroupSlice(p, i + 1);
    }
    WrapOptimalVisible(text, units, pieces);
  }

  // ---- blank chunks ----

  // A chunk is blank exactly when its piece is all white space; such a piece is the last one or
  // a run of white space within one unit of the limit.
  lemma {:induction false} BlankChunk(text: Text, units: real, i: nat)
    requires text != [] && i < |WrapText(text, units)|
    ensures var pieces := Pack(PdfCharUnits, units, text);
            && (WrapText(text, units)[i] == [] <==> Ink(pieces[i]) == [])
            && (i + 1 < |pieces| ==> Width(pieces[i]) > units - 1.0)
  {
    var pieces := Pack(PdfCharUnits, units, text);
    PackSound(PdfCharUnits, units, text);
    InkOfStrip(pieces[i]);
    InkOfSpaces(pieces[i]);
    hide Pack, Cost, Flatten;
    var a, b := TrimParts(pieces[i], IsSpace);
    InkOfSpaces(Strip(pieces[i]));
    if i + 1 < |pieces| {
      assert Cost(PdfCharUnits, pieces[i]) + PdfCharUnits(pieces[i + 1][0]) > units;
    }
  }
}
