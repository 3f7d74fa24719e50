// Splitting the free text of the sales form into items.
module SalesList {
  import opened Text

  // The line boundaries of `str.splitlines`.
  predicate IsBreak(c: CodePoint) {
    0x0A <= c <= 0x0D || 0x1C <= c <= 0x1E || c == 0x85 || c == 0x2028 || c == 0x2029
  }

  // The ideographic, full-width and ASCII commas and semicolons.
  predicate IsSeparator(c: CodePoint) {
    c == 0x3001 || c == 0xFF0C || c == 0x2C || c == 0xFF1B || c == 0x3B
  }

  // Hyphen, bullet, asterisk and space.
  predicate IsBullet(c: CodePoint) {
    c == 0x2D || c == 0x2022 || c == 0x2A || c == 0x20
  }

  function Normalize(t: Text): (n: Text)
    ensures |n| == |t|
    ensures forall i | 0 <= i < |t| :: n[i] == if IsSeparator(t[i]) then 0x0A else t[i]
  {
    seq(|t|, i requires 0 <= i < |t| => if IsSeparator(t[i]) then 0x0A else t[i])
  }

  function BreakAt(t: Text): (k: nat)
    ensures k <= |t| && (k < |t| ==> IsBreak(t[k]))
    ensures forall i | 0 <= i < k :: !IsBreak(t[i])
  {
    if t == [] || IsBreak(t[0]) then 0 else 1 + BreakAt(t[1..])
  }

  // Carriage return and line feed together end one line.
  function SplitLines(t: Text): seq<Text>
    decreases |t|
  {
    var k := BreakAt(t);
    if t == [] then []
    else if k == |t| then [t]
    else [t[..k]] + SplitLines(t[if t[k] == 0x0D && k + 1 < |t| && t[k + 1] == 0x0A then k + 2 else k + 1..])
  }

  function Item(line: Text): Text {
    Trim(Strip(line), IsBullet)
  }

  function Items(lines: seq<Text>): seq<Text> {
    if lines == [] then []
    else Items(lines[..|lines| - 1]) + if Item(lines[|lines| - 1]) == [] then [] else [Item(lines[|lines| - 1])]
  }

  function SalesLines(value: Text): seq<Text> {
    Items(SplitLines(Normalize(value)))
  }

  method SalesLinesFromText(value: Text) returns (items: seq<Text>)
    ensures items == SalesLines(value)
  {
    hide SplitLines, Item;
    var lines := SplitLines(Normalize(value));
    items := [];
    for i := 0 to |lines|
      invariant items == Items(lines[..i])
    {
      assert lines[..i + 1][..i] == lines[..i];
      var text := Item(lines[i]);
      if text != [] {
        items := items + [text];
      }
    }
    assert lines[..|lines|] == lines;
  }

  // ---- what an item is ----

  predicate Clean(t: Text) {
    forall i | 0 <= i < |t| :: !IsBreak(t[i]) && !IsSeparator(t[i])
  }

  ghost predicate IsItem(t: Text) {
    t != [] && Clean(t) && Bare(t, IsBullet)
  }

  lemma {:induction false} LinesClean(t: Text)
    requires forall i | 0 <= i < |t| :: !IsSeparator(t[i])
    ensures forall j | 0 <= j < |SplitLines(t)| :: Clean(SplitLines(t)[j])
    decreases |t|
  {
    var k := BreakAt(t);
    if k < |t| {
      var next := if t[k] == 0x0D && k + 1 < |t| && t[k + 1] == 0x0A then k + 2 else k + 1;
      LinesClean(t[next..]);
    }
  }

  lemma ItemOfLine(line: Text)
    requires Clean(line)
    ensures Item(line) != [] ==> IsItem(Item(line))
  {
    var a, b := TrimParts(line, IsSpace);
    var c, d := TrimParts(line[a..b], IsBullet);
    assert forall i | 0 <= i < |Item(line)| :: Item(line)[i] == line[a + c + i];
  }

  lemma {:induction false} ItemsOfLines(lines: seq<Text>)
    requires forall j | 0 <= j < |lines| :: Clean(lines[j])
    ensures forall j | 0 <= j < |Items(lines)| :: IsItem(Items(lines)[j])
  {
    hide Item, Clean, IsItem;
    if lines != [] {
      ItemsOfLines(lines[..|lines| - 1]);
      ItemOfLine(lines[|lines| - 1]);
    }
  }

  // Every item is nonempty, holds no separator and no line boundary, and neither starts nor ends
  // with a bullet character.
  lemma ItemsAreItems(value: Text)
    ensures forall j | 0 <= j < |SalesLines(value)| :: IsItem(SalesLines(value)[j])
  {
    LinesClean(Normalize(value));
    ItemsOfLines(SplitLines(Normalize(value)));
  }

  // ---- parsing what was parsed ----

  lemma BreakAtOf(x: Text, rest: Text)
    requires Clean(x) && (rest == [] || IsBreak(rest[0]))
    ensures BreakAt(x + rest) == |x|
  {
    var k := BreakAt(x + rest);
    assert forall i | 0 <= i < |x| :: (x + rest)[i] == x[i];
    assert rest != [] ==> (x + rest)[|x|] == rest[0];
  }

  lemma NormalizeJoin(c: CodePoint, x: Text, rest: Text)
    requires Clean(x) && (IsSeparator(c) || c == 0x0A)
    ensures Normalize(x + [c] + rest) == x + [0x0A] + Normalize(rest)
    ensures Normalize(x) == x
  {
  }

  lemma {:induction false} SplitJoin(c: CodePoint, items: seq<Text>)
    requires IsSeparator(c) || c == 0x0A
    requires forall j | 0 <= j < |items| :: IsItem(items[j])
    ensures SplitLines(Normalize(JoinTexts(c, items))) == items
  {
    if items != [] {
      var x := items[0];
      assert IsItem(x);
      if |items| == 1 {
        NormalizeJoin(c, x, []);
        BreakAtOf(x, []);
        assert x + [] == x;
        assert SplitLines(x) == [x];
      } else {
        var rest := Normalize(JoinTexts(c, items[1..]));
        SplitJoin(c, items[1..]);
        NormalizeJoin(c, x, JoinTexts(c, items[1..]));
        SplitFirst(x, rest);
        assert [x] + items[1..] == items;
      }
    }
  }

  lemma SplitFirst(x: Text, rest: Text)
    requires x != [] && Clean(x)
    ensures SplitLines(x + [0x0A] + rest) == [x] + SplitLines(rest)
  {
    var t := x + [0x0A] + rest;
    assert t == x + ([0x0A] + rest);
    BreakAtOf(x, [0x0A] + rest);
    assert t[..|x|] == x && t[|x| + 1..] == rest && t[|x|] == 0x0A;
  }

  ghost predicate AllBare(items: seq<Text>) {
    forall j | 0 <= j < |items| :: Bare(items[j], IsSpace)
  }

  lemma ItemUnchanged(x: Text)
    requires IsItem(x)
    ensures Item(x) == x <==> Bare(x, IsSpace)
  {
    TrimOfBare(x, IsSpace);
    var a, b := TrimParts(x, IsSpace);
    var c, d := TrimParts(Strip(x), IsBullet);
    if Bare(x, IsSpace) {
      TrimOfBare(x, IsBullet);
    } else {
      assert |Strip(x)| <= |x|;
    }
  }

  lemma {:induction false} ItemsUnchanged(items: seq<Text>)
    requires forall j | 0 <= j < |items| :: IsItem(items[j])
    ensures |Items(items)| <= |items|
    ensures Items(items) == items <==> AllBare(items)
  {
    hide Item, IsItem, Bare;
    if items != [] {
      var n := |items| - 1;
      var front, last := items[..n], items[n];
      ItemsUnchanged(front);
      ItemUnchanged(last);
      assert front + [last] == items && last != [] by { NonEmpty(last); }
      if Items(items) == items {
        assert |Items(front)| == n;
        assert Items(items)[..n] == Items(front);
      }
    }
  }

  lemma NonEmpty(x: Text)
    requires IsItem(x)
    ensures x != []
  {
  }

  // Parsed again, the joined items are the same exactly when none starts or ends with white space.
  lemma JoinedItems(value: Text, c: CodePoint)
    requires IsSeparator(c) || c == 0x0A
    ensures SalesLines(JoinTexts(c, SalesLines(value))) == SalesLines(value)
       <==> AllBare(SalesLines(value))
  {
    hide IsItem, Bare, SplitLines, Items, JoinTexts;
    ItemsAreItems(value);
    SplitJoin(c, SalesLines(value));
    ItemsUnchanged(SalesLines(value));
  }

  // A line whose first or last character that is no bullet is white space: a tab, say, between a
  // hyphen and the words behind it.
  predicate SpaceBehindBullets(line: Text) {
    var u := Strip(line);
    exists i | 0 <= i < |u| :: IsSpace(u[i]) && !IsBullet(u[i])
      && ((forall k | 0 <= k < i :: IsBullet(u[k])) || forall k | i < k < |u| :: IsBullet(u[k]))
  }

  ghost predicate AllTight(lines: seq<Text>) {
    forall j | 0 <= j < |lines| :: !SpaceBehindBullets(lines[j])
  }

  lemma ItemBare(line: Text)
    ensures Bare(Item(line), IsSpace) <==> !SpaceBehindBullets(line)
  {
    var u := Strip(line);
    var a, b := TrimParts(u, IsBullet);
    hide Strip, IsSpace;
    if a < b {
      assert Item(line)[0] == u[a] && Item(line)[b - a - 1] == u[b - 1];
      assert !IsBullet(u[a]) && !IsBullet(u[b - 1]);
      if IsSpace(u[a]) {
        assert SpaceBehindBullets(line);
      }
      if IsSpace(u[b - 1]) {
        assert SpaceBehindBullets(line);
      }
    }
  }

  lemma {:induction false} ItemsBare(lines: seq<Text>)
    ensures AllBare(Items(lines)) <==> AllTight(lines)
  {
    hide Bare, SpaceBehindBullets, Item;
    if lines != [] {
      var front, last := lines[..|lines| - 1], lines[|lines| - 1];
      ItemsBare(front);
      ItemBare(last);
      NothingIsBare();
      var items := Items(lines);
      assert forall j | 0 <= j < |Items(front)| :: items[j] == Items(front)[j];
      if Item(last) != [] {
        assert items[|Items(front)|] == Item(last);
      }
    }
  }

  lemma NothingIsBare()
    ensures Bare([], IsSpace)
  {
  }

  // Main result.  Joining the items with a line feed or any separator and parsing again gives the
  // same items exactly when in no line the first or last character that is no bullet is white space.
  lemma ParsingIsCanonical(value: Text, c: CodePoint)
    requires IsSeparator(c) || c == 0x0A
    ensures SalesLines(JoinTexts(c, SalesLines(value))) == SalesLines(value)
       <==> AllTight(SplitLines(Normalize(value)))
  {
    hide AllBare, AllTight;
    JoinedItems(value, c);
    ItemsBare(SplitLines(Normalize(value)));
  }

  predicate PlainSpaces(t: Text) {
    forall i | 0 <= i < |t| :: IsSpace(t[i]) ==> t[i] == 0x20 || IsBreak(t[i])
  }

  lemma {:induction false} LinesPlain(t: Text)
    requires PlainSpaces(t)
    ensures forall j | 0 <= j < |SplitLines(t)| :: PlainSpaces(SplitLines(t)[j])
    decreases |t|
  {
    var k := BreakAt(t);
    if k < |t| {
      var next := if t[k] == 0x0D && k + 1 < |t| && t[k + 1] == 0x0A then k + 2 else k + 1;
      LinesPlain(t[next..]);
    }
  }

  lemma {:induction false} ItemsPlain(lines: seq<Text>)
    requires forall j | 0 <= j < |lines| :: PlainSpaces(lines[j])
    ensures forall j | 0 <= j < |Items(lines)| :: PlainSpaces(Items(lines)[j])
  {
    hide PlainSpaces;
    if lines != [] {
      var line := lines[|lines| - 1];
      ItemsPlain(lines[..|lines| - 1]);
      ItemPlain(line);
      hide Item;
    }
  }

  lemma ItemPlain(line: Text)
    requires PlainSpaces(line)
    ensures PlainSpaces(Item(line))
  {
    var a, b := TrimParts(line, IsSpace);
    var c, d := TrimParts(line[a..b], IsBullet);
    assert forall i | 0 <= i < |Item(line)| :: Item(line)[i] == line[a + c + i];
  }

  // A text whose only white space is the space and line boundaries parses canonically.
  lemma PlainTextIsCanonical(value: Text, c: CodePoint)
    requires PlainSpaces(value) && (IsSeparator(c) || c == 0x0A)
    ensures SalesLines(JoinTexts(c, SalesLines(value))) == SalesLines(value)
  {
    var items := SalesLines(value);
    assert PlainSpaces(Normalize(value));
    LinesPlain(Normalize(value));
    ItemsPlain(SplitLines(Normalize(value)));
    ItemsAreItems(value);
    JoinedItems(value, c);
    hide SalesLines, JoinTexts;
    forall j | 0 <= j < |items| ensures Bare(items[j], IsSpace) {
      assert IsItem(items[j]) && PlainSpaces(items[j]);
    }
  }

  // Other white space can survive behind a bullet: a hyphen, a tab and a letter give an item that
  // starts with the tab, and parsing that item again drops it.
  lemma TabBehindBullet()
    ensures SalesLines([0x2D, 0x09, 0x41]) == [[0x09, 0x41]]
    ensures SalesLines([0x09, 0x41]) == [[0x41]]
  {
    var t: Text, u: Text := [0x2D, 0x09, 0x41], [0x09, 0x41];
    OneLine(t);
    OneLine(u);
    TabItems();
    hide Item, SplitLines;
    assert [t][..0] == [] && [u][..0] == [];
  }

  lemma TabItems()
    ensures Item([0x2D, 0x09, 0x41]) == [0x09, 0x41] && Item([0x09, 0x41]) == [0x41]
  {
    var t: Text, u: Text, a: Text := [0x2D, 0x09, 0x41], [0x09, 0x41], [0x41];
    TrimOfBare(t, IsSpace);
    TrimOfBare(u, IsBullet);
    TrimOfBare(a, IsSpace);
    TrimOfBare(a, IsBullet);
    assert t[1..] == u && u[1..] == a;
    assert TrimStart(t, IsBullet) == TrimStart(u, IsBullet) && TrimStart(u, IsSpace) == TrimStart(a, IsSpace);
  }

  lemma OneLine(t: Text)
    requires t != [] && Clean(t)
    ensures SplitLines(Normalize(t)) == [t]
  {
    NormalizeJoin(0x0A, t, []);
    BreakAtOf(t, []);
    assert t + [] == t;
  }
  // ---- the characters that matter ----

  // The ideographic, full-width and ASCII comma, and the full-width and ASCII semicolon.
  const SEPARATORS: seq<CodePoint> := [0x3001, 0xFF0C, 0x2C, 0xFF1B, 0x3B]

  const BREAKS: seq<CodePoint> := [0x0A, 0x0B, 0x0C, 0x0D, 0x1C, 0x1D, 0x1E, 0x85, 0x2028, 0x2029]

  // Hyphen, bullet, asterisk, space.
  const BULLETS: seq<CodePoint> := [0x2D, 0x2022, 0x2A, 0x20]

  // A text that no list of these cuts, and that starts and ends with neither bullet nor white space.
  predicate IsWord(x: Text) {
    && x != []
    && (forall i | 0 <= i < |x| :: x[i] !in SEPARATORS && x[i] !in BREAKS)
    && x[0] !in BULLETS && x[|x| - 1] !in BULLETS && !IsSpace(x[0]) && !IsSpace(x[|x| - 1])
  }

  lemma Tables(c: CodePoint)
    ensures IsSeparator(c) <==> c in SEPARATORS
    ensures IsBreak(c) <==> c in BREAKS
    ensures IsBullet(c) <==> c in BULLETS
  {
  }

  lemma WordIsItem(x: Text)
    requires IsWord(x)
    ensures IsItem(x) && Bare(x, IsSpace)
  {
    forall i | 0 <= i < |x| ensures !IsSeparator(x[i]) && !IsBreak(x[i]) {
      Tables(x[i]);
    }
    Tables(x[0]);
    Tables(x[|x| - 1]);
    hide IsSeparator, IsBreak, IsBullet, IsSpace;
  }

  // Words joined with any one of the five separators are the items.
  lemma WordsSeparated(words: seq<Text>, c: CodePoint)
    requires c in SEPARATORS && forall j | 0 <= j < |words| :: IsWord(words[j])
    ensures SalesLines(JoinTexts(c, words)) == words
  {
    Tables(c);
    forall j | 0 <= j < |words| ensures IsItem(words[j]) && Bare(words[j], IsSpace) {
      WordIsItem(words[j]);
    }
    SplitJoin(c, words);
    ItemsUnchanged(words);
    hide IsItem, Bare, SplitLines, JoinTexts;
  }

  // Bullets around a word are dropped.
  lemma BulletsDropped(a: Text, x: Text, b: Text)
    requires IsWord(x) && (forall i | 0 <= i < |a| :: a[i] in BULLETS) && forall i | 0 <= i < |b| :: b[i] in BULLETS
    ensures Item(a + x + b) == x
  {
    var t := a + x + b;
    WordIsItem(x);
    forall i | 0 <= i < |t| && (i < |a| || i >= |a| + |x|) ensures IsBullet(t[i]) {
      Tables(t[i]);
    }
    var i, j := TrimParts(t, IsSpace);
    var u := Strip(t);
    assert t[|a|] == x[0] && t[|a| + |x| - 1] == x[|x| - 1];
    hide IsSpace, IsBullet;
    assert i <= |a| && |a| + |x| <= j;
    var front, back := t[i..|a|], t[|a| + |x|..j];
    assert u == front + x + back;
    assert forall k | 0 <= k < |front| :: front[k] == t[i + k];
    assert forall k | 0 <= k < |back| :: back[k] == t[|a| + |x| + k];
    TrimAround(front, x, back, IsBullet);
  }

  // Two words on lines of their own, whichever the line boundary.
  lemma WordsOnLines(x: Text, c: CodePoint, y: Text)
    requires IsWord(x) && IsWord(y) && c in BREAKS
    ensures SalesLines(x + [c] + y) == [x, y]
    ensures SalesLines(x + [0x0D, 0x0A] + y) == [x, y]
  {
    hide IsSeparator, IsBreak, IsBullet, IsSpace, IsWord, SplitLines, Normalize, Item;
    Tables(c);
    Tables(0x0D);
    Tables(0x0A);
    WordIsItem(x);
    WordIsItem(y);
    LinesOfTwo(x, [c], y);
    LinesOfTwo(x, [0x0D, 0x0A], y);
    ItemsUnchanged([x, y]);
  }

  lemma LinesOfTwo(x: Text, between: Text, y: Text)
    requires IsItem(x) && IsItem(y)
    requires between == [0x0D, 0x0A] || (|between| == 1 && IsBreak(between[0]) && !IsSeparator(between[0]))
    ensures SplitLines(Normalize(x + between + y)) == [x, y]
  {
    NothingSeparated(x, between, y);
    hide IsSeparator, IsBullet;
    BreakAtOf(y, []);
    assert y + [] == y && SplitLines(y) == [y];
    SplitBetween(x, between, y);
  }

  lemma NothingSeparated(x: Text, between: Text, y: Text)
    requires Clean(x) && Clean(y) && forall i | 0 <= i < |between| :: !IsSeparator(between[i])
    ensures Normalize(x + between + y) == x + between + y
  {
    hide IsSeparator, IsBreak;
    assert forall i | 0 <= i < |x + between + y| :: !IsSeparator((x + between + y)[i]);
  }

  lemma SplitBetween(x: Text, between: Text, y: Text)
    requires x != [] && Clean(x) && y != [] && Clean(y)
    requires between == [0x0D, 0x0A] || (|between| == 1 && IsBreak(between[0]))
    ensures SplitLines(x + between + y) == [x] + SplitLines(y)
  {
    hide IsSeparator, IsBreak;
    var t := x + between + y;
    assert t == x + (between + y);
    CarriageReturn(between[0], y[0]);
    BreakAtOf(x, between + y);
    assert t[..|x|] == x && t[|x|] == between[0] && t[|x| + |between|..] == y;
    assert t[|x| + |between|] == y[0];
  }

  lemma CarriageReturn(c: CodePoint, d: CodePoint)
    ensures c == 0x0D ==> IsBreak(c)
    ensures !IsBreak(d) ==> d != 0x0A
  {
  }
}
