// Interpreting the exporter's content streams draws exactly the marks of the page.
module Rendering {
  import opened Wrappers
  import opened Text
  import opened Numbers
  import opened Utf16
  import opened Syntax
  import opened Printing
  import opened Layout
  import opened Content

  // ---- running a joined string is running its parts ----

  lemma {:induction false} RunAppend(r: Option<Machine>, a: seq<string>, b: seq<string>)
    ensures Run(r, a + b) == Run(Run(r, a), b)
  {
    hide Step;
    if b == [] {
      assert a + b == a;
    } else {
      assert (a + b)[..|a| + |b| - 1] == a + b[..|b| - 1];
      RunAppend(r, a, b[..|b| - 1]);
    }
  }

  function RunParts(r: Option<Machine>, parts: seq<string>): Option<Machine> {
    if parts == [] then r
    else Run(RunParts(r, parts[..|parts| - 1]), Tokens(parts[|parts| - 1]))
  }

  lemma {:induction false} RunJoin(r: Option<Machine>, sep: string, parts: seq<string>)
    requires |sep| == 1 && IsWhite(sep[0])
    ensures Run(r, Tokens(Join(sep, parts))) == RunParts(r, parts)
  {
    hide Run, Tokens;
    if parts == [] {
      assert Tokens("") == [] && Run(r, []) == r by {
        NoTokens(r);
      }
    } else if |parts| == 1 {
      assert parts[..0] == [];
    } else {
      var front, last := parts[..|parts| - 1], parts[|parts| - 1];
      RunJoin(r, sep, front);
      TokensBlank(Join(sep, front), sep[0], last);
      assert [sep[0]] == sep;
      RunAppend(r, Tokens(Join(sep, front)), Tokens(last));
    }
  }

  lemma NoTokens(r: Option<Machine>)
    ensures Tokens("") == [] && Run(r, []) == r
  {
  }

  lemma {:induction false} RunPartsAppend(r: Option<Machine>, a: seq<string>, b: seq<string>)
    ensures RunParts(r, a + b) == RunParts(RunParts(r, a), b)
  {
    hide Run, Tokens;
    if b == [] {
      assert a + b == a;
    } else {
      assert (a + b)[..|a| + |b| - 1] == a + b[..|b| - 1];
      RunPartsAppend(r, a, b[..|b| - 1]);
    }
  }

  lemma RunPartsOne(r: Option<Machine>, part: string)
    ensures RunParts(r, [part]) == Run(r, Tokens(part))
  {
    hide Run, Tokens;
    assert [part][..0] == [];
    assert RunParts(r, []) == r;
  }

  lemma {:induction false} TokensOfWords(words: seq<string>)
    requires words != [] && forall i | 0 <= i < |words| :: IsWord(words[i])
    ensures Tokens(Join(" ", words)) == words
  {
    hide Tokens, IsWord;
    var front, last := words[..|words| - 1], words[|words| - 1];
    TokensOfWord(last);
    if |words| > 1 {
      TokensOfWords(front);
      TokensBlank(Join(" ", front), ' ', last);
    }
  }

  lemma {:induction false} RunOperands(m: Machine, args: seq<string>)
    requires m.operands == [] && forall i | 0 <= i < |args| :: IsOperand(args[i])
    ensures Run(Some(m), args) == Some(m.(operands := args))
  {
    hide IsOperand, Apply;
    if args != [] {
      RunOperands(m, args[..|args| - 1]);
      assert args[..|args| - 1] + [args[|args| - 1]] == args;
    }
  }

  // A line of operands ended by an operator applies that operator to them.
  lemma RunLine(m: Machine, args: seq<string>, op: string)
    requires m.operands == [] && IsWord(op) && !IsOperand(op)
    requires forall i | 0 <= i < |args| :: IsWord(args[i]) && IsOperand(args[i])
    ensures Run(Some(m), Tokens(Join(" ", args + [op]))) == Apply(m, args, op)
  {
    hide IsOperand, Apply, IsWord, Tokens, Join;
    TokensOfWords(args + [op]);
    RunOperands(m, args);
    assert (args + [op])[..|args|] == args;
    assert m.(operands := args).(operands := []) == m;
  }

  lemma RunBare(m: Machine, op: string)
    requires m.operands == [] && IsWord(op) && !IsOperand(op)
    ensures Run(Some(m), Tokens(op)) == Apply(m, [], op)
  {
    RunLine(m, [], op);
    assert [] + [op] == [op] && Join(" ", [op]) == op;
  }

  // ---- the words the exporter writes ----

  lemma FixedWord(x: real, k: nat)
    ensures IsWord(Fixed(x, k)) && IsOperand(Fixed(x, k))
  {
    hide Scaled;
    PointWord(Scaled(x, Pow10(k) as real), k);
    hide Point;
    var p := Point(Scaled(x, Pow10(k) as real), k);
    assert Fixed(x, k) == if x < 0.0 then "-" + p else p;
  }

  lemma PointWord(m: nat, k: nat)
    ensures IsWord(Point(m, k)) && IsDigit(Point(m, k)[0])
  {
    hide Dec, Pad;
  }

  lemma {:induction false} HexRegular(bs: seq<Byte>)
    ensures forall i | 0 <= i < |Hex(bs)| :: IsRegular(Hex(bs)[i])
  {
    if bs != [] {
      HexRegular(bs[1..]);
    }
  }

  lemma HexStringWord(t: Text)
    requires Encodable(t)
    ensures IsWord(HexString(t)) && IsOperand(HexString(t))
    ensures ReadHexString(HexString(t)) == Some(t)
  {
    var h := Hex(Encode(t));
    HexRegular(Encode(t));
    UnhexHex(Encode(t));
    DecodeEncode(t);
    hide Hex, Encode, Unhex, Decode;
    assert HexString(t) == "<" + h + ">";
    assert HexString(t)[1..|HexString(t)| - 1] == h;
  }

  // ---- operators ----

  lemma Operators()
    ensures forall op | op in ["q", "Q", "rg", "re", "f", "BT", "ET", "Tf", "Td", "Tj"] ::
              IsWord(op) && !IsOperand(op)
  {
  }

  lemma Dispatch(m: Machine, args: seq<string>)
    ensures Apply(m, args, "re") == (var r :- ReadRect(args); Some(m.(path := m.path + [r])))
    ensures Apply(m, args, "Tf") == ApplyText(m, args, "Tf")
    ensures Apply(m, args, "Td") == ApplyText(m, args, "Td")
    ensures Apply(m, args, "Tj") == ApplyText(m, args, "Tj")
  {
    hide ReadColor, ReadRect, ApplyText;
  }

  lemma DispatchColor(m: Machine, args: seq<string>)
    ensures Apply(m, args, "rg") == (var c :- ReadColor(args); Some(m.(state := m.state.(color := c))))
  {
    hide ReadColor, ReadRect, ApplyText;
  }

  // ---- running one text command ----

  function RoundedColor(c: Color): Color {
    Color(Rounded(c.red, 3), Rounded(c.green, 3), Rounded(c.blue, 3))
  }

  lemma ReadColorLine(c: Color)
    ensures ReadColor(ColorLine(c)[..3]) == Some(RoundedColor(c))
  {
    ReadFixed(c.red, 3);
    ReadFixed(c.green, 3);
    ReadFixed(c.blue, 3);
    hide Fixed, Rounded, ReadNumber;
  }

  lemma ColorOperands(c: Color)
    ensures forall i | 0 <= i < 3 :: IsWord(ColorLine(c)[..3][i]) && IsOperand(ColorLine(c)[..3][i])
  {
    FixedWord(c.red, 3);
    FixedWord(c.green, 3);
    FixedWord(c.blue, 3);
    hide Fixed, IsWord, IsOperand;
  }

  lemma {:induction false} RunColor(m: Machine, c: Color)
    requires m.operands == []
    ensures Run(Some(m), Tokens(Join(" ", ColorLine(c)))) == Some(m.(state := m.state.(color := RoundedColor(c))))
  {
    ColorOperands(c);
    ReadColorLine(c);
    Operators();
    var args := ColorLine(c)[..3];
    assert args + ["rg"] == ColorLine(c);
    hide *;
    DispatchColor(m, args);
    RunLine(m, args, "rg");
  }

  lemma ApplyFont(m: Machine, size: real)
    ensures Apply(m, ["/F1", Fixed(size, 1)], "Tf")
            == Some(m.(state := m.state.(font := "/F1", size := Rounded(size, 1))))
  {
    ReadFixed(size, 1);
    hide Fixed, Rounded, ReadNumber, Apply;
    Dispatch(m, ["/F1", Fixed(size, 1)]);
  }

  lemma OperandF1()
    ensures IsWord("/F1") && IsOperand("/F1")
  {
  }

  lemma RunFont(m: Machine, size: real)
    requires m.operands == []
    ensures Run(Some(m), Tokens(Join(" ", ["/F1", Fixed(size, 1), "Tf"])))
            == Some(m.(state := m.state.(font := "/F1", size := Rounded(size, 1))))
  {
    FixedWord(size, 1);
    ApplyFont(m, size);
    OperandF1();
    Operators();
    hide Fixed, Rounded, Run, Tokens, Join, Apply, IsWord, IsOperand;
    assert ["/F1", Fixed(size, 1)] + ["Tf"] == ["/F1", Fixed(size, 1), "Tf"];
    RunLine(m, ["/F1", Fixed(size, 1)], "Tf");
  }

  lemma ApplyMove(m: Machine, x: real, y: real)
    requires m.at == Some((0.0, 0.0))
    ensures Apply(m, [Fixed(x, 1), Fixed(y, 1)], "Td")
            == Some(m.(at := Some((Rounded(x, 1), Rounded(y, 1)))))
  {
    ReadFixed(x, 1);
    ReadFixed(y, 1);
    hide Fixed, Rounded, ReadNumber, Apply;
    Dispatch(m, [Fixed(x, 1), Fixed(y, 1)]);
  }

  lemma RunMove(m: Machine, x: real, y: real)
    requires m.operands == [] && m.at == Some((0.0, 0.0))
    ensures Run(Some(m), Tokens(Join(" ", [Fixed(x, 1), Fixed(y, 1), "Td"])))
            == Some(m.(at := Some((Rounded(x, 1), Rounded(y, 1)))))
  {
    FixedWord(x, 1);
    FixedWord(y, 1);
    ApplyMove(m, x, y);
    Operators();
    hide Fixed, Rounded, Run, Tokens, Join, Apply, IsWord, IsOperand;
    assert [Fixed(x, 1), Fixed(y, 1)] + ["Td"] == [Fixed(x, 1), Fixed(y, 1), "Td"];
    RunLine(m, [Fixed(x, 1), Fixed(y, 1)], "Td");
  }

  lemma RunShow(m: Machine, text: Text)
    requires m.operands == [] && m.at.Some? && m.state.font != "" && Encodable(text)
    ensures Run(Some(m), Tokens(Join(" ", [HexString(text), "Tj"])))
            == Some(m.(marks := m.marks + [Show(m.state.font, m.state.size, m.state.color,
                                                m.at.value.0, m.at.value.1, text)]))
  {
    HexStringWord(text);
    Operators();
    hide HexString, ReadHexString, Run, Tokens, Join, Apply, IsWord, IsOperand;
    Dispatch(m, [HexString(text)]);
    assert [HexString(text)] + ["Tj"] == [HexString(text), "Tj"];
    RunLine(m, [HexString(text)], "Tj");
  }

  // A text command draws its text once, at its own place, whatever was drawn before.
  lemma RunTextCommand(m: Machine, text: Text, x: real, y: real, size: real, color: Color)
    requires m.operands == [] && m.at.None? && Encodable(text)
    ensures Run(Some(m), Tokens(PdfTextCommand(text, x, y, size, color)))
            == Some(m.(state := Graphics(RoundedColor(color), "/F1", Rounded(size, 1)),
                       marks := m.marks + [Show("/F1", Rounded(size, 1), RoundedColor(color),
                                                Rounded(x, 1), Rounded(y, 1), text)]))
  {
    hide Run, Tokens, Join, Fixed, HexString, Rounded;
    var lines := ["BT", Join(" ", ColorLine(color)), Join(" ", ["/F1", Fixed(size, 1), "Tf"]),
                  Join(" ", [Fixed(x, 1), Fixed(y, 1), "Td"]), Join(" ", [HexString(text), "Tj"]), "ET"];
    RunJoin(Some(m), "\n", lines);
    var m1 := m.(at := Some((0.0, 0.0)));
    var m2 := m1.(state := m1.state.(color := RoundedColor(color)));
    var m3 := m2.(state := m2.state.(font := "/F1", size := Rounded(size, 1)));
    var m4 := m3.(at := Some((Rounded(x, 1), Rounded(y, 1))));
    var m5 := m4.(marks := m4.marks + [Show("/F1", Rounded(size, 1), RoundedColor(color),
                                            Rounded(x, 1), Rounded(y, 1), text)]);
    RunBare(m, "BT");
    RunColor(m1, color);
    RunFont(m2, size);
    RunMove(m3, x, y);
    RunShow(m4, text);
    RunBare(m5, "ET");
    SixParts(Some(m), lines);
  }

  lemma SixParts(r: Option<Machine>, p: seq<string>)
    requires |p| == 6
    ensures RunParts(r, p)
            == Run(Run(Run(Run(Run(Run(r, Tokens(p[0])), Tokens(p[1])), Tokens(p[2])), Tokens(p[3])),
                   Tokens(p[4])), Tokens(p[5]))
  {
    hide Run, Tokens;
    RunPartsAppend(r, p[..1], p[1..2]);
    RunPartsAppend(r, p[..2], p[2..3]);
    RunPartsAppend(r, p[..3], p[3..4]);
    RunPartsAppend(r, p[..4], p[4..5]);
    RunPartsAppend(r, p[..5], p[5..6]);
    assert p[..1] == [p[0]] && p[1..2] == [p[1]] && p[2..3] == [p[2]] && p[3..4] == [p[3]]
           && p[4..5] == [p[4]] && p[5..6] == [p[5]];
    assert p[..1] + p[1..2] == p[..2] && p[..2] + p[2..3] == p[..3] && p[..3] + p[3..4] == p[..4]
           && p[..4] + p[4..5] == p[..5] && p[..5] + p[5..6] == p;
    RunPartsOne(r, p[0]);
    forall q: Option<Machine>, i | 0 <= i < 6 ensures RunParts(q, [p[i]]) == Run(q, Tokens(p[i])) {
      RunPartsOne(q, p[i]);
    }
  }

  // ---- running a page ----

  lemma ValueThree(s: string)
    requires |s| == 3 && AllDigits(s)
    ensures Value(s) == 100 * (s[0] - '0') as nat + 10 * (s[1] - '0') as nat + (s[2] - '0') as nat
  {
    assert s[..1][..0] == [];
    assert Value(s[..1]) == (s[0] - '0') as nat;
    assert s[..2][..1] == s[..1];
    assert Value(s[..2]) == 10 * Value(s[..1]) + (s[1] - '0') as nat;
  }

  lemma ReadHundredths(a: char, b: char)
    requires IsDigit(a) && IsDigit(b)
    ensures ReadNumber(['0', '.', a, b]) == Some((10 * (a - '0') as int + (b - '0') as int) as real / 100.0)
  {
    ReadMagnitudeFraction("0", [a, b]);
    assert "0" + "." + [a, b] == ['0', '.', a, b];
    ValueThree("0" + [a, b]);
    assert Pow10(2) == 100;
    hide Value, ReadMagnitude, Pow10;
  }

  lemma JoinSnoc(words: seq<string>, w: string)
    requires words != []
    ensures Join(" ", words + [w]) == Join(" ", words) + " " + w
  {
    assert (words + [w])[..|words|] == words;
  }

  lemma {:induction false} RunColorLiteral(m: Machine, line: string, r: string, g: string, b: string)
    requires m.operands == [] && line == r + " " + g + " " + b + " " + "rg"
    requires IsWord(r) && IsWord(g) && IsWord(b) && IsOperand(r) && IsOperand(g) && IsOperand(b)
    ensures Run(Some(m), Tokens(line))
            == (var c :- ReadColor([r, g, b]); Some(m.(state := m.state.(color := c))))
  {
    Operators();
    JoinSnoc([r], g);
    JoinSnoc([r, g], b);
    JoinSnoc([r, g, b], "rg");
    assert Join(" ", [r]) == r;
    assert [r] + [g] == [r, g] && [r, g] + [b] == [r, g, b];
    hide *;
    DispatchColor(m, [r, g, b]);
    RunLine(m, [r, g, b], "rg");
  }

  lemma RunFillLiteral(m: Machine, line: string, x: nat, y: nat, w: nat, h: nat)
    requires m.operands == [] && m.path == []
    requires line == Dec(x) + " " + Dec(y) + " " + Dec(w) + " " + Dec(h) + " " + "re" + " " + "f"
    ensures Run(Some(m), Tokens(line))
            == Some(m.(marks := m.marks + [Fill(x as real, y as real, w as real, h as real, m.state.color)]))
  {
    var args := [Dec(x), Dec(y), Dec(w), Dec(h)];
    var front := Join(" ", args + ["re"]);
    FillArgs(args, x, y, w, h);
    JoinFour(args, "re");
    assert line == front + " " + "f";
    Operators();
    hide Dec, Run, Tokens, IsWord, IsOperand, Apply, Join, ReadRect;
    TokensSnoc(front, ' ', "f");
    assert [' '] == " ";
    RunLine(m, args, "re");
    DispatchRect(m, args);
    var m1 := m.(path := [Rect(x as real, y as real, w as real, h as real)]);
    RunAppend(Some(m), Tokens(front), ["f"]);
    assert [] + m1.path == m1.path;
    RunBareToken(m1, "f");
    ApplyFill(m1);
  }

  lemma JoinFour(args: seq<string>, op: string)
    requires |args| == 4
    ensures Join(" ", args + [op])
            == args[0] + " " + args[1] + " " + args[2] + " " + args[3] + " " + op
  {
    assert args[..1] + [args[1]] == args[..2] && args[..2] + [args[2]] == args[..3] && args[..3] + [args[3]] == args;
    JoinSnoc(args[..1], args[1]);
    JoinSnoc(args[..2], args[2]);
    JoinSnoc(args[..3], args[3]);
    JoinSnoc(args, op);
    assert Join(" ", args[..1]) == args[0];
    hide Join;
  }

  lemma {:induction false} FillArgs(args: seq<string>, x: nat, y: nat, w: nat, h: nat)
    requires |args| == 4 && args[0] == Dec(x) && args[1] == Dec(y) && args[2] == Dec(w) && args[3] == Dec(h)
    ensures forall i | 0 <= i < 4 :: IsWord(args[i]) && IsOperand(args[i])
    ensures ReadRect(args) == Some(Rect(x as real, y as real, w as real, h as real))
  {
    hide *;
    DecOperand(x);
    DecOperand(y);
    DecOperand(w);
    DecOperand(h);
    ReadRectOf(args, x as real, y as real, w as real, h as real);
  }

  lemma DecOperand(n: nat)
    ensures IsWord(Dec(n)) && IsOperand(Dec(n)) && ReadNumber(Dec(n)) == Some(n as real)
  {
    DecWord(n);
    ReadNumberDec(n);
  }

  lemma ReadRectOf(args: seq<string>, x: real, y: real, w: real, h: real)
    requires |args| == 4 && ReadNumber(args[0]) == Some(x) && ReadNumber(args[1]) == Some(y)
    requires ReadNumber(args[2]) == Some(w) && ReadNumber(args[3]) == Some(h)
    ensures ReadRect(args) == Some(Rect(x, y, w, h))
  {
    hide ReadNumber;
  }

  lemma DecWord(n: nat)
    ensures IsWord(Dec(n)) && IsOperand(Dec(n))
  {
    var d := Dec(n);
    hide Dec;
    assert IsDigit(d[0]);
  }

  lemma DispatchRect(m: Machine, args: seq<string>)
    ensures Apply(m, args, "re") == (var r :- ReadRect(args); Some(m.(path := m.path + [r])))
  {
    hide ReadRect, ApplyText;
  }

  lemma RunBareToken(m: Machine, op: string)
    requires m.operands == [] && !IsOperand(op)
    ensures Run(Some(m), [op]) == Apply(m, [], op)
  {
    hide Apply, IsOperand;
    assert [op][..0] == [] && m.(operands := []) == m;
    assert Run(Some(m), []) == Some(m);
  }

  lemma ApplyFill(m: Machine)
    requires |m.path| == 1
    ensures var r := m.path[0];
            Apply(m, [], "f")
            == Some(m.(marks := m.marks + [Fill(r.x, r.y, r.width, r.height, m.state.color)], path := []))
  {
    var r := m.path[0];
    FillsOne(m.path, m.state.color);
    hide Fills;
  }

  lemma FillsOne(path: seq<Rect>, c: Color)
    requires |path| == 1
    ensures Fills(path, c) == [Fill(path[0].x, path[0].y, path[0].width, path[0].height, c)]
  {
    assert path[..0] == [];
    assert Fills(path[..0], c) == [];
  }

  lemma LiteralWords()
    ensures forall w | w in ["0.94", "0.98", "0.0", "0.70", "0.72"] :: IsWord(w) && IsOperand(w)
  {
  }

  lemma ReadPreludeColors()
    ensures ReadColor(["0.94", "0.98", "0.98"]) == Some(Color(0.94, 0.98, 0.98))
    ensures ReadColor(["0.0", "0.70", "0.72"]) == Some(Color(0.0, 0.70, 0.72))
  {
    ReadHundredths('9', '4');
    ReadHundredths('9', '8');
    ReadHundredths('7', '0');
    ReadHundredths('7', '2');
    ReadFixed(0.0, 1);
    FixedZero();
    hide ReadNumber, Fixed;
  }

  lemma FixedZero()
    ensures Fixed(0.0, 1) == "0.0" && Rounded(0.0, 1) == 0.0
  {
    assert Pow10(1) == 10;
    assert Scaled(0.0, 10.0) == 0;
    assert Point(0, 1) == "0" + "." + "0";
  }

  lemma DecLiterals()
    ensures Dec(44) == "44" && Dec(760) == "760" && Dec(507) == "507" && Dec(46) == "46"
    ensures Dec(758) == "758" && Dec(2) == "2"
  {
    assert Dec(76) == "76" && Dec(50) == "50" && Dec(75) == "75";
  }

  lemma PreludeLiterals()
    ensures "0.94 0.98 0.98 rg" == "0.94" + " " + "0.98" + " " + "0.98" + " " + "rg"
    ensures "0.0 0.70 0.72 rg" == "0.0" + " " + "0.70" + " " + "0.72" + " " + "rg"
    ensures "44 760 507 46 re f" == "44" + " " + "760" + " " + "507" + " " + "46" + " " + "re" + " " + "f"
    ensures "44 758 507 2 re f" == "44" + " " + "758" + " " + "507" + " " + "2" + " " + "re" + " " + "f"
  {
  }

  lemma RunSaveRestore(m: Machine)
    requires m.operands == []
    ensures Run(Some(m), Tokens("q")) == Some(m.(saved := m.saved + [m.state]))
    ensures m.saved != [] ==>
              Run(Some(m), Tokens("Q")) == Some(m.(state := m.saved[|m.saved| - 1], saved := m.saved[..|m.saved| - 1]))
  {
    Operators();
    hide IsWord, IsOperand, Run, Tokens, ApplyText;
    RunBare(m, "q");
    RunBare(m, "Q");
  }

  // The fixed start of every page fills the band and the rule and restores the graphics state.
  lemma RunPrelude()
    ensures RunParts(Some(BLANK), PRELUDE) == Some(BLANK.(marks := HEADER_MARKS))
  {
    PreludeLiterals();
    DecLiterals();
    LiteralWords();
    ReadPreludeColors();
    hide IsWord, IsOperand, Dec, ReadColor, Run, Tokens, Apply, Join, RunParts;
    var c1, c2 := Color(0.94, 0.98, 0.98), Color(0.0, 0.70, 0.72);
    var m1 := BLANK.(saved := [BLANK.state]);
    var m2 := m1.(state := m1.state.(color := c1));
    var m3 := m2.(marks := [Fill(44.0, 760.0, 507.0, 46.0, c1)]);
    var m4 := m3.(state := m3.state.(color := c2));
    var m5 := m4.(marks := m3.marks + [Fill(44.0, 758.0, 507.0, 2.0, c2)]);
    assert [] + m3.marks == m3.marks && [] + m1.saved == m1.saved;
    assert m5.saved[..0] == [] && m5.marks == HEADER_MARKS;
    RunSaveRestore(BLANK);
    RunColorLiteral(m1, "0.94 0.98 0.98 rg", "0.94", "0.98", "0.98");
    RunFillLiteral(m2, "44 760 507 46 re f", 44, 760, 507, 46);
    RunColorLiteral(m3, "0.0 0.70 0.72 rg", "0.0", "0.70", "0.72");
    RunFillLiteral(m4, "44 758 507 2 re f", 44, 758, 507, 2);
    RunSaveRestore(m5);
    SixParts(Some(BLANK), PRELUDE);
  }

  // ---- the whole page ----

  predicate OnGrid(x: real, p: real) {
    (x * p).Floor as real == x * p
  }

  lemma ExactOnGrid(x: real)
    ensures OnGrid(x, 10.0) ==> Rounded(x, 1) == x
    ensures OnGrid(x, 1000.0) ==> Rounded(x, 3) == x
  {
    assert Pow10(1) == 10 && Pow10(2) == 100 && Pow10(3) == 1000;
    hide Pow10, Near;
    NearBounds(x, 10.0);
    NearBounds(x, 1000.0);
  }

  lemma StyleOnGrid(name: string)
    ensures var s := StyleOf(name);
            OnGrid(s.size, 10.0) && OnGrid(s.color.red, 1000.0) && OnGrid(s.color.green, 1000.0)
            && OnGrid(s.color.blue, 1000.0)
  {
  }

  // Sizes and colours have few enough decimals to be written exactly.
  lemma StyleExact(name: string)
    ensures var s := StyleOf(name); Rounded(s.size, 1) == s.size && RoundedColor(s.color) == s.color
  {
    hide Rounded, StyleOf, OnGrid;
    StyleOnGrid(name);
    var s := StyleOf(name);
    ExactOnGrid(s.size);
    ExactOnGrid(s.color.red);
    ExactOnGrid(s.color.green);
    ExactOnGrid(s.color.blue);
  }

  lemma {:induction false} RunLines(m: Machine, page: seq<PdfLine>, n: nat) returns (m': Machine)
    requires m.operands == [] && m.at.None? && n <= |page| && PageEncodable(page)
    ensures m' == m.(state := m'.state, marks := m.marks + LineMarks(page, n))
    ensures RunParts(Some(m), LineCommands(page, n)) == Some(m')
  {
    hide Run, Tokens, PdfTextCommand, StyleOf, Baseline, RoundedColor, Rounded;
    if n == 0 {
      m' := m;
      assert m.marks + [] == m.marks;
    } else {
      var m1 := RunLines(m, page, n - 1);
      var style := StyleOf(page[n - 1].style);
      StyleExact(page[n - 1].style);
      RunTextCommand(m1, page[n - 1].text, MARGIN_LEFT + page[n - 1].indent, Baseline(page, n - 1),
                     style.size, style.color);
      m' := m1.(state := Graphics(style.color, "/F1", style.size),
                marks := m1.marks + [LineMark(page, n - 1)]);
      RunPartsAppend(Some(m), LineCommands(page, n - 1), [LineCommand(page, n - 1)]);
      RunPartsOne(Some(m1), LineCommand(page, n - 1));
      assert m.marks + LineMarks(page, n - 1) + [LineMark(page, n - 1)] == m.marks + LineMarks(page, n);
    }
  }

  lemma RunFooter(m: Machine, number: nat, total: nat) returns (m': Machine)
    requires m.operands == [] && m.at.None?
    ensures m' == m.(state := m'.state, marks := m.marks + [FooterMark(number, total)])
    ensures Run(Some(m), Tokens(FooterCommand(number, total))) == Some(m')
  {
    StyleExact("footer");
    FooterEncodable(number, total);
    ExactOnGrid(54.0);
    ExactOnGrid(34.0);
    var style := StyleOf("footer");
    hide Run, Tokens, PdfTextCommand, RoundedColor, Rounded, Footer;
    RunTextCommand(m, Footer(number, total), 54.0, 34.0, style.size, style.color);
    m' := m.(state := Graphics(style.color, "/F1", style.size), marks := m.marks + [FooterMark(number, total)]);
  }

  // Interpreting a page's content stream draws the band and the rule, each line once and in
  // order at its baseline, and one footer.
  lemma RenderContent(page: seq<PdfLine>, number: nat, total: nat)
    requires PageEncodable(page)
    ensures Render(ContentStream(page, number, total)) == Some(PageMarks(page, number, total))
  {
    var lines, footer := LineCommands(page, |page|), FooterCommand(number, total);
    RunPrelude();
    var m0 := BLANK.(marks := HEADER_MARKS);
    var m1 := RunLines(m0, page, |page|);
    var m2 := RunFooter(m1, number, total);
    hide Run, Tokens, Join, RunParts, LineCommands, FooterCommand, FooterMark, LineMarks;
    RunJoin(Some(BLANK), "\n", PRELUDE + lines + [footer]);
    RunPartsAppend(Some(BLANK), PRELUDE + lines, [footer]);
    RunPartsAppend(Some(BLANK), PRELUDE, lines);
    RunPartsOne(Some(m1), footer);
  }
}
