// Page content streams: what the exporter writes for a page, and an interpreter for the
// operators it uses (ISO 32000-1 sections 8.4, 8.5 and 9.4) that says what the bytes draw.
module Content {
  import opened Wrappers
  import opened Text
  import opened Numbers
  import opened Utf16
  import opened Syntax
  import opened Printing
  import opened Greedy
  import opened Layout

  // ---- what a page shows ----

  datatype Mark =
    | Fill(x: real, y: real, width: real, height: real, color: Color)
    | Show(font: string, size: real, color: Color, x: real, y: real, text: Text)

  // Pages are drawn from 14 points above the paginator's top margin.
  const RENDER_TOP := MARGIN_TOP + 14.0

  // The cursor below the lines of a page, as the renderer moves it.
  function RendererCursor(page: seq<PdfLine>): real {
    if page == [] then RENDER_TOP
    else
      var last := page[|page| - 1];
      RendererCursor(page[..|page| - 1]) - last.gapBefore - StyleOf(last.style).leading
  }

  // Where line i sits: its own gap below the line before it.
  function Baseline(page: seq<PdfLine>, i: nat): real
    requires i < |page|
  {
    RendererCursor(page[..i]) - page[i].gapBefore
  }

  // The two loops move their cursors alike: on every page the renderer's stays 14 points above
  // the paginator's, and that one at the top margin less what the page costs.
  lemma {:induction false} CursorsAgree(page: seq<PdfLine>)
    ensures RendererCursor(page) == PaginatorCursor(page) + 14.0
    ensures PaginatorCursor(page) == 766.0 - Cost(LineCost, page)
  {
    hide StyleOf;
    CursorOfCost(page);
    if page != [] {
      CursorsAgree(page[..|page| - 1]);
    }
  }

  function LineMark(page: seq<PdfLine>, i: nat): Mark
    requires i < |page|
  {
    var style := StyleOf(page[i].style);
    Show("/F1", style.size, style.color,
         Rounded(MARGIN_LEFT + page[i].indent, 1), Rounded(Baseline(page, i), 1), page[i].text)
  }

  function LineMarks(page: seq<PdfLine>, n: nat): (marks: seq<Mark>)
    requires n <= |page|
    ensures |marks| == n
    ensures forall i | 0 <= i < n :: marks[i] == LineMark(page, i)
  {
    if n == 0 then [] else LineMarks(page, n - 1) + [LineMark(page, n - 1)]
  }

  function Footer(number: nat, total: nat): Text {
    Points("HuaXia TourismRAG · Page " + Dec(number) + "/" + Dec(total))
  }

  function FooterMark(number: nat, total: nat): Mark {
    Show("/F1", 8.5, Color(0.45, 0.50, 0.56), 54.0, 34.0, Footer(number, total))
  }

  // The band behind the title and the rule under it.
  const HEADER_MARKS := [
    Fill(44.0, 760.0, 507.0, 46.0, Color(0.94, 0.98, 0.98)),
    Fill(44.0, 758.0, 507.0, 2.0, Color(0.0, 0.70, 0.72))
  ]

  function PageMarks(page: seq<PdfLine>, number: nat, total: nat): seq<Mark> {
    HEADER_MARKS + LineMarks(page, |page|) + [FooterMark(number, total)]
  }

  // ---- writing ----

  function HexString(text: Text): string
    requires Encodable(text)
  {
    "<" + Hex(Encode(text)) + ">"
  }

  function ColorLine(c: Color): seq<string> {
    [Fixed(c.red, 3), Fixed(c.green, 3), Fixed(c.blue, 3), "rg"]
  }

  function PdfTextCommand(text: Text, x: real, y: real, size: real, color: Color): string
    requires Encodable(text)
  {
    Join("\n", [
      "BT",
      Join(" ", ColorLine(color)),
      Join(" ", ["/F1", Fixed(size, 1), "Tf"]),
      Join(" ", [Fixed(x, 1), Fixed(y, 1), "Td"]),
      Join(" ", [HexString(text), "Tj"]),
      "ET"])
  }

  const PRELUDE := [
    "q",
    "0.94 0.98 0.98 rg",
    "44 760 507 46 re f",
    "0.0 0.70 0.72 rg",
    "44 758 507 2 re f",
    "Q"
  ]

  predicate PageEncodable(page: seq<PdfLine>) {
    forall i | 0 <= i < |page| :: Encodable(page[i].text)
  }

  function LineCommand(page: seq<PdfLine>, i: nat): string
    requires i < |page| && PageEncodable(page)
  {
    var style := StyleOf(page[i].style);
    PdfTextCommand(page[i].text, MARGIN_LEFT + page[i].indent, Baseline(page, i), style.size, style.color)
  }

  function LineCommands(page: seq<PdfLine>, n: nat): seq<string>
    requires n <= |page| && PageEncodable(page)
  {
    if n == 0 then [] else LineCommands(page, n - 1) + [LineCommand(page, n - 1)]
  }

  lemma FooterEncodable(number: nat, total: nat)
    ensures Encodable(Footer(number, total))
  {
    var s := "HuaXia TourismRAG · Page " + Dec(number) + "/" + Dec(total);
    forall i | 0 <= i < |s| ensures !IsSurrogate(s[i] as int) {
    }
  }

  function FooterCommand(number: nat, total: nat): string {
    FooterEncodable(number, total);
    var style := StyleOf("footer");
    PdfTextCommand(Footer(number, total), MARGIN_LEFT, 34.0, style.size, style.color)
  }

  function ContentStream(page: seq<PdfLine>, number: nat, total: nat): string
    requires PageEncodable(page)
  {
    Join("\n", PRELUDE + LineCommands(page, |page|) + [FooterCommand(number, total)])
  }

  // Encoding a text that holds a surrogate raises an error, here None.
  method PdfContentStream(lines: seq<PdfLine>, pageNumber: nat, totalPages: nat) returns (r: Option<string>)
    ensures r == if PageEncodable(lines) then Some(ContentStream(lines, pageNumber, totalPages)) else None
  {
    hide PdfTextCommand, StyleOf;
    var commands := PRELUDE;
    var cursorY := MARGIN_TOP + 14.0;
    for i := 0 to |lines|
      invariant PageEncodable(lines[..i])
      invariant cursorY == RendererCursor(lines[..i])
      invariant PageEncodable(lines) ==> commands == PRELUDE + LineCommands(lines, i)
    {
      var line := lines[i];
      if !Encodable(line.text) {
        return None;
      }
      var style := StyleOf(line.style);
      cursorY := cursorY - line.gapBefore;
      commands := commands
        + [PdfTextCommand(line.text, MARGIN_LEFT + line.indent, cursorY, style.size, style.color)];
      cursorY := cursorY - style.leading;
      assert lines[..i + 1][..i] == lines[..i];
    }
    assert lines[..|lines|] == lines;
    commands := commands + [FooterCommand(pageNumber, totalPages)];
    r := Some(Join("\n", commands));
  }

  // ---- drawing ----

  datatype Graphics = Graphics(color: Color, font: string, size: real)

  datatype Rect = Rect(x: real, y: real, width: real, height: real)

  // Operands wait for their operator; `at` is the text position between BT and ET.
  datatype Machine = Machine(
    operands: seq<string>,
    saved: seq<Graphics>,
    state: Graphics,
    path: seq<Rect>,
    at: Option<(real, real)>,
    marks: seq<Mark>
  )

  const BLANK := Machine([], [], Graphics(Color(0.0, 0.0, 0.0), "", 0.0), [], None, [])

  predicate IsOperand(token: string) {
    token != "" && (IsDigit(token[0]) || token[0] == '-' || token[0] == '.' || token[0] == '/'
                    || token[0] == '<')
  }

  function ReadColor(args: seq<string>): Option<Color> {
    if |args| != 3 then None
    else
      var r :- ReadNumber(args[0]);
      var g :- ReadNumber(args[1]);
      var b :- ReadNumber(args[2]);
      Some(Color(r, g, b))
  }

  function ReadRect(args: seq<string>): Option<Rect> {
    if |args| != 4 then None
    else
      var x :- ReadNumber(args[0]);
      var y :- ReadNumber(args[1]);
      var w :- ReadNumber(args[2]);
      var h :- ReadNumber(args[3]);
      Some(Rect(x, y, w, h))
  }

  function ReadHexString(token: string): Option<Text> {
    if |token| >= 2 && token[0] == '<' && token[|token| - 1] == '>' then
      var bytes :- Unhex(token[1..|token| - 1]);
      Decode(bytes)
    else None
  }

  function Fills(path: seq<Rect>, color: Color): seq<Mark> {
    if path == [] then []
    else
      var r := path[|path| - 1];
      Fills(path[..|path| - 1], color) + [Fill(r.x, r.y, r.width, r.height, color)]
  }

  // Graphics operators.
  function Apply(m: Machine, args: seq<string>, op: string): Option<Machine> {
    if op == "q" && args == [] then
      Some(m.(saved := m.saved + [m.state]))
    else if op == "Q" && args == [] && m.saved != [] then
      Some(m.(state := m.saved[|m.saved| - 1], saved := m.saved[..|m.saved| - 1]))
    else if op == "rg" then
      var c :- ReadColor(args);
      Some(m.(state := m.state.(color := c)))
    else if op == "re" then
      var r :- ReadRect(args);
      Some(m.(path := m.path + [r]))
    else if op == "f" && args == [] then
      Some(m.(marks := m.marks + Fills(m.path, m.state.color), path := []))
    else
      ApplyText(m, args, op)
  }

  // Text operators.
  function ApplyText(m: Machine, args: seq<string>, op: string): Option<Machine> {
    if op == "BT" && args == [] && m.at.None? then
      Some(m.(at := Some((0.0, 0.0))))
    else if op == "ET" && args == [] && m.at.Some? then
      Some(m.(at := None))
    else if op == "Tf" && |args| == 2 && args[0] != "" && args[0][0] == '/' then
      var size :- ReadNumber(args[1]);
      Some(m.(state := m.state.(font := args[0], size := size)))
    else if op == "Td" && |args| == 2 && m.at.Some? then
      var dx :- ReadNumber(args[0]);
      var dy :- ReadNumber(args[1]);
      Some(m.(at := Some((m.at.value.0 + dx, m.at.value.1 + dy))))
    else if op == "Tj" && |args| == 1 && m.at.Some? && m.state.font != "" then
      var text :- ReadHexString(args[0]);
      Some(m.(marks := m.marks + [Show(m.state.font, m.state.size, m.state.color,
                                       m.at.value.0, m.at.value.1, text)]))
    else None
  }

  function Step(r: Option<Machine>, token: string): Option<Machine> {
    var m :- r;
    if IsOperand(token) then Some(m.(operands := m.operands + [token]))
    else Apply(m.(operands := []), m.operands, token)
  }

  function Run(r: Option<Machine>, tokens: seq<string>): Option<Machine> {
    if tokens == [] then r else Step(Run(r, tokens[..|tokens| - 1]), tokens[|tokens| - 1])
  }

  // What a complete content stream draws, if it is well formed.
  function Render(stream: string): Option<seq<Mark>> {
    var m :- Run(Some(BLANK), Tokens(stream));
    if m.operands == [] && m.saved == [] && m.path == [] && m.at.None? then Some(m.marks) else None
  }
}
