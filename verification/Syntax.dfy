// A reader for PDF tokens and objects, after ISO 32000-1 sections 7.2 and 7.3: the meaning given to
// the bytes of the exporter.
module Syntax {
  import opened Wrappers
  import opened Numbers

  // ---- tokens (section 7.2) ----

  predicate IsWhite(c: char) {
    c == ' ' || c == '\n' || c == '\r' || c == '\t' || c as int == 12 || c as int == 0
  }

  predicate IsBracket(c: char) {
    c == '[' || c == ']'
  }

  predicate IsRegular(c: char) {
    !IsWhite(c) && !IsBracket(c)
  }

  // Length of the longest prefix of regular characters.
  function RegularRun(s: string): (k: nat)
    ensures k <= |s|
    ensures k < |s| ==> !IsRegular(s[k])
    ensures forall i | 0 <= i < k :: IsRegular(s[i])
  {
    if s == [] || !IsRegular(s[0]) then 0 else 1 + RegularRun(s[1..])
  }

  function Tokens(s: string): seq<string>
    decreases |s|
  {
    if s == [] then []
    else if IsWhite(s[0]) then Tokens(s[1..])
    else if IsBracket(s[0]) then [s[..1]] + Tokens(s[1..])
    else
      var k := RegularRun(s);
      [s[..k]] + Tokens(s[k..])
  }

  predicate IsWord(w: string) {
    w != [] && forall i | 0 <= i < |w| :: IsRegular(w[i])
  }

  lemma {:induction false} RunOfAppend(a: string, b: string)
    requires forall i | 0 <= i < |a| :: IsRegular(a[i])
    ensures RegularRun(a + b) == |a| + RegularRun(b)
  {
    if a == [] {
      assert a + b == b;
    } else {
      assert (a + b)[1..] == a[1..] + b;
      RunOfAppend(a[1..], b);
    }
  }

  lemma TokensOfWord(w: string)
    requires IsWord(w)
    ensures Tokens(w) == [w]
  {
    RunOfAppend(w, "");
    assert w + "" == w;
    assert w[..|w|] == w && w[|w|..] == "";
  }

  lemma {:induction false} TokensAfterWord(w: string, rest: string)
    requires IsWord(w) && (rest == "" || !IsRegular(rest[0]))
    ensures Tokens(w + rest) == [w] + Tokens(rest)
  {
    RunOfAppend(w, rest);
    assert (w + rest)[..|w|] == w && (w + rest)[|w|..] == rest;
  }

  // Text split at white space or a bracket is read as the tokens of its two parts.
  lemma {:induction false} TokensSplit(a: string, c: char, b: string)
    requires !IsRegular(c)
    ensures Tokens(a + [c] + b) == Tokens(a) + Tokens([c] + b)
    decreases |a|
  {
    var s := a + [c] + b;
    if a == [] {
      assert s == [c] + b;
    } else if !IsRegular(a[0]) {
      assert s[1..] == a[1..] + [c] + b;
      TokensSplit(a[1..], c, b);
      assert s[..1] == a[..1];
    } else {
      var k := RegularRun(a);
      var w, rest := a[..k], a[k..];
      assert a == w + rest && s == w + (rest + [c] + b);
      TokensSplit(rest, c, b);
      TokensAfterWord(w, rest);
      TokensAfterWord(w, rest + [c] + b);
      hide Tokens;
    }
  }

  // One more word after a blank.
  lemma TokensSnoc(a: string, c: char, w: string)
    requires IsWhite(c) && IsWord(w)
    ensures Tokens(a + [c] + w) == Tokens(a) + [w]
  {
    TokensSplit(a, c, w);
    assert ([c] + w)[1..] == w;
    TokensOfWord(w);
  }

  lemma TokensBlank(a: string, c: char, b: string)
    requires IsWhite(c)
    ensures Tokens(a + [c] + b) == Tokens(a) + Tokens(b)
  {
    TokensSplit(a, c, b);
    assert ([c] + b)[1..] == b;
  }

  // ---- objects (section 7.3) ----

  // A dictionary lists its keys and values alternately.
  datatype Object =
    | Name(name: string)
    | Number(value: real)
    | Literal(text: string)
    | Reference(id: nat)
    | Array(items: seq<Object>)
    | Dictionary(entries: seq<Object>)

  // Objects read so far inside each construct still open, outermost first.
  datatype Frame = Frame(opener: string, items: seq<Object>)

  type Reader = Option<seq<Frame>>

  function Push(open: seq<Frame>, o: Object): seq<Frame> {
    if open == [] then [Frame("", [o])]
    else
      var top := open[|open| - 1];
      open[..|open| - 1] + [top.(items := top.items + [o])]
  }

  predicate KeysAreNames(entries: seq<Object>) {
    |entries| % 2 == 0 && forall i | 0 <= i < |entries| && i % 2 == 0 :: entries[i].Name?
  }

  function ReadToken(r: Reader, token: string): Reader
  {
    if r.None? || r.value == [] || token == [] then None
    else
      var open := r.value;
      var top := open[|open| - 1];
      var below := open[..|open| - 1];
      if token == "<<" || token == "[" then
        Some(open + [Frame(token, [])])
      else if token == "]" then
        if top.opener == "[" && below != [] then Some(Push(below, Array(top.items))) else None
      else if token == ">>" then
        if top.opener == "<<" && below != [] && KeysAreNames(top.items)
        then Some(Push(below, Dictionary(top.items))) else None
      else if token == "R" then
        ReadReference(below, top)
      else if token[0] == '/' then
        Some(Push(open, Name(token)))
      else if token[0] == '(' && token[|token| - 1] == ')' then
        Some(Push(open, Literal(token)))
      else
        var v :- ReadNumber(token);
        Some(Push(open, Number(v)))
  }

  // `n g R` stands for the object numbered n (section 7.3.10).
  function ReadReference(below: seq<Frame>, top: Frame): Reader {
    var n := |top.items|;
    if n >= 2 && top.items[n - 2].Number? && top.items[n - 1] == Number(0.0)
       && IsNat(top.items[n - 2].value)
    then Some(below + [top.(items := top.items[..n - 2] + [Reference(top.items[n - 2].value.Floor)])])
    else None
  }

  predicate IsNat(v: real) {
    v >= 0.0 && v.Floor as real == v
  }

  function ReadTokens(r: Reader, tokens: seq<string>): Reader {
    if tokens == [] then r
    else ReadToken(ReadTokens(r, tokens[..|tokens| - 1]), tokens[|tokens| - 1])
  }

  // The single object that a whole string spells.
  function ReadObject(s: string): Option<Object> {
    var open :- ReadTokens(Some([Frame("", [])]), Tokens(s));
    if |open| == 1 && |open[0].items| == 1 then Some(open[0].items[0]) else None
  }

  // The value of a key: the first one listed.
  function Lookup(o: Object, key: string): Option<Object> {
    if o.Dictionary? then LookupIn(o.entries, key) else None
  }

  function LookupIn(entries: seq<Object>, key: string): Option<Object> {
    if |entries| < 2 then None
    else if entries[0] == Name(key) then Some(entries[1])
    else LookupIn(entries[2..], key)
  }

  function RefValue(o: Object, key: string): Option<nat> {
    var v :- Lookup(o, key);
    if v.Reference? then Some(v.id) else None
  }

  function NatValue(o: Object, key: string): Option<nat> {
    var v :- Lookup(o, key);
    if v.Number? && IsNat(v.value) then Some(v.value.Floor) else None
  }

  // White space behind an object does not matter.
  lemma ReadObjectLine(s: string)
    ensures ReadObject(s + "\n") == ReadObject(s)
  {
    TokensBlank(s, '\n', "");
    assert s + ['\n'] + "" == s + "\n";
    assert Tokens("") == [] && Tokens(s) + [] == Tokens(s);
    hide ReadTokens;
  }
}
