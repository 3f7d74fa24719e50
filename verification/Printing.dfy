// How PDF objects are spelled and printed, and the proof that the reader recovers them.
module Printing {
  import opened Wrappers
  import opened Numbers
  import opened Syntax

  // ---- the tokens of an object ----

  // The tokens that spell an object.
  function Spell(o: Object): seq<string>
    requires Printable(o)
  {
    match o
    case Name(n) => [n]
    case Number(v) => [Integer(v.Floor)]
    case Literal(t) => [t]
    case Reference(id) => [Dec(id), "0", "R"]
    case Array(items) => ["["] + SpellAll(items) + ["]"]
    case Dictionary(entries) => ["<<"] + SpellAll(entries) + [">>"]
  }

  function SpellAll(os: seq<Object>): seq<string>
    requires forall i | 0 <= i < |os| :: Printable(os[i])
  {
    if os == [] then [] else SpellAll(os[..|os| - 1]) + Spell(os[|os| - 1])
  }

  predicate Printable(o: Object) {
    match o
    case Name(n) => n != [] && n[0] == '/'
    case Number(v) => v.Floor as real == v
    case Literal(t) => t != [] && t[0] == '(' && t[|t| - 1] == ')'
    case Reference(_) => true
    case Array(items) => forall i | 0 <= i < |items| :: Printable(items[i])
    case Dictionary(entries) =>
      KeysAreNames(entries) && forall i | 0 <= i < |entries| :: Printable(entries[i])
  }

  function Integer(n: int): string {
    if n < 0 then "-" + Dec(-n) else Dec(n)
  }

  // ---- reading undoes spelling ----

  lemma {:induction false} ReadAppend(r: Reader, a: seq<string>, b: seq<string>)
    ensures ReadTokens(r, a + b) == ReadTokens(ReadTokens(r, a), b)
  {
    if b == [] {
      assert a + b == a;
    } else {
      assert (a + b)[..|a| + |b| - 1] == a + b[..|b| - 1];
      ReadAppend(r, a, b[..|b| - 1]);
    }
  }

  lemma ReadOne(r: Reader, t: string)
    ensures ReadTokens(r, [t]) == ReadToken(r, t)
  {
    assert [t][..0] == [];
    assert ReadTokens(r, []) == r;
  }

  lemma ReadInteger(n: int)
    ensures ReadNumber(Integer(n)) == Some(n as real)
    ensures Integer(n) != [] && (IsDigit(Integer(n)[0]) || Integer(n)[0] == '-')
  {
    hide Dec, ReadNumber;
    if n < 0 {
      ReadNegative(Dec(-n), -n);
      assert Integer(n)[0] == "-"[0];
    } else {
      ReadNumberDec(n);
      assert IsDigit(Dec(n)[0]);
    }
  }

  lemma ReadNegative(d: string, n: nat)
    requires d == Dec(n)
    ensures ReadNumber("-" + d) == Some(-(n as real))
  {
    ReadNumberDec(n);
    hide ReadMagnitude, Dec;
    assert AllDigits(d) && IsDigit(d[0]);
    assert ("-" + d)[1..] == d;
  }

  lemma ReadIntegerToken(open: seq<Frame>, n: int)
    requires open != []
    ensures ReadTokens(Some(open), [Integer(n)]) == Some(Push(open, Number(n as real)))
  {
    hide Integer, ReadNumber, ReadReference;
    ReadInteger(n);
    ReadOne(Some(open), Integer(n));
  }

  // Reading an object's tokens adds exactly that object to the construct being read.
  lemma {:induction false} ReadSpell(open: seq<Frame>, o: Object)
    requires open != [] && Printable(o)
    ensures ReadTokens(Some(open), Spell(o)) == Some(Push(open, o))
    decreases o, 0
  {
    match o
    case Name(n) => ReadOne(Some(open), n);
    case Literal(t) => ReadOne(Some(open), t);
    case Number(v) =>
      ReadIntegerToken(open, v.Floor);
    case Reference(id) => ReadSpellReference(open, id);
    case Array(items) => ReadSpellGroup(open, "[", items, "]");
    case Dictionary(entries) => ReadSpellGroup(open, "<<", entries, ">>");
  }

  lemma ReadSpellReference(open: seq<Frame>, id: nat)
    requires open != []
    ensures ReadTokens(Some(open), [Dec(id), "0", "R"]) == Some(Push(open, Reference(id)))
  {
    var r := Some(open);
    var one := Push(open, Number(id as real));
    var two := Push(one, Number(0.0));
    assert [Dec(id), "0", "R"] == [Dec(id)] + ["0"] + ["R"];
    ReadAppend(r, [Dec(id)] + ["0"], ["R"]);
    ReadAppend(r, [Dec(id)], ["0"]);
    ReadIntegerToken(open, id);
    assert Dec(0) == "0";
    ReadIntegerToken(one, 0);
    ReadOne(Some(two), "R");
    ReduceReference(open, id);
  }

  lemma ReduceReference(open: seq<Frame>, id: nat)
    requires open != []
    ensures var two := Push(Push(open, Number(id as real)), Number(0.0));
            ReadReference(two[..|two| - 1], two[|two| - 1]) == Some(Push(open, Reference(id)))
  {
    var items := open[|open| - 1].items;
    var two := Push(Push(open, Number(id as real)), Number(0.0));
    assert two[..|two| - 1] == open[..|open| - 1];
    assert two[|two| - 1].items == items + [Number(id as real)] + [Number(0.0)];
    assert two[|two| - 1].items[..|items|] == items;
  }

  lemma {:induction false} ReadSpellGroup(open: seq<Frame>, opener: string, items: seq<Object>, closer: string)
    requires open != [] && forall i | 0 <= i < |items| :: Printable(items[i])
    requires (opener == "[" && closer == "]") || (opener == "<<" && closer == ">>" && KeysAreNames(items))
    ensures ReadTokens(Some(open), [opener] + SpellAll(items) + [closer])
            == Some(Push(open, if opener == "[" then Array(items) else Dictionary(items)))
    decreases items, 1
  {
    var r := Some(open);
    var inner := open + [Frame(opener, [])];
    var full := open + [Frame(opener, items)];
    ReadAppend(r, [opener] + SpellAll(items), [closer]);
    ReadAppend(r, [opener], SpellAll(items));
    ReadOne(r, opener);
    ReadSpellAll(inner, items);
    assert inner[..|inner| - 1] == open && [] + items == items;
    ReadOne(Some(full), closer);
    assert full[..|full| - 1] == open;
  }

  lemma {:induction false} ReadSpellAll(open: seq<Frame>, os: seq<Object>)
    requires open != [] && forall i | 0 <= i < |os| :: Printable(os[i])
    ensures ReadTokens(Some(open), SpellAll(os)) == Some(PushAll(open, os))
    decreases os, 0
  {
    PushLast(open, os);
    if os != [] {
      var front, last := os[..|os| - 1], os[|os| - 1];
      ReadAppend(Some(open), SpellAll(front), Spell(last));
      ReadSpellAll(open, front);
      ReadSpell(PushAll(open, front), last);
    }
  }

  function PushAll(open: seq<Frame>, os: seq<Object>): seq<Frame>
    requires open != []
  {
    var top := open[|open| - 1];
    open[..|open| - 1] + [top.(items := top.items + os)]
  }

  lemma PushLast(open: seq<Frame>, os: seq<Object>)
    requires open != []
    ensures PushAll(open, []) == open
    ensures os != [] ==> Push(PushAll(open, os[..|os| - 1]), os[|os| - 1]) == PushAll(open, os)
  {
    var below, items := open[..|open| - 1], open[|open| - 1].items;
    assert items + [] == items;
    if os != [] {
      var mid := PushAll(open, os[..|os| - 1]);
      assert mid[..|mid| - 1] == below;
      assert items + os[..|os| - 1] + [os[|os| - 1]] == items + os;
    }
  }

  // A string whose tokens spell an object is read as that object.
  lemma ReadObjectOf(s: string, o: Object)
    requires Printable(o) && Tokens(s) == Spell(o)
    ensures ReadObject(s) == Some(o)
  {
    ReadSpell([Frame("", [])], o);
  }

  // ---- printing ----

  function Print(o: Object): string {
    match o
    case Name(n) => n
    case Number(v) => Integer(v.Floor)
    case Literal(t) => t
    case Reference(id) => Dec(id) + " 0 R"
    case Array(items) => "[" + PrintAll(items) + "]"
    case Dictionary(entries) => "<< " + PrintAll(entries) + " >>"
  }

  function PrintAll(os: seq<Object>): string {
    if os == [] then ""
    else if |os| == 1 then Print(os[0])
    else PrintAll(os[..|os| - 1]) + " " + Print(os[|os| - 1])
  }

  // Printable objects whose names and literals are single tokens.
  predicate Plain(o: Object) {
    match o
    case Name(n) => IsName(n)
    case Number(v) => v.Floor as real == v
    case Literal(t) => IsWord(t) && t[0] == '(' && t[|t| - 1] == ')'
    case Reference(_) => true
    case Array(items) => forall i | 0 <= i < |items| :: Plain(items[i])
    case Dictionary(entries) =>
      KeysAreNames(entries) && forall i | 0 <= i < |entries| :: Plain(entries[i])
  }

  lemma {:induction false} PlainPrintable(o: Object)
    requires Plain(o)
    ensures Printable(o)
  {
    match o
    case Array(items) =>
      forall i | 0 <= i < |items| ensures Printable(items[i]) { PlainPrintable(items[i]); }
    case Dictionary(entries) =>
      forall i | 0 <= i < |entries| ensures Printable(entries[i]) { PlainPrintable(entries[i]); }
    case _ =>
  }

  lemma IntegerWord(n: int)
    ensures IsWord(Integer(n))
  {
    hide Dec;
  }

  lemma TokensOfReference(id: nat)
    ensures Tokens(Dec(id) + " 0 R") == [Dec(id), "0", "R"]
  {
    IntegerWord(id);
    var d := Dec(id);
    assert d + " 0 R" == d + [' '] + "0" + [' '] + "R";
    hide Dec, Tokens;
    TokensOfWord(d);
    TokensSnoc(d, ' ', "0");
    TokensSnoc(d + [' '] + "0", ' ', "R");
  }

  lemma TokensOfBrackets(s: string)
    ensures Tokens("[" + s + "]") == ["["] + Tokens(s) + ["]"]
  {
    assert ("[" + s + "]")[1..] == s + [']'] + "";
    assert ("[" + s + "]")[..1] == "[";
    TokensSplit(s, ']', "");
    assert Tokens([']'] + "") == ["]"] by {
      assert ([']'] + "")[1..] == "" && ([']'] + "")[..1] == "]";
    }
  }

  lemma TokensOfAngles(s: string)
    ensures Tokens("<< " + s + " >>") == ["<<"] + Tokens(s) + [">>"]
  {
    assert "<< " + s + " >>" == "<<" + [' '] + s + [' '] + ">>";
    hide Tokens;
    TokensOfWord("<<");
    TokensBlank("<<", ' ', s);
    TokensSnoc("<<" + [' '] + s, ' ', ">>");
  }

  // The tokens of a printed object are those that spell it.
  lemma {:induction false} TokensOfPrint(o: Object)
    requires Plain(o) && Printable(o)
    ensures Tokens(Print(o)) == Spell(o)
    decreases o, 0
  {
    hide Tokens, IsWord;
    match o
    case Name(n) => TokensOfWord(n);
    case Literal(t) => TokensOfWord(t);
    case Number(v) =>
      IntegerWord(v.Floor);
      TokensOfWord(Integer(v.Floor));
    case Reference(id) => TokensOfReference(id);
    case Array(items) =>
      TokensOfPrintAll(items);
      TokensOfBrackets(PrintAll(items));
    case Dictionary(entries) =>
      TokensOfPrintAll(entries);
      TokensOfAngles(PrintAll(entries));
  }

  lemma {:induction false} TokensOfPrintAll(os: seq<Object>)
    requires forall i | 0 <= i < |os| :: Plain(os[i]) && Printable(os[i])
    ensures Tokens(PrintAll(os)) == SpellAll(os)
    decreases os, 0
  {
    if os == [] {
      assert Tokens("") == [];
    } else {
      hide Tokens, IsWord;
      var front, last := os[..|os| - 1], os[|os| - 1];
      TokensOfPrint(last);
      if |os| == 1 {
        assert front == [] && SpellAll(front) == [];
      } else {
        TokensOfPrintAll(front);
        TokensBlank(PrintAll(front), ' ', Print(last));
      }
    }
  }

  // Reading a printed object gives it back.
  lemma {:induction false} ReadPrint(o: Object)
    requires Plain(o)
    ensures ReadObject(Print(o)) == Some(o)
  {
    PlainPrintable(o);
    TokensOfPrint(o);
    ReadObjectOf(Print(o), o);
  }

  lemma PrintSnoc(os: seq<Object>, o: Object)
    ensures PrintAll(os + [o]) == if os == [] then Print(o) else PrintAll(os) + " " + Print(o)
  {
    assert (os + [o])[..|os|] == os;
  }

  // ---- dictionaries given as pairs ----

  type Pairs = seq<(string, Object)>

  function Entries(ps: Pairs): (entries: seq<Object>)
    ensures |entries| == 2 * |ps|
    ensures forall i | 0 <= i < |ps| :: entries[2 * i] == Name(ps[i].0) && entries[2 * i + 1] == ps[i].1
  {
    if ps == [] then []
    else Entries(ps[..|ps| - 1]) + [Name(ps[|ps| - 1].0), ps[|ps| - 1].1]
  }

  function DictOf(ps: Pairs): Object {
    Dictionary(Entries(ps))
  }

  function Join(sep: string, parts: seq<string>): string {
    if parts == [] then ""
    else if |parts| == 1 then parts[0]
    else Join(sep, parts[..|parts| - 1]) + sep + parts[|parts| - 1]
  }

  // A dictionary written with one key and its value per part.
  function DictText(parts: seq<string>): string {
    "<< " + Join(" ", parts) + " >>"
  }

  // A part that writes a key and its value, both readable back.
  predicate WritesPair(part: string, p: (string, Object)) {
    part == p.0 + " " + Print(p.1) && IsName(p.0) && Plain(p.1)
  }

  predicate IsName(n: string) {
    IsWord(n) && n[0] == '/'
  }

  // One entry of a dictionary.
  function Part(key: string, value: string): string {
    key + " " + value
  }

  function Ref(id: nat): string {
    Dec(id) + " 0 R"
  }

  lemma NamePart(key: string, name: string)
    requires IsName(key) && IsName(name)
    ensures WritesPair(Part(key, name), (key, Name(name)))
  {
    hide IsWord;
  }

  lemma ValuePart(key: string, value: Object)
    requires IsName(key) && Plain(value)
    ensures WritesPair(Part(key, Print(value)), (key, value))
  {
  }

  lemma NumberPart(key: string, n: int, text: string)
    requires IsName(key) && Integer(n) == text
    ensures WritesPair(Part(key, text), (key, Number(n as real)))
  {
    hide Integer, IsName, Part;
    ValuePart(key, Number(n as real));
  }

  lemma ReferencePart(key: string, id: nat)
    requires IsName(key)
    ensures WritesPair(Part(key, Ref(id)), (key, Reference(id)))
  {
    hide Dec, IsName, Part;
    ValuePart(key, Reference(id));
  }

  predicate Writes(parts: seq<string>, ps: Pairs) {
    |parts| == |ps| && forall i | 0 <= i < |ps| :: WritesPair(parts[i], ps[i])
  }

  lemma {:induction false} PrintPairs(parts: seq<string>, ps: Pairs)
    requires Writes(parts, ps)
    ensures PrintAll(Entries(ps)) == Join(" ", parts)
  {
    if ps != [] {
      var n := |ps|;
      var front, k, v := Entries(ps[..n - 1]), Name(ps[n - 1].0), ps[n - 1].1;
      PrintPairs(parts[..n - 1], ps[..n - 1]);
      assert Entries(ps) == front + [k] + [v];
      PrintSnoc(front, k);
      PrintSnoc(front + [k], v);
      assert Print(k) == ps[n - 1].0;
      Regroup(Join(" ", parts[..n - 1]), ps[n - 1].0, Print(v));
      hide PrintAll, Print;
    }
  }

  lemma Regroup(a: string, b: string, c: string)
    ensures a + " " + b + " " + c == a + " " + (b + " " + c)
  {
  }

  lemma PlainDict(ps: Pairs)
    requires forall i | 0 <= i < |ps| :: IsName(ps[i].0) && Plain(ps[i].1)
    ensures Plain(DictOf(ps))
  {
    hide IsName;
    var es := Entries(ps);
    forall i | 0 <= i < |es| ensures Plain(es[i]) && (i % 2 == 0 ==> es[i].Name?) {
      assert i == 2 * (i / 2) || i == 2 * (i / 2) + 1;
      assert es[2 * (i / 2)] == Name(ps[i / 2].0);
    }
  }

  // A dictionary text is read as the dictionary it writes.
  lemma ReadDict(parts: seq<string>, ps: Pairs)
    requires Writes(parts, ps)
    ensures Print(DictOf(ps)) == DictText(parts)
    ensures Plain(DictOf(ps))
    ensures ReadObject(DictText(parts)) == Some(DictOf(ps))
  {
    PrintPairs(parts, ps);
    forall i | 0 <= i < |ps| ensures IsName(ps[i].0) && Plain(ps[i].1) {
      assert WritesPair(parts[i], ps[i]);
    }
    PlainDict(ps);
    ReadPrint(DictOf(ps));
  }

  lemma {:induction false} LookupPairs(ps: Pairs, i: nat)
    requires i < |ps| && forall j | 0 <= j < i :: ps[j].0 != ps[i].0
    ensures Lookup(DictOf(ps), ps[i].0) == Some(ps[i].1)
  {
    LookupFrom(Entries(ps), ps[i].0, i);
    assert Entries(ps)[2 * i] == Name(ps[i].0);
    forall j | 0 <= j < i ensures Entries(ps)[2 * j] != Name(ps[i].0) {
      assert Entries(ps)[2 * j] == Name(ps[j].0);
    }
  }

  lemma {:induction false} LookupFrom(es: seq<Object>, key: string, i: nat)
    ensures 2 * i + 1 < |es| && es[2 * i] == Name(key) && (forall j | 0 <= j < i :: es[2 * j] != Name(key))
            ==> LookupIn(es, key) == Some(es[2 * i + 1])
  {
    if i > 0 && 2 * i + 1 < |es| {
      LookupFrom(es[2..], key, i - 1);
      assert forall j | 0 <= j < i - 1 :: es[2..][2 * j] == es[2 * (j + 1)];
      assert es[2 * 0] == es[0];
    }
  }
}
