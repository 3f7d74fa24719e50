// Python `str` values as sequences of Unicode code points, with the white-space
// operations the program uses on them.
module Text {
  type CodePoint = c: int | 0 <= c < 0x110000

  type Text = seq<CodePoint>

  // The code points of a literal.
  function Points(s: string): (t: Text)
    ensures |t| == |s|
    ensures forall i | 0 <= i < |s| :: t[i] == s[i] as int
  {
    seq(|s|, i requires 0 <= i < |s| => s[i] as int)
  }

  // `str.isspace` of a single character.
  predicate IsSpace(c: CodePoint) {
    || 0x09 <= c <= 0x0D || 0x1C <= c <= 0x20
    || c == 0x85 || c == 0xA0 || c == 0x1680
    || 0x2000 <= c <= 0x200A || c == 0x2028 || c == 0x2029
    || c == 0x202F || c == 0x205F || c == 0x3000
  }

  // `lstrip`, `rstrip` and `strip` for a class of characters.
  function TrimStart(t: Text, drop: CodePoint -> bool): Text {
    if t != [] && drop(t[0]) then TrimStart(t[1..], drop) else t
  }

  function TrimEnd(t: Text, drop: CodePoint -> bool): Text {
    if t != [] && drop(t[|t| - 1]) then TrimEnd(t[..|t| - 1], drop) else t
  }

  function Trim(t: Text, drop: CodePoint -> bool): Text {
    TrimEnd(TrimStart(t, drop), drop)
  }

  // `str.strip()`.
  function Strip(t: Text): Text {
    Trim(t, IsSpace)
  }

  // The characters of t that are not white space, in order.
  function Ink(t: Text): Text {
    if t == [] then []
    else Ink(t[..|t| - 1]) + if IsSpace(t[|t| - 1]) then [] else [t[|t| - 1]]
  }

  // `c.join(ts)` for a separator of one character.
  function JoinTexts(c: CodePoint, ts: seq<Text>): Text {
    if ts == [] then [] else if |ts| == 1 then ts[0] else ts[0] + [c] + JoinTexts(c, ts[1..])
  }

  function Concat(ts: seq<Text>): Text {
    if ts == [] then [] else Concat(ts[..|ts| - 1]) + ts[|ts| - 1]
  }

  ghost predicate Bare(t: Text, drop: CodePoint -> bool) {
    t == [] || (!drop(t[0]) && !drop(t[|t| - 1]))
  }

  lemma {:induction false} InkConcat(a: Text, b: Text)
    ensures Ink(a + b) == Ink(a) + Ink(b)
  {
    if b == [] {
      assert a + b == a;
    } else {
      assert (a + b)[..|a| + |b| - 1] == a + b[..|b| - 1];
      InkConcat(a, b[..|b| - 1]);
    }
  }

  // Trimming cuts a prefix and a suffix made of dropped characters, and nothing more.
  lemma {:induction false} TrimStartParts(t: Text, drop: CodePoint -> bool) returns (k: nat)
    ensures k <= |t| && TrimStart(t, drop) == t[k..]
    ensures forall i | 0 <= i < k :: drop(t[i])
    ensures k < |t| ==> !drop(t[k])
  {
    if t != [] && drop(t[0]) {
      var j := TrimStartParts(t[1..], drop);
      k := j + 1;
      assert forall i | 1 <= i < k :: t[i] == t[1..][i - 1];
    } else {
      k := 0;
    }
  }

  lemma {:induction false} TrimEndParts(t: Text, drop: CodePoint -> bool) returns (k: nat)
    ensures k <= |t| && TrimEnd(t, drop) == t[..k]
    ensures forall i | k <= i < |t| :: drop(t[i])
    ensures k > 0 ==> !drop(t[k - 1])
  {
    if t != [] && drop(t[|t| - 1]) {
      k := TrimEndParts(t[..|t| - 1], drop);
    } else {
      k := |t|;
    }
  }

  lemma TrimParts(t: Text, drop: CodePoint -> bool) returns (a: nat, b: nat)
    ensures a <= b <= |t| && Trim(t, drop) == t[a..b]
    ensures forall i | 0 <= i < a || b <= i < |t| :: drop(t[i])
    ensures Bare(Trim(t, drop), drop)
  {
    a := TrimStartParts(t, drop);
    var s := t[a..];
    var k := TrimEndParts(s, drop);
    b := a + k;
    assert forall i | b <= i < |t| :: t[i] == s[i - a];
    if k > 0 {
      assert t[a..b][0] == t[a] && t[a..b][k - 1] == s[k - 1];
    }
  }

  lemma TrimOfBare(t: Text, drop: CodePoint -> bool)
    ensures Trim(t, drop) == t <==> Bare(t, drop)
  {
    var a, b := TrimParts(t, drop);
  }

  // What stands between dropped characters and starts and ends with others is what trimming leaves.
  lemma TrimAround(a: Text, t: Text, b: Text, drop: CodePoint -> bool)
    requires (forall i | 0 <= i < |a| :: drop(a[i])) && (forall i | 0 <= i < |b| :: drop(b[i]))
    requires t != [] && Bare(t, drop)
    ensures Trim(a + t + b, drop) == t
  {
    var s := a + t + b;
    var i, j := TrimParts(s, drop);
    assert s[|a|] == t[0] && s[|a| + |t| - 1] == t[|t| - 1];
    assert forall k | 0 <= k < |a| :: s[k] == a[k];
    assert forall k | 0 <= k < |b| :: s[|a| + |t| + k] == b[k];
    assert i < j && s[i..j][0] == s[i] && s[i..j][j - i - 1] == s[j - 1];
    assert s[|a|..|a| + |t|] == t;
  }

  // The white space of Python: twenty-nine characters.
  lemma SpaceTable(c: CodePoint)
    ensures IsSpace(c) <==>
              c in [0x09, 0x0A, 0x0B, 0x0C, 0x0D, 0x1C, 0x1D, 0x1E, 0x1F, 0x20, 0x85, 0xA0, 0x1680, 0x2000, 0x2001,
                    0x2002, 0x2003, 0x2004, 0x2005, 0x2006, 0x2007, 0x2008, 0x2009, 0x200A, 0x2028, 0x2029, 0x202F,
                    0x205F, 0x3000]
  {
  }

  lemma {:induction false} InkOfSpaces(t: Text)
    ensures Ink(t) == [] <==> forall i | 0 <= i < |t| :: IsSpace(t[i])
  {
    if t != [] {
      InkOfSpaces(t[..|t| - 1]);
      assert forall i | 0 <= i < |t| - 1 :: t[i] == t[..|t| - 1][i];
    }
  }

  // Stripping a text loses no visible character.
  lemma InkOfStrip(t: Text)
    ensures Ink(Strip(t)) == Ink(t)
  {
    var a, b := TrimParts(t, IsSpace);
    assert t == t[..a] + t[a..b] + t[b..];
    InkConcat(t[..a] + t[a..b], t[b..]);
    InkConcat(t[..a], t[a..b]);
    InkOfSpaces(t[..a]);
    InkOfSpaces(t[b..]);
  }
}
