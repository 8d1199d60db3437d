/**
 * The save-file format of a chunk's modifications: one line `X,Y,Z,Density`
 * per entry (`%d,%d,%d,%f`), read back by splitting into non-empty lines,
 * then into non-empty comma-separated fields, and parsing them the way
 * Atoi and Atof do. The file is named after the chunk coordinate.
 */
module Persistence {
  import opened Geometry

  // ---------------------------------------------------------------- digits

  predicate IsDigit(c: char) {
    '0' <= c <= '9'
  }

  function DigitChar(d: int): (c: char)
    requires 0 <= d < 10
    ensures IsDigit(c)
  {
    ('0' as int + d) as char
  }

  function DigitOf(c: char): (d: nat)
    requires IsDigit(c)
    ensures d < 10 && DigitChar(d) == c
  {
    (c as int - '0' as int)
  }

  predicate AllDigits(s: string) {
    forall i :: 0 <= i < |s| ==> IsDigit(s[i])
  }

  function Pow10(n: nat): (p: nat)
    ensures p >= 1
  {
    if n == 0 then 1 else 10 * Pow10(n - 1)
  }

  /** The value of a string of decimal digits. */
  function DigitsValue(s: string): nat
    requires AllDigits(s)
  {
    if s == [] then 0 else DigitsValue(s[..|s| - 1]) * 10 + DigitOf(s[|s| - 1])
  }

  /** `%d` of a non-negative number: its shortest decimal representation. */
  function FormatNat(n: nat): (s: string)
    ensures |s| >= 1 && AllDigits(s)
    ensures n < 10 <==> |s| == 1
  {
    if n < 10 then [DigitChar(n)] else FormatNat(n / 10) + [DigitChar(n % 10)]
  }

  /** The last w digits of n, zero-padded: the fraction digits of `%f`. */
  function PadDigits(n: nat, w: nat): (s: string)
    ensures |s| == w && AllDigits(s)
  {
    if w == 0 then [] else PadDigits(n / 10, w - 1) + [DigitChar(n % 10)]
  }

  /** FormatNat is read back by DigitsValue. */
  lemma {:induction false} FormatNatValue(n: nat)
    ensures DigitsValue(FormatNat(n)) == n
  {
    if n >= 10 {
      FormatNatValue(n / 10);
      var s := FormatNat(n);
      assert s[..|s| - 1] == FormatNat(n / 10);
    }
  }

  /** PadDigits is read back by DigitsValue as the number modulo 10^w. */
  lemma {:induction false} PadDigitsValue(n: nat, w: nat)
    ensures DigitsValue(PadDigits(n, w)) == n % Pow10(w)
  {
    if w > 0 {
      PadDigitsValue(n / 10, w - 1);
      var s := PadDigits(n, w);
      assert s[..|s| - 1] == PadDigits(n / 10, w - 1);
      ModPow10Step(n, w);
    }
  }

  lemma ModPow10Step(n: nat, w: nat)
    requires w > 0
    ensures (n / 10) % Pow10(w - 1) * 10 + n % 10 == n % Pow10(w)
  {
    var p := Pow10(w - 1);
    var q := n / 10;
    var a := q / p;
    var b := q % p;
    assert q == a * p + b;
    assert n == (a * p + b) * 10 + n % 10;
    assert n == a * (10 * p) + (b * 10 + n % 10);
    assert 0 <= b * 10 + n % 10 < 10 * p;
    DivModOf(a, b * 10 + n % 10, 10 * p);
  }

  lemma DivModOf(q: int, r: int, n: int)
    requires n > 0 && 0 <= r < n
    ensures (q * n + r) % n == r
  {
    var a := q * n + r;
    var q', r' := a / n, a % n;
    assert (q - q') * n == r' - r;
    if q - q' >= 1 {
      MulAtLeast(q - q', n);
    } else if q - q' <= -1 {
      MulAtLeast(q' - q, n);
    }
  }

  lemma MulAtLeast(d: int, n: int)
    requires d >= 1 && n > 0
    ensures d * n >= n
  {
  }

  // ---------------------------------------------------------------- formatting

  /** `%d`. */
  function FormatInt(i: int): (s: string)
    ensures |s| >= 1 && (s[0] == '-' || IsDigit(s[0]))
    ensures forall k :: 1 <= k < |s| ==> IsDigit(s[k])
  {
    if i < 0 then "-" + FormatNat(-i) else FormatNat(i)
  }

  /** Round half up to the nearest integer. */
  function RoundNat(r: real): (n: nat)
    requires r >= 0.0
    ensures r - 0.5 < n as real <= r + 0.5
  {
    (r + 0.5).Floor
  }

  function AbsReal(r: real): real {
    if r < 0.0 then -r else r
  }

  /** |v| in millionths, rounded: the six fraction digits `%f` prints. */
  function Micros(v: real): nat {
    RoundNat(AbsReal(v) * 1000000.0)
  }

  /**
   * The value `%f` prints for v: v rounded to six decimal places, within half
   * a millionth of v.
   */
  function Round6(v: real): (r: real)
    ensures -0.0000005 <= r - v <= 0.0000005
  {
    var m := Micros(v) as real / 1000000.0;
    if v < 0.0 then -m else m
  }

  /** `%f`: sign, integer part, a point and six fraction digits. */
  function FormatFixed(v: real): string {
    var m := Micros(v);
    (if v < 0.0 then "-" else "") + FormatNat(m / 1000000) + "." + PadDigits(m % 1000000, 6)
  }

  /** Fields separated by one character. */
  function Join(fields: seq<string>, sep: char): string
    requires |fields| >= 1
  {
    if |fields| == 1 then fields[0] else fields[0] + [sep] + Join(fields[1..], sep)
  }

  /** One record of the save file: `%d,%d,%d,%f\n`. */
  function RecordBody(k: IntVec, v: real): string {
    Join([FormatInt(k.x), FormatInt(k.y), FormatInt(k.z), FormatFixed(v)], ',')
  }

  function RecordLine(k: IntVec, v: real): string {
    RecordBody(k, v) + "\n"
  }

  /** SaveData: the records of the keys in iteration order. */
  function SaveText(mods: map<IntVec, real>, order: seq<IntVec>): string
    requires forall i :: 0 <= i < |order| ==> order[i] in mods
  {
    if order == [] then "" else RecordLine(order[0], mods[order[0]]) + SaveText(mods, order[1..])
  }

  /**
   * The save loop's progress over the keys of the map: `order` lists the keys
   * written so far, each once, and `rest` holds the keys still to write.
   */
  ghost predicate Enumerating(keys: set<IntVec>, order: seq<IntVec>, rest: set<IntVec>) {
    && rest <= keys
    && (forall i :: 0 <= i < |order| ==> order[i] in keys && order[i] !in rest)
    && (forall k :: k in keys ==> k in rest || k in order)
    && (forall i, j :: 0 <= i < j < |order| ==> order[i] != order[j])
  }

  /** Writing one more key keeps the enumeration exact. */
  lemma EnumeratingStep(keys: set<IntVec>, order: seq<IntVec>, rest: set<IntVec>, k: IntVec)
    requires Enumerating(keys, order, rest) && k in rest
    ensures Enumerating(keys, order + [k], rest - {k})
  {
    var order', rest' := order + [k], rest - {k};
    forall i | 0 <= i < |order'|
      ensures order'[i] in keys && order'[i] !in rest'
    {
      if i < |order| {
        assert order'[i] == order[i];
      }
    }
  }

  /** Appending one record to the text written so far: the save loop's step. */
  lemma {:induction false} SaveTextSnoc(mods: map<IntVec, real>, order: seq<IntVec>, k: IntVec)
    requires forall i :: 0 <= i < |order| ==> order[i] in mods
    requires k in mods
    ensures SaveText(mods, order + [k]) == SaveText(mods, order) + RecordLine(k, mods[k])
  {
    if order == [] {
      assert [] + [k] == [k];
    } else {
      assert (order + [k])[1..] == order[1..] + [k];
      SaveTextSnoc(mods, order[1..], k);
    }
  }

  // ---------------------------------------------------------------- parsing

  /** The number of leading decimal digits of s. */
  function LeadingDigits(s: string): (n: nat)
    ensures n <= |s| && AllDigits(s[..n])
    ensures n < |s| ==> !IsDigit(s[n])
  {
    if s == [] || !IsDigit(s[0]) then 0
    else
      var n := 1 + LeadingDigits(s[1..]);
      assert s[..n] == [s[0]] + s[1..][..n - 1];
      n
  }

  /** Digits followed by nothing or by a non-digit are read up to that point. */
  lemma {:induction false} LeadingDigitsOf(a: string, b: string)
    requires AllDigits(a) && (b == [] || !IsDigit(b[0]))
    ensures LeadingDigits(a + b) == |a|
  {
    if a != [] {
      assert (a + b)[1..] == a[1..] + b;
      LeadingDigitsOf(a[1..], b);
    }
  }

  /** Length of an optional leading sign. */
  function SignLength(s: string): nat {
    if |s| > 0 && (s[0] == '-' || s[0] == '+') then 1 else 0
  }

  /** FCString::Atoi: an optional sign and the leading digits; 0 when there are none. */
  function ParseInt(s: string): int {
    var t := s[SignLength(s)..];
    var n: int := DigitsValue(t[..LeadingDigits(t)]);
    if |s| > 0 && s[0] == '-' then -n else n
  }

  /** The fraction part Atof reads after the whole digits: a point and digits, or nothing. */
  function Fraction(rest: string): real {
    if |rest| > 0 && rest[0] == '.' then
      var u := rest[1..];
      var j := LeadingDigits(u);
      DigitsValue(u[..j]) as real / Pow10(j) as real
    else 0.0
  }

  /** The unsigned value Atof reads: whole digits and the fraction after them. */
  function Magnitude(t: string): real {
    var k := LeadingDigits(t);
    DigitsValue(t[..k]) as real + Fraction(t[k..])
  }

  /**
   * FCString::Atof on the decimal notation `%f` writes: an optional sign,
   * integer digits, and optionally a point followed by fraction digits.
   */
  function ParseDecimal(s: string): real {
    var mag := Magnitude(s[SignLength(s)..]);
    if |s| > 0 && s[0] == '-' then -mag else mag
  }

  /** Atoi reads back what `%d` wrote, whatever non-digit follows. */
  lemma ParseFormatInt(i: int, rest: string)
    requires rest == [] || !IsDigit(rest[0])
    ensures ParseInt(FormatInt(i) + rest) == i
  {
    var n: nat := if i < 0 then -i else i;
    var s := FormatInt(i) + rest;
    var t := s[SignLength(s)..];
    assert t == FormatNat(n) + rest;
    LeadingDigitsOf(FormatNat(n), rest);
    assert t[..LeadingDigits(t)] == FormatNat(n);
    FormatNatValue(n);
  }

  /** Atof reads back what `%f` wrote: the value rounded to six places. */
  lemma ParseFormatFixed(v: real)
    ensures ParseDecimal(FormatFixed(v)) == Round6(v)
  {
    var m := Micros(v);
    var q, r := m / 1000000, m % 1000000;
    var a, b := FormatNat(q), PadDigits(r, 6);
    var t := a + ("." + b);
    if v < 0.0 {
      assert FormatFixed(v) == "-" + t;
      ParseNegative(t);
    } else {
      assert FormatFixed(v) == t;
      ParseUnsigned(t);
    }
    MagnitudeOf(a, b);
    FormatNatValue(q);
    PadDigitsValue(r, 6);
    MicrosSplit(m);
  }

  lemma MicrosSplit(m: nat)
    ensures (m / 1000000) as real + ((m % 1000000) % Pow10(6)) as real / Pow10(6) as real == m as real / 1000000.0
  {
    assert Pow10(6) == 1000000;
    var q, r := m / 1000000, m % 1000000;
    assert r % 1000000 == r;
    assert m == q * 1000000 + r;
    assert (m as real) == (q as real) * 1000000.0 + r as real;
  }

  /** Atof on text starting with a digit: its magnitude. */
  lemma ParseUnsigned(t: string)
    requires t != [] && IsDigit(t[0])
    ensures ParseDecimal(t) == Magnitude(t)
  {
    assert t[0..] == t;
  }

  /** Atof on a minus sign and text starting with a digit: the negated magnitude. */
  lemma ParseNegative(t: string)
    requires t != [] && IsDigit(t[0])
    ensures ParseDecimal("-" + t) == -Magnitude(t)
  {
    assert ("-" + t)[1..] == t;
  }

  lemma MagnitudeOf(a: string, b: string)
    requires AllDigits(a) && AllDigits(b)
    ensures Magnitude(a + ("." + b)) == DigitsValue(a) as real + DigitsValue(b) as real / Pow10(|b|) as real
  {
    var t := a + ("." + b);
    LeadingDigitsOf(a, "." + b);
    assert t[..|a|] == a;
    assert t[|a|..] == "." + b;
    FractionOf(b);
  }

  lemma FractionOf(b: string)
    requires AllDigits(b)
    ensures Fraction("." + b) == DigitsValue(b) as real / Pow10(|b|) as real
  {
    assert ("." + b)[1..] == b;
    LeadingDigitsOf(b, []);
    assert b + [] == b;
    assert b[..|b|] == b;
  }

  // ---------------------------------------------------------------- splitting

  /** The position of the first delimiter in s, or |s|. */
  function FirstDelim(s: string, delims: set<char>): (i: nat)
    ensures i <= |s| && (i < |s| ==> s[i] in delims)
    ensures forall k :: 0 <= k < i ==> s[k] !in delims
  {
    if s == [] || s[0] in delims then 0 else 1 + FirstDelim(s[1..], delims)
  }

  /**
   * The non-empty pieces between delimiters, in order: ParseIntoArray with
   * culling, and ParseIntoArrayLines when the delimiters are the line ends.
   */
  function Tokens(s: string, delims: set<char>): (r: seq<string>)
    ensures forall i :: 0 <= i < |r| ==> r[i] != []
    decreases |s|
  {
    var i := FirstDelim(s, delims);
    var piece := s[..i];
    var rest := if i < |s| then Tokens(s[i + 1..], delims) else [];
    (if piece == [] then [] else [piece]) + rest
  }

  predicate Avoids(s: string, delims: set<char>) {
    forall k :: 0 <= k < |s| ==> s[k] !in delims
  }

  /** A delimiter-free piece followed by a delimiter comes off as the first token. */
  lemma TokensCons(a: string, c: char, b: string, delims: set<char>)
    requires a != [] && Avoids(a, delims) && c in delims
    ensures Tokens(a + [c] + b, delims) == [a] + Tokens(b, delims)
  {
    var s := a + [c] + b;
    FirstDelimOf(a, [c] + b, delims);
    assert s == a + ([c] + b);
    assert s[..|a|] == a;
    assert s[|a| + 1..] == b;
  }

  /** A delimiter-free, non-empty string is a single token. */
  lemma TokensLast(a: string, delims: set<char>)
    requires a != [] && Avoids(a, delims)
    ensures Tokens(a, delims) == [a]
  {
    FirstDelimOf(a, [], delims);
    assert a + [] == a;
    assert a[..|a|] == a;
  }

  lemma {:induction false} FirstDelimOf(a: string, b: string, delims: set<char>)
    requires Avoids(a, delims) && (b == [] || b[0] in delims)
    ensures FirstDelim(a + b, delims) == |a|
  {
    if a != [] {
      assert (a + b)[1..] == a[1..] + b;
      FirstDelimOf(a[1..], b, delims);
    }
  }

  /** The line ends that ParseIntoArrayLines splits on (a CR LF pair gives an empty piece, culled). */
  const LineEnds: set<char> := {'\r', '\n'}

  const Comma: set<char> := {','}

  // ---------------------------------------------------------------- loading

  /**
   * One line of LoadModifications: skipped unless it has exactly four fields;
   * otherwise the parsed density is stored under the parsed position,
   * replacing any entry there.
   */
  function ApplyLine(mods: map<IntVec, real>, line: string): (r: map<IntVec, real>)
    ensures |Tokens(line, Comma)| != 4 ==> r == mods
  {
    var parts := Tokens(line, Comma);
    if |parts| != 4 then mods
    else mods[IntVec(ParseInt(parts[0]), ParseInt(parts[1]), ParseInt(parts[2])) := ParseDecimal(parts[3])]
  }

  /** The loop over the lines of LoadModifications. */
  function ApplyLines(mods: map<IntVec, real>, lines: seq<string>): map<IntVec, real>
    decreases |lines|
  {
    if lines == [] then mods else ApplyLines(ApplyLine(mods, lines[0]), lines[1..])
  }

  /** Applying the lines of a loaded file to a map. */
  function LoadText(mods: map<IntVec, real>, text: string): map<IntVec, real> {
    ApplyLines(mods, Tokens(text, LineEnds))
  }

  /** Characters of a number as `%d` and `%f` write it: digits, a minus sign, a point. */
  predicate NumberChars(s: string) {
    forall k :: 0 <= k < |s| ==> s[k] == '-' || s[k] == '.' || IsDigit(s[k])
  }

  lemma IntChars(i: int)
    ensures NumberChars(FormatInt(i))
  {
  }

  lemma FixedChars(v: real)
    ensures FormatFixed(v) != [] && NumberChars(FormatFixed(v))
  {
    var m := Micros(v);
    var a, b := FormatNat(m / 1000000), PadDigits(m % 1000000, 6);
    var t := a + ("." + b);
    assert forall k :: 0 <= k < |t| ==> t[k] == '.' || IsDigit(t[k]);
    if v < 0.0 {
      assert FormatFixed(v) == "-" + t;
    } else {
      assert FormatFixed(v) == t;
    }
  }

  lemma NumberAvoidsComma(s: string)
    requires NumberChars(s)
    ensures Avoids(s, Comma)
  {
  }

  lemma NumberAvoidsLineEnds(s: string)
    requires NumberChars(s)
    ensures Avoids(s, LineEnds)
  {
  }

  /** Non-empty, delimiter-free fields joined by a delimiter split back into those fields. */
  lemma {:induction false} TokensJoin(fields: seq<string>, sep: char, delims: set<char>)
    requires |fields| >= 1 && sep in delims
    requires forall i :: 0 <= i < |fields| ==> fields[i] != [] && Avoids(fields[i], delims)
    ensures Tokens(Join(fields, sep), delims) == fields
  {
    if |fields| == 1 {
      TokensLast(fields[0], delims);
    } else {
      TokensJoin(fields[1..], sep, delims);
      TokensCons(fields[0], sep, Join(fields[1..], sep), delims);
    }
  }

  /** Joining fields that avoid some characters with a separator that is not one of them avoids them too. */
  lemma {:induction false} JoinAvoids(fields: seq<string>, sep: char, delims: set<char>)
    requires |fields| >= 1 && sep !in delims
    requires forall i :: 0 <= i < |fields| ==> Avoids(fields[i], delims)
    ensures Avoids(Join(fields, sep), delims)
  {
    if |fields| > 1 {
      JoinAvoids(fields[1..], sep, delims);
      var a, b := fields[0] + [sep], Join(fields[1..], sep);
      assert Avoids(a, delims);
      assert forall k :: 0 <= k < |a + b| ==> (a + b)[k] == if k < |a| then a[k] else b[k - |a|];
    }
  }

  /** The fields of a record body are the four numbers it was written from. */
  lemma RecordFields(k: IntVec, v: real)
    ensures Tokens(RecordBody(k, v), Comma) == [FormatInt(k.x), FormatInt(k.y), FormatInt(k.z), FormatFixed(v)]
  {
    var fields := [FormatInt(k.x), FormatInt(k.y), FormatInt(k.z), FormatFixed(v)];
    RecordChars(k, v);
    forall i | 0 <= i < 4 ensures fields[i] != [] && Avoids(fields[i], Comma) {
      NumberAvoidsComma(fields[i]);
    }
    TokensJoin(fields, ',', Comma);
  }

  lemma RecordChars(k: IntVec, v: real)
    ensures var fields := [FormatInt(k.x), FormatInt(k.y), FormatInt(k.z), FormatFixed(v)];
      forall i :: 0 <= i < 4 ==> fields[i] != [] && NumberChars(fields[i])
  {
    IntChars(k.x);
    IntChars(k.y);
    IntChars(k.z);
    FixedChars(v);
  }

  /** What a record line is read back as: the key and the rounded value. */
  lemma ParseRecord(k: IntVec, v: real, mods: map<IntVec, real>)
    ensures ApplyLine(mods, RecordBody(k, v)) == mods[k := Round6(v)]
  {
    RecordFields(k, v);
    ParseFormatInt(k.x, []);
    ParseFormatInt(k.y, []);
    ParseFormatInt(k.z, []);
    assert FormatInt(k.x) + [] == FormatInt(k.x);
    assert FormatInt(k.y) + [] == FormatInt(k.y);
    assert FormatInt(k.z) + [] == FormatInt(k.z);
    ParseFormatFixed(v);
  }

  /** A record body holds no line end. */
  lemma RecordAvoidsLineEnds(k: IntVec, v: real)
    ensures RecordBody(k, v) != [] && Avoids(RecordBody(k, v), LineEnds)
  {
    var fields := [FormatInt(k.x), FormatInt(k.y), FormatInt(k.z), FormatFixed(v)];
    RecordChars(k, v);
    forall i | 0 <= i < 4 ensures Avoids(fields[i], LineEnds) {
      NumberAvoidsLineEnds(fields[i]);
    }
    JoinAvoids(fields, ',', LineEnds);
    assert RecordBody(k, v) == fields[0] + [','] + Join(fields[1..], ',');
  }

  /** The record bodies of the keys in order. */
  function RecordBodies(mods: map<IntVec, real>, order: seq<IntVec>): (r: seq<string>)
    requires forall i :: 0 <= i < |order| ==> order[i] in mods
    ensures |r| == |order|
  {
    if order == [] then [] else [RecordBody(order[0], mods[order[0]])] + RecordBodies(mods, order[1..])
  }

  /** The lines of a saved file are its record bodies, in the order they were written. */
  lemma {:induction false} SaveTextLines(mods: map<IntVec, real>, order: seq<IntVec>)
    requires forall i :: 0 <= i < |order| ==> order[i] in mods
    ensures Tokens(SaveText(mods, order), LineEnds) == RecordBodies(mods, order)
  {
    if order != [] {
      SaveTextLines(mods, order[1..]);
      var body := RecordBody(order[0], mods[order[0]]);
      RecordAvoidsLineEnds(order[0], mods[order[0]]);
      TokensCons(body, '\n', SaveText(mods, order[1..]), LineEnds);
      assert SaveText(mods, order) == body + ['\n'] + SaveText(mods, order[1..]);
    } else {
      assert Tokens("", LineEnds) == [];
    }
  }

  /** The map `base` with the keys of `order` overwritten by their rounded values from mods. */
  function Overwritten(base: map<IntVec, real>, mods: map<IntVec, real>, order: seq<IntVec>): (r: map<IntVec, real>)
    requires forall i :: 0 <= i < |order| ==> order[i] in mods
    ensures forall k :: k in r <==> k in base || k in order
    ensures forall k :: k in order ==> r[k] == Round6(mods[k])
    ensures forall k :: k in base && k !in order ==> r[k] == base[k]
  {
    map k | k in base.Keys + set i | 0 <= i < |order| :: order[i] ::
      if k in order then Round6(mods[k]) else base[k]
  }

  /** Overwriting the first key and then the rest is overwriting all of them. */
  lemma OverwrittenCons(base: map<IntVec, real>, mods: map<IntVec, real>, order: seq<IntVec>)
    requires order != [] && forall i :: 0 <= i < |order| ==> order[i] in mods
    ensures Overwritten(base[order[0] := Round6(mods[order[0]])], mods, order[1..]) == Overwritten(base, mods, order)
  {
    var l := Overwritten(base[order[0] := Round6(mods[order[0]])], mods, order[1..]);
    var r := Overwritten(base, mods, order);
    assert forall k :: k in order <==> k == order[0] || k in order[1..];
    assert l.Keys == r.Keys;
  }

  lemma {:induction false} ApplySavedLines(base: map<IntVec, real>, mods: map<IntVec, real>, order: seq<IntVec>)
    requires forall i :: 0 <= i < |order| ==> order[i] in mods
    ensures ApplyLines(base, RecordBodies(mods, order)) == Overwritten(base, mods, order)
    decreases |order|
  {
    if order != [] {
      var k0 := order[0];
      ParseRecord(k0, mods[k0], base);
      ApplySavedLines(base[k0 := Round6(mods[k0])], mods, order[1..]);
      OverwrittenCons(base, mods, order);
    } else {
      assert Overwritten(base, mods, order).Keys == base.Keys;
    }
  }

  /**
   * The save/load round trip: loading a saved file into a map stores, under
   * every saved key, the saved value rounded to six decimals, and leaves the
   * other entries as they were. The order keys are written in does not matter.
   */
  lemma SaveLoadRoundTrip(base: map<IntVec, real>, mods: map<IntVec, real>, order: seq<IntVec>)
    requires forall i :: 0 <= i < |order| ==> order[i] in mods
    requires forall k :: k in mods ==> k in order
    ensures var r := LoadText(base, SaveText(mods, order));
      && (forall k :: k in r <==> k in base || k in mods)
      && (forall k :: k in mods ==> r[k] == Round6(mods[k]))
      && (forall k :: k in base && k !in mods ==> r[k] == base[k])
  {
    SaveTextLines(mods, order);
    ApplySavedLines(base, mods, order);
  }

  /** Loading what was saved into an empty map gives back the map, rounded. */
  lemma SaveLoadFresh(mods: map<IntVec, real>, order: seq<IntVec>)
    requires forall i :: 0 <= i < |order| ==> order[i] in mods
    requires forall k :: k in mods ==> k in order
    ensures LoadText(map[], SaveText(mods, order)) == map k | k in mods :: Round6(mods[k])
  {
    SaveLoadRoundTrip(map[], mods, order);
  }

  // ---------------------------------------------------------------- file names

  /** `Chunk_%d_%d_%d.sav`. */
  function FileName(c: IntVec): string {
    Join(["Chunk", FormatInt(c.x), FormatInt(c.y), FormatInt(c.z) + ".sav"], '_')
  }

  /** `%s/Chunk_%d_%d_%d.sav` under the save directory. */
  function FilePath(saveDir: string, c: IntVec): string {
    saveDir + "/" + FileName(c)
  }

  /** The chunk coordinate read back from a file name. */
  function CoordOfFileName(name: string): IntVec {
    var t := Tokens(name, {'_'});
    if |t| == 4 then IntVec(ParseInt(t[1]), ParseInt(t[2]), ParseInt(t[3])) else IntVec(0, 0, 0)
  }

  lemma FileNameDecodes(c: IntVec)
    ensures CoordOfFileName(FileName(c)) == c
  {
    var fx, fy, fz := FormatInt(c.x), FormatInt(c.y), FormatInt(c.z);
    var fields := ["Chunk", fx, fy, fz + ".sav"];
    var u: set<char> := {'_'};
    IntChars(c.x);
    IntChars(c.y);
    IntChars(c.z);
    NumberAvoidsUnderscore(fx);
    NumberAvoidsUnderscore(fy);
    assert Avoids(fz + ".sav", u);
    TokensJoin(fields, '_', u);
    ParseFormatInt(c.x, []);
    ParseFormatInt(c.y, []);
    ParseFormatInt(c.z, ".sav");
    assert fx + [] == fx && fy + [] == fy;
  }

  lemma NumberAvoidsUnderscore(s: string)
    requires NumberChars(s)
    ensures Avoids(s, {'_'})
  {
  }

  /** Distinct chunks save to distinct files. */
  lemma FilePathInjective(saveDir: string, a: IntVec, b: IntVec)
    requires FilePath(saveDir, a) == FilePath(saveDir, b)
    ensures a == b
  {
    var p := saveDir + "/";
    assert FilePath(saveDir, a) == p + FileName(a);
    assert FilePath(saveDir, b) == p + FileName(b);
    assert FileName(a) == FilePath(saveDir, a)[|p|..];
    assert FileName(b) == FilePath(saveDir, b)[|p|..];
    FileNameDecodes(a);
    FileNameDecodes(b);
  }
}
