/** Reading a content stream inverts writing it: what each token and each operator means for the text of the page. */
module PageText {
  import opened Prelude
  import opened PdfText

  // ---------------------------------------------------------------- tokens

  /** What a content stream is written with, as far as text goes. */
  datatype Token =
    | Str(ps: List<Piece>)                   // ( ... )
    | Hex(raw: List<Byte>)                   // < ... >, two digits a byte
    | Kern(sign: seq<Byte>, digits: seq<Byte>, fraction: seq<Byte>) // a number between the strings of an array
    | Comment(text: seq<Byte>)               // % and the rest of its line
    | Pass(b: Byte)                          // white space, brackets, the first < of a dictionary
    | Op(word: seq<Byte>)

  function HexDigit(v: nat): Byte
    requires v < 16
  {
    if v < 10 then 48 + v else 55 + v
  }

  function SpellHex(raw: List<Byte>): (w: seq<Byte>)
    ensures |w| == 2 * Length(raw)
  {
    match raw
    case Nil => []
    case Cons(b, rest) => [HexDigit(b / 16), HexDigit(b % 16)] + SpellHex(rest)
  }

  /** An optional sign, digits, and a point and a fraction unless that is empty. */
  function SpellNumber(sign: seq<Byte>, digits: seq<Byte>, fraction: seq<Byte>): seq<Byte> {
    sign + (digits + SpellFraction(fraction))
  }

  function SpellFraction(fraction: seq<Byte>): seq<Byte> {
    if fraction == [] then [] else [46] + fraction
  }

  predicate AllDigits(w: seq<Byte>) {
    forall x :: 0 <= x < |w| ==> IsDigit(w[x])
  }

  ghost predicate IsNumber(sign: seq<Byte>, digits: seq<Byte>, fraction: seq<Byte>) {
    (sign == [] || sign == [43] || sign == [45]) && digits + fraction != [] && AllDigits(digits) && AllDigits(fraction)
  }

  function TokenLength(t: Token): nat {
    match t
    case Str(ps) => SpelledLength(ps) + 2
    case Hex(raw) => 2 * Length(raw) + 2
    case Kern(sign, digits, fraction) => |SpellNumber(sign, digits, fraction)|
    case Comment(text) => |text| + 2
    case Pass(_) => 1
    case Op(word) => |word|
  }

  /** A byte that is neither text, number, comment nor operator. */
  predicate Passes(b: Byte) {
    b != LPAREN && b != 60 && b != 37 && b != 43 && b != 45 && b != 46 && !IsDigit(b) && !IsWordByte(b)
  }

  ghost predicate NumberAt(data: seq<Byte>, i: nat, sign: seq<Byte>, digits: seq<Byte>, fraction: seq<Byte>) {
    var end := i + |SpellNumber(sign, digits, fraction)|;
    At(data, i, SpellNumber(sign, digits, fraction)) && IsNumber(sign, digits, fraction) &&
    end < |data| && !IsDigit(data[end]) && data[end] != 46
  }

  ghost predicate TokenAt(data: seq<Byte>, i: nat, t: Token) {
    match t
    case Str(ps) => i < |data| && data[i] == LPAREN && Spells(data, i + 1, 0, ps)
    case Hex(raw) => At(data, i, [60] + SpellHex(raw) + [62])
    case Kern(sign, digits, fraction) => NumberAt(data, i, sign, digits, fraction)
    case Comment(text) => LF !in text && At(data, i, [37] + text + [LF])
    case Pass(b) => i < |data| && data[i] == b && (Passes(b) || (b == 60 && i + 1 < |data| && data[i + 1] == 60))
    case Op(word) =>
      At(data, i, word) && word != [] && (forall b <- word :: IsWordByte(b)) &&
      (i + |word| < |data| ==> !IsWordByte(data[i + |word|]))
  }

  ghost predicate TokensAt(data: seq<Byte>, i: nat, ts: List<Token>)
    decreases ts
  {
    if ts.Nil? then i == |data|
    else TokenAt(data, i, ts.head) && TokensAt(data, i + TokenLength(ts.head), ts.tail)
  }

  function Decimal(digits: seq<Byte>): nat
    requires AllDigits(digits)
  {
    if digits == [] then 0
    else Decimal(digits[..|digits| - 1]) * 10 + (digits[|digits| - 1] as int - 48)
  }

  // --------------------------------------------------------------- meaning

  /** The text of the page so far, the piece shown last, and what waits for an operator, if anything. */
  datatype Page = Page(text: Text, last: Option<Text>, waiting: Text, any: bool)

  const BLANK := Page([], None, [], false)

  predicate Is(word: seq<Byte>, name: string) {
    |word| == |name| && forall x :: 0 <= x < |name| ==> word[x] == name[x] as int
  }

  predicate Quotes(word: seq<Byte>) {
    Is(word, "'") || Is(word, "\"")
  }

  predicate Shows(word: seq<Byte>) {
    Is(word, "Tj") || Is(word, "TJ") || Quotes(word)
  }

  /** Ends a line, or moves to another one. */
  predicate Moves(word: seq<Byte>) {
    Is(word, "Td") || Is(word, "TD") || Is(word, "T*") || Is(word, "ET")
  }

  predicate EndsLine(t: Text) {
    t != [] && t[|t| - 1] == 10
  }

  /** Something was shown, and the last piece of it does not end a line. */
  predicate BreakIsDue(p: Page) {
    p.last.Some? && !EndsLine(p.last.value)
  }

  function Broken(p: Page): Page {
    if BreakIsDue(p) then p.(text := p.text + [10], last := Some([10])) else p
  }

  function Wait(p: Page, t: Text): Page {
    p.(waiting := p.waiting + t, any := true)
  }

  /** A quote or a move breaks the line when that is due; a showing operator then shows all that
      waits, in order; any other one drops it. */
  function Operated(word: seq<Byte>, p: Page): Page {
    var q := if Quotes(word) || Moves(word) then Broken(p) else p;
    if Shows(word) then Page(q.text + p.waiting, Some(p.waiting), [], false)
    else q.(waiting := [], any := false)
  }

  /** What a token means: strings wait, a wide kerning among them is a space, operators act. */
  ghost function Read(t: Token, p: Page, utf16: seq<Byte> -> Text): Page {
    match t
    case Str(ps) => Wait(p, DecodeString(MeanAll(ps), utf16))
    case Hex(raw) => Wait(p, DecodeString(Bytes(raw), utf16))
    case Kern(sign, digits, _) =>
      if p.any && sign == [45] && AllDigits(digits) && Decimal(digits) >= 180 then Wait(p, [32]) else p
    case Comment(_) => p
    case Pass(_) => p
    case Op(word) => Operated(word, p)
  }

  ghost function ReadAll(ts: List<Token>, p: Page, utf16: seq<Byte> -> Text): Page
    decreases ts
  {
    if ts.Nil? then p else ReadAll(ts.tail, Read(ts.head, p, utf16), utf16)
  }

  // ------------------------------------------------------- hexadecimal strings

  lemma HexDigitMeans(v: nat)
    requires v < 16
    ensures IsHex(HexDigit(v)) && HexValue(HexDigit(v)) == v
  {
  }

  lemma HexPair(data: seq<Byte>, j: nat, e: nat, b: Byte)
    requires j + 2 <= e <= |data| && data[j] == HexDigit(b / 16) && data[j + 1] == HexDigit(b % 16)
    ensures HexDigits(data, j, e) == [(b / 16) as nat, (b % 16) as nat] + HexDigits(data, j + 2, e)
  {
    HexDigitMeans(b / 16);
    HexDigitMeans(b % 16);
    var two := HexDigits(data, j + 1, e);
    assert two == [(b % 16) as nat] + HexDigits(data, j + 2, e);
  }

  lemma HexBytesStep(h: seq<nat>)
    requires |h| >= 2 && forall k :: 0 <= k < |h| ==> h[k] < 16
    ensures HexBytes(h) == [h[0] * 16 + h[1]] + HexBytes(h[2..])
  {
  }

  lemma Nibbles(b: Byte)
    ensures b / 16 < 16 && (b / 16) * 16 + b % 16 == b
  {
  }

  lemma HexHead(data: seq<Byte>, j: nat, b: Byte, rest: List<Byte>)
    requires At(data, j, SpellHex(Cons(b, rest)))
    ensures data[j] == HexDigit(b / 16) && data[j + 1] == HexDigit(b % 16) && At(data, j + 2, SpellHex(rest))
  {
    var w, v := SpellHex(Cons(b, rest)), SpellHex(rest);
    assert data[j + 0] == w[0] && data[j + 1] == w[1];
    forall x | 0 <= x < |v| ensures data[j + 2 + x] == v[x] {
      assert data[j + (x + 2)] == w[x + 2];
    }
  }

  lemma HexByteRead(data: seq<Byte>, j: nat, e: nat, b: Byte)
    requires j + 2 <= e <= |data| && data[j] == HexDigit(b / 16) && data[j + 1] == HexDigit(b % 16)
    ensures HexBytes(HexDigits(data, j, e)) == [b] + HexBytes(HexDigits(data, j + 2, e))
  {
    var h := HexDigits(data, j, e);
    HexPair(data, j, e, b);
    assert h[2..] == HexDigits(data, j + 2, e);
    HexBytesStep(h);
    Nibbles(b);
  }

  /** Two hexadecimal digits a byte read back as the bytes. */
  lemma {:induction false} HexIsRead(data: seq<Byte>, j: nat, raw: List<Byte>)
    requires At(data, j, SpellHex(raw))
    ensures HexBytes(HexDigits(data, j, j + 2 * Length(raw))) == Bytes(raw)
    decreases raw
  {
    match raw
    case Nil =>
    case Cons(b, rest) =>
      HexHead(data, j, b, rest);
      HexByteRead(data, j, j + 2 * Length(raw), b);
      HexIsRead(data, j + 2, rest);
  }

  lemma {:induction false} SpellHexDigits(raw: List<Byte>)
    ensures forall d <- SpellHex(raw) :: IsHex(d)
    decreases raw
  {
    match raw
    case Nil =>
    case Cons(b, rest) =>
      HexDigitMeans(b / 16);
      HexDigitMeans(b % 16);
      SpellHexDigits(rest);
  }

  lemma {:induction false} FindFirst(data: seq<Byte>, c: Byte, j: nat, e: nat)
    requires j <= e < |data| && data[e] == c && forall x :: j <= x < e ==> data[x] != c
    ensures FindFrom(data, c, j) == e
    decreases e - j
  {
    if j < e { FindFirst(data, c, j + 1, e); }
  }

  lemma HexParts(data: seq<Byte>, i: nat, w: seq<Byte>)
    requires At(data, i, [60] + w + [62])
    ensures data[i] == 60 && i + |w| + 1 < |data| && data[i + |w| + 1] == 62 && At(data, i + 1, w)
  {
    var all := [60] + w + [62];
    assert all[0] == 60 && all[|w| + 1] == 62 && forall x :: 0 <= x < |w| ==> all[x + 1] == w[x];
    forall x | 0 <= x < |w| ensures data[i + 1 + x] == w[x] {
      assert data[i + (x + 1)] == all[x + 1];
    }
    assert data[i + (|w| + 1)] == all[|w| + 1];
  }

  lemma HexSpan(data: seq<Byte>, i: nat, raw: List<Byte>)
    requires At(data, i, [60] + SpellHex(raw) + [62])
    ensures data[i] == 60 && i + 1 < |data| && data[i + 1] != 60 && At(data, i + 1, SpellHex(raw))
    ensures FindFrom(data, 62, i + 1) == i + 1 + 2 * Length(raw)
  {
    var w := SpellHex(raw);
    HexParts(data, i, w);
    SpellHexDigits(raw);
    forall x | i + 1 <= x < i + 1 + |w| ensures IsHex(data[x]) {
      assert data[x] == w[x - i - 1] && w[x - i - 1] in w;
    }
    FindFirst(data, 62, i + 1, i + 1 + |w|);
  }

  lemma HexBranch(data: seq<Byte>, s: Scan, utf16: seq<Byte> -> Text)
    requires s.i + 1 < |data| && data[s.i] == 60 && data[s.i + 1] != 60
    ensures ScanStep(data, s, utf16) == HexScan(data, s, utf16)
  {
  }

  lemma HexScanned(data: seq<Byte>, s: Scan, utf16: seq<Byte> -> Text, end: nat, raw: seq<Byte>)
    requires s.i < |data| && FindFrom(data, 62, s.i + 1) == end && s.i + 1 <= end <= |data|
    requires HexBytes(HexDigits(data, s.i + 1, end)) == raw
    ensures HexScan(data, s, utf16) == Scan(end + 1, s.pending + [DecodeString(raw, utf16)], s.out)
  {
  }

  lemma HexStep(data: seq<Byte>, s: Scan, raw: List<Byte>, utf16: seq<Byte> -> Text)
    requires TokenAt(data, s.i, Hex(raw))
    ensures ScanStep(data, s, utf16) ==
      Scan(s.i + 2 * Length(raw) + 2, s.pending + [DecodeString(Bytes(raw), utf16)], s.out)
  {
    HexSpan(data, s.i, raw);
    HexIsRead(data, s.i + 1, raw);
    HexBranch(data, s, utf16);
    HexScanned(data, s, utf16, s.i + 1 + 2 * Length(raw), Bytes(raw));
  }

  lemma {:induction false} DigitsEndIs(data: seq<Byte>, j: nat, e: nat)
    requires j <= e <= |data| && (forall x :: j <= x < e ==> IsDigit(data[x])) && (e < |data| ==> !IsDigit(data[e]))
    ensures DigitsEnd(data, j) == e
    decreases e - j
  {
    if j < e { DigitsEndIs(data, j + 1, e); }
  }

  lemma {:induction false} DigitsAre(data: seq<Byte>, j: nat, digits: seq<Byte>)
    requires At(data, j, digits) && AllDigits(digits)
    ensures Digits(data, j, j + |digits|) == (Decimal(digits), 0) && !PointBefore(data, j, j + |digits|)
    decreases |digits|
  {
    assert forall x :: 0 <= x < |digits| ==> data[j + x] == digits[x];
    assert forall x :: j <= x < j + |digits| ==> data[x] == digits[x - j];
    if digits != [] { DigitsAre(data, j, digits[..|digits| - 1]); }
  }

  lemma {:induction false} FractionIs(data: seq<Byte>, j: nat, digits: seq<Byte>, fraction: seq<Byte>)
    requires At(data, j, digits + ([46] + fraction)) && AllDigits(digits) && AllDigits(fraction)
    ensures Digits(data, j, j + |digits| + 1 + |fraction|) == (Decimal(digits + fraction), |fraction|)
    decreases |fraction|
  {
    var w, point := digits + ([46] + fraction), j + |digits|;
    AtFront(data, j, digits, [46] + fraction);
    AtRest(data, point, 46, fraction);
    if fraction == [] {
      DigitsAre(data, j, digits);
      assert digits + fraction == digits;
    } else {
      var n := |fraction| - 1;
      AtInit(data, j, digits, fraction);
      FractionIs(data, j, digits, fraction[..n]);
      assert data[point + 1 + n] == fraction[n];
      assert PointBefore(data, j, point + 1 + n) by { assert data[point] == 46; }
      assert (digits + fraction)[..|digits| + n] == digits + fraction[..n];
    }
  }

  lemma AtFront(data: seq<Byte>, j: nat, a: seq<Byte>, b: seq<Byte>)
    requires At(data, j, a + b)
    ensures At(data, j, a) && At(data, j + |a|, b)
  {
    forall x | 0 <= x < |a| ensures data[j + x] == a[x] {
      assert data[j + x] == (a + b)[x];
    }
    forall x | 0 <= x < |b| ensures data[j + |a| + x] == b[x] {
      assert data[j + (|a| + x)] == (a + b)[|a| + x];
    }
  }

  lemma AtInit(data: seq<Byte>, j: nat, digits: seq<Byte>, fraction: seq<Byte>)
    requires At(data, j, digits + ([46] + fraction)) && fraction != []
    ensures At(data, j, digits + ([46] + fraction[..|fraction| - 1]))
  {
    var w, v := digits + ([46] + fraction), digits + ([46] + fraction[..|fraction| - 1]);
    forall x | 0 <= x < |v| ensures data[j + x] == v[x] {
      assert v[x] == w[x];
    }
  }

  lemma DecimalStep(digits: seq<Byte>)
    requires digits != [] && AllDigits(digits)
    ensures Decimal(digits) == Decimal(digits[..|digits| - 1]) * 10 + (digits[|digits| - 1] as int - 48)
  {
  }

  lemma {:induction false} DecimalSplits(digits: seq<Byte>, fraction: seq<Byte>)
    requires AllDigits(digits) && AllDigits(fraction)
    ensures Decimal(digits + fraction) == Decimal(digits) * Pow10(|fraction|) + Decimal(fraction)
    ensures Decimal(fraction) < Pow10(|fraction|)
    decreases |fraction|
  {
    if fraction == [] {
      assert digits + fraction == digits;
    } else {
      var n := |fraction| - 1;
      DecimalSplits(digits, fraction[..n]);
      assert (digits + fraction)[..|digits| + n] == digits + fraction[..n];
      DecimalStep(digits + fraction);
      DecimalStep(fraction);
      Times10(Decimal(digits), Pow10(n));
    }
  }

  lemma Times10(a: nat, p: nat)
    ensures a * (10 * p) == a * p * 10
  {
  }

  /** A fraction never takes a number past -180 or keeps it from there. */
  lemma WholePartDecides(q: nat, r: nat, p: nat)
    requires r < p
    ensures q * p + r >= 180 * p <==> q >= 180
  {
    if q >= 180 {
      TimesGrows(180, q, p);
    } else {
      TimesGrows(q + 1, 180, p);
      assert (q + 1) * p == q * p + p;
    }
  }

  lemma TimesGrows(a: nat, b: nat, p: nat)
    requires a <= b
    ensures a * p <= b * p
  {
  }

  lemma SignedDigits(data: seq<Byte>, i: nat, e: nat)
    requires i + 1 <= e <= |data| && !IsDigit(data[i]) && data[i] != 46
    ensures Digits(data, i, e) == Digits(data, i + 1, e)
    decreases e - i
  {
    if e > i + 1 {
      SignedDigits(data, i, e - 1);
      assert PointBefore(data, i, e - 1) <==> PointBefore(data, i + 1, e - 1);
    }
  }

  lemma NumberParts(data: seq<Byte>, i: nat, j: nat, sign: seq<Byte>, digits: seq<Byte>, fraction: seq<Byte>)
    requires NumberAt(data, i, sign, digits, fraction) && j == i + |sign|
    ensures At(data, i, sign) && At(data, j, digits + SpellFraction(fraction))
    ensures At(data, j, digits) && At(data, j + |digits|, SpellFraction(fraction))
    ensures fraction != [] ==> data[j + |digits|] == 46 && At(data, j + |digits| + 1, fraction)
  {
    AtFront(data, i, sign, digits + SpellFraction(fraction));
    AtFront(data, j, digits, SpellFraction(fraction));
    if fraction != [] { AtRest(data, j + |digits|, 46, fraction); }
  }

  lemma DigitsRun(data: seq<Byte>, j: nat, digits: seq<Byte>)
    requires At(data, j, digits) && AllDigits(digits)
    requires j + |digits| < |data| ==> !IsDigit(data[j + |digits|])
    ensures DigitsEnd(data, j) == j + |digits|
  {
    forall x | j <= x < j + |digits| ensures IsDigit(data[x]) {
      assert data[j + (x - j)] == digits[x - j];
    }
    DigitsEndIs(data, j, j + |digits|);
  }

  /** Where a number ends, from its parts. */
  lemma EndOfParts(data: seq<Byte>, i: nat, j: nat, e: nat, digits: seq<Byte>, fraction: seq<Byte>)
    requires i < |data| && i <= j && j + |digits| <= e < |data| && !IsDigit(data[e])
    requires j == if data[i] == 43 || data[i] == 45 then i + 1 else i
    requires At(data, j, digits) && AllDigits(digits) && AllDigits(fraction)
    requires
      if fraction == [] then digits != [] && e == j + |digits| && data[e] != 46
      else data[j + |digits|] == 46 && At(data, j + |digits| + 1, fraction) && e == j + |digits| + 1 + |fraction|
    ensures NumberEnd(data, i) == e
  {
    DigitsRun(data, j, digits);
    if fraction != [] {
      assert data[j + |digits| + 1 + 0] == fraction[0];
      DigitsRun(data, j + |digits| + 1, fraction);
    }
  }

  lemma UnsignedValue(data: seq<Byte>, j: nat, digits: seq<Byte>, fraction: seq<Byte>)
    requires At(data, j, digits + SpellFraction(fraction)) && AllDigits(digits) && AllDigits(fraction)
    ensures
      Digits(data, j, j + |digits| + |SpellFraction(fraction)|) == (Decimal(digits + fraction), |fraction|)
  {
    if fraction == [] {
      assert digits + SpellFraction(fraction) == digits == digits + fraction;
      DigitsAre(data, j, digits);
    } else {
      FractionIs(data, j, digits, fraction);
    }
  }

  lemma SignIs(data: seq<Byte>, i: nat, sign: seq<Byte>, digits: seq<Byte>, fraction: seq<Byte>)
    requires NumberAt(data, i, sign, digits, fraction)
    ensures data[i] == 45 <==> sign == [45]
    ensures sign != [] <==> data[i] == 43 || data[i] == 45
  {
    var j := i + |sign|;
    NumberParts(data, i, j, sign, digits, fraction);
    if sign == [] {
      if digits != [] { assert data[j + 0] == digits[0]; }
    } else {
      assert data[i + 0] == sign[0];
    }
  }

  lemma SignedValue(data: seq<Byte>, i: nat, e: nat, sign: seq<Byte>, value: (nat, nat))
    requires i + |sign| <= e <= |data| && |sign| <= 1 && Digits(data, i + |sign|, e) == value
    requires sign != [] ==> i < e && (data[i] == 43 || data[i] == 45)
    ensures Digits(data, i, e) == value
  {
    if sign != [] { SignedDigits(data, i, e); }
  }

  lemma NumberLength(sign: seq<Byte>, digits: seq<Byte>, fraction: seq<Byte>)
    ensures |SpellNumber(sign, digits, fraction)| == |sign| + |digits| + |SpellFraction(fraction)|
  {
  }

  lemma ValueOfParts(data: seq<Byte>, i: nat, e: nat, sign: seq<Byte>, digits: seq<Byte>, fraction: seq<Byte>)
    requires |sign| <= 1 && e == i + |sign| + |digits| + |SpellFraction(fraction)| <= |data|
    requires At(data, i + |sign|, digits + SpellFraction(fraction)) && AllDigits(digits) && AllDigits(fraction)
    requires sign != [] ==> i < e && (data[i] == 43 || data[i] == 45)
    ensures Digits(data, i, e) == (Decimal(digits + fraction), |fraction|)
  {
    UnsignedValue(data, i + |sign|, digits, fraction);
    SignedValue(data, i, e, sign, (Decimal(digits + fraction), |fraction|));
  }

  /** What the parts of a written number say of the bytes, with where they start and end. */
  lemma NumberFacts(data: seq<Byte>, i: nat, sign: seq<Byte>, digits: seq<Byte>, fraction: seq<Byte>)
    returns (j: nat, e: nat)
    requires NumberAt(data, i, sign, digits, fraction)
    ensures j == i + |sign| && e == j + |digits| + |SpellFraction(fraction)| < |data|
    ensures e == i + |SpellNumber(sign, digits, fraction)| && i < e && |sign| <= 1
    ensures At(data, j, digits + SpellFraction(fraction)) && At(data, j, digits)
    ensures AllDigits(digits) && AllDigits(fraction) && digits + fraction != []
    ensures fraction != [] ==> data[j + |digits|] == 46 && At(data, j + |digits| + 1, fraction)
    ensures !IsDigit(data[e]) && data[e] != 46
  {
    j, e := i + |sign|, i + |SpellNumber(sign, digits, fraction)|;
    NumberParts(data, i, j, sign, digits, fraction);
    NumberLength(sign, digits, fraction);
  }

  lemma GapIff(data: seq<Byte>, i: nat, e: nat, digits: seq<Byte>, fraction: seq<Byte>)
    requires i < e <= |data| && AllDigits(digits) && AllDigits(fraction)
    requires Digits(data, i, e) == (Decimal(digits + fraction), |fraction|)
    ensures IsWordGap(data, i, e) <==> data[i] == 45 && Decimal(digits) >= 180
  {
    DecimalSplits(digits, fraction);
    WholePartDecides(Decimal(digits), Decimal(fraction), Pow10(|fraction|));
  }

  lemma NumberSpan(data: seq<Byte>, i: nat, sign: seq<Byte>, digits: seq<Byte>, fraction: seq<Byte>)
    requires NumberAt(data, i, sign, digits, fraction)
    ensures NumberEnd(data, i) == i + |SpellNumber(sign, digits, fraction)| > i
    ensures IsWordGap(data, i, NumberEnd(data, i)) <==> sign == [45] && Decimal(digits) >= 180
  {
    var j, e := NumberFacts(data, i, sign, digits, fraction);
    SignIs(data, i, sign, digits, fraction);
    PartsSpan(data, i, j, e, sign, digits, fraction);
  }

  lemma PartsSpan(data: seq<Byte>, i: nat, j: nat, e: nat, sign: seq<Byte>, digits: seq<Byte>, fraction: seq<Byte>)
    requires j == i + |sign| && e == j + |digits| + |SpellFraction(fraction)| < |data| && i < e && |sign| <= 1
    requires At(data, j, digits + SpellFraction(fraction)) && At(data, j, digits)
    requires AllDigits(digits) && AllDigits(fraction) && digits + fraction != []
    requires fraction != [] ==> data[j + |digits|] == 46 && At(data, j + |digits| + 1, fraction)
    requires !IsDigit(data[e]) && data[e] != 46
    requires sign != [] <==> data[i] == 43 || data[i] == 45
    ensures NumberEnd(data, i) == e
    ensures IsWordGap(data, i, e) <==> data[i] == 45 && Decimal(digits) >= 180
  {
    EndOfParts(data, i, j, e, digits, fraction);
    ValueOfParts(data, i, e, sign, digits, fraction);
    GapIff(data, i, e, digits, fraction);
  }

  lemma {:induction false} WordEndIs(data: seq<Byte>, j: nat, e: nat)
    requires j <= e <= |data| && (forall x :: j <= x < e ==> IsWordByte(data[x]))
    requires e < |data| ==> !IsWordByte(data[e])
    ensures WordEnd(data, j) == e
    decreases e - j
  {
    if j < e { WordEndIs(data, j + 1, e); }
  }

  lemma WordBranch(data: seq<Byte>, s: Scan, utf16: seq<Byte> -> Text)
    requires s.i < |data| && IsWordByte(data[s.i])
    ensures
      var end := WordEnd(data, s.i);
      ScanStep(data, s, utf16) == Scan(end, [], Operate(data[s.i..end], s.pending, s.out))
  {
    NoNumber(data, s.i);
  }

  lemma NoNumber(data: seq<Byte>, i: nat)
    requires i < |data| && data[i] != 43 && data[i] != 45 && data[i] != 46 && !IsDigit(data[i])
    ensures NumberEnd(data, i) == i
  {
    assert DigitsEnd(data, i) == i;
  }

  lemma WordSpan(data: seq<Byte>, i: nat, word: seq<Byte>)
    requires TokenAt(data, i, Op(word))
    ensures IsWordByte(data[i]) && WordEnd(data, i) == i + |word| && data[i..i + |word|] == word
  {
    var e := i + |word|;
    forall x | i <= x < e ensures IsWordByte(data[x]) && data[x] == word[x - i] {
      assert data[i + (x - i)] == word[x - i] && word[x - i] in word;
    }
    WordEndIs(data, i, e);
  }

  lemma WordStep(data: seq<Byte>, s: Scan, word: seq<Byte>, utf16: seq<Byte> -> Text)
    requires TokenAt(data, s.i, Op(word))
    ensures ScanStep(data, s, utf16) == Scan(s.i + |word|, [], Operate(word, s.pending, s.out))
  {
    WordSpan(data, s.i, word);
    WordBranch(data, s, utf16);
  }

  lemma PassStep(data: seq<Byte>, s: Scan, b: Byte, utf16: seq<Byte> -> Text)
    requires TokenAt(data, s.i, Pass(b))
    ensures ScanStep(data, s, utf16) == Scan(s.i + 1, s.pending, s.out)
  {
    NoNumber(data, s.i);
    assert WordEnd(data, s.i) == s.i;
  }

  lemma StringStep(data: seq<Byte>, s: Scan, ps: List<Piece>, utf16: seq<Byte> -> Text)
    requires TokenAt(data, s.i, Str(ps))
    ensures ScanStep(data, s, utf16) ==
      Scan(s.i + SpelledLength(ps) + 2, s.pending + [DecodeString(MeanAll(ps), utf16)], s.out)
  {
    LiteralInvertsSpelling(data, s.i + 1, 0, ps);
    StringBranch(data, s, utf16);
  }

  lemma StringBranch(data: seq<Byte>, s: Scan, utf16: seq<Byte> -> Text)
    requires s.i < |data| && data[s.i] == LPAREN
    ensures ScanStep(data, s, utf16) == StringScan(LiteralFrom(data, s.i + 1, 0), s, utf16)
  {
  }

  lemma NumberStarts(data: seq<Byte>, i: nat, sign: seq<Byte>, digits: seq<Byte>, fraction: seq<Byte>)
    requires NumberAt(data, i, sign, digits, fraction)
    ensures i < |data| && (IsDigit(data[i]) || data[i] == 43 || data[i] == 45 || data[i] == 46)
  {
    var w := SpellNumber(sign, digits, fraction);
    assert data[i + 0] == w[0];
  }

  lemma NumberStep(data: seq<Byte>, s: Scan, sign: seq<Byte>, digits: seq<Byte>, fraction: seq<Byte>,
                   utf16: seq<Byte> -> Text)
    requires NumberAt(data, s.i, sign, digits, fraction)
    ensures s.i < |data|
    ensures
      var gap := s.pending != [] && sign == [45] && Decimal(digits) >= 180;
      ScanStep(data, s, utf16)
        == Scan(s.i + |SpellNumber(sign, digits, fraction)|, if gap then s.pending + [[32]] else s.pending, s.out)
  {
    NumberStarts(data, s.i, sign, digits, fraction);
    NumberSpan(data, s.i, sign, digits, fraction);
  }

  lemma CommentSpan(data: seq<Byte>, i: nat, text: seq<Byte>)
    requires LF !in text && At(data, i, [37] + text + [LF])
    ensures data[i] == 37 && FindFrom(data, LF, i) == i + |text| + 1 < |data|
  {
    var w := [37] + text + [LF];
    forall x | i <= x < i + |text| + 1 ensures data[x] == w[x - i] && data[x] != LF {
      assert data[i + (x - i)] == w[x - i];
      if x > i { assert w[x - i] == text[x - i - 1] && text[x - i - 1] in text; }
    }
    assert data[i + (|text| + 1)] == w[|text| + 1];
    FindFirst(data, LF, i, i + |text| + 1);
  }

  lemma CommentStep(data: seq<Byte>, s: Scan, text: seq<Byte>, utf16: seq<Byte> -> Text)
    requires TokenAt(data, s.i, Comment(text))
    ensures s.i < |data| && ScanStep(data, s, utf16) == Scan(s.i + |text| + 2, s.pending, s.out)
  {
    CommentSpan(data, s.i, text);
  }

  /** Small letters count like capitals, other bytes not at all, and a last odd digit has a zero after it. */
  lemma HexForms(data: seq<Byte>, j: nat, e: nat, v: nat)
    requires v < 6
    ensures HexValue(97 + v) == 10 + v == HexValue(65 + v)
    ensures j < e <= |data| && !IsHex(data[j]) ==> HexDigits(data, j, e) == HexDigits(data, j + 1, e)
    ensures HexBytes([v]) == [16 * v]
  {
  }

  // ------------------------------------------------ the scanner and the page

  lemma ConcatMore(ts: seq<Text>, t: Text)
    ensures Concat(ts + [t]) == Concat(ts) + t
  {
    assert (ts + [t])[..|ts|] == ts;
  }

  /** The scanner's lists of pieces say what the page says. */
  ghost predicate Mirrors(pending: seq<Text>, out: seq<Text>, p: Page) {
    Concat(pending) == p.waiting && (pending != [] <==> p.any) && Concat(out) == p.text &&
    p.last == if out == [] then None else Some(out[|out| - 1])
  }

  lemma WaitMirrors(pending: seq<Text>, out: seq<Text>, p: Page, t: Text)
    requires Mirrors(pending, out, p)
    ensures Mirrors(pending + [t], out, Wait(p, t))
  {
    ConcatMore(pending, t);
  }

  lemma BreakMirrors(pending: seq<Text>, out: seq<Text>, p: Page)
    requires Mirrors(pending, out, p)
    ensures Mirrors(pending, if NeedsBreak(out) then out + [[10]] else out, Broken(p))
  {
    ConcatMore(out, [10]);
  }

  lemma WordsAre(word: seq<Byte>)
    ensures Quotes(word) <==> word == [39] || word == [34]
    ensures Shows(word) <==> word == [84, 106] || word == [84, 74] || Quotes(word)
    ensures Moves(word) <==> word == [84, 100] || word == [84, 68] || word == [84, 42] || word == [69, 84]
  {
  }

  lemma ShowMirrors(pending: seq<Text>, out: seq<Text>, p: Page)
    requires Mirrors(pending, out, p)
    ensures Mirrors([], out + [Concat(pending)], Page(p.text + p.waiting, Some(p.waiting), [], false))
  {
    ConcatMore(out, Concat(pending));
  }

  lemma OperateMirrors(word: seq<Byte>, pending: seq<Text>, out: seq<Text>, p: Page)
    requires Mirrors(pending, out, p)
    ensures Mirrors([], Operate(word, pending, out), Operated(word, p))
  {
    WordsAre(word);
    BreakMirrors(pending, out, p);
    if Shows(word) {
      if Quotes(word) {
        ShowMirrors(pending, if NeedsBreak(out) then out + [[10]] else out, Broken(p));
      } else {
        ShowMirrors(pending, out, p);
      }
    }
  }

  /** What a step of the scanner over token `t` must lead to. */
  ghost predicate StepReads(data: seq<Byte>, s: Scan, p: Page, t: Token, utf16: seq<Byte> -> Text) {
    s.i < |data| &&
    var next := ScanStep(data, s, utf16);
    next.i == s.i + TokenLength(t) && Mirrors(next.pending, next.out, Read(t, p, utf16))
  }

  lemma StringReads(data: seq<Byte>, s: Scan, p: Page, t: Token, utf16: seq<Byte> -> Text)
    requires TokenAt(data, s.i, t) && (t.Str? || t.Hex?) && Mirrors(s.pending, s.out, p)
    ensures StepReads(data, s, p, t, utf16)
  {
    match t
    case Str(ps) =>
      StringStep(data, s, ps, utf16);
      WaitMirrors(s.pending, s.out, p, DecodeString(MeanAll(ps), utf16));
    case Hex(raw) =>
      HexStep(data, s, raw, utf16);
      WaitMirrors(s.pending, s.out, p, DecodeString(Bytes(raw), utf16));
  }

  lemma NumberReads(data: seq<Byte>, s: Scan, p: Page, t: Token, utf16: seq<Byte> -> Text)
    requires TokenAt(data, s.i, t) && t.Kern? && Mirrors(s.pending, s.out, p)
    ensures StepReads(data, s, p, t, utf16)
  {
    NumberStep(data, s, t.sign, t.digits, t.fraction, utf16);
    WaitMirrors(s.pending, s.out, p, [32]);
  }

  lemma WordReads(data: seq<Byte>, s: Scan, p: Page, word: seq<Byte>, utf16: seq<Byte> -> Text)
    requires TokenAt(data, s.i, Op(word)) && Mirrors(s.pending, s.out, p)
    ensures StepReads(data, s, p, Op(word), utf16)
  {
    WordSpan(data, s.i, word);
    WordStep(data, s, word, utf16);
    OperateMirrors(word, s.pending, s.out, p);
  }

  lemma RestReads(data: seq<Byte>, s: Scan, p: Page, t: Token, utf16: seq<Byte> -> Text)
    requires TokenAt(data, s.i, t) && (t.Comment? || t.Pass?) && Mirrors(s.pending, s.out, p)
    ensures StepReads(data, s, p, t, utf16)
  {
    match t
    case Comment(text) => CommentStep(data, s, text, utf16);
    case Pass(b) => PassStep(data, s, b, utf16);
  }

  /** One token is one step of the scanner, which stops right past it and then shows what it means. */
  lemma TokenIsOneStep(data: seq<Byte>, s: Scan, p: Page, t: Token, utf16: seq<Byte> -> Text)
    requires TokenAt(data, s.i, t) && Mirrors(s.pending, s.out, p)
    ensures StepReads(data, s, p, t, utf16)
  {
    match t
    case Str(_) => StringReads(data, s, p, t, utf16);
    case Hex(_) => StringReads(data, s, p, t, utf16);
    case Kern(_, _, _) => NumberReads(data, s, p, t, utf16);
    case Op(word) => WordReads(data, s, p, word, utf16);
    case _ => RestReads(data, s, p, t, utf16);
  }

  lemma ScanOnceMore(data: seq<Byte>, s: Scan, utf16: seq<Byte> -> Text)
    requires s.i < |data|
    ensures ScanAll(data, s, utf16) == ScanAll(data, ScanStep(data, s, utf16), utf16)
  {
  }

  lemma {:induction false} TokensAreRead(data: seq<Byte>, s: Scan, p: Page, ts: List<Token>, utf16: seq<Byte> -> Text)
    requires TokensAt(data, s.i, ts) && Mirrors(s.pending, s.out, p)
    ensures ScanAll(data, s, utf16) == ReadAll(ts, p, utf16).text
    decreases ts
  {
    if ts.Cons? {
      TokenIsOneStep(data, s, p, ts.head, utf16);
      ScanOnceMore(data, s, utf16);
      TokensAreRead(data, ScanStep(data, s, utf16), Read(ts.head, p, utf16), ts.tail, utf16);
    }
  }

  /** Extraction inverts writing: from any stream of strings, kerned arrays, comments and operators,
      it returns the text that the tokens mean, in order. */
  lemma ExtractionInvertsWriting(data: seq<Byte>, ts: List<Token>, utf16: seq<Byte> -> Text)
    requires TokensAt(data, 0, ts)
    ensures ScanAll(data, Scan(0, [], []), utf16) == ReadAll(ts, BLANK, utf16).text
  {
    TokensAreRead(data, Scan(0, [], []), BLANK, ts, utf16);
  }

  // ------------------------------------------------------- when lines break

  /** The piece shown last ends the text, and nothing is shown before the first. */
  ghost predicate EndsWithLast(p: Page) {
    if p.last.None? then p.text == []
    else |p.last.value| <= |p.text| && p.text[|p.text| - |p.last.value|..] == p.last.value
  }

  lemma {:induction false} ReadEndsWithLast(ts: List<Token>, p: Page, utf16: seq<Byte> -> Text)
    requires EndsWithLast(p)
    ensures EndsWithLast(ReadAll(ts, p, utf16))
    decreases ts
  {
    if ts.Cons? {
      ReadEndsWithLast(ts.tail, Read(ts.head, p, utf16), utf16);
    }
  }

  /** Exactly when a quote or a move breaks the line: when the text is not empty and does not end
      in a break, and also whenever what was shown last was empty. */
  lemma BreakIsDueIff(ts: List<Token>, utf16: seq<Byte> -> Text)
    ensures
      var p := ReadAll(ts, BLANK, utf16);
      BreakIsDue(p) <==> (p.text != [] && !EndsLine(p.text)) || p.last == Some([])
  {
    var p := ReadAll(ts, BLANK, utf16);
    ReadEndsWithLast(ts, BLANK, utf16);
    if p.last.Some? && p.last.value != [] {
      var t := p.last.value;
      assert p.text[|p.text| - |t|..][|t| - 1] == p.text[|p.text| - 1];
    }
  }

  lemma ShowThenMove(show: seq<Byte>, move: seq<Byte>, utf16: seq<Byte> -> Text)
    requires Is(show, "Tj") && Is(move, "ET")
    ensures ReadAll(Cons(Op(show), Cons(Pass(32), Cons(Op(move), Nil))), BLANK, utf16).text == [10]
  {
    var shown := Operated(show, BLANK);
    assert shown == Page([], Some([]), [], false);
    assert Moves(move) && Operated(move, shown).text == [10];
    var end := Cons(Op(move), Nil);
    assert ReadAll(end, shown, utf16) == Operated(move, shown);
    assert ReadAll(Cons(Pass(32), end), shown, utf16) == ReadAll(end, shown, utf16);
  }

  lemma WordStands(data: seq<Byte>, i: nat, word: seq<Byte>)
    requires i + 2 <= |data| && |word| == 2 && data[i] == word[0] && data[i + 1] == word[1]
    requires IsWordByte(word[0]) && IsWordByte(word[1]) && (i + 2 < |data| ==> data[i + 2] == 32)
    ensures TokenAt(data, i, Op(word))
  {
  }

  /** So a page that shows nothing can still have a line break: "Tj ET". */
  lemma NothingShownBreaks(show: seq<Byte>, move: seq<Byte>, data: seq<Byte>, utf16: seq<Byte> -> Text)
    requires Is(show, "Tj") && Is(move, "ET") && data == show + [32] + move
    ensures ScanAll(data, Scan(0, [], []), utf16) == [10]
  {
    WordStands(data, 0, show);
    WordStands(data, 3, move);
    var last := Cons(Op(move), Nil);
    assert TokensAt(data, 5, Nil);
    assert TokensAt(data, 3, last);
    assert TokensAt(data, 2, Cons(Pass(32), last));
    ExtractionInvertsWriting(data, Cons(Op(show), Cons(Pass(32), last)), utf16);
    ShowThenMove(show, move, utf16);
  }
}
