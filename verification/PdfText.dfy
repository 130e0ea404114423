/** Literal strings (section 7.3.4.2 of ISO 32000-1:2008) and the text-showing operators of a content stream. */
module PdfText {
  import opened Prelude

  type Byte = b: int | 0 <= b < 256
  const LF: Byte := 10
  const CR: Byte := 13
  const LPAREN: Byte := 40
  const RPAREN: Byte := 41
  const BACKSLASH: Byte := 92

  /** The byte a named escape stands for. */
  function Escape(c: Byte): Option<Byte> {
    if c == 110 then Some(10) else if c == 114 then Some(13) else if c == 116 then Some(9)
    else if c == 98 then Some(8) else if c == 102 then Some(12)
    else if c == LPAREN || c == RPAREN || c == BACKSLASH then Some(c)
    else None
  }

  /** The named escapes, and no others. */
  lemma NamedEscapes(c: Byte)
    ensures Escape('n' as int) == Some('\n' as int) && Escape('r' as int) == Some('\r' as int)
    ensures Escape('t' as int) == Some('\t' as int) && Escape('b' as int) == Some(8) && Escape('f' as int) == Some(12)
    ensures Escape('(' as int) == Some('(' as int) && Escape(')' as int) == Some(')' as int)
    ensures Escape('\\' as int) == Some('\\' as int)
    ensures Escape(c).Some? ==> (c as char) in "nrtbf()\\"
  {
    assert "nrtbf()\\" == ['n', 'r', 't', 'b', 'f', '(', ')', '\\'];
  }

  predicate IsDigit(c: Byte) { 48 <= c <= 57 }
  predicate IsOctal(c: Byte) { 48 <= c <= 55 }

  function OctalEnd(data: seq<Byte>, j: nat, limit: nat): (e: nat)
    requires j <= limit <= |data|
    ensures j <= e <= limit
    decreases limit - j
  {
    if j < limit && IsOctal(data[j]) then OctalEnd(data, j + 1, limit) else j
  }

  /** The value of the first `n` octal digits; the digit '0' is byte 48, a multiple of 8. */
  function OctalPrefix(digits: seq<Byte>, n: nat): nat
    requires n <= |digits|
  {
    if n == 0 then 0 else OctalPrefix(digits, n - 1) * 8 + digits[n - 1] as int % 8
  }

  function OctalValue(digits: seq<Byte>): nat {
    OctalPrefix(digits, |digits|)
  }

  /** What one step of the parser inside a literal does: emit bytes, move on, change depth; or stop. */
  datatype Step = Step(emit: seq<Byte>, next: nat, depth: nat) | Closed

  function LiteralStep(data: seq<Byte>, i: nat, depth: nat): (s: Step)
    requires i < |data|
    ensures s.Step? ==> i < s.next <= |data|
  {
    var (b, n) := (data[i], |data|);
    if b == BACKSLASH then
      if i + 1 < n && Escape(data[i + 1]).Some? then Step([Escape(data[i + 1]).value], i + 2, depth)
      else if i + 1 < n && IsDigit(data[i + 1]) then
        var j := OctalEnd(data, i + 1, Min(i + 4, n));
        if j > i + 1 then
          Step([OctalValue(data[i + 1..j]) % 256], j, depth)
        else Step([], i + 1, depth)
      else if i + 1 < n && (data[i + 1] == LF || data[i + 1] == CR) then Step([], i + 2, depth)
      else Step([], i + 1, depth)
    else if b == LPAREN then Step([b], i + 1, depth + 1)
    else if b == RPAREN then if depth == 0 then Closed else Step([b], i + 1, depth - 1)
    else Step([b], i + 1, depth)
  }

  /** The bytes of the literal from `i` on at `depth`, and the index past its closing parenthesis. */
  function LiteralFrom(data: seq<Byte>, i: nat, depth: nat): (r: (seq<Byte>, nat))
    requires i <= |data|
    ensures i <= r.1 <= |data| && (i < |data| ==> i < r.1)
    decreases |data| - i
  {
    if i == |data| then ([], i)
    else
      match LiteralStep(data, i, depth)
      case Closed => ([], i + 1)
      case Step(emit, next, d) => var rest := LiteralFrom(data, next, d); (emit + rest.0, rest.1)
  }

  function After(raw: seq<Byte>, r: (seq<Byte>, nat)): (seq<Byte>, nat) {
    (raw + r.0, r.1)
  }

  lemma StepJoins(raw: seq<Byte>, data: seq<Byte>, i: nat, depth: nat)
    requires i < |data|
    ensures
      var s := LiteralStep(data, i, depth);
      After(raw, LiteralFrom(data, i, depth)) ==
      if s.Closed? then (raw, i + 1) else After(raw + s.emit, LiteralFrom(data, s.next, s.depth))
  {
    var s := LiteralStep(data, i, depth);
    if s.Step? {
      var rest := LiteralFrom(data, s.next, s.depth).0;
      assert raw + (s.emit + rest) == (raw + s.emit) + rest;
    } else {
      assert raw + [] == raw;
    }
  }

  method Literal(data: seq<Byte>, start: nat) returns (raw: seq<Byte>, i: nat)
    requires start < |data|
    ensures raw == LiteralFrom(data, start + 1, 0).0 && i == LiteralFrom(data, start + 1, 0).1
    ensures start < i <= |data|
  {
    raw := [];
    var depth: nat := 0;
    i := start + 1;
    var n := |data|;
    ghost var all := LiteralFrom(data, start + 1, 0);
    assert [] + all.0 == all.0;
    while i < n
      invariant start < i <= n
      invariant all == After(raw, LiteralFrom(data, i, depth))
      decreases n - i
    {
      StepJoins(raw, data, i, depth);
      var closed, emit, next, inner := ReadByte(data, i, depth);
      i := next;
      if closed {
        return;
      }
      raw := raw + emit;
      depth := inner;
    }
    assert raw + [] == raw;
  }

  /** One turn of the loop: an escape, a parenthesis, or any other byte as it stands. */
  method ReadByte(data: seq<Byte>, i: nat, depth: nat) returns (closed: bool, emit: seq<Byte>, next: nat, inner: nat)
    requires i < |data|
    ensures i < next <= |data|
    ensures closed ==> LiteralStep(data, i, depth) == Closed && next == i + 1
    ensures !closed ==> LiteralStep(data, i, depth) == Step(emit, next, inner)
  {
    var b := data[i];
    closed, emit, next, inner := false, [b], i + 1, depth;
    if b == BACKSLASH {
      emit, next := ReadEscape(data, i, depth);
    } else if b == LPAREN {
      inner := depth + 1;
    } else if b == RPAREN {
      if depth == 0 {
        closed := true;
        return;
      }
      inner := depth - 1;
    }
  }

  /** The branches of a backslash: a named escape, up to three octal digits, a line continuation, or nothing. */
  method ReadEscape(data: seq<Byte>, i: nat, ghost depth: nat) returns (emit: seq<Byte>, next: nat)
    requires i < |data| && data[i] == BACKSLASH
    ensures LiteralStep(data, i, depth) == Step(emit, next, depth)
  {
    var n := |data|;
    emit, next := [], i + 1;
    if i + 1 < n && Escape(data[i + 1]).Some? {
      emit, next := [Escape(data[i + 1]).value], i + 2;
    } else if i + 1 < n && IsDigit(data[i + 1]) {
      var j := i + 1;
      while j < Min(i + 4, n) && IsOctal(data[j])
        invariant i + 1 <= j <= Min(i + 4, n)
        invariant OctalEnd(data, i + 1, Min(i + 4, n)) == OctalEnd(data, j, Min(i + 4, n))
      {
        j := j + 1;
      }
      if j > i + 1 {
        emit, next := [OctalValue(data[i + 1..j]) % 256], j;
      }
    } else if i + 1 < n && (data[i + 1] == LF || data[i + 1] == CR) {
      next := i + 2;
    }
  }

  // ------------------------------------------------------------- spellings

  /** The ways to write a piece of a literal string. */
  datatype Piece =
    | Raw(b: Byte)                   // any byte but a parenthesis or a backslash
    | Open | Close                   // a raw parenthesis; they must balance
    | Named(c: Byte)                 // \n \r \t \b \f \( \) \\
    | Octal(digits: seq<Byte>)       // \ddd, or fewer digits before something else
    | Continued(eol: Byte)           // a backslash at the end of a line
    | Bare                           // a backslash before any other byte

  function Spell(p: Piece): seq<Byte> {
    match p
    case Raw(b) => [b]
    case Open => [LPAREN]
    case Close => [RPAREN]
    case Named(c) => [BACKSLASH, c]
    case Octal(digits) => [BACKSLASH] + digits
    case Continued(eol) => [BACKSLASH, eol]
    case Bare => [BACKSLASH]
  }

  function Mean(p: Piece): seq<Byte> {
    match p
    case Raw(b) => [b]
    case Open => [LPAREN]
    case Close => [RPAREN]
    case Named(c) => if Escape(c).Some? then [Escape(c).value] else []
    case Octal(digits) => [OctalValue(digits) % 256]
    case Continued(_) => []
    case Bare => []
  }

  function MeanAll(ps: List<Piece>): seq<Byte> {
    if ps.Nil? then [] else Mean(ps.head) + MeanAll(ps.tail)
  }

  function SpelledLength(ps: List<Piece>): nat {
    if ps.Nil? then 0 else |Spell(ps.head)| + SpelledLength(ps.tail)
  }

  /** A piece that may be written when the next byte is `next`. */
  predicate Writable(p: Piece, next: Byte) {
    match p
    case Raw(b) => b != BACKSLASH && b != LPAREN && b != RPAREN
    case Open => true
    case Close => true
    case Named(c) => Escape(c).Some?
    case Octal(digits) =>
      1 <= |digits| <= 3 && (forall d <- digits :: IsOctal(d)) && (|digits| < 3 ==> !IsOctal(next))
    case Continued(eol) => eol == LF || eol == CR
    case Bare => Escape(next).None? && !IsOctal(next) && next != LF && next != CR
  }

  function DepthAfter(p: Piece, depth: nat): nat
    requires p.Close? ==> depth > 0
  {
    if p.Open? then depth + 1 else if p.Close? then depth - 1 else depth
  }

  /** Piece `p` is written at `i`, inside `depth` raw parentheses. */
  ghost predicate PieceAt(data: seq<Byte>, i: nat, depth: nat, p: Piece) {
    i + |Spell(p)| < |data| && At(data, i, Spell(p)) && Writable(p, data[i + |Spell(p)|]) && (p.Close? ==> depth > 0)
  }

  ghost predicate CloseAt(data: seq<Byte>, i: nat) {
    i < |data| && data[i] == RPAREN
  }

  /** The bytes of `data` from `i` on spell `ps` and then close the string; raw parentheses balance from `depth`. */
  ghost predicate Spells(data: seq<Byte>, i: nat, depth: nat, ps: List<Piece>)
    decreases ps
  {
    match ps
    case Nil => CloseAt(data, i) && depth == 0
    case Cons(p, rest) => PieceAt(data, i, depth, p) && Spells(data, i + |Spell(p)|, DepthAfter(p, depth), rest)
  }

  /** The bytes `w` stand in `data` from index `i` on. */
  ghost predicate At(data: seq<Byte>, i: nat, w: seq<Byte>) {
    i + |w| <= |data| && forall x :: 0 <= x < |w| ==> data[i + x] == w[x]
  }

  /** One written piece is read by one step. */
  lemma PieceIsOneStep(data: seq<Byte>, i: nat, depth: nat, p: Piece)
    requires PieceAt(data, i, depth, p)
    ensures LiteralStep(data, i, depth) == Step(Mean(p), i + |Spell(p)|, DepthAfter(p, depth))
  {
    var w := Spell(p);
    assert data[i] == w[0];
    if p.Octal? {
      OctalIsOneStep(data, i, depth, p.digits);
    } else if p.Bare? {
      assert OctalEnd(data, i + 1, Min(i + 4, |data|)) == i + 1;
    } else if |w| == 2 {
      assert data[i + 1] == w[1];
    }
  }

  lemma OctalIsOneStep(data: seq<Byte>, i: nat, depth: nat, digits: seq<Byte>)
    requires i + 1 + |digits| < |data| && At(data, i, [BACKSLASH] + digits)
    requires Writable(Octal(digits), data[i + 1 + |digits|])
    ensures LiteralStep(data, i, depth) == Step([OctalValue(digits) % 256], i + 1 + |digits|, depth)
  {
    AtRest(data, i, BACKSLASH, digits);
    OctalRun(data, i + 1, digits, Min(i + 4, |data|));
    assert IsOctal(data[i + 1]) by { assert digits[0] in digits && data[i + 1 + 0] == digits[0]; }
  }

  lemma AtRest(data: seq<Byte>, i: nat, b: Byte, w: seq<Byte>)
    requires At(data, i, [b] + w)
    ensures data[i] == b && At(data, i + 1, w)
  {
    assert data[i + 0] == ([b] + w)[0];
    forall x | 0 <= x < |w| ensures data[i + 1 + x] == w[x] {
      assert data[i + (1 + x)] == ([b] + w)[1 + x];
    }
  }

  lemma OctalRun(data: seq<Byte>, j: nat, digits: seq<Byte>, limit: nat)
    requires At(data, j, digits) && j + |digits| <= limit <= |data| && forall d <- digits :: IsOctal(d)
    requires j + |digits| < limit ==> !IsOctal(data[j + |digits|])
    ensures OctalEnd(data, j, limit) == j + |digits| && data[j..j + |digits|] == digits
  {
    forall x | j <= x < j + |digits| ensures IsOctal(data[x]) {
      assert data[j + (x - j)] == digits[x - j] && digits[x - j] in digits;
    }
    OctalEndIs(data, j, limit, j + |digits|);
  }

  lemma {:induction false} OctalEndIs(data: seq<Byte>, j: nat, limit: nat, e: nat)
    requires j <= e <= limit <= |data|
    requires forall x :: j <= x < e ==> IsOctal(data[x])
    requires e < limit ==> !IsOctal(data[e])
    ensures OctalEnd(data, j, limit) == e
    decreases limit - j
  {
    if j < e { OctalEndIs(data, j + 1, limit, e); }
  }

  /** At a closing parenthesis outside all others `g` stops. */
  ghost predicate StopsAt(g: (nat, nat) -> (seq<Byte>, nat), data: seq<Byte>, i: nat) {
    CloseAt(data, i) ==> g(i, 0) == ([], i + 1)
  }

  /** Over a written piece `g` moves on with what it means. */
  ghost predicate ReadsAt(g: (nat, nat) -> (seq<Byte>, nat), data: seq<Byte>, i: nat, depth: nat, p: Piece) {
    PieceAt(data, i, depth, p) ==> g(i, depth) == After(Mean(p), g(i + |Spell(p)|, DepthAfter(p, depth)))
  }

  /** What the inductive argument needs to know of the parser `g` on `data`. */
  ghost predicate ReadsPieces(g: (nat, nat) -> (seq<Byte>, nat), data: seq<Byte>) {
    (forall i: nat :: StopsAt(g, data, i)) && forall i: nat, depth: nat, p: Piece :: ReadsAt(g, data, i, depth, p)
  }

  lemma FirstPiece(data: seq<Byte>, i: nat, depth: nat, p: Piece, rest: List<Piece>)
    requires Spells(data, i, depth, Cons(p, rest))
    ensures PieceAt(data, i, depth, p) && (p.Close? ==> depth > 0)
    ensures Spells(data, i + |Spell(p)|, DepthAfter(p, depth), rest)
  {
  }

  lemma NoPiece(g: (nat, nat) -> (seq<Byte>, nat), data: seq<Byte>, i: nat, depth: nat)
    requires ReadsPieces(g, data) && Spells(data, i, depth, Nil)
    ensures g(i, depth) == ([], i + 1)
  {
    assert StopsAt(g, data, i);
  }

  /** What a piece comes to: its bytes, its length as written, and the depth after it. */
  datatype Chunk = Chunk(mean: seq<Byte>, length: nat, inner: nat)

  function ChunkOf(p: Piece, depth: nat): Chunk {
    Chunk(Mean(p), |Spell(p)|, if p.Close? && depth == 0 then 0 else DepthAfter(p, depth))
  }

  function Chunks(ps: List<Piece>, depth: nat): List<Chunk>
    decreases ps
  {
    if ps.Nil? then Nil else var c := ChunkOf(ps.head, depth); Cons(c, Chunks(ps.tail, c.inner))
  }

  function Means(cs: List<Chunk>): seq<Byte> {
    if cs.Nil? then [] else cs.head.mean + Means(cs.tail)
  }

  function Lengths(cs: List<Chunk>): nat {
    if cs.Nil? then 0 else cs.head.length + Lengths(cs.tail)
  }

  lemma {:induction false} ChunksMean(ps: List<Piece>, depth: nat)
    ensures Means(Chunks(ps, depth)) == MeanAll(ps) && Lengths(Chunks(ps, depth)) == SpelledLength(ps)
    decreases ps
  {
    if ps.Cons? { ChunksMean(ps.tail, ChunkOf(ps.head, depth).inner); }
  }

  /** `g` reads the chunks one after the other, and stops. */
  ghost predicate GoesThrough(g: (nat, nat) -> (seq<Byte>, nat), i: nat, depth: nat, cs: List<Chunk>)
    decreases cs
  {
    match cs
    case Nil => g(i, depth) == ([], i + 1)
    case Cons(c, rest) =>
      g(i, depth) == After(c.mean, g(i + c.length, c.inner)) && GoesThrough(g, i + c.length, c.inner, rest)
  }

  /** The first piece as a chunk: `g` reads it, and the other pieces follow. */
  lemma FirstChunk(g: (nat, nat) -> (seq<Byte>, nat), data: seq<Byte>, i: nat, depth: nat, p: Piece,
                   rest: List<Piece>) returns (c: Chunk)
    requires ReadsPieces(g, data) && Spells(data, i, depth, Cons(p, rest))
    ensures c == ChunkOf(p, depth) && Spells(data, i + c.length, c.inner, rest)
    ensures g(i, depth) == After(c.mean, g(i + c.length, c.inner))
  {
    c := ChunkOf(p, depth);
    FirstPiece(data, i, depth, p, rest);
    assert ReadsAt(g, data, i, depth, p);
  }

  lemma GoesOn(g: (nat, nat) -> (seq<Byte>, nat), i: nat, depth: nat, c: Chunk, rest: List<Chunk>)
    requires g(i, depth) == After(c.mean, g(i + c.length, c.inner)) && GoesThrough(g, i + c.length, c.inner, rest)
    ensures GoesThrough(g, i, depth, Cons(c, rest))
  {
  }

  lemma {:induction false} SpellsGoThrough(g: (nat, nat) -> (seq<Byte>, nat), data: seq<Byte>, i: nat, depth: nat,
                                           ps: List<Piece>)
    requires ReadsPieces(g, data) && Spells(data, i, depth, ps)
    ensures GoesThrough(g, i, depth, Chunks(ps, depth))
    decreases ps
  {
    if ps.Nil? {
      NoPiece(g, data, i, depth);
    } else {
      var c := FirstChunk(g, data, i, depth, ps.head, ps.tail);
      SpellsGoThrough(g, data, i + c.length, c.inner, ps.tail);
      GoesOn(g, i, depth, c, Chunks(ps.tail, c.inner));
    }
  }

  lemma {:induction false} ChunksAreRead(g: (nat, nat) -> (seq<Byte>, nat), i: nat, depth: nat, cs: List<Chunk>)
    requires GoesThrough(g, i, depth, cs)
    ensures g(i, depth) == (Means(cs), i + Lengths(cs) + 1)
    decreases cs
  {
    if cs.Cons? { ChunksAreRead(g, i + cs.head.length, cs.head.inner, cs.tail); }
  }

  function Parser(data: seq<Byte>): (nat, nat) -> (seq<Byte>, nat) {
    (i: nat, depth: nat) => if i <= |data| then LiteralFrom(data, i, depth) else ([], i)
  }

  lemma ParserIs(data: seq<Byte>, i: nat, depth: nat)
    requires i <= |data|
    ensures Parser(data)(i, depth) == LiteralFrom(data, i, depth)
  {
  }

  lemma ReadLikeSpelled(g: (nat, nat) -> (seq<Byte>, nat), data: seq<Byte>, i: nat, depth: nat, ps: List<Piece>)
    requires ReadsPieces(g, data) && Spells(data, i, depth, ps)
    ensures g(i, depth) == (MeanAll(ps), i + SpelledLength(ps) + 1)
  {
    SpellsGoThrough(g, data, i, depth, ps);
    ChunksAreRead(g, i, depth, Chunks(ps, depth));
    ChunksMean(ps, depth);
  }

  lemma ParserReads(data: seq<Byte>)
    ensures ReadsPieces(Parser(data), data)
  {
    forall i: nat ensures StopsAt(Parser(data), data, i) {}
    forall i: nat, depth: nat, p: Piece ensures ReadsAt(Parser(data), data, i, depth, p) {
      if PieceAt(data, i, depth, p) {
        PieceIsOneStep(data, i, depth, p);
      }
    }
  }

  lemma {:induction false} SpelledInside(data: seq<Byte>, i: nat, depth: nat, ps: List<Piece>)
    requires Spells(data, i, depth, ps)
    ensures i + SpelledLength(ps) < |data|
    decreases ps
  {
    match ps
    case Nil =>
    case Cons(p, rest) =>
      SpellsRest(data, i, depth, p, rest);
      SpelledInside(data, i + |Spell(p)|, DepthAfter(p, depth), rest);
  }

  lemma SpellsRest(data: seq<Byte>, i: nat, depth: nat, p: Piece, rest: List<Piece>)
    requires Spells(data, i, depth, Cons(p, rest))
    ensures p.Close? ==> depth > 0
    ensures Spells(data, i + |Spell(p)|, DepthAfter(p, depth), rest)
  {
  }

  /**
   Reading inverts every spelling: whatever mix of raw bytes, balanced parentheses, escapes and
   line continuations spells a string, the parser returns its bytes and the index past the end.
   */
  lemma LiteralInvertsSpelling(data: seq<Byte>, i: nat, depth: nat, ps: List<Piece>)
    requires Spells(data, i, depth, ps)
    ensures i + SpelledLength(ps) < |data|
    ensures LiteralFrom(data, i, depth) == (MeanAll(ps), i + SpelledLength(ps) + 1)
  {
    SpelledInside(data, i, depth, ps);
    ParserReads(data);
    ReadLikeSpelled(Parser(data), data, i, depth, ps);
    ParserIs(data, i, depth);
  }

  /** The three octal digits of a byte. */
  function OctalDigits(b: Byte): seq<Byte> {
    [48 + b / 64, 48 + b / 8 % 8, 48 + b % 8]
  }

  lemma OctalArithmetic(b: Byte)
    ensures (48 + b / 64) % 8 == b / 64 && (48 + b / 8 % 8) % 8 == b / 8 % 8 && (48 + b % 8) % 8 == b % 8
    ensures (b / 64) * 8 + b / 8 % 8 == b / 8 && (b / 8) * 8 + b % 8 == b
  {
  }

  lemma OctalOfThree(d: seq<Byte>)
    requires |d| == 3
    ensures OctalValue(d) == ((d[0] as int % 8) * 8 + d[1] as int % 8) * 8 + d[2] as int % 8
  {
    assert OctalPrefix(d, 0) == 0;
    assert OctalPrefix(d, 1) == d[0] as int % 8;
    assert OctalPrefix(d, 2) == OctalPrefix(d, 1) * 8 + d[1] as int % 8;
  }

  /** Every byte can be written as a three-digit octal escape, whatever follows. */
  lemma OctalSpellsAnyByte(b: Byte, next: Byte)
    ensures Writable(Octal(OctalDigits(b)), next) && Mean(Octal(OctalDigits(b))) == [b]
  {
    OctalArithmetic(b);
    OctalOfThree(OctalDigits(b));
  }

  /** Any bytes at all, as octal escapes. */
  function OctalPieces(raw: List<Byte>): List<Piece> {
    match raw
    case Nil => Nil
    case Cons(b, rest) => Cons(Octal(OctalDigits(b)), OctalPieces(rest))
  }

  function Bytes(raw: List<Byte>): seq<Byte> {
    match raw
    case Nil => []
    case Cons(b, rest) => [b] + Bytes(rest)
  }

  /** So every byte string has a spelling, and reading that spelling returns it. */
  lemma {:induction false} OctalMeans(raw: List<Byte>)
    ensures MeanAll(OctalPieces(raw)) == Bytes(raw)
  {
    match raw
    case Nil =>
    case Cons(b, rest) =>
      OctalSpellsAnyByte(b, 0);
      OctalMeans(rest);
  }

  // --------------------------------------------------------- content streams

  /** Text as code points; `utf16` decodes what follows a FE FF mark, everything else is Latin-1. */
  type Text = seq<int>

  function DecodeString(raw: seq<Byte>, utf16: seq<Byte> -> Text): (t: Text)
    ensures [254, 255] <= raw ==> t == utf16(raw[2..])
    ensures !([254, 255] <= raw) ==> |t| == |raw| && forall x :: 0 <= x < |raw| ==> t[x] == raw[x]
  {
    if |raw| >= 2 && raw[0] == 254 && raw[1] == 255 then utf16(raw[2..])
    else seq(|raw|, x requires 0 <= x < |raw| => raw[x] as int)
  }

  predicate IsHex(c: Byte) { IsDigit(c) || 65 <= c <= 70 || 97 <= c <= 102 }

  function HexValue(c: Byte): nat
    requires IsHex(c)
  {
    if c <= 57 then c as int - 48 else if c <= 70 then c as int - 55 else c as int - 87
  }

  function FindFrom(data: seq<Byte>, c: Byte, j: nat): (e: nat)
    requires j <= |data|
    ensures j <= e <= |data|
    decreases |data| - j
  {
    if j < |data| && data[j] != c then FindFrom(data, c, j + 1) else j
  }

  function HexDigits(data: seq<Byte>, j: nat, e: nat): (h: seq<nat>)
    requires j <= e <= |data|
    ensures forall x :: 0 <= x < |h| ==> h[x] < 16
    decreases e - j
  {
    if j == e then []
    else if IsHex(data[j]) then [HexValue(data[j])] + HexDigits(data, j + 1, e)
    else HexDigits(data, j + 1, e)
  }

  function HexBytes(h: seq<nat>): seq<Byte>
    requires forall x :: 0 <= x < |h| ==> h[x] < 16
  {
    if h == [] then [] else if |h| == 1 then [h[0] * 16] else [h[0] * 16 + h[1]] + HexBytes(h[2..])
  }

  function DigitsEnd(data: seq<Byte>, j: nat): (e: nat)
    requires j <= |data|
    ensures j <= e <= |data|
    decreases |data| - j
  {
    if j < |data| && IsDigit(data[j]) then DigitsEnd(data, j + 1) else j
  }

  /** The end of the longest match of an optional sign, digits, and an optional fraction; `i` when none. */
  function NumberEnd(data: seq<Byte>, i: nat): (e: nat)
    requires i < |data|
    ensures i <= e <= |data|
  {
    var j := if data[i] == 43 || data[i] == 45 then i + 1 else i;
    var k := DigitsEnd(data, j);
    if k + 1 < |data| && data[k] == 46 && IsDigit(data[k + 1]) then DigitsEnd(data, k + 1)
    else if k > j then k else i
  }

  /** All digits of data[j..e] as one integer, and the number of them after the point. */
  function Digits(data: seq<Byte>, j: nat, e: nat): (r: (nat, nat))
    requires j <= e <= |data|
  {
    if j == e then (0, 0)
    else
      var r := Digits(data, j, e - 1);
      if IsDigit(data[e - 1]) then
        (r.0 * 10 + (data[e - 1] as int - 48), if PointBefore(data, j, e - 1) then r.1 + 1 else 0)
      else r
  }

  predicate PointBefore(data: seq<Byte>, j: nat, e: nat)
    requires j <= e <= |data|
  {
    exists x :: j <= x < e && data[x] == 46
  }

  /** The number in data[i..e] is at most -180: a word gap drawn by kerning. */
  predicate IsWordGap(data: seq<Byte>, i: nat, e: nat)
    requires i < e <= |data|
  {
    var d := Digits(data, i, e);
    data[i] == 45 && d.0 >= 180 * Pow10(d.1)
  }

  predicate IsWordByte(c: Byte) { 65 <= c <= 90 || 97 <= c <= 122 || c == 39 || c == 34 || c == 42 }

  function WordEnd(data: seq<Byte>, j: nat): (e: nat)
    requires j <= |data|
    ensures j <= e <= |data|
    decreases |data| - j
  {
    if j < |data| && IsWordByte(data[j]) then WordEnd(data, j + 1) else j
  }

  function Concat(ts: seq<Text>): Text {
    if ts == [] then [] else Concat(ts[..|ts| - 1]) + ts[|ts| - 1]
  }

  predicate NeedsBreak(out: seq<Text>) {
    out != [] && (out[|out| - 1] == [] || out[|out| - 1][|out[|out| - 1]| - 1] != 10)
  }

  /** The effect of operator `op` on the output, given the pending strings. */
  function Operate(op: seq<Byte>, pending: seq<Text>, out: seq<Text>): seq<Text> {
    if op == [84, 106] || op == [84, 74] then out + [Concat(pending)]
    else if op == [39] || op == [34] then (if NeedsBreak(out) then out + [[10]] else out) + [Concat(pending)]
    else if (op == [84, 100] || op == [84, 68] || op == [84, 42] || op == [69, 84]) && NeedsBreak(out) then out + [[10]]
    else out
  }

  datatype Scan = Scan(i: nat, pending: seq<Text>, out: seq<Text>)

  function StringScan(read: (seq<Byte>, nat), s: Scan, utf16: seq<Byte> -> Text): Scan {
    Scan(read.1, s.pending + [DecodeString(read.0, utf16)], s.out)
  }

  function HexScan(data: seq<Byte>, s: Scan, utf16: seq<Byte> -> Text): (r: Scan)
    requires s.i < |data|
    ensures s.i < r.i <= |data| + 1
  {
    var end := FindFrom(data, 62, s.i + 1);
    Scan(end + 1, s.pending + [DecodeString(HexBytes(HexDigits(data, s.i + 1, end)), utf16)], s.out)
  }

  /** One turn of the scanner: every branch moves on. */
  function ScanStep(data: seq<Byte>, s: Scan, utf16: seq<Byte> -> Text): (r: Scan)
    requires s.i < |data|
    ensures s.i < r.i <= |data| + 1
  {
    var b, i := data[s.i], s.i;
    if b == LPAREN then StringScan(LiteralFrom(data, i + 1, 0), s, utf16)
    else if b == 60 && !(i + 1 < |data| && data[i + 1] == 60) then HexScan(data, s, utf16)
    else if b == 37 then
      var nl := FindFrom(data, LF, i);
      Scan(if nl == |data| then nl else nl + 1, s.pending, s.out)
    else if NumberEnd(data, i) > i then
      var gap := s.pending != [] && IsWordGap(data, i, NumberEnd(data, i));
      Scan(NumberEnd(data, i), if gap then s.pending + [[32]] else s.pending, s.out)
    else if WordEnd(data, i) > i then
      Scan(WordEnd(data, i), [], Operate(data[i..WordEnd(data, i)], s.pending, s.out))
    else Scan(i + 1, s.pending, s.out)
  }

  function ScanAll(data: seq<Byte>, s: Scan, utf16: seq<Byte> -> Text): Text
    decreases |data| + 1 - s.i
  {
    if s.i >= |data| then Concat(s.out) else ScanAll(data, ScanStep(data, s, utf16), utf16)
  }

  /** Terminates on every input: each helper and each branch advances the index. */
  method ExtractStream(data: seq<Byte>, utf16: seq<Byte> -> Text) returns (text: Text)
    ensures text == ScanAll(data, Scan(0, [], []), utf16)
  {
    var out: seq<Text>, pending: seq<Text> := [], [];
    var i, n := 0, |data|;
    while i < n
      invariant ScanAll(data, Scan(0, [], []), utf16) == ScanAll(data, Scan(i, pending, out), utf16)
      decreases n + 1 - i
    {
      i, pending, out := ScanOnce(data, i, pending, out, utf16);
    }
    text := Concat(out);
  }

  method ScanOnce(data: seq<Byte>, i: nat, pending: seq<Text>, out: seq<Text>, utf16: seq<Byte> -> Text)
    returns (next: nat, pending': seq<Text>, out': seq<Text>)
    requires i < |data|
    ensures Scan(next, pending', out') == ScanStep(data, Scan(i, pending, out), utf16)
  {
    pending', out', next := pending, out, i + 1;
    var b := data[i];
    if b == LPAREN {
      var raw;
      raw, next := Literal(data, i);
      pending' := pending + [DecodeString(raw, utf16)];
    } else if b == 60 && !(i + 1 < |data| && data[i + 1] == 60) {
      var end := FindFrom(data, 62, i + 1);
      pending' := pending + [DecodeString(HexBytes(HexDigits(data, i + 1, end)), utf16)];
      next := end + 1;
    } else if b == 37 {
      var nl := FindFrom(data, LF, i);
      next := if nl == |data| then nl else nl + 1;
    } else if NumberEnd(data, i) > i {
      next := NumberEnd(data, i);
      if pending != [] && IsWordGap(data, i, next) {
        pending' := pending + [[32]];
      }
    } else if WordEnd(data, i) > i {
      next := WordEnd(data, i);
      out' := Operate(data[i..next], pending, out);
      pending' := [];
    }
  }
}
