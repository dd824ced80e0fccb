/**
 The wrapped journal cursor: a runtime store's opaque token bound to the public
 session, its tenant and its immutable binding.
 */
module JournalCursor {
  import opened Framing

  const DOT: Byte := 46
  const VERSION: Bytes := [106, 49] // "j1"
  const MAX_CURSOR_BYTES: nat := 8192
  const SCOPE_BYTES: nat := 64
  const LENGTH_BYTES: nat := 8

  datatype Result = Cursor(token: Bytes) | Refused

  datatype Binding = Binding(
    storageBindingID: Bytes, bindingVersion: Bytes, runtimeSessionID: Bytes, protocolMode: Bytes)

  datatype Scope = Scope(tenant: Bytes, public: Bytes, binding: Binding)

  // ------------------------------------------- base64url (RFC 4648 section 5)

  type Sextet = x: int | 0 <= x < 64
  type Sextets = seq<Sextet>

  /** One character of the unpadded URL alphabet. */
  function Symbol(x: Sextet): Byte {
    if x < 26 then 65 + x
    else if x < 52 then 97 + (x - 26)
    else if x < 62 then 48 + (x - 52)
    else if x == 62 then 45
    else 95
  }

  predicate InAlphabet(symbol: Byte) {
    65 <= symbol <= 90 || 97 <= symbol <= 122 || 48 <= symbol <= 57 || symbol == 45 || symbol == 95
  }

  function SextetOf(symbol: Byte): Sextet
    requires InAlphabet(symbol)
  {
    if 65 <= symbol <= 90 then symbol - 65
    else if 97 <= symbol <= 122 then symbol - 97 + 26
    else if 48 <= symbol <= 57 then symbol - 48 + 52
    else if symbol == 45 then 62
    else 63
  }

  predicate AllInAlphabet(text: Bytes) { forall i :: 0 <= i < |text| ==> InAlphabet(text[i]) }

  function Symbols(xs: Sextets): (text: Bytes)
    ensures |text| == |xs|
  {
    if xs == [] then [] else [Symbol(xs[0])] + Symbols(xs[1..])
  }

  function SextetsOf(text: Bytes): (xs: Sextets)
    requires AllInAlphabet(text)
    ensures |xs| == |text|
  {
    if text == [] then [] else [SextetOf(text[0])] + SextetsOf(text[1..])
  }

  // The four sextets three bytes spell, and the three bytes they spell back.
  function S0(x: Byte): Sextet { x / 4 }
  function S1(x: Byte, y: Byte): Sextet { x % 4 * 16 + y / 16 }
  function S2(y: Byte, z: Byte): Sextet { y % 16 * 4 + z / 64 }
  function S3(z: Byte): Sextet { z % 64 }

  function B0(a: int, b: int): Byte
    requires 0 <= a < 64 && 0 <= b < 64
  { a * 4 + b / 16 }

  function B1(b: int, c: int): Byte
    requires 0 <= b < 64 && 0 <= c < 64
  { b % 16 * 16 + c / 4 }

  function B2(c: int, d: int): Byte
    requires 0 <= c < 64 && 0 <= d < 64
  { c % 4 * 64 + d }

  /** Bytes cut into sextets, the last one padded with clear bits. */
  function Cut(data: Bytes): Sextets {
    if |data| == 0 then []
    else if |data| == 1 then [S0(data[0]), S1(data[0], 0)]
    else if |data| == 2 then [S0(data[0]), S1(data[0], data[1]), S2(data[1], 0)]
    else [S0(data[0]), S1(data[0], data[1]), S2(data[1], data[2]), S3(data[2])] + Cut(data[3..])
  }

  /** Sextets put back together. Not strict: unused low bits of the last one are dropped. */
  function Paste(xs: Sextets): (data: Bytes)
    requires |xs| % 4 != 1
  {
    if |xs| == 0 then []
    else if |xs| == 2 then [B0(xs[0], xs[1])]
    else if |xs| == 3 then [B0(xs[0], xs[1]), B1(xs[1], xs[2])]
    else [B0(xs[0], xs[1]), B1(xs[1], xs[2]), B2(xs[2], xs[3])] + Paste(xs[4..])
  }

  function Encode(data: Bytes): Bytes { Symbols(Cut(data)) }

  const LF: Byte := 10
  const CR: Byte := 13

  /** Go's decoder skips line breaks. */
  function Strip(text: Bytes): Bytes {
    if text == [] then []
    else if text[0] == LF || text[0] == CR then Strip(text[1..])
    else [text[0]] + Strip(text[1..])
  }

  function Decode(text: Bytes): Result {
    var symbols := Strip(text);
    if AllInAlphabet(symbols) && |symbols| % 4 != 1 then Cursor(Paste(SextetsOf(symbols))) else Refused
  }

  lemma {:induction false} SymbolsReadBack(xs: Sextets)
    ensures AllInAlphabet(Symbols(xs)) && SextetsOf(Symbols(xs)) == xs
    ensures DOT !in Symbols(xs) && LF !in Symbols(xs) && CR !in Symbols(xs)
  {
    if xs != [] {
      SymbolsReadBack(xs[1..]);
      assert Symbols(xs)[1..] == Symbols(xs[1..]);
    }
  }

  lemma {:induction false} SymbolsOfSextets(text: Bytes)
    requires AllInAlphabet(text)
    ensures Symbols(SextetsOf(text)) == text
  {
    if text != [] {
      SymbolsOfSextets(text[1..]);
    }
  }

  lemma {:induction false} CutLength(data: Bytes)
    ensures |Cut(data)| == 4 * (|data| / 3) + (if |data| % 3 == 0 then 0 else |data| % 3 + 1)
    ensures |Cut(data)| % 4 != 1
  {
    if |data| >= 3 {
      CutLength(data[3..]);
    }
  }

  lemma {:induction false} PasteCutThree(x: Byte, y: Byte, z: Byte)
    ensures B0(S0(x), S1(x, y)) == x && B1(S1(x, y), S2(y, z)) == y && B2(S2(y, z), S3(z)) == z
  {}

  lemma {:induction false} PasteCutStep(data: Bytes)
    requires |data| >= 3 && |Cut(data)| % 4 != 1 && |Cut(data[3..])| % 4 != 1
    ensures Paste(Cut(data)) == data[..3] + Paste(Cut(data[3..]))
  {
    hide S0, S1, S2, S3, B0, B1, B2;
    PasteCutThree(data[0], data[1], data[2]);
    assert Cut(data)[4..] == Cut(data[3..]);
  }

  lemma {:induction false} PasteCutShort(data: Bytes)
    requires |data| < 3
    ensures |Cut(data)| % 4 != 1 && Paste(Cut(data)) == data
  {
    hide S0, S1, S2, S3, B0, B1, B2;
    if |data| == 1 {
      PasteCutThree(data[0], 0, 0);
    } else if |data| == 2 {
      PasteCutThree(data[0], data[1], 0);
    }
  }

  lemma {:induction false} PasteCut(data: Bytes)
    ensures |Cut(data)| % 4 != 1 && Paste(Cut(data)) == data
  {
    hide S0, S1, S2, S3, B0, B1, B2;
    if |data| >= 3 {
      CutLength(data);
      PasteCut(data[3..]);
      PasteCutStep(data);
    } else {
      PasteCutShort(data);
    }
  }

  /** The bits of the last sextet that pasting drops are clear. */
  predicate TrailingBitsClear(xs: Sextets) {
    && (|xs| % 4 == 2 ==> xs[|xs| - 1] % 16 == 0)
    && (|xs| % 4 == 3 ==> xs[|xs| - 1] % 4 == 0)
  }

  lemma {:induction false} CutPasteFour(a: Sextet, b: Sextet, c: Sextet, d: Sextet)
    ensures S0(B0(a, b)) == a && S1(B0(a, b), B1(b, c)) == b && S2(B1(b, c), B2(c, d)) == c && S3(B2(c, d)) == d
    ensures S1(B0(a, b), 0) == b <==> b % 16 == 0
    ensures S2(B1(b, c), 0) == c <==> c % 4 == 0
  {}

  lemma {:induction false} CutPasteStep(xs: Sextets)
    requires |xs| >= 4 && |xs| % 4 != 1
    ensures Cut(Paste(xs)) == xs[..4] + Cut(Paste(xs[4..]))
  {
    hide S0, S1, S2, S3, B0, B1, B2;
    CutPasteFour(xs[0], xs[1], xs[2], xs[3]);
    assert Paste(xs)[3..] == Paste(xs[4..]);
  }

  lemma {:induction false} CutPasteShort(xs: Sextets)
    requires |xs| < 4 && |xs| != 1
    ensures Cut(Paste(xs)) == xs <==> TrailingBitsClear(xs)
  {
    hide S0, S1, S2, S3, B0, B1, B2;
    if |xs| == 3 {
      CutPasteFour(xs[0], xs[1], xs[2], 0);
      assert Cut(Paste(xs)) == [xs[0], xs[1], S2(B1(xs[1], xs[2]), 0)];
    } else if |xs| == 2 {
      CutPasteFour(xs[0], xs[1], 0, 0);
      assert Cut(Paste(xs)) == [xs[0], S1(B0(xs[0], xs[1]), 0)];
    }
  }

  lemma {:induction false} CutPaste(xs: Sextets)
    requires |xs| % 4 != 1
    ensures Cut(Paste(xs)) == xs <==> TrailingBitsClear(xs)
  {
    hide S0, S1, S2, S3, B0, B1, B2;
    if |xs| >= 4 {
      CutPasteStep(xs);
      CutPaste(xs[4..]);
      var again := Cut(Paste(xs[4..]));
      assert xs == xs[..4] + xs[4..];
      assert (xs[..4] + again)[4..] == again;
    } else {
      CutPasteShort(xs);
    }
  }

  lemma {:induction false} StripEffect(text: Bytes)
    ensures |Strip(text)| <= |text|
    ensures LF in text || CR in text ==> |Strip(text)| < |text|
    ensures LF !in text && CR !in text ==> Strip(text) == text
  {
    if text != [] {
      StripEffect(text[1..]);
      assert text == [text[0]] + text[1..];
    }
  }

  lemma DecodeEncode(data: Bytes)
    ensures Decode(Encode(data)) == Cursor(data)
  {
    SymbolsReadBack(Cut(data));
    StripEffect(Encode(data));
    PasteCut(data);
  }

  /**
   Re-encoding a decodable text gives the text back exactly when it holds no
   line break and its unused trailing bits are clear: the decoder is not strict.
   */
  lemma CanonicalText(text: Bytes)
    requires Decode(text).Cursor?
    ensures Encode(Decode(text).token) == text
       <==> (LF !in text && CR !in text && AllInAlphabet(text) && TrailingBitsClear(SextetsOf(text)))
  {
    var symbols := Strip(text);
    var xs := SextetsOf(symbols);
    StripEffect(text);
    SymbolsOfSextets(symbols);
    CutPaste(xs);
    SymbolsReadBack(Cut(Paste(xs)));
    SymbolsReadBack(xs);
  }

  // ------------------------------------------------------------------- scope

  /** "looprig/factory/resolved-journal-cursor/v1" and a NUL. */
  const DOMAIN: Bytes := [
    108, 111, 111, 112, 114, 105, 103, 47, 102, 97, 99, 116, 111, 114, 121, 47,
    114, 101, 115, 111, 108, 118, 101, 100, 45, 106, 111, 117, 114, 110, 97, 108,
    45, 99, 117, 114, 115, 111, 114, 47, 118, 49, 0]

  function ScopeFields(s: Scope): seq<Bytes> {
    [s.tenant, s.public, s.binding.storageBindingID, s.binding.bindingVersion,
     s.binding.runtimeSessionID, s.binding.protocolMode]
  }

  /** What the scope digest is taken over: a domain, then the six framed fields. */
  function ScopePreimage(s: Scope): Bytes { DOMAIN + WideFrame(ScopeFields(s), LENGTH_BYTES) }

  ghost predicate Scopeable(s: Scope) { Fits(ScopeFields(s), LENGTH_BYTES) }

  /** The scope digest's input, fed part by part. */
  method FeedScope(s: Scope) returns (written: Bytes)
    ensures written == ScopePreimage(s)
  {
    written := WidePreimage(DOMAIN, ScopeFields(s), LENGTH_BYTES);
  }

  /** Two scopes with one preimage are one scope. */
  lemma ScopePreimageInjective(s: Scope, other: Scope)
    requires Scopeable(s) && Scopeable(other)
    requires ScopePreimage(s) == ScopePreimage(other)
    ensures s == other
  {
    assert WideFrame(ScopeFields(s), LENGTH_BYTES) == ScopePreimage(s)[|DOMAIN|..];
    assert WideFrame(ScopeFields(other), LENGTH_BYTES) == ScopePreimage(other)[|DOMAIN|..];
    WideFrameInjective(ScopeFields(s), ScopeFields(other), LENGTH_BYTES);
    var a, b := ScopeFields(s), ScopeFields(other);
    assert a[0] == b[0] && a[1] == b[1] && a[2] == b[2] && a[3] == b[3] && a[4] == b[4] && a[5] == b[5];
  }

  /** The hexadecimal digest: sixty-four characters, none of them a dot. */
  ghost predicate HexDigest(hex: Bytes -> Bytes) {
    forall p :: |hex(p)| == SCOPE_BYTES && DOT !in hex(p)
  }

  /** The digest does not collide on the two preimages in play. */
  ghost predicate NoCollision(hex: Bytes -> Bytes, s: Scope, other: Scope) {
    hex(ScopePreimage(s)) == hex(ScopePreimage(other)) ==> ScopePreimage(s) == ScopePreimage(other)
  }

  // --------------------------------------------------------------- wrap/unwrap

  /** strings.Split on a dot. */
  function Split(text: Bytes): (parts: seq<Bytes>)
    ensures parts != []
  {
    if text == [] then [[]]
    else
      var rest := Split(text[1..]);
      if text[0] == DOT then [[]] + rest else [[text[0]] + rest[0]] + rest[1..]
  }

  function Join(version: Bytes, scope: Bytes, body: Bytes): Bytes {
    version + [DOT] + scope + [DOT] + body
  }

  function Wrap(hex: Bytes -> Bytes, inner: Bytes, s: Scope): Result {
    if inner == [] then Cursor([])
    else
      var token := Join(VERSION, hex(ScopePreimage(s)), Encode(inner));
      if |token| > MAX_CURSOR_BYTES then Refused else Cursor(token)
  }

  function Unwrap(hex: Bytes -> Bytes, token: Bytes, s: Scope): Result {
    if token == [] then Cursor([])
    else if |token| > MAX_CURSOR_BYTES then Refused
    else
      var parts := Split(token);
      if |parts| != 3 || parts[0] != VERSION || parts[1] != hex(ScopePreimage(s)) || parts[2] == [] then Refused
      else match Decode(parts[2])
        case Refused => Refused
        case Cursor(inner) => if inner == [] then Refused else Cursor(inner)
  }

  lemma {:induction false} SplitPlain(text: Bytes)
    requires DOT !in text
    ensures Split(text) == [text]
  {
    if text != [] {
      SplitPlain(text[1..]);
      assert text == [text[0]] + text[1..];
    }
  }

  lemma {:induction false} SplitFirst(head: Bytes, rest: Bytes)
    requires DOT !in head
    ensures Split(head + [DOT] + rest) == [head] + Split(rest)
  {
    var text := head + [DOT] + rest;
    if head == [] {
      assert text[1..] == rest;
    } else {
      SplitFirst(head[1..], rest);
      assert text[1..] == head[1..] + [DOT] + rest;
      assert head == [head[0]] + head[1..];
    }
  }

  lemma SplitJoined(scope: Bytes, body: Bytes)
    requires DOT !in scope && DOT !in body
    ensures Split(Join(VERSION, scope, body)) == [VERSION, scope, body]
  {
    assert Join(VERSION, scope, body) == VERSION + [DOT] + (scope + [DOT] + body);
    SplitFirst(VERSION, scope + [DOT] + body);
    SplitFirst(scope, body);
    SplitPlain(body);
  }

  /** A cursor unwraps, under the scope it was wrapped for, to the inner token. */
  lemma UnwrapWrapped(hex: Bytes -> Bytes, inner: Bytes, s: Scope)
    requires HexDigest(hex)
    requires Wrap(hex, inner, s).Cursor?
    ensures Unwrap(hex, Wrap(hex, inner, s).token, s) == Cursor(inner)
  {
    if inner != [] {
      var scope := hex(ScopePreimage(s));
      SymbolsReadBack(Cut(inner));
      SplitJoined(scope, Encode(inner));
      DecodeEncode(inner);
      CutLength(inner);
    }
  }

  /** Wrapping is refused exactly when the inner token is too long to carry. */
  lemma WrapRefusedExactly(hex: Bytes -> Bytes, inner: Bytes, s: Scope)
    requires HexDigest(hex)
    ensures Wrap(hex, inner, s).Refused? <==> |inner| > 6093
  {
    CutLength(inner);
    var n := |inner|;
    assert 4 * (n / 3) + (if n % 3 == 0 then 0 else n % 3 + 1) > 8124 <==> n > 6093;
  }

  /**
   A non-empty token, however it was made, opens under at most one scope: one
   minted for another tenant, session or binding is refused, and so is a runtime
   store's own token.
   */
  lemma OneScopePerToken(hex: Bytes -> Bytes, token: Bytes, s: Scope, other: Scope)
    requires HexDigest(hex) && NoCollision(hex, s, other)
    requires Scopeable(s) && Scopeable(other)
    requires token != [] && Unwrap(hex, token, s).Cursor? && Unwrap(hex, token, other).Cursor?
    ensures s == other
  {
    assert Split(token)[1] == hex(ScopePreimage(s)) == hex(ScopePreimage(other));
    ScopePreimageInjective(s, other);
  }

  /** A wrapped cursor is refused under every other scope. */
  lemma WrappedRefusedElsewhere(hex: Bytes -> Bytes, inner: Bytes, s: Scope, other: Scope)
    requires HexDigest(hex) && NoCollision(hex, s, other)
    requires Scopeable(s) && Scopeable(other) && s != other
    requires inner != [] && Wrap(hex, inner, s).Cursor?
    ensures Unwrap(hex, Wrap(hex, inner, s).token, other).Refused?
  {
    UnwrapWrapped(hex, inner, s);
    if Unwrap(hex, Wrap(hex, inner, s).token, other).Cursor? {
      OneScopePerToken(hex, Wrap(hex, inner, s).token, s, other);
    }
  }
}
