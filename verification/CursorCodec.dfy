/** The opaque page tokens: decimal fields joined by a colon, in unpadded
base64url (section 5 of RFC 4648, with the padding omitted as section 3.2 allows). */
module CursorCodec {
  import opened Options
  import opened Keyset

  type Byte = b: int | 0 <= b < 256

  type Sextet = i: int | 0 <= i < 64

  // ---- base64url

  function Symbol(i: Sextet): (c: char) {
    if i < 26 then (i + 'A' as int) as char
    else if i < 52 then (i - 26 + 'a' as int) as char
    else if i < 62 then (i - 52 + '0' as int) as char
    else if i == 62 then '-' else '_'
  }

  function Index(c: char): Option<Sextet> {
    if 'A' <= c <= 'Z' then Some(c as int - 'A' as int)
    else if 'a' <= c <= 'z' then Some(c as int - 'a' as int + 26)
    else if '0' <= c <= '9' then Some(c as int - '0' as int + 52)
    else if c == '-' then Some(62)
    else if c == '_' then Some(63)
    else None
  }

  function Pack(b: seq<Byte>): seq<Sextet> {
    if |b| == 0 then []
    else if |b| == 1 then [b[0] / 4, b[0] % 4 * 16]
    else if |b| == 2 then [b[0] / 4, b[0] % 4 * 16 + b[1] / 16, b[1] % 16 * 4]
    else [b[0] / 4, b[0] % 4 * 16 + b[1] / 16, b[1] % 16 * 4 + b[2] / 64, b[2] % 64] + Pack(b[3..])
  }

  // The bytes a group of sextets carries.
  function First(a: int, b: int): int { a * 4 + b / 16 }
  function Second(b: int, c: int): int { b % 16 * 16 + c / 4 }
  function Third(c: int, d: int): int { c % 4 * 64 + d }

  /** Left-over bits of a final short group are ignored, as Go's decoder does unless told to be strict. */
  function Unpack(s: seq<Sextet>): Option<seq<Byte>> {
    if |s| == 0 then Some([])
    else if |s| == 1 then None
    else if |s| == 2 then Some([First(s[0], s[1])])
    else if |s| == 3 then Some([First(s[0], s[1]), Second(s[1], s[2])])
    else match Unpack(s[4..])
      case None => None
      case Some(rest) => Some([First(s[0], s[1]), Second(s[1], s[2]), Third(s[2], s[3])] + rest)
  }

  function Symbols(s: seq<Sextet>): string {
    if s == [] then [] else [Symbol(s[0])] + Symbols(s[1..])
  }

  /** Go's decoder skips line breaks and rejects anything else outside the alphabet. */
  function Indices(t: string): Option<seq<Sextet>> {
    if t == [] then Some([])
    else if t[0] == '\n' || t[0] == '\r' then Indices(t[1..])
    else match (Index(t[0]), Indices(t[1..]))
      case (Some(i), Some(rest)) => Some([i] + rest)
      case _ => None
  }

  function EncodeBase64(b: seq<Byte>): string { Symbols(Pack(b)) }

  function DecodeBase64(t: string): Option<seq<Byte>> {
    match Indices(t)
    case None => None
    case Some(s) => Unpack(s)
  }

  lemma GroupRoundTrip(x: Byte, y: Byte, z: Byte)
    ensures First(x / 4, x % 4 * 16 + y / 16) == x
    ensures Second(x % 4 * 16 + y / 16, y % 16 * 4 + z / 64) == y
    ensures Third(y % 16 * 4 + z / 64, z % 64) == z
  {
  }

  lemma UnpackGroup(x: Byte, y: Byte, z: Byte, rest: seq<Sextet>)
    ensures Unpack([x / 4, x % 4 * 16 + y / 16, y % 16 * 4 + z / 64, z % 64] + rest)
            == match Unpack(rest) case None => None case Some(b) => Some([x, y, z] + b)
  {
    var s := [x / 4, x % 4 * 16 + y / 16, y % 16 * 4 + z / 64, z % 64] + rest;
    assert s[4..] == rest;
    GroupRoundTrip(x, y, z);
  }

  lemma PackGroup(x: Byte, y: Byte, z: Byte, rest: seq<Byte>)
    ensures Pack([x, y, z] + rest) == [x / 4, x % 4 * 16 + y / 16, y % 16 * 4 + z / 64, z % 64] + Pack(rest)
  {
    assert ([x, y, z] + rest)[3..] == rest;
  }

  lemma PackOne(x: Byte)
    ensures Unpack(Pack([x])) == Some([x])
  {
    GroupRoundTrip(x, 0, 0);
    assert Pack([x]) == [x / 4, x % 4 * 16];
  }

  lemma PackTwo(x: Byte, y: Byte)
    ensures Unpack(Pack([x, y])) == Some([x, y])
  {
    GroupRoundTrip(x, y, 0);
    assert Pack([x, y]) == [x / 4, x % 4 * 16 + y / 16, y % 16 * 4];
  }

  lemma {:induction false} PackRoundTrip(b: seq<Byte>)
    ensures Unpack(Pack(b)) == Some(b)
  {
    if |b| == 0 {
    } else if |b| == 1 {
      PackOne(b[0]);
      assert b == [b[0]];
    } else if |b| == 2 {
      PackTwo(b[0], b[1]);
      assert b == [b[0], b[1]];
    } else {
      var x, y, z, rest := b[0], b[1], b[2], b[3..];
      assert b == [x, y, z] + rest;
      PackRoundTrip(rest);
      PackGroup(x, y, z, rest);
      UnpackGroup(x, y, z, Pack(rest));
    }
  }

  lemma SymbolRoundTrip(i: Sextet)
    ensures Index(Symbol(i)) == Some(i) && Symbol(i) != '\n' && Symbol(i) != '\r'
  {
  }

  lemma {:induction false} SymbolsRoundTrip(s: seq<Sextet>)
    ensures Indices(Symbols(s)) == Some(s)
  {
    if s != [] {
      SymbolRoundTrip(s[0]);
      SymbolsRoundTrip(s[1..]);
      assert Symbols(s)[1..] == Symbols(s[1..]);
      assert s == [s[0]] + s[1..];
    }
  }

  lemma Base64RoundTrip(b: seq<Byte>)
    ensures DecodeBase64(EncodeBase64(b)) == Some(b)
    ensures b != [] ==> EncodeBase64(b) != ""
  {
    SymbolsRoundTrip(Pack(b));
    PackRoundTrip(b);
  }

  // ---- Decimal text

  predicate IsDigit(c: char) { '0' <= c <= '9' }

  function Digit(d: int): (c: char)
    requires 0 <= d < 10
  {
    (d + '0' as int) as char
  }

  function FormatNat(n: nat): (s: string)
    ensures s != [] && forall i :: 0 <= i < |s| ==> IsDigit(s[i])
  {
    if n < 10 then [Digit(n)] else FormatNat(n / 10) + [Digit(n % 10)]
  }

  function FormatInt(i: int): string { if i < 0 then ['-'] + FormatNat(-i) else FormatNat(i) }

  function ParseNat(s: string): Option<nat> {
    if s == [] || !IsDigit(s[|s| - 1]) then None
    else
      var last := s[|s| - 1] as int - '0' as int;
      if |s| == 1 then Some(last)
      else match ParseNat(s[..|s| - 1])
        case None => None
        case Some(n) => Some(10 * n + last)
  }

  const TWO_63 := 0x8000_0000_0000_0000

  const TWO_64 := 0x1_0000_0000_0000_0000

  /** strconv.ParseUint(s, 10, 64). */
  function ParseUint64(s: string): Option<nat> {
    match ParseNat(s)
    case Some(n) => if n < TWO_64 then Some(n) else None
    case None => None
  }

  function Negated(n: int): int { -n }

  /** strconv.ParseInt(s, 10, 64): an optional sign, then digits. */
  function ParseInt64(s: string): Option<int> {
    if s != [] && s[0] == '-' then
      match ParseNat(s[1..])
      case Some(n) => if n <= TWO_63 then Some(Negated(n)) else None
      case None => None
    else
      match ParseNat(if s != [] && s[0] == '+' then s[1..] else s)
      case Some(n) => if n < TWO_63 then Some(n) else None
      case None => None
  }

  lemma {:induction false} DecimalRoundTrip(n: nat)
    ensures ParseNat(FormatNat(n)) == Some(n)
  {
    if n >= 10 {
      DecimalRoundTrip(n / 10);
      var s := FormatNat(n);
      assert s[..|s| - 1] == FormatNat(n / 10);
    }
  }

  lemma ParseNegative(digits: string, n: nat)
    requires ParseNat(digits) == Some(n) && n <= TWO_63
    ensures ParseInt64("-" + digits) == Some(Negated(n))
  {
    assert ("-" + digits)[1..] == digits;
  }

  lemma ParseDigits(digits: string, n: nat)
    requires digits != [] && IsDigit(digits[0]) && ParseNat(digits) == Some(n) && n < TWO_63
    ensures ParseInt64(digits) == Some(n)
  {
  }

  lemma IntRoundTrip(i: int)
    requires -TWO_63 <= i < TWO_63
    ensures ParseInt64(FormatInt(i)) == Some(i)
  {
    if i < 0 {
      DecimalRoundTrip(-i);
      assert FormatInt(i) == "-" + FormatNat(-i);
      ParseNegative(FormatNat(-i), -i);
    } else {
      DecimalRoundTrip(i);
      assert IsDigit(FormatNat(i)[0]);
      ParseDigits(FormatNat(i), i);
    }
  }

  // ---- Colon-separated fields

  /** strings.SplitN(s, ":", 2), when it yields two parts. */
  function Split(s: string): Option<(string, string)> {
    if s == [] then None
    else if s[0] == ':' then Some(([], s[1..]))
    else match Split(s[1..])
      case None => None
      case Some(parts) => Some(([s[0]] + parts.0, parts.1))
  }

  lemma {:induction false} SplitRoundTrip(a: string, b: string)
    requires forall i :: 0 <= i < |a| ==> a[i] != ':'
    ensures Split(a + ":" + b) == Some((a, b))
  {
    var s := a + ":" + b;
    if a == [] {
      assert s == [':'] + b;
    } else {
      assert s[0] == a[0] && s[1..] == a[1..] + ":" + b;
      SplitRoundTrip(a[1..], b);
      assert a == [a[0]] + a[1..];
    }
  }

  predicate IsBytes(s: string) { forall i :: 0 <= i < |s| ==> s[i] as int < 256 }

  function ToBytes(s: string): (b: seq<Byte>)
    requires IsBytes(s)
    ensures |b| == |s|
  {
    if s == [] then [] else
      var first: Byte := s[0] as int;
      [first] + ToBytes(s[1..])
  }

  function FromBytes(b: seq<Byte>): string {
    if b == [] then [] else [b[0] as char] + FromBytes(b[1..])
  }

  lemma {:induction false} BytesRoundTrip(s: string)
    requires IsBytes(s)
    ensures FromBytes(ToBytes(s)) == s
  {
    if s != [] {
      BytesRoundTrip(s[1..]);
      assert ToBytes(s)[1..] == ToBytes(s[1..]);
      assert s == [s[0]] + s[1..];
    }
  }

  function Wrap(text: string): string
    requires IsBytes(text)
  {
    EncodeBase64(ToBytes(text))
  }

  function Unwrap(token: string): Option<string> {
    match DecodeBase64(token)
    case None => None
    case Some(b) => Some(FromBytes(b))
  }

  lemma WrapRoundTrip(text: string)
    requires IsBytes(text)
    ensures Unwrap(Wrap(text)) == Some(text)
    ensures text != "" ==> Wrap(text) != ""
  {
    BytesRoundTrip(text);
    Base64RoundTrip(ToBytes(text));
  }

  // ---- The pull cursor, (xid8, server_seq)

  function PullText(c: Pos): (s: string)
    requires 0 <= c.major
    ensures IsBytes(s)
  {
    FormatNat(c.major) + ":" + FormatInt(c.minor)
  }

  function EncodePullCursor(c: Pos): string
    requires 0 <= c.major
  {
    Wrap(PullText(c))
  }

  function DecodePullCursor(token: string): (r: Option<Pos>)
    ensures r.Some? ==> 0 <= r.value.major < TWO_64 && 0 <= r.value.minor < TWO_63
  {
    if token == "" then Some(Pos(0, 0)) else
      match Unwrap(token)
      case None => None
      case Some(text) =>
        match Split(text)
        case None => None
        case Some(parts) =>
          match (ParseUint64(parts.0), ParseInt64(parts.1))
          case (Some(xid), Some(serverSeq)) => if serverSeq < 0 then None else Some(Pos(xid, serverSeq))
          case _ => None
  }

  /** Every cursor with a 64-bit xid8 and a server_seq survives the token; a negative server_seq is refused. */
  lemma PullCursorRoundTrip(c: Pos)
    requires 0 <= c.major < TWO_64 && -TWO_63 <= c.minor < TWO_63
    ensures DecodePullCursor(EncodePullCursor(c)) == if 0 <= c.minor then Some(c) else None
    ensures EncodePullCursor(c) != ""
  {
    WrapRoundTrip(PullText(c));
    SplitRoundTrip(FormatNat(c.major), FormatInt(c.minor));
    DecimalRoundTrip(c.major);
    IntRoundTrip(c.minor);
  }

  /** Tokens name at most one position each, so distinct cursors have distinct tokens. */
  lemma PullTokensAreDistinct(c: Pos, d: Pos)
    requires 0 <= c.major < TWO_64 && 0 <= c.minor < TWO_63
    requires 0 <= d.major < TWO_64 && 0 <= d.minor < TWO_63
    requires EncodePullCursor(c) == EncodePullCursor(d)
    ensures c == d
  {
    PullCursorRoundTrip(c);
    PullCursorRoundTrip(d);
  }

  // ---- The text itself

  /** The alphabet of section 5 of RFC 4648, by ASCII codes: upper-case and lower-case letters, digits, hyphen and
      underscore. */
  lemma SymbolsAreRfc4648(i: Sextet)
    ensures i < 26 ==> Symbol(i) as int == 65 + i
    ensures 26 <= i < 52 ==> Symbol(i) as int == 97 + (i - 26)
    ensures 52 <= i < 62 ==> Symbol(i) as int == 48 + (i - 52)
    ensures i == 62 ==> Symbol(i) == '-'
    ensures i == 63 ==> Symbol(i) == '_'
  {
  }

  /** Some of the test vectors of section 10 of RFC 4648, without padding, and one with the last two symbols. */
  lemma Vectors()
    ensures EncodeBase64([102]) == "Zg" && EncodeBase64([102, 111]) == "Zm8" && EncodeBase64([102, 111, 111]) == "Zm9v"
    ensures EncodeBase64([251, 255]) == "-_8"
  {
    ShortVector([102], [25, 32], "Zg");
    ShortVector([102, 111], [25, 38, 60], "Zm8");
    ShortVector([251, 255], [62, 63, 60], "-_8");
    var foo: seq<Byte> := [102, 111, 111];
    assert foo[3..] == [];
    ShortVector(foo, [25, 38, 61, 47], "Zm9v");
  }

  lemma ShortVector(b: seq<Byte>, s: seq<Sextet>, t: string)
    requires Pack(b) == s && 2 <= |s| == |t| <= 4 && forall i :: 0 <= i < |s| ==> Symbol(s[i]) == t[i]
    ensures EncodeBase64(b) == t
  {
    if |s| == 2 {
      assert s == [s[0], s[1]];
      SymbolsOfFour(s[0], s[1], 0, 0);
    } else if |s| == 3 {
      assert s == [s[0], s[1], s[2]];
      SymbolsOfFour(s[0], s[1], s[2], 0);
    } else {
      assert s == [s[0], s[1], s[2], s[3]];
      SymbolsOfFour(s[0], s[1], s[2], s[3]);
    }
  }

  lemma SymbolsOfFour(a: Sextet, b: Sextet, c: Sextet, d: Sextet)
    ensures Symbols([a, b]) == [Symbol(a), Symbol(b)]
    ensures Symbols([a, b, c]) == [Symbol(a), Symbol(b), Symbol(c)]
    ensures Symbols([a, b, c, d]) == [Symbol(a), Symbol(b), Symbol(c), Symbol(d)]
  {
    SymbolsOfTwo(a, b);
    SymbolsOfTwo(b, c);
    SymbolsOfTwo(c, d);
    assert [a, b, c][1..] == [b, c];
    assert [b, c, d][1..] == [c, d];
    assert [a, b, c, d][1..] == [b, c, d];
    assert Symbols([b, c, d]) == [Symbol(b)] + Symbols([c, d]);
  }

  lemma SymbolsOfTwo(a: Sextet, b: Sextet)
    ensures Symbols([a, b]) == [Symbol(a), Symbol(b)]
  {
    assert [a, b][1..] == [b] && [b][1..] == [];
    assert Symbols([b]) == [Symbol(b)] + Symbols([]);
  }

  /** Numbers are written in decimal, most significant digit first. */
  lemma DecimalText(n: nat)
    ensures n < 10 ==> |FormatNat(n)| == 1 && FormatNat(n)[0] as int == 48 + n
    ensures n >= 10 ==> FormatNat(n) == FormatNat(n / 10) + FormatNat(n % 10)
    ensures n > 0 ==> FormatInt(Negated(n)) == "-" + FormatNat(n)
  {
  }

  /** The texts the tokens encode: xid and server_seq, or nanoseconds and UUID, with a colon between them. */
  lemma TokenTexts(c: Pos)
    requires 0 <= c.major && 0 <= c.minor < TWO_128
    ensures Unwrap(EncodePullCursor(c)) == Some(FormatNat(c.major) + ":" + FormatInt(c.minor))
    ensures Unwrap(EncodeActivityCursor(c)) == Some(FormatInt(c.major) + ":" + FormatUuid(c.minor))
  {
    WrapRoundTrip(PullText(c));
    WrapRoundTrip(FormatInt(c.major) + ":" + FormatUuid(c.minor));
  }

  /** A UUID's text has its 32 hexadecimal digits, most significant first, in groups of 8, 4, 4, 4 and 12. */
  lemma UuidText(n: nat)
    ensures var s, h := FormatUuid(n), Hex(n, 32);
            |s| == 36 && s[8] == '-' && s[13] == '-' && s[18] == '-' && s[23] == '-'
            && s[..8] + s[9..13] + s[14..18] + s[19..23] + s[24..] == h
            && h[31] as int == if n % 16 < 10 then 48 + n % 16 else 87 + n % 16
  {
    DashesDrop(Hex(n, 32));
  }

  // ---- What is refused

  /** base64url's letters, digits, hyphen and underscore; line breaks are skipped. */
  predicate InAlphabet(c: char) {
    'A' <= c <= 'Z' || 'a' <= c <= 'z' || '0' <= c <= '9' || c == '-' || c == '_' || c == '\n' || c == '\r'
  }

  lemma {:induction false} IndicesInAlphabet(t: string)
    requires Indices(t).Some?
    ensures forall i :: 0 <= i < |t| ==> InAlphabet(t[i])
  {
    if t != [] {
      IndicesInAlphabet(t[1..]);
      assert forall i :: 1 <= i < |t| ==> t[i] == t[1..][i - 1];
    }
  }

  lemma {:induction false} ParsedDigits(s: string)
    requires ParseNat(s).Some?
    ensures s != [] && forall i :: 0 <= i < |s| ==> '0' <= s[i] <= '9'
  {
    if |s| > 1 {
      ParsedDigits(s[..|s| - 1]);
      assert forall i :: 0 <= i < |s| - 1 ==> s[i] == s[..|s| - 1][i];
    }
  }

  lemma {:induction false} SplitIs(s: string)
    requires Split(s).Some?
    ensures s == Split(s).value.0 + ":" + Split(s).value.1
  {
    if s[0] != ':' {
      SplitIs(s[1..]);
      assert s == [s[0]] + s[1..];
    }
  }

  predicate IsDecimal(s: string) { s != [] && forall i :: 0 <= i < |s| ==> '0' <= s[i] <= '9' }

  /** A token is accepted as a pull cursor only if it is empty, which is the zero cursor, or the encoding of decimal
      text: an xid, a colon and a server_seq, each within its 64 bits and the second not negative. */
  lemma AcceptedPullTokens(token: string)
    requires DecodePullCursor(token).Some? && token != ""
    ensures forall i :: 0 <= i < |token| ==> InAlphabet(token[i])
    ensures exists xid, sign, digits ::
              Unwrap(token) == Some(xid + ":" + (sign + digits)) && IsDecimal(xid) && IsDecimal(digits)
              && (sign == "" || sign == "+" || sign == "-")
    ensures 0 <= DecodePullCursor(token).value.major < 0x1_0000_0000_0000_0000
    ensures 0 <= DecodePullCursor(token).value.minor < 0x8000_0000_0000_0000
  {
    IndicesInAlphabet(token);
    var text := Unwrap(token).value;
    SplitIs(text);
    var parts := Split(text).value;
    ParsedDigits(parts.0);
    SignedDecimal(parts.1);
    var sign, digits :| parts.1 == sign + digits && IsDecimal(digits) && (sign == "" || sign == "+" || sign == "-");
    assert text == parts.0 + ":" + (sign + digits);
  }

  lemma SignedDecimal(s: string)
    requires ParseInt64(s).Some?
    ensures exists sign, digits ::
              s == sign + digits && IsDecimal(digits) && (sign == "" || sign == "+" || sign == "-")
  {
    if s != [] && (s[0] == '-' || s[0] == '+') {
      ParsedDigits(s[1..]);
      assert s == s[..1] + s[1..] && (s[..1] == "-" || s[..1] == "+");
    } else {
      ParsedDigits(s);
      assert s == "" + s;
    }
  }

  lemma EmptyTokensAreTheBeginning()
    ensures DecodePullCursor("") == Some(Pos(0, 0)) && DecodeCursor("") == Some(0)
    ensures DecodeActivityCursor("") == Some(Pos(0, 0))
  {
  }

  // ---- The plain server_seq cursor of the list endpoints

  function EncodeCursor(serverSeq: int): string { Wrap(FormatInt(serverSeq)) }

  function DecodeCursor(token: string): (r: Option<nat>)
    ensures r.Some? ==> r.value < TWO_63
  {
    if token == "" then Some(0) else
      match Unwrap(token)
      case None => None
      case Some(text) =>
        match ParseInt64(text)
        case Some(n) => if n < 0 then None else Some(n)
        case None => None
  }

  lemma CursorRoundTrip(serverSeq: int)
    requires -TWO_63 <= serverSeq < TWO_63
    ensures DecodeCursor(EncodeCursor(serverSeq)) == if 0 <= serverSeq then Some(serverSeq) else None
  {
    WrapRoundTrip(FormatInt(serverSeq));
    IntRoundTrip(serverSeq);
  }

  // ---- UUID text

  function Pow16(k: nat): nat { if k == 0 then 1 else 16 * Pow16(k - 1) }

  const TWO_128 := Pow16(32)

  function HexDigit(d: int): char
    requires 0 <= d < 16
  {
    if d < 10 then Digit(d) else (d - 10 + 'a' as int) as char
  }

  function HexValue(c: char): Option<nat> {
    if '0' <= c <= '9' then Some(c as int - '0' as int)
    else if 'a' <= c <= 'f' then Some(c as int - 'a' as int + 10)
    else if 'A' <= c <= 'F' then Some(c as int - 'A' as int + 10)
    else None
  }

  /** The k low hexadecimal digits of n, most significant first. */
  function Hex(n: nat, k: nat): (s: string)
    ensures |s| == k && IsBytes(s)
  {
    if k == 0 then [] else Hex(n / 16, k - 1) + [HexDigit(n % 16)]
  }

  function ParseHex(s: string): Option<nat> {
    if s == [] then Some(0)
    else match (ParseHex(s[..|s| - 1]), HexValue(s[|s| - 1]))
      case (Some(n), Some(d)) => Some(16 * n + d)
      case _ => None
  }

  lemma {:induction false} HexRoundTrip(n: nat, k: nat)
    requires n < Pow16(k)
    ensures ParseHex(Hex(n, k)) == Some(n)
  {
    if k > 0 {
      HexRoundTrip(n / 16, k - 1);
      assert Hex(n, k)[..k - 1] == Hex(n / 16, k - 1);
    }
  }

  function Dashed(h: string): string
    requires |h| == 32
  {
    h[..8] + "-" + h[8..12] + "-" + h[12..16] + "-" + h[16..20] + "-" + h[20..]
  }

  /** pgtype.UUID.Scan: 36 characters with the separators dropped unseen, or 32; then hexadecimal. */
  function ParseUuid(s: string): Option<nat> {
    if |s| == 36 then ParseHex(s[..8] + s[9..13] + s[14..18] + s[19..23] + s[24..])
    else if |s| == 32 then ParseHex(s)
    else None
  }

  function FormatUuid(n: nat): (s: string)
    ensures IsBytes(s)
  {
    var h := Hex(n, 32);
    Dashed(h)
  }

  lemma UuidRoundTrip(n: nat)
    requires n < TWO_128
    ensures ParseUuid(FormatUuid(n)) == Some(n)
  {
    HexRoundTrip(n, 32);
    DashesDrop(Hex(n, 32));
  }

  lemma DashesDrop(h: string)
    requires |h| == 32
    ensures var s := Dashed(h); |s| == 36 && s[..8] + s[9..13] + s[14..18] + s[19..23] + s[24..] == h
  {
    var s := Dashed(h);
    assert |s| == 36;
    assert s[..8] == h[..8];
    assert s[9..13] == h[8..12];
    assert s[14..18] == h[12..16];
    assert s[19..23] == h[16..20];
    assert s[24..] == h[20..];
    assert h[..8] + h[8..12] == h[..12];
    assert h[..12] + h[12..16] == h[..16];
    assert h[..16] + h[16..20] == h[..20];
    assert h[..20] + h[20..] == h;
  }

  // ---- The activities cursor, (started_at in nanoseconds, event_id)

  function EncodeActivityCursor(c: Pos): string
    requires 0 <= c.minor
  {
    Wrap(FormatInt(c.major) + ":" + FormatUuid(c.minor))
  }

  function DecodeActivityCursor(token: string): (r: Option<Pos>) {
    if token == "" then Some(Pos(0, 0)) else
      match Unwrap(token)
      case None => None
      case Some(text) =>
        match Split(text)
        case None => None
        case Some(parts) =>
          match (ParseInt64(parts.0), ParseUuid(parts.1))
          case (Some(nanos), Some(id)) => Some(Pos(nanos, id))
          case _ => None
  }

  /** Every timestamp in the int64 nanosecond range, with any event_id, survives the token. */
  lemma ActivityCursorRoundTrip(c: Pos)
    requires -TWO_63 <= c.major < TWO_63 && 0 <= c.minor < TWO_128
    ensures DecodeActivityCursor(EncodeActivityCursor(c)) == Some(c)
    ensures EncodeActivityCursor(c) != ""
  {
    var text := FormatInt(c.major) + ":" + FormatUuid(c.minor);
    WrapRoundTrip(text);
    SplitRoundTrip(FormatInt(c.major), FormatUuid(c.minor));
    IntRoundTrip(c.major);
    UuidRoundTrip(c.minor);
  }
}
