/**
 Structured tokens `<prefix>_<public_id>.<secret>` over strict base64url: the
 alphabet of section 5 of RFC 4648, no padding, and only the canonical form that
 section 3.5 of RFC 4648 asks for. Text is the UTF-8 bytes the source compares.
 */
module TokenCodec {
  import opened Prelude

  type Sextet = n: int | 0 <= n < 64
  type Text = seq<Byte>

  const UNDERSCORE: Byte := 95
  const DOT: Byte := 46

  // ---- base64url: bytes and 6-bit groups ------------------------------------

  function Quad(a: Byte, b: Byte, c: Byte): (q: seq<Sextet>)
    ensures |q| == 4
  {
    [a / 4, a % 4 * 16 + b / 16, b % 16 * 4 + c / 64, c % 64]
  }

  function Triple(a: Sextet, b: Sextet, c: Sextet, d: Sextet): seq<Byte> {
    [a * 4 + b / 16, b % 16 * 16 + c / 4, c % 4 * 64 + d]
  }

  function Pack(bytes: seq<Byte>): seq<Sextet> {
    if |bytes| == 0 then []
    else if |bytes| == 1 then Quad(bytes[0], 0, 0)[..2]
    else if |bytes| == 2 then Quad(bytes[0], bytes[1], 0)[..3]
    else Quad(bytes[0], bytes[1], bytes[2]) + Pack(bytes[3..])
  }

  // A lone group and left-over bits are refused.
  function Unpack(groups: seq<Sextet>): Option<seq<Byte>> {
    if |groups| == 0 then Some([])
    else if |groups| == 1 then None
    else if |groups| == 2 then
      if groups[1] % 16 != 0 then None else Some(Triple(groups[0], groups[1], 0, 0)[..1])
    else if |groups| == 3 then
      if groups[2] % 4 != 0 then None else Some(Triple(groups[0], groups[1], groups[2], 0)[..2])
    else
      var rest := Unpack(groups[4..]);
      if rest.None? then None
      else Some(Triple(groups[0], groups[1], groups[2], groups[3]) + rest.value)
  }

  lemma TripleOfQuad(a: Byte, b: Byte, c: Byte)
    ensures var q := Quad(a, b, c); Triple(q[0], q[1], q[2], q[3]) == [a, b, c]
  {
    var q := Quad(a, b, c);
    assert q[1] / 16 == a % 4 && q[1] % 16 == b / 16;
    assert q[2] / 4 == b % 16 && q[2] % 4 == c / 64;
  }

  lemma QuadOfTriple(a: Sextet, b: Sextet, c: Sextet, d: Sextet)
    ensures var t := Triple(a, b, c, d); Quad(t[0], t[1], t[2]) == [a, b, c, d]
  {
    var t := Triple(a, b, c, d);
    assert t[0] / 4 == a && t[0] % 4 == b / 16;
    assert t[1] / 16 == b % 16 && t[1] % 16 == c / 4;
    assert t[2] / 64 == c % 4 && t[2] % 64 == d;
  }

  lemma {:induction false} PackLength(bytes: seq<Byte>)
    ensures |Pack(bytes)| == |bytes| / 3 * 4 + (if |bytes| % 3 == 0 then 0 else |bytes| % 3 + 1)
  {
    hide Quad;
    if |bytes| >= 3 {
      PackLength(bytes[3..]);
    }
  }

  lemma UnpackOne(a: Byte)
    ensures Unpack(Pack([a])) == Some([a])
  {
    var groups := Pack([a]);
    assert groups[0] == a / 4 && groups[1] == a % 4 * 16;
    assert groups[1] % 16 == 0 && groups[1] / 16 == a % 4;
    assert Triple(groups[0], groups[1], 0, 0)[..1] == [a];
  }

  lemma UnpackTwo(a: Byte, b: Byte)
    ensures Unpack(Pack([a, b])) == Some([a, b])
  {
    var groups := Pack([a, b]);
    TripleOfQuad(a, b, 0);
    assert groups[2] == b % 16 * 4 && groups[2] % 4 == 0;
    assert Triple(groups[0], groups[1], groups[2], 0)[..2] == [a, b];
  }

  lemma {:induction false} UnpackPack(bytes: seq<Byte>)
    ensures Unpack(Pack(bytes)) == Some(bytes)
  {
    hide Quad, Triple;
    if |bytes| == 0 {
    } else if |bytes| == 1 {
      UnpackOne(bytes[0]);
      assert bytes == [bytes[0]];
    } else if |bytes| == 2 {
      UnpackTwo(bytes[0], bytes[1]);
      assert bytes == [bytes[0], bytes[1]];
    } else {
      TripleOfQuad(bytes[0], bytes[1], bytes[2]);
      UnpackPack(bytes[3..]);
      assert Pack(bytes)[4..] == Pack(bytes[3..]);
      assert [bytes[0], bytes[1], bytes[2]] + bytes[3..] == bytes;
    }
  }

  lemma {:induction false} PackUnpack(groups: seq<Sextet>)
    requires Unpack(groups).Some?
    ensures Pack(Unpack(groups).value) == groups
  {
    if |groups| == 0 {
    } else if |groups| == 2 {
      QuadOfTriple(groups[0], groups[1], 0, 0);
    } else if |groups| == 3 {
      QuadOfTriple(groups[0], groups[1], groups[2], 0);
    } else {
      QuadOfTriple(groups[0], groups[1], groups[2], groups[3]);
      PackUnpack(groups[4..]);
      assert Unpack(groups).value[3..] == Unpack(groups[4..]).value;
      assert [groups[0], groups[1], groups[2], groups[3]] + groups[4..] == groups;
    }
  }

  // ---- base64url: groups and symbols ----------------------------------------

  function Symbol(s: Sextet): Byte {
    if s < 26 then s + 65 else if s < 52 then s + 71 else if s < 62 then s - 4
    else if s == 62 then 45 else UNDERSCORE
  }

  function SextetOf(b: Byte): Option<Sextet> {
    if 65 <= b < 91 then Some(b - 65)
    else if 97 <= b < 123 then Some(b - 71)
    else if 48 <= b < 58 then Some(b + 4)
    else if b == 45 then Some(62)
    else if b == UNDERSCORE then Some(63)
    else None
  }

  // Four groups are the base-64 digits of three bytes, most significant first.
  lemma QuadIsBigEndian(a: Byte, b: Byte, c: Byte)
    ensures var q: seq<int> := Quad(a, b, c);
            q[0] * 262_144 + q[1] * 4_096 + q[2] * 64 + q[3] == a * 65_536 + b * 256 + c
  {
  }

  // The URL-safe alphabet of section 5 of RFC 4648.
  lemma SymbolIsUrlSafe(s: Sextet)
    ensures s < 26 ==> Symbol(s) == 'A' as int + s
    ensures 26 <= s < 52 ==> Symbol(s) == 'a' as int + (s - 26)
    ensures 52 <= s < 62 ==> Symbol(s) == '0' as int + (s - 52)
    ensures s == 62 ==> Symbol(s) == '-' as int
    ensures s == 63 ==> Symbol(s) == '_' as int
  {
  }

  lemma SymbolRoundTrip(s: Sextet)
    ensures SextetOf(Symbol(s)) == Some(s) && Symbol(s) != DOT
  {
  }

  lemma SextetRoundTrip(b: Byte)
    ensures SextetOf(b).Some? ==> Symbol(SextetOf(b).value) == b
  {
  }

  function Symbols(groups: seq<Sextet>): (text: Text)
    ensures |text| == |groups| && forall i :: 0 <= i < |text| ==> text[i] == Symbol(groups[i])
  {
    if groups == [] then [] else [Symbol(groups[0])] + Symbols(groups[1..])
  }

  // Padding and foreign symbols are refused.
  function Groups(text: Text): (groups: Option<seq<Sextet>>)
    ensures groups.Some? <==> forall b <- text :: SextetOf(b).Some?
    ensures groups.Some? ==> |groups.value| == |text|
    ensures groups.Some? ==> forall i :: 0 <= i < |text| ==> SextetOf(text[i]) == Some(groups.value[i])
  {
    if text == [] then Some([])
    else
      var rest := Groups(text[1..]);
      if SextetOf(text[0]).None? || rest.None? then None else Some([SextetOf(text[0]).value] + rest.value)
  }

  function Encode(bytes: seq<Byte>): Text {
    Symbols(Pack(bytes))
  }

  function Decode(text: Text): Option<seq<Byte>> {
    var groups := Groups(text);
    if groups.None? then None else Unpack(groups.value)
  }

  lemma EncodeShape(bytes: seq<Byte>)
    ensures |Encode(bytes)| == |bytes| / 3 * 4 + (if |bytes| % 3 == 0 then 0 else |bytes| % 3 + 1)
    ensures DOT !in Encode(bytes)
  {
    hide Symbol;
    PackLength(bytes);
    forall i | 0 <= i < |Encode(bytes)| ensures Encode(bytes)[i] != DOT { SymbolRoundTrip(Pack(bytes)[i]); }
  }

  lemma DecodeEncode(bytes: seq<Byte>)
    ensures Decode(Encode(bytes)) == Some(bytes)
  {
    hide Symbol, SextetOf;
    var groups := Pack(bytes);
    forall i | 0 <= i < |groups| ensures SextetOf(Symbol(groups[i])) == Some(groups[i]) { SymbolRoundTrip(groups[i]); }
    assert Groups(Encode(bytes)).value == groups;
    UnpackPack(bytes);
  }

  // The encoding of a byte string is the only text that decodes to it.
  lemma EncodeDecode(text: Text)
    requires Decode(text).Some?
    ensures Encode(Decode(text).value) == text
  {
    hide Symbol, SextetOf;
    var groups := Groups(text).value;
    PackUnpack(groups);
    forall i | 0 <= i < |text| ensures Symbol(groups[i]) == text[i] { SextetRoundTrip(text[i]); }
  }

  // ---- Tokens --------------------------------------------------------------

  datatype Namespace = AgentToken | OperatorToken | BootstrapToken

  function Prefix(ns: Namespace): Text {
    match ns
    case AgentToken => [108, 107]                  // lk
    case OperatorToken => [108, 107, 111, 112]     // lkop
    case BootstrapToken => [108, 107, 98, 116]     // lkbt
  }

  function FromPrefix(text: Text): Option<Namespace> {
    if text == Prefix(AgentToken) then Some(AgentToken)
    else if text == Prefix(OperatorToken) then Some(OperatorToken)
    else if text == Prefix(BootstrapToken) then Some(BootstrapToken)
    else None
  }

  function WireFormat(ns: Namespace, id: Text, secret: Text): Text {
    Prefix(ns) + [UNDERSCORE] + id + [DOT] + secret
  }

  datatype ParseResult =
    | Parsed(ns: Namespace, id: Text, secret: Text)
    | UnknownNamespace
    | MissingSeparator
    | InvalidLength
    | InvalidEncoding

  // split_once: at the first occurrence of `b`.
  function SplitOnce(text: Text, b: Byte): (r: Option<(Text, Text)>)
    ensures r.None? <==> b !in text
    ensures r.Some? ==> text == r.value.0 + [b] + r.value.1 && b !in r.value.0
  {
    if text == [] then None
    else if text[0] == b then Some(([], text[1..]))
    else
      var r := SplitOnce(text[1..], b);
      if r.None? then None else Some(([text[0]] + r.value.0, r.value.1))
  }

  function Parse(input: Text): ParseResult {
    var outer := SplitOnce(input, UNDERSCORE);
    if outer.None? || FromPrefix(outer.value.0).None? then UnknownNamespace
    else
      var inner := SplitOnce(outer.value.1, DOT);
      if inner.None? then MissingSeparator
      else
        var (id, secret) := inner.value;
        if |id| != 22 || |secret| != 43 then InvalidLength
        else if Decode(id).None? || Decode(secret).None? then InvalidEncoding
        else Parsed(FromPrefix(outer.value.0).value, id, secret)
  }

  lemma {:induction false} SplitOnceAt(a: Text, b: Byte, rest: Text)
    requires b !in a
    ensures SplitOnce(a + [b] + rest, b) == Some((a, rest))
  {
    var text := a + [b] + rest;
    if a == [] {
      assert text[1..] == rest;
    } else {
      assert text[1..] == a[1..] + [b] + rest;
      SplitOnceAt(a[1..], b, rest);
      assert [a[0]] + a[1..] == a;
    }
  }

  function Ascii(s: string): seq<int> {
    seq(|s|, i requires 0 <= i < |s| => s[i] as int)
  }

  // The three prefixes, and that each is read back as its own namespace and nothing else as
  // any.
  lemma PrefixRoundTrip(ns: Namespace)
    ensures FromPrefix(Prefix(ns)) == Some(ns) && UNDERSCORE !in Prefix(ns)
    ensures forall text :: FromPrefix(text) == Some(ns) ==> text == Prefix(ns)
    ensures Prefix(ns) == match ns {
                            case AgentToken => Ascii("lk")
                            case OperatorToken => Ascii("lkop")
                            case BootstrapToken => Ascii("lkbt")
                          }
  {
  }

  // Which error a rejected string gets: the first of the checks it fails.
  lemma ParseErrors(prefix: Text, rest: Text, id: Text, secret: Text)
    requires UNDERSCORE !in prefix && DOT !in id
    ensures Parse(prefix) == UnknownNamespace
    ensures FromPrefix(prefix).None? ==> Parse(prefix + [UNDERSCORE] + rest) == UnknownNamespace
    ensures FromPrefix(prefix).Some? && DOT !in rest ==> Parse(prefix + [UNDERSCORE] + rest) == MissingSeparator
    ensures var input := prefix + [UNDERSCORE] + (id + [DOT] + secret);
            FromPrefix(prefix).Some? ==>
              && (Parse(input) == InvalidLength <==> |id| != 22 || |secret| != 43)
              && (Parse(input) == InvalidEncoding <==>
                    |id| == 22 && |secret| == 43 && (Decode(id).None? || Decode(secret).None?))
              && (Parse(input) == Parsed(FromPrefix(prefix).value, id, secret) <==>
                    |id| == 22 && |secret| == 43 && Decode(id).Some? && Decode(secret).Some?)
  {
    hide SplitOnce, FromPrefix, Decode;
    SplitOnceAt(prefix, UNDERSCORE, rest);
    SplitOnceAt(prefix, UNDERSCORE, id + [DOT] + secret);
    SplitOnceAt(id, DOT, secret);
  }

  // Every generated token parses back to itself, `_` in the public id included.
  lemma RoundTrip(ns: Namespace, id: seq<Byte>, secret: seq<Byte>)
    requires |id| == 16 && |secret| == 32
    ensures Parse(WireFormat(ns, Encode(id), Encode(secret))) == Parsed(ns, Encode(id), Encode(secret))
  {
    hide Encode, Decode, SplitOnce, FromPrefix;
    EncodeShape(id);
    EncodeShape(secret);
    DecodeEncode(id);
    DecodeEncode(secret);
    PrefixRoundTrip(ns);
    var body := Encode(id) + [DOT] + Encode(secret);
    assert WireFormat(ns, Encode(id), Encode(secret)) == Prefix(ns) + [UNDERSCORE] + body;
    SplitOnceAt(Prefix(ns), UNDERSCORE, body);
    SplitOnceAt(Encode(id), DOT, Encode(secret));
  }

  // Conversely, an accepted string is the wire form of a namespace, a 16-byte id
  // and a 32-byte secret, in their one encoding.
  lemma AcceptedIsWireForm(input: Text) returns (id: seq<Byte>, secret: seq<Byte>)
    requires Parse(input).Parsed?
    ensures |id| == 16 && |secret| == 32
    ensures Parse(input) == Parsed(Parse(input).ns, Encode(id), Encode(secret))
    ensures input == WireFormat(Parse(input).ns, Encode(id), Encode(secret))
  {
    hide Encode, Decode, SplitOnce;
    var Parsed(ns, idText, secretText) := Parse(input);
    id, secret := Decode(idText).value, Decode(secretText).value;
    EncodeDecode(idText);
    EncodeDecode(secretText);
    EncodeShape(id);
    EncodeShape(secret);
  }

  // ... and of no other triple.
  lemma WireFormInjective(ns: Namespace, id: seq<Byte>, secret: seq<Byte>,
                          ns': Namespace, id': seq<Byte>, secret': seq<Byte>)
    requires |id| == |id'| == 16 && |secret| == |secret'| == 32
    requires WireFormat(ns, Encode(id), Encode(secret)) == WireFormat(ns', Encode(id'), Encode(secret'))
    ensures ns == ns' && id == id' && secret == secret'
  {
    hide Encode, WireFormat, Parse;
    RoundTrip(ns, id, secret);
    RoundTrip(ns', id', secret');
    DecodeEncode(id);
    DecodeEncode(id');
    DecodeEncode(secret);
    DecodeEncode(secret');
  }
}
