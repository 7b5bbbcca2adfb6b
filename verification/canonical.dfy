/** The bytes a node signs: `Canonical` and the field lists of `internal/hnieoj/protocol/protocol.go`.
    Every field is preceded by its length in four big-endian bytes; the first field is the
    signing domain. */
module Canonical {
  import opened Basics

  type Byte = n: nat | n < 256
  type Field = seq<Byte>

  const WORD: nat := 0x1_0000_0000

  /** `binary.BigEndian.PutUint32(uint32(n))`: lengths wrap at 2^32. */
  function BigEndian(n: nat): (s: seq<Byte>)
    ensures |s| == 4
  {
    [n / 0x100_0000 % 256, n / 0x1_0000 % 256, n / 0x100 % 256, n % 256]
  }

  function Number(s: seq<Byte>): (n: nat)
    requires |s| == 4
    ensures n < WORD
  {
    s[0] as int * 0x100_0000 + s[1] as int * 0x1_0000 + s[2] as int * 0x100 + s[3] as int
  }

  lemma NumberOfBigEndian(n: nat)
    ensures Number(BigEndian(n)) == n % WORD
    ensures var s := BigEndian(n);
            s[0] as int * 0x100_0000 + s[1] as int * 0x1_0000 + s[2] as int * 0x100 + s[3] as int == n % 0x1_0000_0000
  {
    var a := n / 0x100;
    var b := a / 0x100;
    assert n / 0x1_0000 == b;
    assert n / 0x100_0000 == b / 0x100;
    assert n == a * 0x100 + n % 0x100 && a == b * 0x100 + a % 0x100;
    assert b == b / 0x100 * 0x100 + b % 0x100;
    assert b / 0x100 == n / WORD * 0x100 + b / 0x100 % 0x100;
  }

  function Encode(fields: seq<Field>): seq<Byte> {
    if fields == [] then [] else BigEndian(|fields[0]|) + fields[0] + Encode(fields[1..])
  }

  /** The layout: each field is four length bytes and its own, one after the other. */
  lemma {:induction false} EncodeLayout(fs: seq<Field>, f: Field)
    ensures Encode([]) == [] && Encode(fs + [f]) == Encode(fs) + BigEndian(|f|) + f
  {
    if fs == [] {
      assert fs + [f] == [f] && [f][1..] == [];
    } else {
      EncodeLayout(fs[1..], f);
      assert (fs + [f])[0] == fs[0] && (fs + [f])[1..] == fs[1..] + [f];
    }
  }

  /** The loop of `Canonical`. */
  method Build(fields: seq<Field>) returns (out: seq<Byte>)
    ensures out == Encode(fields)
  {
    out := [];
    for i := 0 to |fields|
      invariant out + Encode(fields[i..]) == Encode(fields)
    {
      assert fields[i..][0] == fields[i] && fields[i..][1..] == fields[i + 1..];
      var next := BigEndian(|fields[i]|) + fields[i];
      assert out + (next + Encode(fields[i + 1..])) == out + next + Encode(fields[i + 1..]);
      out := out + BigEndian(|fields[i]|);
      out := out + fields[i];
    }
  }

  /** Reading fields off the front until the bytes are used up. */
  function Decode(bytes: seq<Byte>): Option<seq<Field>>
    decreases |bytes|
  {
    if bytes == [] then Some([])
    else if |bytes| < 4 then None
    else
      var n := Number(bytes[..4]);
      if |bytes| < 4 + n then None
      else match Decode(bytes[4 + n..])
           case None => None
           case Some(rest) => Some([bytes[4..4 + n]] + rest)
  }

  ghost predicate Short(fields: seq<Field>) {
    forall f | f in fields :: |f| < WORD
  }

  lemma {:induction false} DecodedIsShort(bytes: seq<Byte>)
    ensures Decode(bytes).Some? ==> Short(Decode(bytes).value)
    decreases |bytes|
  {
    if |bytes| >= 4 {
      var n := Number(bytes[..4]);
      if |bytes| >= 4 + n { DecodedIsShort(bytes[4 + n..]); }
    }
  }

  /** Taking one framed field apart, for any four-byte header. */
  lemma Unframe(header: seq<Byte>, f: Field, rest: seq<Byte>)
    requires |header| == 4
    ensures var bytes := header + f + rest;
            bytes[..4] == header && bytes[4..4 + |f|] == f && bytes[4 + |f|..] == rest
  {
  }

  lemma DecodeOne(header: seq<Byte>, f: Field, rest: seq<Byte>)
    requires |header| == 4 && Number(header) == |f| && Decode(rest).Some?
    ensures Decode(header + f + rest) == Some([f] + Decode(rest).value)
  {
    Unframe(header, f, rest);
  }

  lemma {:induction false} DecodeEncode(fields: seq<Field>)
    requires Short(fields)
    ensures Decode(Encode(fields)) == Some(fields)
  {
    if fields != [] {
      var n := |fields[0]|;
      assert fields[0] in fields;
      NumberOfBigEndian(n);
      DecodeEncode(fields[1..]);
      DecodeOne(BigEndian(n), fields[0], Encode(fields[1..]));
      assert fields == [fields[0]] + fields[1..];
    }
  }

  /** Decoding gives back exactly the field lists without an overlong field. */
  lemma RoundTripIff(fields: seq<Field>)
    ensures Decode(Encode(fields)) == Some(fields) <==> Short(fields)
  {
    if Short(fields) { DecodeEncode(fields); } else { DecodedIsShort(Encode(fields)); }
  }

  /** Field lists of any lengths never share an encoding. */
  lemma Injective(fs: seq<Field>, gs: seq<Field>)
    requires Short(fs) && Short(gs) && Encode(fs) == Encode(gs)
    ensures fs == gs
  {
    DecodeEncode(fs);
    DecodeEncode(gs);
  }

  lemma SameFrame(h: seq<Byte>, f: Field, r: seq<Byte>, h': seq<Byte>, f': Field, r': seq<Byte>)
    requires |h| == |h'| == 4 && Number(h) == |f| && Number(h') == |f'| && h + f + r == h' + f' + r'
    ensures f == f'
  {
    Unframe(h, f, r);
    Unframe(h', f', r');
  }

  lemma Framed(fs: seq<Field>) returns (h: seq<Byte>, r: seq<Byte>)
    requires fs != [] && |fs[0]| < WORD
    ensures |h| == 4 && Number(h) == |fs[0]| && Encode(fs) == h + fs[0] + r
  {
    NumberOfBigEndian(|fs[0]|);
    h, r := BigEndian(|fs[0]|), Encode(fs[1..]);
  }

  /** The first field can be read off whatever follows it, overlong fields included. */
  lemma FirstFieldFixed(fs: seq<Field>, gs: seq<Field>)
    requires fs != [] && gs != [] && |fs[0]| < WORD && |gs[0]| < WORD && Encode(fs) == Encode(gs)
    ensures fs[0] == gs[0]
  {
    var h, r := Framed(fs);
    var h', r' := Framed(gs);
    SameFrame(h, fs[0], r, h', gs[0], r');
  }

  // ---------- what is signed ----------

  function Text(s: string): Field {
    seq(|s|, i requires 0 <= i < |s| => s[i] as int % 256)
  }

  lemma TextMeaning(s: string)
    ensures |Text(s)| == |s| && forall i | 0 <= i < |s| && s[i] < 128 as char :: Text(s)[i] == s[i] as int
  {
  }

  function Upper(f: Field): Field {
    seq(|f|, i requires 0 <= i < |f| => if 97 <= f[i] <= 122 then f[i] - 32 else f[i])
  }

  datatype Signed =
    | Enroll(audience: Field, challengeId: Field, nonce: Field, enrollmentId: Field, nodeName: Field, publicKey: Field,
             bootstrapDigest: Field)
    | Auth(audience: Field, challengeId: Field, nonce: Field, nodeId: Field, keyId: Field)
    | Http(audience: Field, nodeId: Field, keyId: Field, verb: Field, path: Field, bodyDigest: Field, timestamp: Field,
           nonce: Field)
    | RotatePrepare(audience: Field, nodeId: Field, rotationId: Field, newPublicKey: Field)
    | RotateConfirm(audience: Field, nodeId: Field, rotationId: Field, keyId: Field, confirmNonce: Field)

  function Domain(m: Signed): Field {
    match m
    case Enroll(_, _, _, _, _, _, _) => Text("HNIEOJ-ENROLL-V1")
    case Auth(_, _, _, _, _) => Text("HNIEOJ-AUTH-V1")
    case Http(_, _, _, _, _, _, _, _) => Text("HNIEOJ-HTTP-V1")
    case RotatePrepare(_, _, _, _) => Text("HNIEOJ-ROTATE-PREPARE-V1")
    case RotateConfirm(_, _, _, _, _) => Text("HNIEOJ-ROTATE-CONFIRM-V1")
  }

  /** The five field builders. */
  function Fields(m: Signed): seq<Field> {
    [Domain(m)] +
    match m
    case Enroll(a, c, n, e, name, pub, digest) => [a, c, n, e, name, pub, digest]
    case Auth(a, c, n, node, key) => [a, c, n, node, key]
    case Http(a, node, key, verb, path, digest, t, n) => [a, node, key, Upper(verb), path, digest, t, n]
    case RotatePrepare(a, node, r, pub) => [a, node, r, pub]
    case RotateConfirm(a, node, r, key, n) => [a, node, r, key, n]
  }

  /** Letters a to z become capitals, all other bytes stay. */
  lemma UpperMeaning(f: Field)
    ensures |Upper(f)| == |f|
    ensures forall i | 0 <= i < |f| :: Upper(f)[i] == if 97 <= f[i] <= 122 then f[i] - 32 else f[i]
  {
  }

  /** The domain and then the fields in the contract's order; RoundTripIff says that a verifier reads exactly
      these out of the signed bytes. */
  lemma FieldOrder(m: Signed)
    ensures m.Enroll? ==> Fields(m) == [Text("HNIEOJ-ENROLL-V1"), m.audience, m.challengeId, m.nonce, m.enrollmentId,
                                        m.nodeName, m.publicKey, m.bootstrapDigest]
    ensures m.Auth? ==> Fields(m) == [Text("HNIEOJ-AUTH-V1"), m.audience, m.challengeId, m.nonce, m.nodeId, m.keyId]
    ensures m.Http? ==> Fields(m) == [Text("HNIEOJ-HTTP-V1"), m.audience, m.nodeId, m.keyId, Upper(m.verb), m.path,
                                      m.bodyDigest, m.timestamp, m.nonce]
    ensures m.RotatePrepare? ==> Fields(m) == [Text("HNIEOJ-ROTATE-PREPARE-V1"), m.audience, m.nodeId, m.rotationId, m.newPublicKey]
    ensures m.RotateConfirm? ==> Fields(m) == [Text("HNIEOJ-ROTATE-CONFIRM-V1"), m.audience, m.nodeId, m.rotationId, m.keyId,
                                               m.confirmNonce]
  {
  }

  ghost predicate SamePurpose(m: Signed, k: Signed) {
    && (m.Enroll? <==> k.Enroll?) && (m.Auth? <==> k.Auth?) && (m.Http? <==> k.Http?)
    && (m.RotatePrepare? <==> k.RotatePrepare?) && (m.RotateConfirm? <==> k.RotateConfirm?)
  }

  lemma DomainsDiffer(m: Signed, k: Signed)
    requires Domain(m) == Domain(k)
    ensures SamePurpose(m, k)
  {
    assert Domain(m)[7] == Domain(k)[7];
    if |Domain(m)| == 24 && |Domain(k)| == 24 { assert Domain(m)[14] == Domain(k)[14]; }
  }

  /** Domain separation: bytes signed for two purposes are never equal, whatever the fields. */
  lemma DomainsSeparate(m: Signed, k: Signed)
    requires Encode(Fields(m)) == Encode(Fields(k))
    ensures SamePurpose(m, k)
  {
    assert Fields(m)[0] == Domain(m) && Fields(k)[0] == Domain(k);
    FirstFieldFixed(Fields(m), Fields(k));
    DomainsDiffer(m, k);
  }

  /** A signature covers exactly one message, up to the letter case of the HTTP method. */
  lemma SignedBytesNameMessage(m: Signed, k: Signed)
    requires Short(Fields(m)) && Short(Fields(k)) && Encode(Fields(m)) == Encode(Fields(k))
    ensures SamePurpose(m, k)
    ensures m.Http? ==> m.(verb := Upper(m.verb)) == k.(verb := Upper(k.verb))
    ensures !m.Http? ==> m == k
  {
    Injective(Fields(m), Fields(k));
    DomainsSeparate(m, k);
    var x, y := Fields(m), Fields(k);
    assert x[1] == y[1] && x[2] == y[2] && x[3] == y[3] && x[4] == y[4];
    if |x| > 5 { assert x[5] == y[5]; }
    if |x| > 6 { assert x[6] == y[6]; }
    if |x| > 7 { assert x[7] == y[7]; }
    if |x| > 8 { assert x[8] == y[8]; }
  }
}
