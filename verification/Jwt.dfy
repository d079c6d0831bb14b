/** ES256 tokens: three dot-separated base64url parts (section 7.1 of RFC 7515), the last of
    them the signature's two numbers as fixed-width big-endian bytes (section 3.4 of RFC 7518). */
module Jwt {
  import opened Common
  import opened Bytes
  import opened Text

  // ---- big-endian numbers ----

  /** `big.Int.SetBytes`. */
  function FromBytes(b: seq<byte>): nat {
    if b == [] then 0 else FromBytes(b[..|b| - 1]) * 256 + b[|b| - 1]
  }

  /** The first bytes weigh most: what precedes `b` counts 256 times for every byte of `b`. */
  lemma {:induction false} FromBytesJoin(a: seq<byte>, b: seq<byte>)
    ensures FromBytes(a + b) == FromBytes(a) * Pow256(|b|) + FromBytes(b)
    decreases |b|
  {
    if b == [] {
      assert a + b == a;
    } else {
      var front := b[..|b| - 1];
      FromBytesJoin(a, front);
      assert (a + b)[..|a + b| - 1] == a + front;
      assert FromBytes(a) * Pow256(|front|) * 256 == FromBytes(a) * Pow256(|b|);
    }
  }

  /** `big.Int.Bytes`: no leading zero byte. */
  function ToBytes(n: nat): (b: seq<byte>)
    ensures FromBytes(b) == n
    ensures b != [] ==> b[0] != 0
  {
    if n == 0 then [] else
      var front := ToBytes(n / 256);
      assert (front + [n % 256])[..|front|] == front;
      front + [n % 256]
  }

  function Pow256(k: nat): nat {
    if k == 0 then 1 else Pow256(k - 1) * 256
  }

  lemma {:induction false} ToBytesLength(n: nat, k: nat)
    ensures |ToBytes(n)| <= k <==> n < Pow256(k)
  {
    if n > 0 && k > 0 {
      ToBytesLength(n / 256, k - 1);
    } else if n > 0 {
    } else {
      PowPositive(k);
    }
  }

  lemma {:induction false} PowPositive(k: nat)
    ensures Pow256(k) >= 1
  {
    if k > 0 { PowPositive(k - 1); }
  }

  function Zeros(k: nat): seq<byte> {
    seq(k, _ => 0)
  }

  lemma {:induction false} LeadingZeros(k: nat, b: seq<byte>)
    ensures FromBytes(Zeros(k) + b) == FromBytes(b)
  {
    var z := Zeros(k) + b;
    if b == [] {
      if k > 0 {
        LeadingZeros(k - 1, []);
        assert z[..|z| - 1] == Zeros(k - 1) + [];
      }
    } else {
      LeadingZeros(k, b[..|b| - 1]);
      assert z[..|z| - 1] == Zeros(k) + b[..|b| - 1];
    }
  }

  /** A number as exactly 32 bytes. */
  function Padded(n: nat): (b: seq<byte>)
    requires n < Pow256(32)
    ensures |b| == 32 && FromBytes(b) == n
  {
    ToBytesLength(n, 32);
    LeadingZeros(32 - |ToBytes(n)|, ToBytes(n));
    Zeros(32 - |ToBytes(n)|) + ToBytes(n)
  }

  lemma {:induction false} FromBytesInjective(a: seq<byte>, b: seq<byte>)
    requires |a| == |b| && FromBytes(a) == FromBytes(b)
    ensures a == b
  {
    if a != [] {
      FromBytesInjective(a[..|a| - 1], b[..|b| - 1]);
      assert a == a[..|a| - 1] + [a[|a| - 1]] && b == b[..|b| - 1] + [b[|b| - 1]];
    }
  }

  /** Fixed-width padding is lossless, and it is the only 32-byte form of its number. */
  lemma PaddedRoundTrip(n: nat, b: seq<byte>)
    requires n < Pow256(32) && |b| == 32
    ensures FromBytes(b) == n <==> b == Padded(n)
  {
    hide Padded, Pow256;
    if FromBytes(b) == n {
      FromBytesInjective(b, Padded(n));
    }
  }

  // ---- framing ----

  /** Raw base64url, section 5 of RFC 4648: its alphabet has no dot, and decoding undoes encoding. */
  datatype Codec = Codec(encode: seq<byte> -> string, decode: string -> Option<seq<byte>>)

  ghost predicate Faithful(c: Codec) {
    forall b :: DotFree(c.encode(b)) && c.decode(c.encode(b)) == Some(b)
  }

  datatype Verdict = Verified(valid: bool) | BadFormat | BadSignatureEncoding | BadSignatureLength

  /** The piece of the token that ends at a dot. */
  lemma PieceAt(token: string, start: nat, i: nat)
    requires start <= i < |token| && token[i] == DOT && DotFree(token[start..i])
    ensures Split(token[start..]) == [token[start..i]] + Split(token[i + 1..])
  {
    assert token[start..] == token[start..i] + "." + token[i + 1..];
    SplitAtDot(token[start..i], token[i + 1..]);
    SplitDotFree(token[start..i]);
  }

  /** A token has a JWT's shape exactly when it has two dots; the parts are then its split. */
  method SplitJwt(token: string) returns (parts: Option<seq<string>>)
    ensures parts.Some? <==> multiset(token)[DOT] == 2
    ensures parts.Some? ==> |parts.value| == 3 && parts.value == Split(token)
  {
    hide Split;
    var pieces: seq<string> := [];
    var start := 0;
    var count := 0;
    for i := 0 to |token|
      invariant 0 <= start <= i && count == |pieces|
      invariant DotFree(token[start..i])
      invariant pieces + Split(token[start..]) == Split(token)
    {
      if token[i] == DOT {
        PieceAt(token, start, i);
        pieces := pieces + [token[start..i]];
        start := i + 1;
        count := count + 1;
      } else {
        assert token[start..i + 1] == token[start..i] + [token[i]];
      }
    }
    assert token[start..|token|] == token[start..];
    SplitDotFree(token[start..]);
    SplitPieces(token);
    if count == 2 {
      pieces := pieces + [token[start..]];
      return Some(pieces);
    }
    parts := None;
  }

  function SigningInput(codec: Codec, header: seq<byte>, payload: seq<byte>): string {
    codec.encode(header) + "." + codec.encode(payload)
  }

  function Token(codec: Codec, header: seq<byte>, payload: seq<byte>, r: nat, s: nat): string
    requires r < Pow256(32) && s < Pow256(32)
  {
    SigningInput(codec, header, payload) + "." + codec.encode(Padded(r) + Padded(s))
  }

  /** `sign` stands for hashing and signing with the private key; both numbers it returns are
      below the group order, which is below 2^256. */
  method GenerateAuthJwt(codec: Codec, header: seq<byte>, payload: seq<byte>, sign: string -> (nat, nat))
    returns (token: string)
    requires var (r, s) := sign(SigningInput(codec, header, payload)); r < Pow256(32) && s < Pow256(32)
    ensures var (r, s) := sign(SigningInput(codec, header, payload)); token == Token(codec, header, payload, r, s)
  {
    hide Padded, Pow256;
    var headerB64 := codec.encode(header);
    var payloadB64 := codec.encode(payload);
    var signingInput := headerB64 + "." + payloadB64;
    var (r, s) := sign(signingInput);
    var sigBytes := SignatureBytes(r, s);
    var sigB64 := codec.encode(sigBytes[..]);
    token := signingInput + "." + sigB64;
  }

  /** r and s, each right-aligned in its half of a zeroed 64-byte buffer. */
  method SignatureBytes(r: nat, s: nat) returns (sigBytes: array<byte>)
    requires r < Pow256(32) && s < Pow256(32)
    ensures fresh(sigBytes) && sigBytes[..] == Padded(r) + Padded(s)
  {
    hide Pow256, ToBytes, FromBytes;
    sigBytes := new byte[64](_ => 0);
    var rBytes, sBytes := ToBytes(r), ToBytes(s);
    ToBytesLength(r, 32);
    ToBytesLength(s, 32);
    CopyInto(sigBytes, 32 - |rBytes|, rBytes);
    CopyInto(sigBytes, 64 - |sBytes|, sBytes);
  }

  method CopyInto(target: array<byte>, at: nat, source: seq<byte>)
    requires at + |source| <= target.Length
    modifies target
    ensures forall k :: 0 <= k < target.Length ==>
      target[k] == if at <= k < at + |source| then source[k - at] else old(target[k])
  {
    for i := 0 to |source|
      invariant forall k :: 0 <= k < target.Length ==>
        target[k] == if at <= k < at + i then source[k - at] else old(target[k])
    {
      target[at + i] := source[i];
    }
  }

  /** The verdict in terms of the token's parts. */
  function Judge(codec: Codec, token: string, verify: (string, nat, nat) -> bool): Verdict {
    var parts := Split(token);
    if |parts| != 3 then BadFormat
    else match codec.decode(parts[2])
      case None => BadSignatureEncoding
      case Some(sig) =>
        if |sig| != 64 then BadSignatureLength
        else Verified(verify(parts[0] + "." + parts[1], FromBytes(sig[..32]), FromBytes(sig[32..])))
  }

  /** `verify` stands for hashing and checking the signature with the public key. */
  method VerifyJwt(codec: Codec, token: string, verify: (string, nat, nat) -> bool) returns (v: Verdict)
    ensures v == Judge(codec, token, verify)
  {
    SplitPieces(token);
    var parts := SplitJwt(token);
    if parts.None? { return BadFormat; }
    var sig := codec.decode(parts.value[2]);
    if sig.None? { return BadSignatureEncoding; }
    if |sig.value| != 64 { return BadSignatureLength; }
    var r, s := FromBytes(sig.value[..32]), FromBytes(sig.value[32..]);
    var signingInput := parts.value[0] + "." + parts.value[1];
    v := Verified(verify(signingInput, r, s));
  }

  /** The exact condition for a token to have the wrong shape. */
  lemma BadFormatIff(codec: Codec, token: string, verify: (string, nat, nat) -> bool)
    ensures Judge(codec, token, verify) == BadFormat <==> multiset(token)[DOT] != 2
  {
    hide Split, FromBytes;
    SplitPieces(token);
  }

  /** Three parts, whatever they hold: a signature that cannot be decoded or is not 64 bytes long is
      refused; otherwise its halves are checked against the first two parts, byte for byte as they came. */
  lemma JudgeExactly(codec: Codec, a: string, b: string, c: string, verify: (string, nat, nat) -> bool)
    requires DotFree(a) && DotFree(b) && DotFree(c)
    ensures var v, sig := Judge(codec, a + "." + b + "." + c, verify), codec.decode(c);
      && (sig.None? ==> v == BadSignatureEncoding)
      && (sig.Some? && |sig.value| != 64 ==> v == BadSignatureLength)
      && (sig.Some? && |sig.value| == 64 ==>
            v == Verified(verify(a + "." + b, FromBytes(sig.value[..32]), FromBytes(sig.value[32..]))))
  {
    hide Split, FromBytes;
    SplitAtDot(a + "." + b, c);
    SplitAtDot(a, b);
    SplitDotFree(a);
    SplitDotFree(b);
    SplitDotFree(c);
  }

  /** A generated token splits into its three encoded parts, which nothing else joins to. */
  lemma TokenParts(codec: Codec, header: seq<byte>, payload: seq<byte>, r: nat, s: nat)
    requires Faithful(codec) && r < Pow256(32) && s < Pow256(32)
    ensures Split(Token(codec, header, payload, r, s))
         == [codec.encode(header), codec.encode(payload), codec.encode(Padded(r) + Padded(s))]
  {
    hide Padded, Pow256, Split;
    var h, p, g := codec.encode(header), codec.encode(payload), codec.encode(Padded(r) + Padded(s));
    SplitAtDot(h + "." + p, g);
    SplitAtDot(h, p);
    SplitDotFree(h);
    SplitDotFree(p);
    SplitDotFree(g);
  }

  /** Verifying a generated token asks about exactly the input that was signed and exactly the
      two numbers the signature consists of. */
  lemma VerifyGenerated(codec: Codec, header: seq<byte>, payload: seq<byte>, r: nat, s: nat,
                        verify: (string, nat, nat) -> bool)
    requires Faithful(codec) && r < Pow256(32) && s < Pow256(32)
    ensures Judge(codec, Token(codec, header, payload, r, s), verify)
         == Verified(verify(SigningInput(codec, header, payload), r, s))
  {
    hide Padded, Pow256, FromBytes, Split, Token;
    TokenParts(codec, header, payload, r, s);
    var sig := Padded(r) + Padded(s);
    assert sig[..32] == Padded(r) && sig[32..] == Padded(s);
  }

  /** Different contents or signatures give different tokens. */
  lemma TokenInjective(codec: Codec, h: seq<byte>, p: seq<byte>, r: nat, s: nat,
                       h': seq<byte>, p': seq<byte>, r': nat, s': nat)
    requires Faithful(codec)
    requires r < Pow256(32) && s < Pow256(32) && r' < Pow256(32) && s' < Pow256(32)
    requires Token(codec, h, p, r, s) == Token(codec, h', p', r', s')
    ensures h == h' && p == p' && r == r' && s == s'
  {
    hide Padded, Pow256, FromBytes, Split, Token;
    TokenParts(codec, h, p, r, s);
    TokenParts(codec, h', p', r', s');
    var a, b := Padded(r) + Padded(s), Padded(r') + Padded(s');
    assert Some(a) == codec.decode(codec.encode(a)) == codec.decode(codec.encode(b)) == Some(b);
    assert Some(h) == codec.decode(codec.encode(h)) == codec.decode(codec.encode(h')) == Some(h');
    assert Some(p) == codec.decode(codec.encode(p)) == codec.decode(codec.encode(p')) == Some(p');
    assert a[..32] == Padded(r) && b[..32] == Padded(r') && a[32..] == Padded(s) && b[32..] == Padded(s');
  }
}
