/** Register words, bit operations on them, register banks, and the big-endian register codec
    (infrastructure/modbus/decode.go). */
module Words {
  datatype Option<+T> = None | Some(value: T) {
    function GetOr(default: T): T {
      if None? then default else value
    }
  }

  type Byte = b: int | 0 <= b < 256 witness 0
  type Word = w: int | 0 <= w < 65536 witness 0

  /** The number of registers a bank addresses: 0x0000 to 0xFFFF. */
  const BANK_SIZE := 65536

  type Addr = a: nat | a < BANK_SIZE witness 0

  /** One bank of the controller's memory: a word for each address. */
  type Bank = b: seq<Word> | |b| == BANK_SIZE witness seq(BANK_SIZE, i => 0)

  // ----- Bit operations

  predicate Bit(n: nat, k: nat) {
    if k == 0 then n % 2 == 1 else Bit(n / 2, k - 1)
  }

  function And(a: nat, b: nat): (r: nat)
    ensures r <= a && r <= b
  {
    if a == 0 || b == 0 then 0 else 2 * And(a / 2, b / 2) + if a % 2 == 1 && b % 2 == 1 then 1 else 0
  }

  function AndNot(a: nat, b: nat): (r: nat)
    ensures r <= a
  {
    if a == 0 then 0 else 2 * AndNot(a / 2, b / 2) + if a % 2 == 1 && b % 2 == 0 then 1 else 0
  }

  function Or(a: nat, b: nat): (r: nat)
    decreases a + b
  {
    if a == 0 then b
    else if b == 0 then a
    else 2 * Or(a / 2, b / 2) + if a % 2 == 1 || b % 2 == 1 then 1 else 0
  }

  lemma {:induction false} ZeroHasNoBits(k: nat)
    ensures !Bit(0, k)
  {
    if k > 0 {
      ZeroHasNoBits(k - 1);
    }
  }

  lemma BitsOfDouble(n: nat, low: bool, k: nat)
    ensures Bit(2 * n + if low then 1 else 0, k) == if k == 0 then low else Bit(n, k - 1)
  {
  }

  lemma {:induction false} AndBits(a: nat, b: nat, k: nat)
    ensures Bit(And(a, b), k) == (Bit(a, k) && Bit(b, k))
  {
    if a == 0 || b == 0 {
      ZeroHasNoBits(k);
    } else {
      BitsOfDouble(And(a / 2, b / 2), a % 2 == 1 && b % 2 == 1, k);
      if k > 0 {
        AndBits(a / 2, b / 2, k - 1);
      }
    }
  }

  lemma {:induction false} AndNotBits(a: nat, b: nat, k: nat)
    ensures Bit(AndNot(a, b), k) == (Bit(a, k) && !Bit(b, k))
  {
    if a == 0 {
      ZeroHasNoBits(k);
    } else {
      BitsOfDouble(AndNot(a / 2, b / 2), a % 2 == 1 && b % 2 == 0, k);
      if k > 0 {
        AndNotBits(a / 2, b / 2, k - 1);
      }
    }
  }

  lemma {:induction false} OrBits(a: nat, b: nat, k: nat)
    ensures Bit(Or(a, b), k) == (Bit(a, k) || Bit(b, k))
  {
    if a == 0 || b == 0 {
      ZeroHasNoBits(k);
    } else {
      BitsOfDouble(Or(a / 2, b / 2), a % 2 == 1 || b % 2 == 1, k);
      if k > 0 {
        OrBits(a / 2, b / 2, k - 1);
      }
    }
  }

  /** The three operations act bit by bit. */
  lemma BitwiseLaws(a: nat, b: nat, k: nat)
    ensures Bit(And(a, b), k) == (Bit(a, k) && Bit(b, k))
    ensures Bit(AndNot(a, b), k) == (Bit(a, k) && !Bit(b, k))
    ensures Bit(Or(a, b), k) == (Bit(a, k) || Bit(b, k))
  {
    AndBits(a, b, k);
    AndNotBits(a, b, k);
    OrBits(a, b, k);
  }

  function Pow2(k: nat): (r: nat)
    ensures r > 0
  {
    if k == 0 then 1 else 2 * Pow2(k - 1)
  }

  lemma AndOdd(w: nat, p: nat)
    requires p > 0
    ensures And(w, 2 * p - 1) == 2 * And(w / 2, p - 1) + w % 2
  {
  }

  /** Masking with n ones keeps the low n bits. */
  lemma {:induction false} LowMask(w: nat, n: nat, p: nat)
    requires p == Pow2(n)
    ensures And(w, p - 1) == w % p
  {
    if n > 0 {
      AndOdd(w, Pow2(n - 1));
      LowMask(w / 2, n - 1, Pow2(n - 1));
      HalfRemainder(w, Pow2(n - 1));
    }
  }

  lemma HalfRemainder(w: nat, p: nat)
    requires p > 0
    ensures w % (2 * p) == 2 * (w / 2 % p) + w % 2
  {
    var q, r := w / 2 / p, 2 * (w / 2 % p) + w % 2;
    assert w / 2 == p * q + w / 2 % p;
    assert 2 * (p * q) == 2 * p * q;
    RemainderOf(w, 2 * p, q, r);
  }

  lemma RemainderOf(w: nat, m: nat, q: nat, r: nat)
    requires w == m * q + r && r < m
    ensures w % m == r
  {
    var d := w / m - q;
    assert m * d == m * (w / m) - m * q;
    if d != 0 {
      Multiple(m, d);
    }
  }

  lemma Multiple(m: nat, d: int)
    requires d != 0
    ensures m * d >= m || m * d + m <= 0
  {
  }

  /** Population count. */
  function Ones(n: nat): nat {
    if n == 0 then 0 else n % 2 + Ones(n / 2)
  }

  // ----- The register codec

  function High(w: Word): Byte {
    w / 256
  }

  function Low(w: Word): Byte {
    w % 256
  }

  function Join(high: Byte, low: Byte): Word {
    256 * high + low
  }

  /** Words as they go on the wire: word i at bytes 2i (high) and 2i+1 (low), section 4.2 of the
      MODBUS Application Protocol Specification V1.1b3. */
  function Encode(words: seq<Word>): (bytes: seq<Byte>)
    ensures |bytes| == 2 * |words|
  {
    seq(2 * |words|, i requires 0 <= i < 2 * |words| =>
      if i % 2 == 0 then High(words[i / 2]) else Low(words[i / 2]))
  }

  function Decode(bytes: seq<Byte>): (words: seq<Word>)
    requires |bytes| % 2 == 0
    ensures |words| == |bytes| / 2
  {
    seq(|bytes| / 2, i requires 0 <= i < |bytes| / 2 => Join(bytes[2 * i], bytes[2 * i + 1]))
  }

  lemma DecodeAfterEncode(words: seq<Word>)
    ensures Decode(Encode(words)) == words
  {
  }

  lemma EncodeAfterDecode(bytes: seq<Byte>)
    requires |bytes| % 2 == 0
    ensures Encode(Decode(bytes)) == bytes
  {
  }

  /** The high byte comes first. */
  predicate BigEndian(word: int, first: int, second: int) {
    word == 256 * first + second
  }

  lemma EncodeIsBigEndian(words: seq<Word>)
    ensures forall i :: 0 <= i < |words| ==> BigEndian(words[i], Encode(words)[2 * i], Encode(words)[2 * i + 1])
  {
    forall i | 0 <= i < |words| ensures BigEndian(words[i], Encode(words)[2 * i], Encode(words)[2 * i + 1]) {
      assert Encode(words)[2 * i] == High(words[i]) && Encode(words)[2 * i + 1] == Low(words[i]);
    }
  }

  /** Decodes a reply's bytes; None is the source's ErrInvalidByteCount. */
  method BytesToUint16(b: seq<Byte>) returns (words: Option<seq<Word>>)
    ensures words.None? <==> |b| % 2 == 1
    ensures words.Some? ==> Encode(words.value) == b
    ensures words.Some? ==> |words.value| == |b| / 2
                            && forall i :: 0 <= i < |words.value| ==> BigEndian(words.value[i], b[2 * i], b[2 * i + 1])
  {
    if |b| % 2 != 0 {
      return None;
    }
    var out := new Word[|b| / 2];
    for i := 0 to out.Length
      invariant forall k :: 0 <= k < i ==> out[k] == Decode(b)[k]
    {
      out[i] := Join(b[2 * i], b[2 * i + 1]);
    }
    assert out[..] == Decode(b);
    EncodeAfterDecode(b);
    EncodeIsBigEndian(Decode(b));
    return Some(out[..]);
  }

  method Uint16ToBytes(v: seq<Word>) returns (bytes: seq<Byte>)
    ensures |bytes| % 2 == 0 && Decode(bytes) == v
    ensures forall i :: 0 <= i < |v| ==> BigEndian(v[i], bytes[2 * i], bytes[2 * i + 1])
  {
    var out := new Byte[2 * |v|];
    for i := 0 to |v|
      invariant forall k :: 0 <= k < 2 * i ==> out[k] == Encode(v)[k]
    {
      out[2 * i] := High(v[i]);
      out[2 * i + 1] := Low(v[i]);
    }
    assert out[..] == Encode(v);
    DecodeAfterEncode(v);
    EncodeIsBigEndian(v);
    return out[..];
  }
}
