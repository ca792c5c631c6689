/** The controller's error flags (domain/entity/error_code.go). */
module ErrorCode {
  import opened Words

  datatype Register = ErrorCode0 | ErrorCode1 | ErrorCode2 | ErrorCode3

  /** One flag. The source's code and description strings are labels the decode never inspects. */
  datatype ErrorBit = ErrorBit(register: Register, bit: nat)

  const ERROR3_RESERVED_BIT := 6

  function Index(r: Register): nat {
    match r
    case ErrorCode0 => 0
    case ErrorCode1 => 1
    case ErrorCode2 => 2
    case ErrorCode3 => 3
  }

  /** A flag's place in the catalogue order: by register, then by bit. */
  function Rank(d: ErrorBit): nat {
    16 * Index(d.register) + d.bit
  }

  predicate Ordered(s: seq<ErrorBit>) {
    forall i, j :: 0 <= i < j < |s| ==> Rank(s[i]) < Rank(s[j])
  }

  /** The flags the catalogue knows: bit 12 of Error_Code has no meaning, bit 6 of Error_Code_3 is reserved. */
  predicate Catalogued(d: ErrorBit) {
    && d.bit < 16
    && d != ErrorBit(ErrorCode0, 12)
    && d != ErrorBit(ErrorCode3, ERROR3_RESERVED_BIT)
  }

  /** The catalogued bits of a register, as a mask. */
  function Mask(r: Register): Word {
    match r
    case ErrorCode0 => 0xEFFF
    case ErrorCode1 => 0xFFFF
    case ErrorCode2 => 0xFFFF
    case ErrorCode3 => 0xFFBF
  }

  /** The four error registers, in index order. */
  type Reading = e: seq<Word> | |e| == 4 witness [0, 0, 0, 0]

  predicate Raised(e: Reading, d: ErrorBit) {
    Bit(e[Index(d.register)], d.bit)
  }

  /** The flags of a reading: every catalogued set bit, once, in catalogue order, and nothing else. */
  ghost predicate IsDecodeOf(s: seq<ErrorBit>, e: Reading) {
    && Ordered(s)
    && forall d :: d in s <==> Catalogued(d) && Raised(e, d)
  }

  // ----- The two loops of the source

  /** The documented flags of Error_Code, as the source lists them. */
  const DOCUMENTED: seq<ErrorBit> :=
    [ErrorBit(ErrorCode0, 0), ErrorBit(ErrorCode0, 1), ErrorBit(ErrorCode0, 2), ErrorBit(ErrorCode0, 3),
     ErrorBit(ErrorCode0, 4), ErrorBit(ErrorCode0, 5), ErrorBit(ErrorCode0, 6), ErrorBit(ErrorCode0, 7),
     ErrorBit(ErrorCode0, 8), ErrorBit(ErrorCode0, 9), ErrorBit(ErrorCode0, 10), ErrorBit(ErrorCode0, 11),
     ErrorBit(ErrorCode0, 13), ErrorBit(ErrorCode0, 14), ErrorBit(ErrorCode0, 15)]

  lemma DocumentedFlags()
    ensures Ordered(DOCUMENTED)
    ensures forall d :: d in DOCUMENTED <==> Catalogued(d) && d.register == ErrorCode0
  {
    var s := DOCUMENTED;
    assert forall i :: 0 <= i < |s| ==> s[i] == ErrorBit(ErrorCode0, if i < 12 then i else i + 1);
    forall d | Catalogued(d) && d.register == ErrorCode0 ensures d in s {
      assert d == s[if d.bit < 12 then d.bit else d.bit - 1];
    }
  }

  method BuildErrorBitCatalog() returns (out: seq<ErrorBit>)
    ensures Ordered(out)
    ensures forall d :: d in out <==> Catalogued(d)
  {
    DocumentedFlags();
    out := AppendBits(DOCUMENTED, ErrorCode1);
    out := AppendBits(out, ErrorCode2);
    out := AppendBits(out, ErrorCode3);
  }

  /** The loop the source writes three times, once for each generic register. */
  method AppendBits(catalog: seq<ErrorBit>, r: Register) returns (out: seq<ErrorBit>)
    requires Ordered(catalog)
    requires r != ErrorCode0
    requires forall d :: d in catalog <==> Catalogued(d) && Index(d.register) < Index(r)
    ensures Ordered(out)
    ensures forall d :: d in out <==> Catalogued(d) && Index(d.register) <= Index(r)
  {
    out := catalog;
    for bit := 0 to 16
      invariant Ordered(out)
      invariant forall d :: d in out <==>
                  Catalogued(d) && (Index(d.register) < Index(r) || (d.register == r && d.bit < bit))
    {
      if !(r == ErrorCode3 && bit == ERROR3_RESERVED_BIT) {
        assert forall d :: d in out ==> Rank(d) < Rank(ErrorBit(r, bit));
        out := out + [ErrorBit(r, bit)];
      }
    }
  }

  method DecodeErrors(catalog: seq<ErrorBit>, e0: Word, e1: Word, e2: Word, e3: Word) returns (out: seq<ErrorBit>)
    requires Ordered(catalog) && forall d :: d in catalog <==> Catalogued(d)
    ensures IsDecodeOf(out, [e0, e1, e2, e3])
  {
    ghost var e: Reading := [e0, e1, e2, e3];
    out := [];
    for i := 0 to |catalog|
      invariant Ordered(out)
      invariant forall d :: d in out <==> d in catalog[..i] && Raised(e, d)
    {
      var def := catalog[i];
      var raw := match def.register
        case ErrorCode0 => e0
        case ErrorCode1 => e1
        case ErrorCode2 => e2
        case ErrorCode3 => e3;
      assert forall d :: d in catalog[..i + 1] <==> d in catalog[..i] || d == def;
      assert forall d :: d in out ==> Rank(d) < Rank(def);
      if Bit(raw, def.bit) {
        out := out + [def];
      }
    }
    assert catalog[..|catalog|] == catalog;
  }

  predicate IsEmpty(s: seq<ErrorBit>) {
    |s| == 0
  }

  // ----- How many flags a reading raises

  /** The raised, catalogued flags of register r below bit n. */
  function FlagsBelow(w: Word, r: Register, n: nat): (s: seq<ErrorBit>)
    ensures Ordered(s)
    ensures forall d :: d in s <==> d.register == r && d.bit < n && Bit(And(w, Mask(r)), d.bit)
    ensures |s| == OnesBelow(And(w, Mask(r)), n)
  {
    if n == 0 then []
    else FlagsBelow(w, r, n - 1) + if Bit(And(w, Mask(r)), n - 1) then [ErrorBit(r, n - 1)] else []
  }

  function OnesBelow(w: nat, n: nat): nat {
    if n == 0 then 0 else OnesBelow(w, n - 1) + if Bit(w, n - 1) then 1 else 0
  }

  lemma {:induction false} OnesBelowShift(w: nat, n: nat)
    requires n > 0
    ensures OnesBelow(w, n) == w % 2 + OnesBelow(w / 2, n - 1)
  {
    if n > 1 {
      OnesBelowShift(w, n - 1);
    }
  }

  lemma {:induction false} OnesIsOnesBelow(w: nat, n: nat)
    requires w < Pow2(n)
    ensures Ones(w) == OnesBelow(w, n)
  {
    if n == 0 {
      assert w == 0;
    } else {
      OnesBelowShift(w, n);
      OnesIsOnesBelow(w / 2, n - 1);
    }
  }

  lemma MaskNamesCatalogue(d: ErrorBit)
    requires d.bit < 16
    ensures Bit(Mask(d.register), d.bit) <==> Catalogued(d)
  {
    SixteenBits();
    HoleBits(16, 12, d.bit);
    HoleBits(16, 6, d.bit);
    FullBits(16, d.bit);
  }

  lemma {:induction false} FullBits(n: nat, k: nat)
    ensures Bit(Pow2(n) - 1, k) == (k < n)
  {
    if n == 0 {
      ZeroHasNoBits(k);
    } else if k > 0 {
      FullBits(n - 1, k - 1);
    }
  }

  /** A word of n ones with a hole at bit h. */
  lemma {:induction false} HoleBits(n: nat, h: nat, k: nat)
    requires h < n
    ensures Pow2(h) < Pow2(n)
    ensures Bit(Pow2(n) - 1 - Pow2(h), k) == (k < n && k != h)
  {
    if h == 0 {
      if k > 0 {
        FullBits(n - 1, k - 1);
      }
    } else {
      HoleBits(n - 1, h - 1, if k > 0 then k - 1 else 0);
    }
  }

  function Flags(e: Reading, width: nat): (s: seq<ErrorBit>)
    requires width <= 16
    ensures Ordered(s)
    ensures forall d :: d in s <==> d.bit < width && Bit(And(e[Index(d.register)], Mask(d.register)), d.bit)
    ensures |s| == OnesBelow(And(e[0], 0xEFFF), width) + OnesBelow(And(e[1], 0xFFFF), width)
                   + OnesBelow(And(e[2], 0xFFFF), width) + OnesBelow(And(e[3], 0xFFBF), width)
  {
    var s0 := FlagsBelow(e[0], ErrorCode0, width);
    var s1 := FlagsBelow(e[1], ErrorCode1, width);
    var s2 := FlagsBelow(e[2], ErrorCode2, width);
    var s3 := FlagsBelow(e[3], ErrorCode3, width);
    Ascending(s0, s1, 16);
    Ascending(s0 + s1, s2, 32);
    Ascending(s0 + s1 + s2, s3, 48);
    s0 + s1 + s2 + s3
  }

  lemma Ascending(s: seq<ErrorBit>, s': seq<ErrorBit>, split: nat)
    requires Ordered(s) && Ordered(s')
    requires forall d :: d in s ==> Rank(d) < split
    requires forall d :: d in s' ==> split <= Rank(d)
    ensures Ordered(s + s')
  {
  }

  lemma MaskedIsDecode(s: seq<ErrorBit>, e: Reading)
    requires Ordered(s)
    requires forall d :: d in s <==> d.bit < 16 && Bit(And(e[Index(d.register)], Mask(d.register)), d.bit)
    ensures IsDecodeOf(s, e)
  {
    forall d ensures d in s <==> Catalogued(d) && Raised(e, d) {
      MaskedBit(e[Index(d.register)], d);
    }
  }

  lemma MaskedBit(w: Word, d: ErrorBit)
    ensures d.bit < 16 && Bit(And(w, Mask(d.register)), d.bit) <==> Catalogued(d) && Bit(w, d.bit)
  {
    BitwiseLaws(w, Mask(d.register), d.bit);
    if d.bit < 16 {
      MaskNamesCatalogue(d);
    }
  }

  lemma Inhabited(s: seq<ErrorBit>)
    requires s != []
    ensures exists d :: d in s
  {
    assert s[0] in s;
  }

  lemma {:induction false} OrderedIsUnique(s: seq<ErrorBit>, s': seq<ErrorBit>)
    requires Ordered(s) && Ordered(s')
    requires forall d :: d in s <==> d in s'
    ensures s == s'
  {
    if s == [] {
      if s' != [] {
        Inhabited(s');
        assert false;
      }
    } else {
      assert s[0] in s';
      var m, m' := |s| - 1, |s'| - 1;
      assert s[m] in s' && s'[m'] in s;
      assert s[m] == s'[m'];
      forall d ensures d in s[..m] <==> d in s'[..m'] {
        assert d in s[..m] <==> d in s && d != s[m];
        assert d in s'[..m'] <==> d in s' && d != s'[m'];
      }
      OrderedIsUnique(s[..m], s'[..m']);
    }
  }

  /** The decode of a reading has one flag for each catalogued set bit, so it is empty exactly when the
      four masked words are zero; and the decode is unique, so this is about every result of the walk. */
  lemma DecodeCount(s: seq<ErrorBit>, e: Reading)
    requires IsDecodeOf(s, e)
    ensures |s| == Ones(And(e[0], 0xEFFF)) + Ones(e[1]) + Ones(e[2]) + Ones(And(e[3], 0xFFBF))
    ensures IsEmpty(s) <==> And(e[0], 0xEFFF) == 0 && e[1] == 0 && e[2] == 0 && And(e[3], 0xFFBF) == 0
  {
    var width := 16;
    MaskedIsDecode(Flags(e, width), e);
    OrderedIsUnique(s, Flags(e, width));
    CountOfFlags(e, width);
  }

  lemma CountOfFlags(e: Reading, width: nat)
    requires width == 16
    ensures |Flags(e, width)| == Ones(And(e[0], 0xEFFF)) + Ones(e[1]) + Ones(e[2]) + Ones(And(e[3], 0xFFBF))
    ensures |Flags(e, width)| == 0
            <==> And(e[0], 0xEFFF) == 0 && e[1] == 0 && e[2] == 0 && And(e[3], 0xFFBF) == 0
  {
    CountOfMasked(e[0], 0xEFFF, width);
    CountOfMasked(e[1], 0xFFFF, width);
    CountOfMasked(e[2], 0xFFFF, width);
    CountOfMasked(e[3], 0xFFBF, width);
    SixteenBits();
    AndAll(e[1], width);
    AndAll(e[2], width);
  }

  lemma CountOfMasked(w: Word, mask: Word, width: nat)
    requires width == 16
    ensures OnesBelow(And(w, mask), width) == Ones(And(w, mask))
    ensures Ones(And(w, mask)) == 0 <==> And(w, mask) == 0
  {
    SixteenBits();
    OnesIsOnesBelow(And(w, mask), width);
    OnesPositive(And(w, mask));
  }

  lemma SixteenBits()
    ensures Pow2(6) == 64 && Pow2(12) == 4096 && Pow2(16) == 65536
  {
  }

  lemma {:induction false} AndAll(w: nat, n: nat)
    requires w < Pow2(n)
    ensures And(w, Pow2(n) - 1) == w
  {
    if n > 0 {
      AndAll(w / 2, n - 1);
    }
  }

  lemma {:induction false} OnesPositive(n: nat)
    ensures Ones(n) == 0 <==> n == 0
  {
    if n > 0 {
      OnesPositive(n / 2);
    }
  }
}
