/** UTF-8 (section 3 of RFC 3629), decoded as Go decodes it: a byte that starts no rune counts as U+FFFD. */
module Utf8 {
  type Byte = x: int | 0 <= x < 256

  const RUNE_ERROR := 0xFFFD

  type Rune = r: int | 0 <= r < 0xD800 || 0xE000 <= r <= 0x10FFFF

  /** The six low bits, as a continuation byte. */
  function Tail(x: nat): Byte {
    0x80 + x % 0x40
  }

  function Lead(mark: Byte, x: nat): Byte
    requires mark + x < 256
  {
    mark + x
  }

  function Encode(r: Rune): (s: seq<Byte>)
    ensures 1 <= |s| <= 4
  {
    if r < 0x80 then [Lead(0, r)]
    else if r < 0x800 then [Lead(0xC0, r / 0x40), Tail(r)]
    else if r < 0x10000 then [Lead(0xE0, r / 0x40 / 0x40), Tail(r / 0x40), Tail(r)]
    else [Lead(0xF0, r / 0x40 / 0x40 / 0x40), Tail(r / 0x40 / 0x40), Tail(r / 0x40), Tail(r)]
  }

  function EncodeAll(rs: seq<Rune>): seq<Byte> {
    if rs == [] then [] else Encode(rs[0]) + EncodeAll(rs[1..])
  }

  /** How many bytes a rune with this first byte takes; 0 for a byte that can start none. */
  function Size(lead: Byte): nat {
    if lead < 0x80 then 1
    else if 0xC2 <= lead <= 0xDF then 2
    else if 0xE0 <= lead <= 0xEF then 3
    else if 0xF0 <= lead <= 0xF4 then 4
    else 0
  }

  /** The second byte's range excludes overlong forms, surrogates and what lies beyond U+10FFFF. */
  predicate SecondByte(lead: Byte, b: Byte) {
    (if lead == 0xE0 then 0xA0 else if lead == 0xF0 then 0x90 else 0x80) <= b <=
    (if lead == 0xED then 0x9F else if lead == 0xF4 then 0x8F else 0xBF)
  }

  predicate Continuation(b: Byte) {
    0x80 <= b <= 0xBF
  }

  /** The bytes start with a whole rune. */
  predicate StartsRune(b: seq<Byte>) {
    && b != [] && 0 < Size(b[0]) <= |b|
    && (Size(b[0]) >= 2 ==> SecondByte(b[0], b[1]))
    && (Size(b[0]) >= 3 ==> Continuation(b[2]))
    && (Size(b[0]) == 4 ==> Continuation(b[3]))
  }

  /** Six more bits. */
  function Push(x: int, b: Byte): int {
    x * 0x40 + (b - 0x80)
  }

  /** The first rune and how many bytes it took. */
  function DecodeRune(b: seq<Byte>): (d: (Rune, nat))
    requires b != []
    ensures 1 <= d.1 <= |b|
  {
    if !StartsRune(b) then (RUNE_ERROR, 1)
    else match Size(b[0])
      case 1 => (b[0], 1)
      case 2 => (Push(b[0] - 0xC0, b[1]), 2)
      case 3 => (Push(Push(b[0] - 0xE0, b[1]), b[2]), 3)
      case _ => (Push(Push(Push(b[0] - 0xF0, b[1]), b[2]), b[3]), 4)
  }

  function Runes(b: seq<Byte>): seq<Rune>
    decreases |b|
  {
    if b == [] then [] else [DecodeRune(b).0] + Runes(b[DecodeRune(b).1..])
  }

  predicate Valid(b: seq<Byte>)
    decreases |b|
  {
    b == [] || (StartsRune(b) && Valid(b[DecodeRune(b).1..]))
  }

  // ---------------------------------------------------------------- one rune

  lemma PushTail(x: nat)
    ensures Push(x / 0x40, Tail(x)) == x
  {
  }

  lemma TailPush(x: nat, b: Byte)
    requires Continuation(b)
    ensures Push(x, b) >= 0 && Push(x, b) / 0x40 == x && Tail(Push(x, b)) == b
  {
  }

  lemma DecodeOfEncode(r: Rune, rest: seq<Byte>)
    ensures StartsRune(Encode(r) + rest) && DecodeRune(Encode(r) + rest) == (r, |Encode(r)|)
  {
    var e := Encode(r);
    assert (e + rest)[..|e|] == e;
    PushTail(r);
    PushTail(r / 0x40);
    PushTail(r / 0x40 / 0x40);
  }

  /** The byte carries this mark and bits below the bound. */
  predicate Under(b: Byte, mark: int, bound: int) {
    mark <= b < mark + bound
  }

  /** One to four bytes by the size of the rune, with its bits in this order under these marks. */
  lemma EncodeInBits(r: Rune)
    ensures r < 0x80 ==> Encode(r) == [r]
    ensures 0x80 <= r < 0x800 ==>
      var s := Encode(r);
      && |s| == 2 && Under(s[0], 0xC0, 0x20) && Under(s[1], 0x80, 0x40)
      && r as int == 0x40 * (s[0] as int - 0xC0) + (s[1] as int - 0x80)
    ensures 0x800 <= r < 0x10000 ==>
      var s := Encode(r);
      && |s| == 3 && Under(s[0], 0xE0, 0x10) && Under(s[1], 0x80, 0x40) && Under(s[2], 0x80, 0x40)
      && r as int == 0x1000 * (s[0] as int - 0xE0) + 0x40 * (s[1] as int - 0x80) + (s[2] as int - 0x80)
    ensures 0x10000 <= r ==>
      var s := Encode(r);
      && |s| == 4 && Under(s[0], 0xF0, 0x08)
      && Under(s[1], 0x80, 0x40) && Under(s[2], 0x80, 0x40) && Under(s[3], 0x80, 0x40)
      && r as int == 0x40000 * (s[0] as int - 0xF0) + 0x1000 * (s[1] as int - 0x80) +
                     0x40 * (s[2] as int - 0x80) + (s[3] as int - 0x80)
  {
  }

  /** Bytes start with a rune if they start with an encoding; if not, one byte counts as U+FFFD. */
  lemma StartsRuneIff(b: seq<Byte>)
    ensures StartsRune(b) <==> exists r: Rune :: Encode(r) <= b
    ensures b != [] && !StartsRune(b) ==> DecodeRune(b) == (0xFFFD, 1)
  {
    if StartsRune(b) {
      EncodeOfDecode(b);
      assert Encode(DecodeRune(b).0) <= b;
    }
    if r: Rune :| Encode(r) <= b {
      DecodeOfEncode(r, b[|Encode(r)|..]);
      assert b == Encode(r) + b[|Encode(r)|..];
    }
  }

  lemma EncodeOfTwo(b: seq<Byte>)
    requires StartsRune(b) && Size(b[0]) == 2
    ensures Encode(DecodeRune(b).0) == [b[0], b[1]]
  {
    TailPush(b[0] - 0xC0, b[1]);
  }

  lemma EncodeOfThree(b: seq<Byte>)
    requires StartsRune(b) && Size(b[0]) == 3
    ensures Encode(DecodeRune(b).0) == [b[0], b[1], b[2]]
  {
    var x := Push(b[0] - 0xE0, b[1]);
    TailPush(b[0] - 0xE0, b[1]);
    TailPush(x, b[2]);
    assert Push(x, b[2]) >= 0x800;
  }

  lemma EncodeOfFour(b: seq<Byte>)
    requires StartsRune(b) && Size(b[0]) == 4
    ensures Encode(DecodeRune(b).0) == [b[0], b[1], b[2], b[3]]
  {
    var x := Push(b[0] - 0xF0, b[1]);
    var y := Push(x, b[2]);
    TailPush(b[0] - 0xF0, b[1]);
    TailPush(x, b[2]);
    TailPush(y, b[3]);
    var z := Push(y, b[3]);
    assert z / 0x40 == y && y / 0x40 == x && x / 0x40 == b[0] - 0xF0;
    assert z >= 0x10000;
  }

  lemma EncodeOfDecode(b: seq<Byte>)
    requires StartsRune(b)
    ensures Encode(DecodeRune(b).0) == b[..DecodeRune(b).1]
  {
    if Size(b[0]) == 2 {
      EncodeOfTwo(b);
    } else if Size(b[0]) == 3 {
      EncodeOfThree(b);
    } else if Size(b[0]) == 4 {
      EncodeOfFour(b);
    }
  }

  // ---------------------------------------------------------------- whole strings

  lemma {:induction false} DecodeOfEncodeAll(rs: seq<Rune>)
    ensures Runes(EncodeAll(rs)) == rs && Valid(EncodeAll(rs))
  {
    if rs != [] {
      DecodeOfEncode(rs[0], EncodeAll(rs[1..]));
      DecodeOfEncodeAll(rs[1..]);
      assert EncodeAll(rs)[|Encode(rs[0])|..] == EncodeAll(rs[1..]);
    }
  }

  lemma RunesStep(b: seq<Byte>)
    requires b != []
    ensures EncodeAll(Runes(b)) == Encode(DecodeRune(b).0) + EncodeAll(Runes(b[DecodeRune(b).1..]))
  {
    assert Runes(b)[1..] == Runes(b[DecodeRune(b).1..]);
  }

  /** Decoding and encoding again gives the same bytes exactly if they were valid; otherwise it gives more. */
  lemma {:induction false} ValidIff(b: seq<Byte>)
    ensures if Valid(b) then EncodeAll(Runes(b)) == b else |EncodeAll(Runes(b))| > |b|
    decreases |b|
  {
    if b != [] {
      var (r, n) := DecodeRune(b);
      var rest := b[n..];
      assert b == b[..n] + rest;
      RunesStep(b);
      ValidIff(rest);
      if StartsRune(b) {
        EncodeOfDecode(b);
      } else {
        assert |Encode(RUNE_ERROR)| == 3;
      }
    }
  }

  lemma Associative(a: seq<Byte>, b: seq<Byte>, c: seq<Byte>)
    ensures a + (b + c) == (a + b) + c
  {
  }

  lemma EncodeAllCons(r: Rune, rs: seq<Rune>)
    ensures EncodeAll([r] + rs) == Encode(r) + EncodeAll(rs)
  {
    assert ([r] + rs)[1..] == rs;
  }

  lemma {:induction false} EncodeAllAppend(a: seq<Rune>, b: seq<Rune>)
    ensures EncodeAll(a + b) == EncodeAll(a) + EncodeAll(b)
  {
    if a == [] {
      assert a + b == b;
    } else {
      EncodeAllAppend(a[1..], b);
      assert a + b == [a[0]] + (a[1..] + b);
      EncodeAllCons(a[0], a[1..] + b);
      Associative(Encode(a[0]), EncodeAll(a[1..]), EncodeAll(b));
    }
  }

  /** The encoding of the first j runes. */
  lemma PrefixLength(rs: seq<Rune>, j: nat)
    requires j < |rs|
    ensures EncodeAll(rs[..j + 1]) == EncodeAll(rs[..j]) + Encode(rs[j])
  {
    assert rs[..j + 1] == rs[..j] + [rs[j]];
    EncodeAllAppend(rs[..j], [rs[j]]);
  }

  lemma PrefixBytes(rs: seq<Rune>, j: nat)
    requires j <= |rs|
    ensures |EncodeAll(rs[..j])| <= |EncodeAll(rs)| && EncodeAll(rs)[..|EncodeAll(rs[..j])|] == EncodeAll(rs[..j])
  {
    assert rs == rs[..j] + rs[j..];
    EncodeAllAppend(rs[..j], rs[j..]);
  }

  /** A cut inside a rune leaves something no rune starts with. */
  lemma CutRune(r: Rune, k: nat)
    requires 0 < k < |Encode(r)|
    ensures !StartsRune(Encode(r)[..k])
  {
  }

  /** Cutting an encoded string leaves valid bytes only at the end of a rune. */
  lemma {:induction false} ValidCut(rs: seq<Rune>, m: nat) returns (j: nat)
    requires m <= |EncodeAll(rs)| && Valid(EncodeAll(rs)[..m])
    ensures j <= |rs| && m == |EncodeAll(rs[..j])|
  {
    if m == 0 {
      return 0;
    }
    var e := Encode(rs[0]);
    var cut := EncodeAll(rs)[..m];
    if m < |e| {
      assert cut == e[..m];
      CutRune(rs[0], m);
      assert false;
    } else {
      var rest := EncodeAll(rs[1..])[..m - |e|];
      assert cut == e + rest;
      DecodeOfEncode(rs[0], rest);
      assert cut[|e|..] == rest;
      var k := ValidCut(rs[1..], m - |e|);
      j := k + 1;
      assert rs[..j][1..] == rs[1..][..k];
    }
  }

  /** And at the end of any rune it does. */
  lemma CutIsValid(rs: seq<Rune>, j: nat)
    requires j <= |rs|
    ensures |EncodeAll(rs[..j])| <= |EncodeAll(rs)| && Valid(EncodeAll(rs)[..|EncodeAll(rs[..j])|])
  {
    PrefixBytes(rs, j);
    DecodeOfEncodeAll(rs[..j]);
  }
}
