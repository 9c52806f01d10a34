/** The preview sanitizer: no 7-bit control sequences, no control characters below 0x20, no cut inside a rune. */
module Sanitize {
  import opened Options
  import opened Utf8

  const ESC: Byte := 0x1B

  // ---------------------------------------------------------------- control sequences

  predicate Parameter(b: Byte) {
    0x30 <= b <= 0x3F
  }

  predicate Intermediate(b: Byte) {
    0x20 <= b <= 0x2F
  }

  predicate Final(b: Byte) {
    0x40 <= b <= 0x7E
  }

  /**
   * A control sequence as section 5.4 of ECMA-48 has it, in its 7-bit form: the introducer ESC [, any number
   * of parameter bytes, then of intermediate bytes, and one final byte.
   */
  ghost predicate ControlSequence(s: seq<Byte>) {
    exists p :: 2 <= p < |s| && ControlParts(s, p)
  }

  ghost predicate ControlParts(s: seq<Byte>, p: nat)
    requires 2 <= p < |s|
  {
    && s[0] == ESC && s[1] == 0x5B && Final(s[|s| - 1])
    && (forall k :: 2 <= k < p ==> Parameter(s[k]))
    && (forall k :: p <= k < |s| - 1 ==> Intermediate(s[k]))
  }

  /** The first index from i on that holds no byte of the class. */
  function SkipParameters(b: seq<Byte>, i: nat): (j: nat)
    requires i <= |b|
    ensures i <= j <= |b| && (forall k :: i <= k < j ==> Parameter(b[k])) && (j < |b| ==> !Parameter(b[j]))
    decreases |b| - i
  {
    if i < |b| && Parameter(b[i]) then SkipParameters(b, i + 1) else i
  }

  function SkipIntermediates(b: seq<Byte>, i: nat): (j: nat)
    requires i <= |b|
    ensures i <= j <= |b| && (forall k :: i <= k < j ==> Intermediate(b[k])) && (j < |b| ==> !Intermediate(b[j]))
    decreases |b| - i
  {
    if i < |b| && Intermediate(b[i]) then SkipIntermediates(b, i + 1) else i
  }

  /** Where the match at the start of b ends, if there is one; each repetition takes all it can. */
  function MatchEnd(b: seq<Byte>): (j: Option<nat>)
    ensures j.Some? ==> 3 <= j.value <= |b|
  {
    if |b| >= 2 && b[0] == ESC && b[1] == 0x5B then
      var q := SkipIntermediates(b, SkipParameters(b, 2));
      if q < |b| && Final(b[q]) then Some(q + 1) else None
    else None
  }

  /** The greedy match finds a control sequence if the bytes start with one, and there is only one to find. */
  lemma MatchIsControlSequence(b: seq<Byte>, j: nat)
    requires j <= |b|
    ensures MatchEnd(b) == Some(j) <==> ControlSequence(b[..j])
  {
    if MatchEnd(b) == Some(j) {
      assert ControlParts(b[..j], SkipParameters(b, 2));
    }
    if ControlSequence(b[..j]) {
      var s := b[..j];
      var p :| 2 <= p < |s| && ControlParts(s, p);
      assert forall k :: 2 <= k < p ==> s[k] == b[k] && Parameter(b[k]);
      assert forall k :: p <= k < j - 1 ==> s[k] == b[k] && Intermediate(b[k]);
      assert s[j - 1] == b[j - 1] && !Intermediate(b[j - 1]) && !Parameter(b[p]);
      assert SkipParameters(b, 2) == p;
      assert SkipIntermediates(b, p) == j - 1;
    }
  }

  /** One pass from the left: a match is dropped, any other byte kept. */
  function Strip(b: seq<Byte>): seq<Byte>
    decreases |b|
  {
    if b == [] then []
    else if MatchEnd(b).Some? then Strip(b[MatchEnd(b).value..])
    else [b[0]] + Strip(b[1..])
  }

  /** In bytes: ESC [, bytes 0x30 to 0x3F, bytes 0x20 to 0x2F, and one byte 0x40 to 0x7E. */
  ghost predicate ControlBytes(s: seq<Byte>, params: seq<Byte>, inter: seq<Byte>, last: Byte) {
    && s == [0x1B, 0x5B] + params + inter + [last] && 0x40 <= last <= 0x7E
    && (forall b :: b in params ==> 0x30 <= b <= 0x3F) && (forall b :: b in inter ==> 0x20 <= b <= 0x2F)
  }

  lemma ControlSequenceInBytes(s: seq<Byte>)
    ensures ControlSequence(s) <==> exists params, inter, last :: ControlBytes(s, params, inter, last)
  {
    if ControlSequence(s) {
      var p :| 2 <= p < |s| && ControlParts(s, p);
      var k := |s| - 1;
      assert s == [0x1B, 0x5B] + s[2..p] + s[p..k] + [s[k]];
      assert ControlBytes(s, s[2..p], s[p..k], s[k]);
    }
    if exists params, inter, last :: ControlBytes(s, params, inter, last) {
      var params, inter, last :| ControlBytes(s, params, inter, last);
      var p := 2 + |params|;
      assert forall k :: 2 <= k < p ==> s[k] == params[k - 2] && params[k - 2] in params;
      assert forall k :: p <= k < |s| - 1 ==> s[k] == inter[k - p] && inter[k - p] in inter;
      assert ControlParts(s, p);
    }
  }

  /** A control sequence at the start is taken out as a whole. */
  lemma SequenceIsStripped(s: seq<Byte>, rest: seq<Byte>)
    requires ControlSequence(s)
    ensures Strip(s + rest) == Strip(rest)
  {
    assert (s + rest)[..|s|] == s && (s + rest)[|s|..] == rest;
    MatchIsControlSequence(s + rest, |s|);
  }

  /** Where none starts, one byte is kept. */
  lemma OtherIsKept(b: seq<Byte>)
    requires b != [] && forall j :: 0 <= j <= |b| ==> !ControlSequence(b[..j])
    ensures Strip(b) == [b[0]] + Strip(b[1..])
  {
    if MatchEnd(b).Some? {
      MatchIsControlSequence(b, MatchEnd(b).value);
    }
  }

  /** Text without ESC, and control sequences, in any order. */
  datatype Piece = Text(text: seq<Byte>) | Control(control: seq<Byte>)

  ghost predicate Proper(pieces: seq<Piece>) {
    forall p :: p in pieces ==> if p.Text? then 0x1B !in p.text else ControlSequence(p.control)
  }

  function Whole(pieces: seq<Piece>): seq<Byte> {
    if pieces == [] then []
    else (if pieces[0].Text? then pieces[0].text else pieces[0].control) + Whole(pieces[1..])
  }

  function Texts(pieces: seq<Piece>): seq<Byte> {
    if pieces == [] then [] else (if pieces[0].Text? then pieces[0].text else []) + Texts(pieces[1..])
  }

  lemma {:induction false} TextIsKept(text: seq<Byte>, rest: seq<Byte>)
    requires 0x1B !in text
    ensures Strip(text + rest) == text + Strip(rest)
  {
    if text == [] {
      assert text + rest == rest;
    } else {
      assert text[0] in text;
      var tail := text[1..];
      TextIsKept(tail, rest);
      PlainByte(text[0], tail + rest);
      assert text + rest == [text[0]] + (tail + rest) && text + Strip(rest) == [text[0]] + (tail + Strip(rest));
    }
  }

  lemma PlainByte(b: Byte, rest: seq<Byte>)
    requires b != 0x1B
    ensures Strip([b] + rest) == [b] + Strip(rest)
  {
    assert ([b] + rest)[1..] == rest;
  }

  /** What is left is the text between the control sequences, all of it and nothing else. */
  lemma {:induction false} TextsAreLeft(pieces: seq<Piece>)
    requires Proper(pieces)
    ensures Strip(Whole(pieces)) == Texts(pieces)
  {
    if pieces != [] {
      assert pieces[0] in pieces;
      TextsAreLeft(pieces[1..]);
      if pieces[0].Text? {
        TextIsKept(pieces[0].text, Whole(pieces[1..]));
      } else {
        SequenceIsStripped(pieces[0].control, Whole(pieces[1..]));
      }
    }
  }

  lemma {:induction false} NothingToStrip(b: seq<Byte>)
    requires ESC !in b
    ensures Strip(b) == b
  {
    if b != [] {
      assert b[0] in b;
      NothingToStrip(b[1..]);
    }
  }

  // ---------------------------------------------------------------- what a preview is

  predicate Shown(r: Rune) {
    r == 0x0A || r == 0x0D || r == 0x09 || r >= 0x20
  }

  function Filter(rs: seq<Rune>): (kept: seq<Rune>)
    ensures forall r :: r in kept ==> Shown(r)
  {
    if rs == [] then [] else (if Shown(rs[0]) then [rs[0]] else []) + Filter(rs[1..])
  }

  /** What there is to show: control sequences out, the rest decoded anew, control characters below 0x20 out. */
  function Cleaned(input: seq<Byte>): seq<Rune> {
    Filter(Runes(Strip(input)))
  }

  /** The first j runes are as many as fit; no bound when maxBytes is not positive. */
  predicate Fits(rs: seq<Rune>, maxBytes: int, j: nat)
    requires j <= |rs|
  {
    if maxBytes <= 0 then j == |rs|
    else |EncodeAll(rs[..j])| <= maxBytes && (j < |rs| ==> |EncodeAll(rs[..j + 1])| > maxBytes)
  }

  ghost predicate IsPreview(input: seq<Byte>, maxBytes: int, out: seq<Byte>) {
    exists j :: 0 <= j <= |Cleaned(input)| && Fits(Cleaned(input), maxBytes, j) && out == EncodeAll(Cleaned(input)[..j])
  }

  /** A rune is shown unless it is below 0x20 and not tab, CR or LF; those shown are kept, in order. */
  lemma {:induction false} FilterKeepsOrder(a: seq<Rune>, b: seq<Rune>)
    ensures Filter(a + b) == Filter(a) + Filter(b)
    ensures |a| == 1 ==>
              Filter(a) == if a[0] >= 0x20 || a[0] == 0x09 || a[0] == 0x0A || a[0] == 0x0D then a else []
  {
    if a == [] {
      assert a + b == b;
    } else {
      FilterKeepsOrder(a[1..], b);
      assert (a + b)[1..] == a[1..] + b;
    }
  }

  /** Control sequences between texts make no difference to any preview of them. */
  lemma PreviewOfPieces(pieces: seq<Piece>, maxBytes: int, out: seq<Byte>)
    requires Proper(pieces)
    ensures Cleaned(Whole(pieces)) == Filter(Runes(Texts(pieces)))
    ensures IsPreview(Whole(pieces), maxBytes, out) <==> IsPreview(Texts(pieces), maxBytes, out)
  {
    TextsAreLeft(pieces);
    TextsHaveNoEscape(pieces);
    NothingToStrip(Texts(pieces));
    SameCleaned(Whole(pieces), Texts(pieces), maxBytes, out);
  }

  lemma SameCleaned(a: seq<Byte>, b: seq<Byte>, maxBytes: int, out: seq<Byte>)
    requires Cleaned(a) == Cleaned(b)
    ensures IsPreview(a, maxBytes, out) <==> IsPreview(b, maxBytes, out)
  {
  }

  lemma {:induction false} TextsHaveNoEscape(pieces: seq<Piece>)
    requires Proper(pieces)
    ensures 0x1B !in Texts(pieces)
  {
    if pieces != [] {
      assert pieces[0] in pieces;
      TextsHaveNoEscape(pieces[1..]);
    }
  }

  /** The longest valid cut of an encoding, within the bound, is the longest run of whole runes within it. */
  lemma CutFits(rs: seq<Rune>, k: nat, maxBytes: int, n: nat)
    requires k <= |rs| && n <= maxBytes < |EncodeAll(rs[..k])|
    requires Valid(EncodeAll(rs[..k])[..n])
    requires forall m :: n < m <= maxBytes ==> !Valid(EncodeAll(rs[..k])[..m])
    ensures maxBytes > 0 ==>
              exists j :: 0 <= j <= |rs| && Fits(rs, maxBytes, j) && EncodeAll(rs[..k])[..n] == EncodeAll(rs[..j])
  {
    var kept := rs[..k];
    var j := ValidCut(kept, n);
    PrefixBytes(kept, j);
    assert kept[..j] == rs[..j];
    if j < k {
      assert kept[..j + 1] == rs[..j + 1];
      CutIsValid(kept, j + 1);
      PrefixLength(kept, j);
    }
  }

  lemma AllFits(rs: seq<Rune>, k: nat, maxBytes: int)
    requires k <= |rs| && (maxBytes > 0 ==> |EncodeAll(rs[..k])| <= maxBytes)
    requires k == |rs| || (maxBytes > 0 && |EncodeAll(rs[..k])| >= maxBytes)
    ensures Fits(rs, maxBytes, k)
  {
    if k < |rs| {
      PrefixLength(rs, k);
    }
  }

  lemma FilterPush(kept: seq<Rune>, r: Rune, tail: seq<Rune>)
    ensures kept + Filter([r] + tail) == (if Shown(r) then kept + [r] else kept) + Filter(tail)
  {
    assert ([r] + tail)[1..] == tail;
  }

  lemma EncodePush(kept: seq<Rune>, r: Rune)
    ensures EncodeAll(kept + [r]) == EncodeAll(kept) + Encode(r)
  {
    EncodeAllAppend(kept, [r]);
    assert EncodeAll([r]) == Encode(r);
  }

  // ---------------------------------------------------------------- the program

  /** After i bytes, b holds the runes kept so far, and the rest of the runes to show are still ahead. */
  ghost predicate Collected(clean: seq<Byte>, i: nat, b: seq<Byte>, kept: seq<Rune>) {
    i <= |clean| && b == EncodeAll(kept) && Filter(Runes(clean)) == kept + Filter(Runes(clean[i..]))
  }

  lemma CollectNext(clean: seq<Byte>, i: nat, b: seq<Byte>, kept: seq<Rune>, r: Rune, n: nat)
    requires Collected(clean, i, b, kept) && i + n <= |clean| && Runes(clean[i..]) == [r] + Runes(clean[i + n..])
    ensures if Shown(r) then Collected(clean, i + n, b + Encode(r), kept + [r]) else Collected(clean, i + n, b, kept)
  {
    FilterPush(kept, r, Runes(clean[i + n..]));
    EncodePush(kept, r);
  }

  /** The rune at i of the string ranged over. */
  method NextRune(clean: seq<Byte>, i: nat, ghost b: seq<Byte>, ghost kept: seq<Rune>) returns (r: Rune, n: nat)
    requires i < |clean| && Collected(clean, i, b, kept)
    ensures (r, n) == DecodeRune(clean[i..])
    ensures if Shown(r) then Collected(clean, i + n, b + Encode(r), kept + [r]) else Collected(clean, i + n, b, kept)
  {
    var d := DecodeRune(clean[i..]);
    r, n := d.0, d.1;
    assert clean[i..][n..] == clean[i + n..];
    CollectNext(clean, i, b, kept, r, n);
  }

  lemma CollectEnds(clean: seq<Byte>, i: nat, b: seq<Byte>, kept: seq<Rune>)
    requires Collected(clean, i, b, kept)
    ensures var rs := Filter(Runes(clean));
            |kept| <= |rs| && b == EncodeAll(rs[..|kept|]) && (i == |clean| ==> |kept| == |rs|)
  {
    assert Filter(Runes(clean))[..|kept|] == kept;
  }

  /** b is the first k runes, and these are all, or reach the bound. */
  ghost predicate Enough(rs: seq<Rune>, maxBytes: int, b: seq<Byte>, k: nat) {
    k <= |rs| && b == EncodeAll(rs[..k]) && (k == |rs| || (maxBytes > 0 && |b| >= maxBytes))
  }

  /** The first loop: the runes to show, until there are enough bytes of them. */
  method CollectRunes(clean: seq<Byte>, maxBytes: int) returns (b: seq<Byte>, i: nat, ghost kept: seq<Rune>)
    ensures Collected(clean, i, b, kept) && (i == |clean| || (maxBytes > 0 && |b| >= maxBytes))
  {
    b, i, kept := [], 0, [];
    assert clean[0..] == clean;
    while i < |clean|
      invariant Collected(clean, i, b, kept)
    {
      var r, n := NextRune(clean, i, b, kept);
      if Shown(r) {
        b, kept := b + Encode(r), kept + [r];
      }
      i := i + n;
      assert Collected(clean, i, b, kept);
      if maxBytes > 0 && |b| >= maxBytes {
        break;
      }
    }
  }

  method Collect(clean: seq<Byte>, maxBytes: int) returns (b: seq<Byte>)
    ensures exists k: nat :: Enough(Filter(Runes(clean)), maxBytes, b, k)
  {
    ghost var i, kept;
    b, i, kept := CollectRunes(clean, maxBytes);
    CollectEnds(clean, i, b, kept);
    assert Enough(Filter(Runes(clean)), maxBytes, b, |kept|);
  }

  /** The second loop: shortens a cut until it is valid. */
  method Shorten(b: seq<Byte>, maxBytes: nat) returns (out: seq<Byte>)
    requires maxBytes <= |b|
    ensures |out| <= maxBytes && out == b[..|out|] && Valid(out)
    ensures forall m :: |out| < m <= maxBytes ==> !Valid(b[..m])
  {
    out := b[..maxBytes];
    while !Valid(out) && |out| > 0
      invariant |out| <= maxBytes && out == b[..|out|]
      invariant forall m :: |out| < m <= maxBytes ==> !Valid(b[..m])
    {
      out := out[..|out| - 1];
    }
  }

  method SanitizePreview(input: seq<Byte>, maxBytes: int) returns (out: seq<Byte>)
    ensures IsPreview(input, maxBytes, out)
  {
    if input == [] {
      assert Fits(Cleaned(input), maxBytes, 0);
      return [];
    }
    out := Collect(Strip(input), maxBytes);
    ghost var k: nat :| Enough(Cleaned(input), maxBytes, out, k);
    if maxBytes > 0 && |out| > maxBytes {
      out := Shorten(out, maxBytes);
      CutFits(Cleaned(input), k, maxBytes, |out|);
    } else {
      AllFits(Cleaned(input), k, maxBytes);
    }
  }

  // ---------------------------------------------------------------- what previews are like

  lemma {:induction false} Longer(rs: seq<Rune>, i: nat, j: nat)
    requires i < j <= |rs|
    ensures |EncodeAll(rs[..i])| < |EncodeAll(rs[..j])|
    decreases j
  {
    PrefixLength(rs, j - 1);
    if i < j - 1 {
      Longer(rs, i, j - 1);
    }
  }

  /** There is only one preview of an input, so the method has no choice. */
  lemma PreviewIsUnique(input: seq<Byte>, maxBytes: int, a: seq<Byte>, b: seq<Byte>)
    requires IsPreview(input, maxBytes, a) && IsPreview(input, maxBytes, b)
    ensures a == b
  {
    var rs := Cleaned(input);
    var i :| 0 <= i <= |rs| && Fits(rs, maxBytes, i) && a == EncodeAll(rs[..i]);
    var j :| 0 <= j <= |rs| && Fits(rs, maxBytes, j) && b == EncodeAll(rs[..j]);
    if i != j && maxBytes > 0 {
      var low, high := if i < j then i else j, if i < j then j else i;
      if low + 1 < high {
        Longer(rs, low + 1, high);
      }
    }
  }

  /**
   * A preview is what there is to show, or as many whole runes of it as fit: any beginning of it that is
   * not longer than the bound is a beginning of the preview.
   */
  lemma PreviewIsLongest(input: seq<Byte>, maxBytes: int, out: seq<Byte>, k: nat)
    requires IsPreview(input, maxBytes, out) && k <= |Cleaned(input)|
    ensures exists j :: 0 <= j <= |Cleaned(input)| && out == EncodeAll(Cleaned(input)[..j])
    ensures maxBytes <= 0 ==> out == EncodeAll(Cleaned(input))
    ensures maxBytes > 0 ==> |out| <= maxBytes
    ensures |EncodeAll(Cleaned(input)[..k])| <= maxBytes ==> EncodeAll(Cleaned(input)[..k]) <= out
  {
    var rs := Cleaned(input);
    var j :| 0 <= j <= |rs| && Fits(rs, maxBytes, j) && out == EncodeAll(rs[..j]);
    assert rs[..|rs|] == rs;
    if maxBytes > 0 && |EncodeAll(rs[..k])| <= maxBytes {
      if k > j + 1 {
        Longer(rs, j + 1, k);
      }
      if k <= j {
        PrefixBytes(rs[..j], k);
        assert rs[..j][..k] == rs[..k];
      }
    }
  }

  predicate HarmlessByte(b: Byte) {
    b == 0x0A || b == 0x0D || b == 0x09 || b >= 0x20
  }

  lemma {:induction false} ShownEncodesHarmless(rs: seq<Rune>)
    requires forall r :: r in rs ==> Shown(r)
    ensures forall b :: b in EncodeAll(rs) ==> HarmlessByte(b)
  {
    if rs != [] {
      assert rs[0] in rs;
      assert forall b :: b in Encode(rs[0]) ==> HarmlessByte(b);
      ShownEncodesHarmless(rs[1..]);
    }
  }

  lemma {:induction false} NothingToFilter(rs: seq<Rune>)
    requires forall r :: r in rs ==> Shown(r)
    ensures Filter(rs) == rs
  {
    if rs != [] {
      assert rs[0] in rs;
      NothingToFilter(rs[1..]);
    }
  }

  lemma ShownStaysClean(rs: seq<Rune>)
    requires forall r :: r in rs ==> Shown(r)
    ensures Cleaned(EncodeAll(rs)) == rs
  {
    ShownEncodesHarmless(rs);
    assert ESC !in EncodeAll(rs) by {
      assert !HarmlessByte(ESC);
    }
    NothingToStrip(EncodeAll(rs));
    DecodeOfEncodeAll(rs);
    NothingToFilter(rs);
  }

  /**
   * A preview is valid UTF-8, keeps to the bound, and holds no control character below 0x20 but tab, CR and
   * LF, and so nowhere a 7-bit control sequence.
   */
  lemma PreviewIsSafe(input: seq<Byte>, maxBytes: int, out: seq<Byte>)
    requires IsPreview(input, maxBytes, out)
    ensures Valid(out) && (maxBytes > 0 ==> |out| <= maxBytes)
    ensures forall b :: b in out ==> b >= 0x20 || b == 0x09 || b == 0x0A || b == 0x0D
    ensures forall i, j :: 0 <= i <= j <= |out| ==> !ControlSequence(out[i..j])
  {
    var rs := Cleaned(input);
    var j :| 0 <= j <= |rs| && Fits(rs, maxBytes, j) && out == EncodeAll(rs[..j]);
    ShownEncodesHarmless(rs[..j]);
    DecodeOfEncodeAll(rs[..j]);
    forall i, j | 0 <= i <= j <= |out| ensures !ControlSequence(out[i..j]) {
      if i < j {
        assert out[i] in out;
      }
    }
  }

  // ---------------------------------------------------------------- the control characters that stay

  /** DEL, and the control characters U+0080 to U+009F, among them the 8-bit introducer of control sequences. */
  predicate LaterControl(r: Rune) {
    0x7F <= r <= 0x9F
  }

  lemma {:induction false} FilterKeepsShown(rs: seq<Rune>, r: Rune)
    requires Shown(r)
    ensures r in Filter(rs) <==> r in rs
  {
    if rs != [] {
      FilterKeepsShown(rs[1..], r);
      assert rs == [rs[0]] + rs[1..];
    }
  }

  /**
   * DEL or a later control character is in a preview if and only if it is among the runes that fit. None of
   * them is taken out: without a bound, what control sequences leave of the input decides.
   */
  lemma LaterControlsStayIff(input: seq<Byte>, maxBytes: int, out: seq<Byte>, r: Rune) returns (j: nat)
    requires IsPreview(input, maxBytes, out) && LaterControl(r)
    ensures j <= |Cleaned(input)| && Fits(Cleaned(input), maxBytes, j)
    ensures r in Runes(out) <==> r in Cleaned(input)[..j]
    ensures maxBytes <= 0 ==> (r in Runes(out) <==> r in Runes(Strip(input)))
  {
    var rs := Cleaned(input);
    j :| 0 <= j <= |rs| && Fits(rs, maxBytes, j) && out == EncodeAll(rs[..j]);
    DecodeOfEncodeAll(rs[..j]);
    FilterKeepsShown(Runes(Strip(input)), r);
    if maxBytes <= 0 {
      assert rs[..j] == rs;
    }
  }

  /** So a preview can hold DEL, and a control sequence in its 8-bit form: U+009B is its introducer. */
  lemma EightBitSequenceStays()
    ensures var b: seq<Byte> := [0xC2, 0x9B, 0x6D, 0x7F];
            IsPreview(b, 0, b) && Runes(b) == [0x9B, 0x6D, 0x7F]
  {
    var rs: seq<Rune> := [0x9B, 0x6D, 0x7F];
    assert rs[1..] == [0x6D, 0x7F] && rs[1..][1..] == [0x7F] && rs[1..][1..][1..] == [];
    assert EncodeAll(rs) == [0xC2, 0x9B, 0x6D, 0x7F];
    DecodeOfEncodeAll(rs);
    SafeTextIsKept(EncodeAll(rs));
  }

  /** A preview is its own preview, under the same bound or none. */
  lemma PreviewIsIdempotent(input: seq<Byte>, maxBytes: int, out: seq<Byte>)
    requires IsPreview(input, maxBytes, out)
    ensures IsPreview(out, maxBytes, out) && IsPreview(out, 0, out)
  {
    var rs := Cleaned(input);
    var j :| 0 <= j <= |rs| && Fits(rs, maxBytes, j) && out == EncodeAll(rs[..j]);
    var kept := rs[..j];
    ShownStaysClean(kept);
    assert kept[..j] == kept;
    assert Fits(kept, maxBytes, j) && Fits(kept, 0, j);
  }

  lemma {:induction false} HarmlessIsShown(b: seq<Byte>)
    requires Valid(b) && forall x :: x in b ==> HarmlessByte(x)
    ensures forall r :: r in Runes(b) ==> Shown(r)
    decreases |b|
  {
    if b != [] {
      var (r, n) := DecodeRune(b);
      EncodeOfDecode(b);
      assert b[0] in b && HarmlessByte(b[0]);
      assert Encode(r)[0] == b[0];
      HarmlessIsShown(b[n..]);
    }
  }

  /** Exactly the texts that are already safe come back as they are when there is no bound. */
  lemma SafeTextIsKept(b: seq<Byte>)
    ensures IsPreview(b, 0, b) <==>
            Valid(b) && forall x :: x in b ==> x >= 0x20 || x == 0x09 || x == 0x0A || x == 0x0D
  {
    if IsPreview(b, 0, b) {
      PreviewIsSafe(b, 0, b);
    }
    if Valid(b) && forall x :: x in b ==> HarmlessByte(x) {
      assert ESC !in b by {
        assert !HarmlessByte(ESC);
      }
      NothingToStrip(b);
      HarmlessIsShown(b);
      NothingToFilter(Runes(b));
      ValidIff(b);
      var rs := Cleaned(b);
      assert rs[..|rs|] == rs;
      assert Fits(rs, 0, |rs|);
    }
  }

  /** The single pass alone is not idempotent: taking one sequence out can put another together. */
  lemma StripAloneIsNotIdempotent()
    ensures var b: seq<Byte> := [ESC, ESC, 0x5B, 0x6D, 0x5B, 0x6D];
            Strip(b) == [ESC, 0x5B, 0x6D] && Strip(Strip(b)) == []
  {
    var b: seq<Byte> := [ESC, ESC, 0x5B, 0x6D, 0x5B, 0x6D];
    assert b[1..] == [ESC, 0x5B, 0x6D, 0x5B, 0x6D];
    assert MatchEnd(b) == None;
    assert ControlSequence(b[1..][..3]) by {
      assert ControlParts(b[1..][..3], 2);
    }
    MatchIsControlSequence(b[1..], 3);
    assert b[1..][3..] == [0x5B, 0x6D];
    NothingToStrip([0x5B, 0x6D]);
    var c: seq<Byte> := [ESC, 0x5B, 0x6D];
    assert ControlSequence(c[..3]) by {
      assert ControlParts(c[..3], 2);
    }
    MatchIsControlSequence(c, 3);
    assert c[3..] == [];
  }
}
