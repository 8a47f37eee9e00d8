/**
  Standard base64 (section 4 of RFC 4648) the way Go's `base64.StdEncoding` reads and writes it:
  padding is required, line breaks are skipped, and the unused low bits before padding are ignored.
 */
module Base64 {
  import opened Wrappers

  newtype byte = x: int | 0 <= x < 256

  const PAD: byte := 61
  const ALPHABET_SIZE := 64

  function CharOf(i: nat): (c: byte)
    requires i < ALPHABET_SIZE
    ensures ValueOf(c) == Some(i)
    ensures c != PAD && !IsLineBreak(c)
  {
    if i < 26 then (65 + i) as byte
    else if i < 52 then (71 + i) as byte
    else if i < 62 then (i - 4) as byte
    else if i == 62 then 43
    else 47
  }

  function ValueOf(c: byte): (v: Option<nat>)
    ensures v.Some? ==> v.value < ALPHABET_SIZE
  {
    if 65 <= c <= 90 then Some(c as int - 65)
    else if 97 <= c <= 122 then Some(c as int - 71)
    else if 48 <= c <= 57 then Some(c as int + 4)
    else if c == 43 then Some(62)
    else if c == 47 then Some(63)
    else None
  }

  predicate IsLineBreak(c: byte) {
    c == 10 || c == 13
  }

  /** The four characters of a group of one, two or three bytes. */
  function EncodeGroup(b: seq<byte>): (s: seq<byte>)
    requires 1 <= |b| <= 3
    ensures |s| == 4
  {
    var b0 := b[0] as int;
    var b1 := if |b| > 1 then b[1] as int else 0;
    var b2 := if |b| > 2 then b[2] as int else 0;
    [ CharOf(b0 / 4),
      CharOf(b0 % 4 * 16 + b1 / 16),
      if |b| > 1 then CharOf(b1 % 16 * 4 + b2 / 64) else PAD,
      if |b| > 2 then CharOf(b2 % 64) else PAD ]
  }

  function Encode(b: seq<byte>): seq<byte> {
    if b == [] then []
    else if |b| <= 3 then EncodeGroup(b)
    else EncodeGroup(b[..3]) + Encode(b[3..])
  }

  function WithoutLineBreaks(s: seq<byte>): seq<byte> {
    if s == [] then []
    else (if IsLineBreak(s[0]) then [] else [s[0]]) + WithoutLineBreaks(s[1..])
  }

  /** One group; only the last group of a text may be padded. */
  function DecodeGroup(s: seq<byte>, last: bool): (r: Option<seq<byte>>)
    requires |s| == 4
  {
    match (ValueOf(s[0]), ValueOf(s[1]))
    case (Some(v0), Some(v1)) =>
      var b0 := (v0 * 4 + v1 / 16) as byte;
      if s[2] == PAD then
        if last && s[3] == PAD then Some([b0]) else None
      else (
        match ValueOf(s[2])
        case None => None
        case Some(v2) =>
          var b1 := (v1 % 16 * 16 + v2 / 4) as byte;
          if s[3] == PAD then
            if last then Some([b0, b1]) else None
          else
            match ValueOf(s[3])
            case None => None
            case Some(v3) => Some([b0, b1, (v2 % 4 * 64 + v3) as byte])
      )
    case _ => None
  }

  function DecodeGroups(s: seq<byte>): (r: Option<seq<byte>>) {
    if s == [] then Some([])
    else if |s| < 4 then None
    else
      match (DecodeGroup(s[..4], |s| == 4), DecodeGroups(s[4..]))
      case (Some(first), Some(rest)) => Some(first + rest)
      case _ => None
  }

  function Decode(s: seq<byte>): (r: Option<seq<byte>>) {
    DecodeGroups(WithoutLineBreaks(s))
  }

  lemma GroupRoundTrip(b: seq<byte>, last: bool)
    requires 1 <= |b| <= 3 && (|b| == 3 || last)
    ensures DecodeGroup(EncodeGroup(b), last) == Some(b)
  {
    var b0 := b[0] as int;
    var b1 := if |b| > 1 then b[1] as int else 0;
    var b2 := if |b| > 2 then b[2] as int else 0;
    assert b0 / 4 * 4 + (b0 % 4 * 16 + b1 / 16) / 16 == b0;
    assert (b0 % 4 * 16 + b1 / 16) % 16 * 16 + (b1 % 16 * 4 + b2 / 64) / 4 == b1;
    assert (b1 % 16 * 4 + b2 / 64) % 4 * 64 + b2 % 64 == b2;
    assert b == if |b| == 1 then [b[0]] else if |b| == 2 then [b[0], b[1]] else [b[0], b[1], b[2]];
  }

  lemma {:induction false} GroupsRoundTrip(b: seq<byte>)
    ensures DecodeGroups(Encode(b)) == Some(b)
    ensures forall c :: c in Encode(b) ==> !IsLineBreak(c)
  {
    if b != [] {
      if |b| <= 3 {
        GroupRoundTrip(b, true);
        assert Encode(b)[..4] == EncodeGroup(b) && Encode(b)[4..] == [];
        assert b + [] == b;
      } else {
        GroupRoundTrip(b[..3], false);
        GroupsRoundTrip(b[3..]);
        var s := Encode(b);
        assert s[..4] == EncodeGroup(b[..3]) && s[4..] == Encode(b[3..]);
        assert b == b[..3] + b[3..];
      }
    }
  }

  /** What was written without line breaks can be read with line breaks put in anywhere. */
  lemma {:induction false} RoundTrip(b: seq<byte>, s: seq<byte>)
    requires WithoutLineBreaks(s) == Encode(b)
    ensures Decode(s) == Some(b)
  {
    GroupsRoundTrip(b);
  }

  lemma {:induction false} NoLineBreaksToRemove(s: seq<byte>)
    requires forall c :: c in s ==> !IsLineBreak(c)
    ensures WithoutLineBreaks(s) == s
  {
    if s != [] {
      assert s[0] in s;
      NoLineBreaksToRemove(s[1..]);
    }
  }

  lemma {:induction false} EncodeThenDecode(b: seq<byte>)
    ensures Decode(Encode(b)) == Some(b)
  {
    GroupsRoundTrip(b);
    NoLineBreaksToRemove(Encode(b));
  }

  // ----- Which texts can be decoded -----

  /** The last `n` characters are padding, and all before them are in the alphabet. */
  predicate HasPads(s: seq<byte>, n: nat) {
    && n <= |s|
    && (forall k :: 0 <= k < |s| - n ==> ValueOf(s[k]).Some?)
    && (forall k :: |s| - n <= k < |s| ==> s[k] == PAD)
  }

  /** Without its line breaks, the text is whole groups of the alphabet with at most two pads at the end. */
  predicate IsBase64(s: seq<byte>) {
    var t := WithoutLineBreaks(s);
    |t| % 4 == 0 && (HasPads(t, 0) || HasPads(t, 1) || HasPads(t, 2))
  }

  lemma GroupDecodesExactlyWhen(s: seq<byte>, last: bool)
    requires |s| == 4
    ensures DecodeGroup(s, last).Some? <==> HasPads(s, 0) || (last && (HasPads(s, 1) || HasPads(s, 2)))
    ensures DecodeGroup(s, last).Some? ==>
              && 1 <= |DecodeGroup(s, last).value| <= 3
              && ValueOf(s[0]).Some? && ValueOf(s[1]).Some?
              && DecodeGroup(s, last).value[0] as int == ValueOf(s[0]).value * 4 + ValueOf(s[1]).value / 16
  {
    assert HasPads(s, 0) ==> ValueOf(s[0]).Some? && ValueOf(s[1]).Some? && ValueOf(s[2]).Some? && ValueOf(s[3]).Some?;
    assert HasPads(s, 1) ==> ValueOf(s[0]).Some? && ValueOf(s[1]).Some? && ValueOf(s[2]).Some? && s[3] == PAD;
    assert HasPads(s, 2) ==> ValueOf(s[0]).Some? && ValueOf(s[1]).Some? && s[2] == PAD && s[3] == PAD;
  }

  lemma PadsAreLast(s: seq<byte>, n: nat)
    requires |s| >= 8 && n <= 2
    ensures HasPads(s, n) <==> HasPads(s[..4], 0) && HasPads(s[4..], n)
  {
    var rest := s[4..];
    assert forall k :: 0 <= k < |rest| ==> rest[k] == s[k + 4];
    if HasPads(s[..4], 0) && HasPads(rest, n) {
      forall k | 0 <= k < |s|
        ensures k < |s| - n ==> ValueOf(s[k]).Some?
        ensures k >= |s| - n ==> s[k] == PAD
      {
        assert k >= 4 ==> s[k] == rest[k - 4];
        assert k < 4 ==> s[k] == s[..4][k];
      }
    }
  }

  lemma {:induction false} GroupsDecodeExactlyWhen(s: seq<byte>)
    ensures DecodeGroups(s).Some? <==> |s| % 4 == 0 && (HasPads(s, 0) || HasPads(s, 1) || HasPads(s, 2))
    ensures DecodeGroups(s).Some? ==> 4 * |DecodeGroups(s).value| <= 3 * |s|
    ensures DecodeGroups(s).Some? && s != [] ==>
              && DecodeGroups(s).value != [] && |s| >= 4 && ValueOf(s[0]).Some? && ValueOf(s[1]).Some?
              && DecodeGroups(s).value[0] as int == ValueOf(s[0]).value * 4 + ValueOf(s[1]).value / 16
  {
    hide DecodeGroup, HasPads;
    if s == [] {
      NoPads();
    } else if |s| >= 4 {
      GroupDecodesExactlyWhen(s[..4], |s| == 4);
      GroupsDecodeExactlyWhen(s[4..]);
      if |s| == 4 {
        assert s[..4] == s && s[4..] == [];
      } else if |s| >= 8 {
        PadsAreLast(s, 0);
        PadsAreLast(s, 1);
        PadsAreLast(s, 2);
      }
    }
  }

  lemma NoPads()
    ensures HasPads([], 0)
  {
  }

  /** A text can be decoded exactly when it has the shape of base64. */
  lemma DecodesExactlyWhenBase64(s: seq<byte>)
    ensures Decode(s).Some? <==> IsBase64(s)
  {
    GroupsDecodeExactlyWhen(WithoutLineBreaks(s));
  }

  lemma {:induction false} FewerWithoutLineBreaks(s: seq<byte>)
    ensures |WithoutLineBreaks(s)| <= |s|
  {
    if s != [] {
      FewerWithoutLineBreaks(s[1..]);
    }
  }

  /** What is decoded is shorter than its text, unless there is no text. */
  lemma DecodedIsShorter(s: seq<byte>)
    requires Decode(s).Some? && s != []
    ensures |Decode(s).value| < |s|
  {
    GroupsDecodeExactlyWhen(WithoutLineBreaks(s));
    FewerWithoutLineBreaks(s);
  }

  // ----- The alphabet -----

  /** Table 1 of RFC 4648. */
  lemma AlphabetIsStandard(i: nat)
    requires i < ALPHABET_SIZE
    ensures i < 26 ==> CharOf(i) as int == 'A' as int + i
    ensures 26 <= i < 52 ==> CharOf(i) as int == 'a' as int + (i - 26)
    ensures 52 <= i < 62 ==> CharOf(i) as int == '0' as int + (i - 52)
    ensures CharOf(62) as int == '+' as int && CharOf(63) as int == '/' as int && PAD as int == '=' as int
  {
  }

  /** A test vector of section 10 of RFC 4648: "fooba" and "Zm9vYmE=". */
  lemma TestVector()
    ensures Encode([102, 111, 111, 98, 97]) == [90, 109, 57, 118, 89, 109, 69, 61]
  {
    var b: seq<byte> := [102, 111, 111, 98, 97];
    assert b[..3] == [102, 111, 111] && b[3..] == [98, 97];
    var first: seq<byte>, last: seq<byte> := [90, 109, 57, 118], [89, 109, 69, 61];
    assert EncodeGroup([102, 111, 111]) == first && EncodeGroup([98, 97]) == last;
    hide EncodeGroup;
    assert Encode([98, 97]) == last;
    assert Encode(b) == first + last;
  }

  /** A carriage return and a line feed can stand anywhere in a text. */
  lemma LineBreaksAreSkipped(a: seq<byte>, b: seq<byte>)
    ensures Decode(a + [13, 10] + b) == Decode(a + b)
  {
    hide DecodeGroups;
    var breaks: seq<byte> := [13, 10];
    assert breaks[1..] == [10] && breaks[1..][1..] == [];
    assert WithoutLineBreaks(breaks) == [];
    LineBreaksGo(a + breaks, b);
    LineBreaksGo(a, breaks);
    LineBreaksGo(a, b);
    assert WithoutLineBreaks(a) + [] == WithoutLineBreaks(a);
  }

  lemma {:induction false} LineBreaksGo(a: seq<byte>, b: seq<byte>)
    ensures WithoutLineBreaks(a + b) == WithoutLineBreaks(a) + WithoutLineBreaks(b)
  {
    hide IsLineBreak;
    if a == [] {
      assert a + b == b;
    } else {
      LineBreaksGo(a[1..], b);
      assert (a + b)[1..] == a[1..] + b && (a + b)[0] == a[0];
      var head := if IsLineBreak(a[0]) then [] else [a[0]];
      var middle, end := WithoutLineBreaks(a[1..]), WithoutLineBreaks(b);
      assert WithoutLineBreaks(a + b) == head + (middle + end) == head + middle + end;
    }
  }
}
