// Padded URL-safe base64 (RFC 4648, sections 4 and 5) as Go's base64.URLEncoding does it.
// A text is a string whose characters stand for bytes.
module Base64 {
  import opened Wrappers

  type byte = b: int | 0 <= b < 256
  type sextet = v: int | 0 <= v < 64

  function Letter(v: sextet): char {
    if v < 26 then ('A' as int + v) as char
    else if v < 52 then ('a' as int + (v - 26)) as char
    else if v < 62 then ('0' as int + (v - 52)) as char
    else if v == 62 then '-'
    else '_'
  }

  function LetterValue(c: char): Option<sextet> {
    if 'A' <= c <= 'Z' then Some(c as int - 'A' as int)
    else if 'a' <= c <= 'z' then Some(c as int - 'a' as int + 26)
    else if '0' <= c <= '9' then Some(c as int - '0' as int + 52)
    else if c == '-' then Some(62)
    else if c == '_' then Some(63)
    else None
  }

  // One to three bytes as four characters.
  function EncodeQuantum(b: seq<byte>): (s: string)
    requires 1 <= |b| <= 3
    ensures |s| == 4
  {
    if |b| == 1 then [Letter(b[0] / 4), Letter(b[0] % 4 * 16), '=', '=']
    else if |b| == 2 then [Letter(b[0] / 4), Letter(b[0] % 4 * 16 + b[1] / 16), Letter(b[1] % 16 * 4), '=']
    else [Letter(b[0] / 4), Letter(b[0] % 4 * 16 + b[1] / 16), Letter(b[1] % 16 * 4 + b[2] / 64), Letter(b[2] % 64)]
  }

  function Encode(b: seq<byte>): string {
    if |b| == 0 then ""
    else if |b| <= 3 then EncodeQuantum(b)
    else EncodeQuantum(b[..3]) + Encode(b[3..])
  }

  // RawURLEncoding: the same without padding.
  function RawEncode(b: seq<byte>): (s: string)
    ensures s == "" <==> b == []
  {
    if |b| == 0 then ""
    else if |b| <= 3 then EncodeQuantum(b)[..|b| + 1]
    else EncodeQuantum(b[..3]) + RawEncode(b[3..])
  }

  predicate LineBreak(c: char) {
    c == '\n' || c == '\r'
  }

  function WithoutBreaks(s: string): string {
    if s == "" then "" else (if LineBreak(s[0]) then [] else [s[0]]) + WithoutBreaks(s[1..])
  }

  // The decoder skips line breaks anywhere. It is not strict: the bits that padding cuts
  // off are ignored. Padding must be complete and nothing may follow it.
  function Decode(s: string): Option<seq<byte>> {
    DecodeQuanta(WithoutBreaks(s))
  }

  function DecodeQuanta(s: string): Option<seq<byte>> {
    if s == "" then Some([])
    else if |s| < 4 then None
    else
      match (DecodeQuantum(s[0], s[1], s[2], s[3], |s| == 4), DecodeQuanta(s[4..]))
      case (Some(b), Some(rest)) => Some(b + rest)
      case _ => None
  }

  // Four characters; only the last four may be padded.
  function DecodeQuantum(p: char, q: char, r: char, t: char, last: bool): (b: Option<seq<byte>>)
    ensures b.Some? ==> 1 <= |b.value| <= 3
  {
    match (LetterValue(p), LetterValue(q))
    case (Some(v), Some(w)) =>
      if r == '=' then (if last && t == '=' then Some([v * 4 + w / 16]) else None)
      else
        (match LetterValue(r)
         case None => None
         case Some(x) =>
           if t == '=' then (if last then Some([v * 4 + w / 16, w % 16 * 16 + x / 4]) else None)
           else
             match LetterValue(t)
             case None => None
             case Some(y) => Some([v * 4 + w / 16, w % 16 * 16 + x / 4, x % 4 * 64 + y]))
    case _ => None
  }

  // ------------------------------------------------------------------------------------
  // The text that encoding gives (RFC 4648, table 2 and section 4)
  // ------------------------------------------------------------------------------------

  // The alphabet, in order.
  lemma LettersAreListed()
    ensures [Letter(0), Letter(1), Letter(2), Letter(3), Letter(4), Letter(5), Letter(6), Letter(7), Letter(8), Letter(9), Letter(10), Letter(11), Letter(12), Letter(13), Letter(14), Letter(15),
             Letter(16), Letter(17), Letter(18), Letter(19), Letter(20), Letter(21), Letter(22), Letter(23), Letter(24), Letter(25), Letter(26), Letter(27), Letter(28), Letter(29), Letter(30), Letter(31),
             Letter(32), Letter(33), Letter(34), Letter(35), Letter(36), Letter(37), Letter(38), Letter(39), Letter(40), Letter(41), Letter(42), Letter(43), Letter(44), Letter(45), Letter(46), Letter(47),
             Letter(48), Letter(49), Letter(50), Letter(51), Letter(52), Letter(53), Letter(54), Letter(55), Letter(56), Letter(57), Letter(58), Letter(59), Letter(60), Letter(61), Letter(62), Letter(63)]
            == "ABCDEFGHIJKLMNOPQRSTUVWXYZabcdefghijklmnopqrstuvwxyz0123456789-_"
  {
  }

  // The four groups of six bits of up to three bytes, as letters; groups that hold no bit of
  // them are padding.
  lemma QuantumIsListed(b: seq<byte>)
    requires 1 <= |b| <= 3
    ensures var x: int, y: int, z: int := b[0], if |b| > 1 then b[1] else 0, if |b| > 2 then b[2] else 0;
            var n := x * 0x10000 + y * 0x100 + z;
            var s := EncodeQuantum(b);
            && 0 <= n < 0x1000000
            && s[0] == Letter(n / 0x40000)
            && s[1] == Letter(n / 0x1000 % 64)
            && s[2] == (if |b| > 1 then Letter(n / 64 % 64) else '=')
            && s[3] == (if |b| > 2 then Letter(n % 64) else '=')
  {
    SixBits(b[0], if |b| > 1 then b[1] else 0, if |b| > 2 then b[2] else 0);
  }

  lemma SixBits(x: byte, y: byte, z: byte)
    ensures var n: int := x * 0x10000 + y * 0x100 + z;
            && n / 0x40000 == x / 4
            && n / 0x1000 % 64 == x % 4 * 16 + y / 16
            && n / 64 % 64 == y % 16 * 4 + z / 64
            && n % 64 == z % 64
  {
    var n: int := x * 0x10000 + y * 0x100 + z;
    var high: int := n / 0x1000;
    var low: int := n / 64;
    assert n == 0x40000 * (x / 4) + (x % 4 * 0x10000 + y * 0x100 + z);
    assert high == x * 16 + y / 16 by {
      assert n == 0x1000 * (x * 16 + y / 16) + (y % 16 * 0x100 + z);
    }
    assert high == 64 * (x / 4) + (x % 4 * 16 + y / 16);
    assert low == x * 0x400 + y * 4 + z / 64 by {
      assert n == 64 * (x * 0x400 + y * 4 + z / 64) + z % 64;
    }
    assert low == 64 * (x * 16 + y / 16) + (y % 16 * 4 + z / 64);
  }

  // The first four letters come from the first three bytes, the rest from the rest.
  lemma EncodeSplits(b: seq<byte>)
    requires |b| > 3
    ensures Encode(b)[..4] == EncodeQuantum(b[..3]) && Encode(b)[4..] == Encode(b[3..])
  {
  }

  lemma ThreeFewer(n: int)
    ensures (n - 3 + 2) / 3 == (n + 2) / 3 - 1 && (n - 3) % 3 == n % 3
  {
  }

  lemma {:induction false} EncodedLength(b: seq<byte>)
    ensures |Encode(b)| == (|b| + 2) / 3 * 4
  {
    if |b| > 3 {
      EncodeSplits(b);
      EncodedLength(b[3..]);
      ThreeFewer(|b|);
    }
  }

  // The bytes from 3k on, three of them or as many as are left.
  function Group(b: seq<byte>, k: nat): (g: seq<byte>)
    requires 3 * k < |b|
    ensures 1 <= |g| <= 3
  {
    if 3 * k + 3 <= |b| then b[3 * k..3 * k + 3] else b[3 * k..]
  }

  // Every group of bytes gives the four letters at its place.
  lemma {:induction false} EncodedByGroups(b: seq<byte>, k: nat)
    requires 3 * k < |b|
    ensures 4 * k + 4 <= |Encode(b)| && Encode(b)[4 * k..4 * k + 4] == EncodeQuantum(Group(b, k))
    decreases k
  {
    EncodedLength(b);
    if |b| <= 3 {
      assert Group(b, k) == b;
    } else {
      EncodeSplits(b);
      if k > 0 {
        EncodedByGroups(b[3..], k - 1);
        LaterGroup(b, k);
        Shifted(Encode(b), 4 * k);
      }
    }
  }

  lemma LaterGroup(b: seq<byte>, k: nat)
    requires 0 < k && 3 * k < |b|
    ensures Group(b, k) == Group(b[3..], k - 1)
  {
  }

  lemma Shifted(s: string, i: nat)
    requires 4 <= i && i + 4 <= |s|
    ensures s[i..i + 4] == s[4..][i - 4..i]
  {
    var there, here := s[i..i + 4], s[4..][i - 4..i];
    assert |there| == |here| == 4;
    assert there[0] == here[0] && there[1] == here[1] && there[2] == here[2] && there[3] == here[3];
  }

  // The unpadded form is the padded one without its padding.
  lemma {:induction false} RawIsUnpadded(b: seq<byte>)
    ensures Encode(b) == RawEncode(b) + (if |b| % 3 == 1 then "==" else if |b| % 3 == 2 then "=" else "")
  {
    if |b| > 3 {
      EncodeSplits(b);
      RawIsUnpadded(b[3..]);
      ThreeFewer(|b|);
    }
  }

  // ------------------------------------------------------------------------------------
  // Decoding inverts encoding
  // ------------------------------------------------------------------------------------

  lemma LetterReadsBack(v: sextet)
    ensures LetterValue(Letter(v)) == Some(v)
    ensures Letter(v) != '.' && Letter(v) != '=' && !LineBreak(Letter(v))
  {
  }

  predicate Clean(s: string) {
    forall i :: 0 <= i < |s| ==> s[i] != '.' && !LineBreak(s[i])
  }

  lemma QuantumIsClean(b: seq<byte>)
    requires 1 <= |b| <= 3
    ensures Clean(EncodeQuantum(b))
  {
    LetterReadsBack(b[0] / 4);
    if |b| == 1 {
      LetterReadsBack(b[0] % 4 * 16);
    } else {
      LetterReadsBack(b[0] % 4 * 16 + b[1] / 16);
      if |b| == 2 {
        LetterReadsBack(b[1] % 16 * 4);
      } else {
        LetterReadsBack(b[1] % 16 * 4 + b[2] / 64);
        LetterReadsBack(b[2] % 64);
      }
    }
  }

  lemma {:induction false} EncodedIsClean(b: seq<byte>)
    ensures Clean(Encode(b))
  {
    if 1 <= |b| <= 3 {
      QuantumIsClean(b);
    } else if |b| > 3 {
      QuantumIsClean(b[..3]);
      EncodedIsClean(b[3..]);
    }
  }

  lemma {:induction false} CleanHasNoBreaks(s: string)
    requires Clean(s)
    ensures WithoutBreaks(s) == s
  {
    if s != "" {
      assert Clean(s[1..]);
      CleanHasNoBreaks(s[1..]);
    }
  }

  lemma QuantumReadsBack(b: seq<byte>, last: bool)
    requires 1 <= |b| <= 3 && (last || |b| == 3)
    ensures var s := EncodeQuantum(b); DecodeQuantum(s[0], s[1], s[2], s[3], last) == Some(b)
  {
    if |b| == 1 {
      OneReadsBack(b[0]);
      assert b == [b[0]];
    } else if |b| == 2 {
      TwoReadBack(b[0], b[1]);
      assert b == [b[0], b[1]];
    } else {
      ThreeReadBack(b[0], b[1], b[2], last);
      assert b == [b[0], b[1], b[2]];
    }
  }

  lemma OneReadsBack(x: byte)
    ensures DecodeQuantum(Letter(x / 4), Letter(x % 4 * 16), '=', '=', true) == Some([x])
  {
    LetterReadsBack(x / 4);
    LetterReadsBack(x % 4 * 16);
  }

  lemma TwoReadBack(x: byte, y: byte)
    ensures DecodeQuantum(Letter(x / 4), Letter(x % 4 * 16 + y / 16), Letter(y % 16 * 4), '=', true) == Some([x, y])
  {
    var v, w, z := x / 4, x % 4 * 16 + y / 16, y % 16 * 4;
    LetterReadsBack(v);
    LetterReadsBack(w);
    LetterReadsBack(z);
    assert v * 4 + w / 16 == x && w % 16 * 16 + z / 4 == y;
  }

  lemma ThreeReadBack(x: byte, y: byte, z: byte, last: bool)
    ensures DecodeQuantum(Letter(x / 4), Letter(x % 4 * 16 + y / 16), Letter(y % 16 * 4 + z / 64), Letter(z % 64), last) == Some([x, y, z])
  {
    var v, w, u, t := x / 4, x % 4 * 16 + y / 16, y % 16 * 4 + z / 64, z % 64;
    LetterReadsBack(v);
    LetterReadsBack(w);
    LetterReadsBack(u);
    LetterReadsBack(t);
    assert v * 4 + w / 16 == x && w % 16 * 16 + u / 4 == y && u % 4 * 64 + t == z;
  }

  lemma {:induction false} QuantaReadBack(b: seq<byte>)
    ensures DecodeQuanta(Encode(b)) == Some(b)
  {
    var s := Encode(b);
    if 1 <= |b| <= 3 {
      QuantumReadsBack(b, true);
      assert s[4..] == "";
      assert b + [] == b;
    } else if |b| > 3 {
      var rest := Encode(b[3..]);
      QuantumReadsBack(b[..3], false);
      QuantaReadBack(b[3..]);
      assert s[4..] == rest && |rest| > 0;
      assert b[..3] + b[3..] == b;
    }
  }

  // Every byte string survives encoding and decoding.
  lemma RoundTrip(b: seq<byte>)
    ensures Decode(Encode(b)) == Some(b)
  {
    EncodedIsClean(b);
    CleanHasNoBreaks(Encode(b));
    QuantaReadBack(b);
  }
}
