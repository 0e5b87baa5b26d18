/** The Base64 text of a collision proxy (SALVL_CSGMesh::Base64): the
    standard alphabet and '=' padding of section 4 of RFC 4648, then the text
    cut into lines of 72 characters joined by '\n'. The source computes it
    with a bit accumulator (`val`, `valb`); the model proves that loop equal
    to the group-by-group definition of the RFC, and proves a decoder that
    undoes it. */
module Base64 {
  import opened Types

  /** The line length of the broken output. */
  const LineLength: nat := 72

  /** The lookup table "ABC...XYZabc...xyz0123456789+/" of the source, as
      the ranges of the alphabet table of section 4 of RFC 4648. */
  function SextetChar(k: int): char
    requires 0 <= k < 64
  {
    if k < 26 then ('A' as int + k) as char
    else if k < 52 then ('a' as int + k - 26) as char
    else if k < 62 then ('0' as int + k - 52) as char
    else if k == 62 then '+' else '/'
  }

  /** The sextet a character stands for (0 for a character outside the
      alphabet). */
  function Value(c: char): (k: int)
    ensures 0 <= k < 64
  {
    if 'A' <= c <= 'Z' then c as int - 'A' as int
    else if 'a' <= c <= 'z' then c as int - 'a' as int + 26
    else if '0' <= c <= '9' then c as int - '0' as int + 52
    else if c == '+' then 62
    else if c == '/' then 63
    else 0
  }

  /** Every character of the alphabet stands for its own index, and none is
      '=' or '\n'. */
  lemma ValueOfSextet(k: int)
    requires 0 <= k < 64
    ensures Value(SextetChar(k)) == k
    ensures SextetChar(k) != '=' && SextetChar(k) != '\n'
  {
  }

  /** Three bytes as four characters (section 4 of RFC 4648). */
  function Group(b0: byte, b1: byte, b2: byte): (r: seq<char>)
    ensures |r| == 4
  {
    [SextetChar(b0 / 4), SextetChar((b0 % 4) * 16 + b1 / 16), SextetChar((b1 % 16) * 4 + b2 / 64), SextetChar(b2 % 64)]
  }

  /** The final quantum of one or two bytes: two characters and "==", or
      three characters and "=". */
  function Tail(data: seq<byte>): (r: seq<char>)
    requires |data| < 3
    ensures |r| == if |data| == 0 then 0 else 4
  {
    if |data| == 0 then []
    else if |data| == 1 then [SextetChar(data[0] / 4), SextetChar((data[0] % 4) * 16), '=', '=']
    else [SextetChar(data[0] / 4), SextetChar((data[0] % 4) * 16 + data[1] / 16), SextetChar((data[1] % 16) * 4), '=']
  }

  /** The Base64 text of `data` before line breaking: a group per three
      bytes, then the final quantum. */
  function Encode(data: seq<byte>): (r: seq<char>)
    ensures |r| % 4 == 0
    decreases |data|
  {
    if |data| < 3 then Tail(data) else Group(data[0], data[1], data[2]) + Encode(data[3..])
  }

  /** Four characters per started triple of bytes. */
  lemma {:induction false} EncodeLength(data: seq<byte>)
    ensures |Encode(data)| == 4 * ((|data| + 2) / 3)
    decreases |data|
  {
    if |data| >= 3 {
      var rest := data[3..];
      EncodeLength(rest);
      ThirdStep(|rest|);
      assert |Encode(data)| == 4 + |Encode(rest)|;
    } else {
      assert (|data| + 2) / 3 == if |data| == 0 then 0 else 1;
    }
  }

  lemma ThirdStep(n: nat)
    ensures (n + 3 + 2) / 3 == (n + 2) / 3 + 1
  {
  }

  /** Encoding a whole number of groups, then the rest, is encoding the lot. */
  lemma {:induction false} EncodeAppend(a: seq<byte>, b: seq<byte>)
    requires |a| % 3 == 0
    ensures Encode(a + b) == Encode(a) + Encode(b)
    decreases |a|
  {
    if |a| > 0 {
      var ab := a + b;
      assert ab[0] == a[0] && ab[1] == a[1] && ab[2] == a[2];
      assert ab[3..] == a[3..] + b;
      EncodeAppend(a[3..], b);
      var g := Group(a[0], a[1], a[2]);
      assert Encode(ab) == g + Encode(a[3..] + b);
      assert Encode(a) == g + Encode(a[3..]);
      Assoc(g, Encode(a[3..]), Encode(b));
    } else {
      assert a + b == b;
    }
  }

  lemma Assoc<T>(a: seq<T>, b: seq<T>, c: seq<T>)
    ensures a + (b + c) == a + b + c
  {
  }

  /** The text cut into lines of 72 characters joined by '\n', with no
      newline at the end. */
  function Lines(s: seq<char>): seq<char>
    decreases |s|
  {
    if |s| <= LineLength then s else s[..LineLength] + ['\n'] + Lines(s[LineLength..])
  }

  /** The Base64 text holds no '\n'. */
  lemma {:induction false} EncodeNoNewline(data: seq<byte>)
    ensures '\n' !in Encode(data)
    decreases |data|
  {
    if |data| >= 3 {
      var b0, b1, b2 := data[0], data[1], data[2];
      ValueOfSextet(b0 / 4);
      ValueOfSextet((b0 % 4) * 16 + b1 / 16);
      ValueOfSextet((b1 % 16) * 4 + b2 / 64);
      ValueOfSextet(b2 % 64);
      EncodeNoNewline(data[3..]);
    } else if |data| > 0 {
      ValueOfSextet(data[0] / 4);
      ValueOfSextet((data[0] % 4) * 16);
      if |data| == 2 {
        ValueOfSextet((data[0] % 4) * 16 + data[1] / 16);
        ValueOfSextet((data[1] % 16) * 4);
      }
    }
  }

  /** Text without newlines comes back from its lines by dropping the '\n's. */
  lemma {:induction false} LinesUnbroken(s: seq<char>)
    requires '\n' !in s
    ensures Unbroken(Lines(s)) == s
    decreases |s|
  {
    if |s| > LineLength {
      UnbrokenAppend(s[..LineLength] + ['\n'], Lines(s[LineLength..]));
      UnbrokenAppend(s[..LineLength], ['\n']);
      assert Unbroken(['\n']) == [];
      UnbrokenPlain(s[..LineLength]);
      LinesUnbroken(s[LineLength..]);
      assert s[..LineLength] + s[LineLength..] == s;
    } else {
      UnbrokenPlain(s);
    }
  }

  /** Past the first line and its '\n', the output is the output of the
      rest of the text. */
  lemma LinesShift(s: seq<char>, a: nat, b: nat)
    requires |s| > LineLength && LineLength + 1 <= a <= b <= |Lines(s)|
    ensures |Lines(s)| == LineLength + 1 + |Lines(s[LineLength..])|
    ensures Lines(s)[a..b] == Lines(s[LineLength..])[a - LineLength - 1..b - LineLength - 1]
    ensures b < |Lines(s)| ==> Lines(s)[b] == Lines(s[LineLength..])[b - LineLength - 1]
  {
    var head := s[..LineLength] + ['\n'];
    var tail := Lines(s[LineLength..]);
    assert Lines(s) == head + tail;
    SliceAfter(head, tail, a, b);
  }

  lemma SliceAfter<T>(head: seq<T>, tail: seq<T>, a: nat, b: nat)
    requires |head| <= a <= b <= |head| + |tail|
    ensures (head + tail)[a..b] == tail[a - |head|..b - |head|]
    ensures b < |head| + |tail| ==> (head + tail)[b] == tail[b - |head|]
  {
  }

  /** Line j of the output is the j-th run of 72 characters, found at
      73 * j (each earlier line adds its '\n'), and a '\n' ends every line
      but the last. */
  lemma {:induction false} LinesAt(s: seq<char>, j: nat)
    requires 72 * j < |s|
    ensures var len := if |s| - 72 * j < LineLength then |s| - 72 * j else LineLength;
            var at := 73 * j;
            at + len <= |Lines(s)| &&
            Lines(s)[at..at + len] == s[72 * j..72 * j + len] &&
            (at + len < |Lines(s)| ==> Lines(s)[at + len] == '\n')
    decreases j
  {
    var len := if |s| - 72 * j < LineLength then |s| - 72 * j else LineLength;
    var at := 73 * j;
    if j > 0 {
      var rest := s[LineLength..];
      LinesAt(rest, j - 1);
      var at' := 73 * (j - 1);
      var from := 72 * (j - 1);
      assert at == at' + LineLength + 1 && 72 * j == from + LineLength;
      assert |rest| - from == |s| - 72 * j;
      LinesShift(s, at, at + len);
      assert rest[from..from + len] == s[72 * j..72 * j + len];
    } else {
      LinesFirst(s);
    }
  }

  /** The first line. */
  lemma LinesFirst(s: seq<char>)
    requires 0 < |s|
    ensures var len := if |s| < LineLength then |s| else LineLength;
            len <= |Lines(s)| && Lines(s)[..len] == s[..len] &&
            (len < |Lines(s)| ==> Lines(s)[len] == '\n')
  {
    if |s| > LineLength {
      var head := s[..LineLength] + ['\n'];
      assert Lines(s) == head + Lines(s[LineLength..]);
      assert head[..LineLength] == s[..LineLength];
    }
  }

  /** The output is the text plus one '\n' per further line. */
  lemma {:induction false} LinesLength(s: seq<char>)
    ensures |Lines(s)| == |s| + (if |s| == 0 then 0 else (|s| - 1) / LineLength)
    decreases |s|
  {
    if |s| > LineLength {
      LinesLength(s[LineLength..]);
    }
  }

  /** The text with every '\n' dropped. */
  function Unbroken(s: seq<char>): seq<char>
  {
    if s == [] then []
    else (if s[0] == '\n' then [] else [s[0]]) + Unbroken(s[1..])
  }

  lemma {:induction false} UnbrokenAppend(a: seq<char>, b: seq<char>)
    ensures Unbroken(a + b) == Unbroken(a) + Unbroken(b)
  {
    if a == [] {
      assert a + b == b;
    } else {
      assert (a + b)[0] == a[0];
      assert (a + b)[1..] == a[1..] + b;
      UnbrokenAppend(a[1..], b);
    }
  }

  lemma {:induction false} UnbrokenPlain(s: seq<char>)
    requires '\n' !in s
    ensures Unbroken(s) == s
  {
    if s != [] {
      assert s[0] in s;
      assert forall c :: c in s[1..] ==> c in s;
      UnbrokenPlain(s[1..]);
      assert s == [s[0]] + s[1..];
    }
  }

  /** The three bytes of four characters, section 4 of RFC 4648 read
      backwards. */
  function Ungroup(c0: char, c1: char, c2: char, c3: char): (r: seq<int>)
    ensures |r| == 3
  {
    var v0, v1, v2, v3 := Value(c0), Value(c1), Value(c2), Value(c3);
    [v0 * 4 + v1 / 16, (v1 % 16) * 16 + v2 / 4, (v2 % 4) * 64 + v3]
  }

  /** Decoding: four characters at a time; a group ending in "==" gives one
      byte and one ending in "=" gives two. */
  function Decode(s: seq<char>): seq<int>
    decreases |s|
  {
    if |s| < 4 then []
    else
      var bs := Ungroup(s[0], s[1], s[2], s[3]);
      if s[2] == '=' then bs[..1]
      else if s[3] == '=' then bs[..2]
      else bs + Decode(s[4..])
  }

  /** The sextets of three bytes give the bytes back. */
  lemma SextetsBack(b0: byte, b1: byte, b2: byte)
    ensures (b0 / 4) * 4 + ((b0 % 4) * 16 + b1 / 16) / 16 == b0
    ensures (((b0 % 4) * 16 + b1 / 16) % 16) * 16 + ((b1 % 16) * 4 + b2 / 64) / 4 == b1
    ensures (((b1 % 16) * 4 + b2 / 64) % 4) * 64 + b2 % 64 == b2
  {
  }

  /** A group decodes to its three bytes. */
  lemma UngroupGroup(b0: byte, b1: byte, b2: byte)
    ensures var g := Group(b0, b1, b2);
            Ungroup(g[0], g[1], g[2], g[3]) == [b0, b1, b2] && g[2] != '=' && g[3] != '='
  {
    ValueOfSextet(b0 / 4);
    ValueOfSextet((b0 % 4) * 16 + b1 / 16);
    ValueOfSextet((b1 % 16) * 4 + b2 / 64);
    ValueOfSextet(b2 % 64);
    SextetsBack(b0, b1, b2);
  }

  /** The final quantum decodes to the one or two bytes left. */
  lemma DecodeTail(data: seq<byte>)
    requires |data| < 3
    ensures Decode(Tail(data)) == data
  {
    if |data| == 1 {
      ValueOfSextet(data[0] / 4);
      ValueOfSextet((data[0] % 4) * 16);
      SextetsBack(data[0], 0, 0);
    } else if |data| == 2 {
      ValueOfSextet(data[0] / 4);
      ValueOfSextet((data[0] % 4) * 16 + data[1] / 16);
      ValueOfSextet((data[1] % 16) * 4);
      SextetsBack(data[0], data[1], 0);
    }
  }

  /** Decoding undoes encoding (section 4 of RFC 4648). */
  lemma {:induction false} DecodeEncode(data: seq<byte>)
    ensures Decode(Encode(data)) == data
    decreases |data|
  {
    if |data| < 3 {
      DecodeTail(data);
    } else {
      var g := Group(data[0], data[1], data[2]);
      UngroupGroup(data[0], data[1], data[2]);
      assert (g + Encode(data[3..]))[4..] == Encode(data[3..]);
      DecodeEncode(data[3..]);
      assert data == data[..3] + data[3..];
    }
  }

  /** Decoding undoes the whole output of the source: drop the line breaks,
      then decode. */
  lemma DecodeOutput(data: seq<byte>)
    ensures Decode(Unbroken(Lines(Encode(data)))) == data
  {
    EncodeNoNewline(data);
    LinesUnbroken(Encode(data));
    DecodeEncode(data);
  }

  /** `(val >> valb) & 0x3F` for a non-negative accumulator. */
  function Bits6(val: nat, valb: nat): (r: int)
    ensures 0 <= r < 64
  {
    Shr(val, valb) % 64
  }

  /** `val >> n`, one bit at a time. */
  function Shr(val: nat, n: nat): nat
  {
    if n == 0 then val else Shr(val / 2, n - 1)
  }

  /** The shifts the encoder uses, as divisions. */
  lemma ShrSmall(val: nat)
    ensures Shr(val, 0) == val && Shr(val, 2) == val / 4 && Shr(val, 4) == val / 16 && Shr(val, 6) == val / 64
  {
    assert Shr(val, 2) == Shr(val / 2, 1) == Shr(val / 2 / 2, 0);
    assert Shr(val, 4) == Shr(val / 4, 2) == val / 4 / 4;
    assert Shr(val, 6) == Shr(val / 4, 4) == val / 4 / 16;
  }

  /** The characters the inner loop emits from a given `valb`: one sextet
      per step of 6 while `valb` is not negative. */
  function Drain(val: nat, valb: int): seq<char>
    decreases valb + 6
  {
    if valb < 0 then [] else [SextetChar(Bits6(val, valb))] + Drain(val, valb - 6)
  }

  /** The `valb` the inner loop leaves. */
  function DrainEnd(valb: int): (r: int)
    ensures -6 <= r < 0 || (valb < -6 && r == valb)
    decreases valb + 6
  {
    if valb < 0 then valb else DrainEnd(valb - 6)
  }

  /** The inner loop: emits the sextets above `valb`. */
  method DrainLoop(out: seq<char>, val: nat, valb: int) returns (out': seq<char>, valb': int)
    ensures out' == out + Drain(val, valb) && valb' == DrainEnd(valb)
  {
    out', valb' := out, valb;
    while valb' >= 0
      invariant out' + Drain(val, valb') == out + Drain(val, valb)
      invariant DrainEnd(valb') == DrainEnd(valb)
      decreases valb' + 6
    {
      out' := out' + [SextetChar(Bits6(val, valb'))];
      valb' := valb' - 6;
    }
  }

  /** The characters emitted after i bytes, and the bits the accumulator
      keeps: the whole groups, then for a group in progress its first one
      or two characters. */
  function Partial(data: seq<byte>, i: nat): seq<char>
    requires i <= |data|
  {
    var at := i - i % 3;
    if i % 3 == 0 then []
    else if i % 3 == 1 then [SextetChar(data[at] / 4)]
    else [SextetChar(data[at] / 4), SextetChar((data[at] % 4) * 16 + data[at + 1] / 16)]
  }

  /** What the accumulator holds after i bytes: `valb` is -6, -4, -2 as
      i mod 3 is 0, 1, 2, and the low byte of `val` is the last byte. */
  predicate AccOk(data: seq<byte>, i: nat, val: nat, valb: int)
    requires i <= |data|
  {
    valb == 2 * (i % 3) - 6 && (i % 3 != 0 ==> val % 256 == data[i - 1])
  }

  /** The text emitted after i bytes: the groups of the whole triples so
      far, then the characters of the triple in progress. */
  function Emitted(data: seq<byte>, i: nat): seq<char>
    requires i <= |data|
  {
    Encode(data[..i - i % 3]) + Partial(data, i)
  }

  /** The sextets of `(val << 8) + b` that straddle the byte boundary. */
  lemma ShiftBits(val: nat, b: byte)
    ensures (val * 256 + b) / 16 % 64 == ((val % 256) % 4) * 16 + b / 16
    ensures (val * 256 + b) / 64 % 64 == ((val % 256) % 16) * 4 + b / 64
    ensures (val * 256 + b) % 64 == b % 64
    ensures (val * 256 + b) / 4 % 64 == b / 4
  {
    var q := val / 256;
    var r := val % 256;
    var v := val * 256 + b;
    assert v == 65536 * q + (r * 256 + b);
    assert v / 16 == 4096 * q + r * 16 + b / 16;
    Low6(64 * q + r / 4, (r % 4) * 16 + b / 16);
    assert v / 64 == 1024 * q + r * 4 + b / 64;
    Low6(16 * q + r / 16, (r % 16) * 4 + b / 64);
    Low6(1024 * q + r * 4 + b / 64, b % 64);
    assert (val * 256 + b) / 4 == 64 * val + b / 4;
    Low6(val, b / 4);
  }

  lemma LowByte(k: nat, c: byte)
    ensures (k * 256 + c) % 256 == c
  {
  }

  lemma Low6(k: nat, c: nat)
    requires c < 64
    ensures (64 * k + c) % 64 == c
  {
  }

  /** What the inner loop emits once a byte is shifted in, for each
      `valb` it can then hold. */
  lemma DrainBits(val: nat, b: byte)
    ensures Drain(val * 256 + b, 2) == [SextetChar(b / 4)]
    ensures Drain(val * 256 + b, 4) == [SextetChar(((val % 256) % 4) * 16 + b / 16)]
    ensures Drain(val * 256 + b, 6) == [SextetChar(((val % 256) % 16) * 4 + b / 64), SextetChar(b % 64)]
    ensures DrainEnd(2) == -4 && DrainEnd(4) == -2 && DrainEnd(6) == -6
    ensures (val * 256 + b) % 256 == b
  {
    ShrSmall(val * 256 + b);
    ShiftBits(val, b);
    LowByte(val, b);
  }

  /** The first byte of a triple emits its first sextet. */
  lemma EmitFirst(data: seq<byte>, i: nat)
    requires i < |data| && i % 3 == 0
    ensures Emitted(data, i) + [SextetChar(data[i] / 4)] == Emitted(data, i + 1)
  {
    Mod3Next(i);
  }

  lemma Mod3Floor(n: nat)
    ensures 0 <= n % 3 < 3 && n % 3 <= n && (n - n % 3) % 3 == 0
  {
    assert n - n % 3 == 3 * (n / 3);
  }

  lemma Mod3Next(i: nat)
    ensures (i + 1) % 3 == if i % 3 == 2 then 0 else i % 3 + 1
  {
  }

  /** The second byte of a triple emits the second sextet. */
  lemma EmitSecond(data: seq<byte>, i: nat)
    requires i < |data| && i % 3 == 1
    ensures Emitted(data, i) + [SextetChar((data[i - 1] % 4) * 16 + data[i] / 16)] == Emitted(data, i + 1)
  {
    Mod3Next(i);
  }

  /** The third byte of a triple emits the last two sextets, completing the
      group. */
  lemma EmitThird(data: seq<byte>, i: nat)
    requires i < |data| && i % 3 == 2
    ensures Emitted(data, i) + [SextetChar((data[i - 1] % 16) * 4 + data[i] / 64), SextetChar(data[i] % 64)] == Emitted(data, i + 1)
  {
    var at := i - 2;
    EncodeTriple(data, at);
    Mod3Next(i);
    assert Emitted(data, i + 1) == Encode(data[..i + 1]) + [];
  }

  /** The groups of the first at + 3 bytes are those of the first at bytes
      and one more group. */
  lemma EncodeTriple(data: seq<byte>, at: nat)
    requires at % 3 == 0 && at + 3 <= |data|
    ensures Encode(data[..at + 3]) == Encode(data[..at]) + Group(data[at], data[at + 1], data[at + 2])
  {
    var t := data[at..at + 3];
    assert data[..at + 3] == data[..at] + t;
    EncodeAppend(data[..at], t);
    assert t[0] == data[at] && t[1] == data[at + 1] && t[2] == data[at + 2] && t[3..] == [];
    assert Encode(t) == Group(t[0], t[1], t[2]) + Encode(t[3..]);
  }

  /** The last character of a triple in progress,
      `((val << 8) >> (valb + 8)) & 0x3F`, for the two `valb` that emit one. */
  lemma FlushBits(val: nat)
    ensures Bits6(val * 256, 4) == ((val % 256) % 4) * 16
    ensures Bits6(val * 256, 6) == ((val % 256) % 16) * 4
  {
    ShrSmall(val * 256);
    ShiftBits(val, 0);
  }

  /** The text is the groups of the whole triples, then the final quantum. */
  lemma EncodeSplit(data: seq<byte>, at: nat)
    requires at == |data| - |data| % 3
    ensures Encode(data) == Encode(data[..at]) + Tail(data[at..])
  {
    Mod3Floor(|data|);
    var a, b := data[..at], data[at..];
    assert |a| % 3 == 0 && |b| < 3;
    assert a + b == data;
    EncodeAppend(a, b);
    assert Encode(b) == Tail(b);
  }

  lemma TailOne(d: byte)
    ensures Tail([d]) == [SextetChar(d / 4), SextetChar((d % 4) * 16), '=', '=']
  {
  }

  lemma TailTwo(d0: byte, d1: byte)
    ensures Tail([d0, d1]) == [SextetChar(d0 / 4), SextetChar((d0 % 4) * 16 + d1 / 16), SextetChar((d1 % 16) * 4), '=']
  {
  }

  lemma PartialTwo(data: seq<byte>)
    requires |data| % 3 == 2
    ensures var at := |data| - 2;
            Emitted(data, |data|) == Encode(data[..at]) + [SextetChar(data[at] / 4), SextetChar((data[at] % 4) * 16 + data[at + 1] / 16)]
  {
    var i := |data|;
    assert i - i % 3 == i - 2;
  }

  /** No byte left over: the text is complete. */
  lemma FlushNone(data: seq<byte>)
    requires |data| % 3 == 0
    ensures Emitted(data, |data|) == Encode(data)
  {
    assert data[..|data|] == data;
  }

  /** One byte left over: a character for its low two bits, then "==". */
  lemma FlushOne(data: seq<byte>)
    requires |data| % 3 == 1
    ensures Emitted(data, |data|) + [SextetChar((data[|data| - 1] % 4) * 16)] + ['=', '='] == Encode(data)
  {
    var at := |data| - 1;
    var d := data[at];
    PartialOne(data);
    assert data[at..] == [d];
    TailOne(d);
    EncodeSplit(data, at);
    Spliced(Encode(data[..at]), SextetChar(d / 4), SextetChar((d % 4) * 16), '=', '=');
  }

  lemma Spliced<T>(e: seq<T>, a: T, b: T, c: T, d: T)
    ensures e + [a] + [b] + [c, d] == e + [a, b, c, d]
  {
  }

  lemma PartialOne(data: seq<byte>)
    requires |data| % 3 == 1
    ensures Emitted(data, |data|) == Encode(data[..|data| - 1]) + [SextetChar(data[|data| - 1] / 4)]
  {
    var i := |data|;
    assert i - i % 3 == i - 1;
  }

  /** Two bytes left over: a character for the low four bits, then "=". */
  lemma FlushTwo(data: seq<byte>)
    requires |data| % 3 == 2
    ensures Emitted(data, |data|) + [SextetChar((data[|data| - 1] % 16) * 4)] + ['='] == Encode(data)
  {
    var at := |data| - 2;
    var d0, d1 := data[at], data[at + 1];
    PartialTwo(data);
    assert data[at..] == [d0, d1];
    TailTwo(d0, d1);
    EncodeSplit(data, at);
    SplicedTwo(Encode(data[..at]), SextetChar(d0 / 4), SextetChar((d0 % 4) * 16 + d1 / 16), SextetChar((d1 % 16) * 4), '=');
  }

  lemma SplicedTwo<T>(e: seq<T>, a: T, b: T, c: T, d: T)
    ensures e + [a, b] + [c] + [d] == e + [a, b, c, d]
  {
  }

  /** SALVL_CSGMesh::Base64: the accumulator loop, the padding loop and the
      line-breaking loop. */
  method Base64(data: seq<byte>) returns (result: string)
    ensures result == Lines(Encode(data))
  {
    var out, val, valb := Accumulate(data);
    FlushBits(val);
    if valb == -6 {
      FlushNone(data);
    } else if valb == -4 {
      FlushOne(data);
      assert Pads(2) == ['=', '='];
    } else {
      FlushTwo(data);
      assert Pads(1) == ['='];
    }
    if valb > -6 {
      out := out + [SextetChar(Bits6(val * 256, valb + 8))];
    }
    assert out + Pads(Padding(valb)) == Encode(data);
    out := Pad(out, Padding(valb));
    result := BreakLines(out);
  }

  /** The number of '=' the final quantum ends with, by the bits left in
      the accumulator. */
  function Padding(valb: int): nat
  {
    if valb == -4 then 2 else if valb == -2 then 1 else 0
  }

  /** k padding characters. */
  function Pads(k: nat): (r: seq<char>)
    ensures |r| == k && forall j :: 0 <= j < k ==> r[j] == '='
  {
    seq(k, _ => '=')
  }

  /** The accumulator loop: each byte is shifted into `val`, and every
      whole sextet above `valb` is emitted. */
  method Accumulate(data: seq<byte>) returns (out: seq<char>, val: nat, valb: int)
    ensures out == Emitted(data, |data|) && AccOk(data, |data|, val, valb)
  {
    out, val, valb := [], 0, -6;
    for i := 0 to |data|
      invariant out == Emitted(data, i)
      invariant AccOk(data, i, val, valb)
    {
      out, val, valb := AccStep(data, i, out, val, valb);
    }
  }

  /** One turn of the accumulator loop: `val = (val << 8) + c; valb += 8;`
      and the inner loop. */
  method AccStep(data: seq<byte>, i: nat, out: seq<char>, val: nat, valb: int)
      returns (out': seq<char>, val': nat, valb': int)
    requires i < |data| && out == Emitted(data, i) && AccOk(data, i, val, valb)
    ensures out' == Emitted(data, i + 1) && AccOk(data, i + 1, val', valb')
  {
    AccNext(data, i, val, valb);
    val' := val * 256 + data[i];
    out', valb' := DrainLoop(out, val', valb + 8);
  }

  /** Shifting byte i in and draining emits exactly the characters that
      byte adds to the text, and leaves the accumulator right for i + 1. */
  lemma AccNext(data: seq<byte>, i: nat, val: nat, valb: int)
    requires i < |data| && AccOk(data, i, val, valb)
    ensures Emitted(data, i) + Drain(val * 256 + data[i], valb + 8) == Emitted(data, i + 1)
    ensures AccOk(data, i + 1, val * 256 + data[i], DrainEnd(valb + 8))
  {
    DrainBits(val, data[i]);
    Mod3Next(i);
    if i % 3 == 0 {
      EmitFirst(data, i);
    } else if i % 3 == 1 {
      EmitSecond(data, i);
    } else {
      EmitThird(data, i);
    }
  }

  /** `while (out.size() % 4) out.push_back('=')`: the text grows to the
      next multiple of 4 with '='. */
  method Pad(out: seq<char>, ghost k: nat) returns (out': seq<char>)
    requires (|out| + k) % 4 == 0 && k < 4
    ensures out' == out + Pads(k)
  {
    out' := out;
    while |out'| % 4 != 0
      invariant |out| <= |out'| <= |out| + k && out' == out + Pads(|out'| - |out|)
      decreases |out| + k - |out'|
    {
      out' := out' + ['='];
    }
  }

  /** The line-breaking loop: `result += out.substr(i, 72)` for i = 0, 72,
      ..., with a '\n' before every piece but the first. */
  method BreakLines(out: seq<char>) returns (result: seq<char>)
    ensures result == Lines(out)
  {
    result := [];
    var i := 0;
    while i < |out|
      invariant result + Rest(out, i) == Lines(out)
      decreases |out| - i
    {
      var end := if i + LineLength <= |out| then i + LineLength else |out|;
      RestStep(out, i);
      ghost var before := result;
      if i != 0 {
        result := result + ['\n'];
      }
      result := result + out[i..end];
      Regroup(before, if i == 0 then [] else ['\n'], out[i..end], Rest(out, i + LineLength));
      i := i + LineLength;
    }
  }

  lemma Regroup<T>(r: seq<T>, a: seq<T>, b: seq<T>, c: seq<T>)
    ensures r + a + b + c == r + (a + b + c)
  {
  }

  /** The lines still to come once the pieces before `i` are written. */
  function Rest(out: seq<char>, i: nat): seq<char>
  {
    if i >= |out| then [] else (if i == 0 then [] else ['\n']) + Lines(out[i..])
  }

  /** The piece at i, then the lines from i + 72. */
  lemma RestStep(out: seq<char>, i: nat)
    requires i < |out|
    ensures var end := if i + LineLength <= |out| then i + LineLength else |out|;
            Rest(out, i) == (if i == 0 then [] else ['\n']) + out[i..end] + Rest(out, i + LineLength)
  {
    var t := out[i..];
    if |t| > LineLength {
      assert Lines(t) == t[..LineLength] + ['\n'] + Lines(t[LineLength..]);
      assert t[..LineLength] == out[i..i + LineLength];
      assert t[LineLength..] == out[i + LineLength..];
    }
  }
}
