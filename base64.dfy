/**
 * Base64 as in section 4 of RFC 4648 (alphabet A-Z a-z 0-9 + /, padding '='),
 * in the two forms the integration uses: `base64.b64encode` and Python's
 * default non-validating `base64.b64decode`, which first requires the text to
 * be ASCII and then runs CPython's `binascii.a2b_base64` with strict mode off:
 * characters outside the alphabet are skipped, decoding stops at the padding
 * that completes a group, and a dangling group is an error.
 */
module Base64 {
  import opened Wrappers
  import opened Values

  /** The character for a 6-bit value. */
  function Alphabet(v: bv8): (c: char)
    requires v < 64
    ensures c as int < 128 && c != '='
  {
    if v < 26 then ('A' as int + v as int) as char
    else if v < 52 then ('a' as int + (v as int - 26)) as char
    else if v < 62 then ('0' as int + (v as int - 52)) as char
    else if v == 62 then '+'
    else '/'
  }

  /** The 6-bit value of an alphabet character, None for every other character. */
  function SextetOf(c: char): (r: Option<bv8>)
    ensures r.Some? ==> r.value < 64
  {
    if 'A' <= c <= 'Z' then Some((c as int - 'A' as int) as bv8)
    else if 'a' <= c <= 'z' then Some((c as int - 'a' as int + 26) as bv8)
    else if '0' <= c <= '9' then Some((c as int - '0' as int + 52) as bv8)
    else if c == '+' then Some(62)
    else if c == '/' then Some(63)
    else None
  }

  /** Every 6-bit value is written as a character that reads back as that value. */
  lemma AlphabetDecodes(v: bv8)
    requires v < 64
    ensures SextetOf(Alphabet(v)) == Some(v)
  {
    if v < 26 {
      assert 'A' <= Alphabet(v) <= 'Z';
    } else if v < 52 {
      assert 'a' <= Alphabet(v) <= 'z';
    } else if v < 62 {
      assert '0' <= Alphabet(v) <= '9';
    }
  }

  predicate IsAscii(s: string)
  {
    forall i | 0 <= i < |s| :: s[i] as int < 128
  }

  /** The four 6-bit values `b64encode` writes for the three bytes of a group. */
  function Sextets(b0: byte, b1: byte, b2: byte): (vs: seq<bv8>)
    ensures |vs| == 4 && forall i | 0 <= i < 4 :: vs[i] < 64
  {
    [b0 >> 2, ((b0 & 3) << 4) | (b1 >> 4), ((b1 & 15) << 2) | (b2 >> 6), b2 & 63]
  }

  /** The characters of a sequence of 6-bit values. */
  function Chars(vs: seq<bv8>): (s: string)
    requires forall i | 0 <= i < |vs| :: vs[i] < 64
    ensures |s| == |vs| && IsAscii(s)
    ensures forall i | 0 <= i < |s| :: s[i] != '='
  {
    seq(|vs|, i requires 0 <= i < |vs| => Alphabet(vs[i]))
  }

  /**
   * `base64.b64encode(b).decode("ascii")`: each group of three bytes becomes
   * four characters; a final group of one or two bytes is completed with zero
   * bits and padded with '=' to four characters.
   */
  function Encode(b: seq<byte>): (s: string)
    ensures IsAscii(s)
    decreases |b|
  {
    if |b| == 0 then ""
    else if |b| == 1 then Chars(Sextets(b[0], 0, 0)[..2]) + "=="
    else if |b| == 2 then Chars(Sextets(b[0], b[1], 0)[..3]) + "="
    else Chars(Sextets(b[0], b[1], b[2])) + Encode(b[3..])
  }

  /** The encoding has four characters for every started group of three bytes. */
  lemma {:induction false} EncodeLength(b: seq<byte>)
    ensures |Encode(b)| == 4 * ((|b| + 2) / 3)
    decreases |b|
  {
    if |b| >= 3 {
      EncodeLength(b[3..]);
      assert (|b| + 2) / 3 == (|b[3..]| + 2) / 3 + 1;
    }
  }

  datatype DecodeError =
    | NotAscii          // `str.encode("ascii")` failed
    | NotText           // the value is neither text nor bytes
    | LoneDataChar      // one data character more than a multiple of four
    | IncorrectPadding  // a group of two or three data characters without its padding

  /** Decoder state: position in the current group, leftover bits, padding seen. */
  datatype Quad = Quad(pos: nat, left: bv8, pads: nat)

  /** One data character `v` entering the group: the new state and the byte it completes, if any. */
  function Feed(q: Quad, v: bv8): (Quad, seq<byte>)
    requires q.pos < 4
  {
    if q.pos == 0 then (Quad(1, v, 0), [])
    else if q.pos == 1 then (Quad(2, v & 15, 0), [(q.left << 2) | (v >> 4)])
    else if q.pos == 2 then (Quad(3, v & 3, 0), [(q.left << 4) | (v >> 2)])
    else (Quad(0, 0, 0), [(q.left << 6) | v])
  }

  /** `a2b_base64` in non-strict mode on `s` from index `i`, in state `q`, with output `acc` so far. */
  function Run(s: string, i: nat, q: Quad, acc: seq<byte>): Result<seq<byte>, DecodeError>
    requires i <= |s| && q.pos < 4
    decreases |s| - i
  {
    if i == |s| then
      if q.pos == 0 then Ok(acc)
      else if q.pos == 1 then Err(LoneDataChar)
      else Err(IncorrectPadding)
    else if s[i] == '=' then
      if q.pos >= 2 && q.pos + q.pads + 1 >= 4 then Ok(acc)
      else Run(s, i + 1, if q.pos >= 2 then q.(pads := q.pads + 1) else q, acc)
    else
      match SextetOf(s[i])
      case None => Run(s, i + 1, q, acc)
      case Some(v) => Run(s, i + 1, Feed(q, v).0, acc + Feed(q, v).1)
  }

  /** `base64.b64decode(s)` for text `s` */
  function Decode(s: string): Result<seq<byte>, DecodeError>
  {
    if !IsAscii(s) then Err(NotAscii) else Run(s, 0, Quad(0, 0, 0), [])
  }

  /** `base64.b64decode(v)` for a JSON value: only text is accepted. */
  function DecodeJson(v: Json): Result<seq<byte>, DecodeError>
  {
    if v.Str? then Decode(v.s) else Err(NotText)
  }

  // ---------------------------------------------------------------------
  // Decoding undoes encoding

  /** The decoder reads a string from index `|p| + j` as it reads the suffix after `p` from index `j`. */
  lemma {:induction false} RunShift(p: string, s: string, j: nat, q: Quad, acc: seq<byte>)
    requires j <= |s| && q.pos < 4
    ensures Run(p + s, |p| + j, q, acc) == Run(s, j, q, acc)
    decreases |s| - j
  {
    if j < |s| {
      assert (p + s)[|p| + j] == s[j];
      var c := s[j];
      if c == '=' {
        RunShift(p, s, j + 1, if q.pos >= 2 then q.(pads := q.pads + 1) else q, acc);
      } else if SextetOf(c).None? {
        RunShift(p, s, j + 1, q, acc);
      } else {
        var f := Feed(q, SextetOf(c).value);
        RunShift(p, s, j + 1, f.0, acc + f.1);
      }
    }
  }

  /** A data character with value `v` at index `i` is consumed by one step. */
  lemma StepData(s: string, i: nat, q: Quad, acc: seq<byte>, v: bv8)
    requires i < |s| && q.pos < 4 && s[i] != '=' && SextetOf(s[i]) == Some(v)
    ensures Run(s, i, q, acc) == Run(s, i + 1, Feed(q, v).0, acc + Feed(q, v).1)
  {
  }

  lemma CharsDecode(vs: seq<bv8>, k: nat)
    requires (forall i | 0 <= i < |vs| :: vs[i] < 64) && k < |vs|
    ensures SextetOf(Chars(vs)[k]) == Some(vs[k])
  {
    AlphabetDecodes(vs[k]);
  }

  /** Feeding the sextets of a group into an empty group gives back the group's bytes one by one. */
  lemma FeedSextets(q: Quad, b0: byte, b1: byte, b2: byte)
    requires q.pos == 0
    ensures var vs := Sextets(b0, b1, b2);
      var q1, q2, q3 := Quad(1, vs[0], 0), Quad(2, vs[1] & 15, 0), Quad(3, vs[2] & 3, 0);
      Feed(q, vs[0]) == (q1, []) && Feed(q1, vs[1]) == (q2, [b0]) &&
      Feed(q2, vs[2]) == (q3, [b1]) && Feed(q3, vs[3]) == (Quad(0, 0, 0), [b2])
  {
  }

  /** The characters at `s[i..i + n]` are those of the values `vs`. */
  lemma CharsAt(s: string, i: nat, n: nat, vs: seq<bv8>)
    requires (forall k | 0 <= k < |vs| :: vs[k] < 64) && n <= |vs| && i + n <= |s|
    requires s[i..i + n] == Chars(vs[..n])
    ensures forall k | 0 <= k < n :: s[i + k] != '=' && SextetOf(s[i + k]) == Some(vs[k])
  {
    forall k | 0 <= k < n ensures s[i + k] != '=' && SextetOf(s[i + k]) == Some(vs[k]) {
      assert s[i + k] == s[i..i + n][k];
      CharsDecode(vs[..n], k);
    }
  }

  /**
   * The characters of the sextets of a group, read from index `i` of `s` in an
   * empty group, give back the group's bytes: all three of a full group, which
   * leaves the group empty, or the first `n - 1` of a group of `n` < 4 data
   * characters, which then waits for its padding.
   */
  lemma {:induction false} RunGroup(s: string, i: nat, q: Quad, acc: seq<byte>, b0: byte, b1: byte, b2: byte, n: nat)
    returns (q': Quad)
    requires q.pos == 0 && 2 <= n <= 4 && i + n <= |s|
    requires s[i..i + n] == Chars(Sextets(b0, b1, b2)[..n])
    ensures q'.pos == (if n == 4 then 0 else n) && q'.pads == 0 && (n == 4 ==> q' == Quad(0, 0, 0))
    ensures n == 2 ==> Run(s, i, q, acc) == Run(s, i + 2, q', acc + [b0])
    ensures n == 3 ==> Run(s, i, q, acc) == Run(s, i + 3, q', acc + [b0, b1])
    ensures n == 4 ==> Run(s, i, q, acc) == Run(s, i + 4, q', acc + [b0, b1, b2])
  {
    var vs := Sextets(b0, b1, b2);
    CharsAt(s, i, n, vs);
    RunPair(s, i, q, acc, b0, b1, b2);
    q' := Quad(2, vs[1] & 15, 0);
    if n >= 3 {
      RunThird(s, i + 2, acc + [b0], b0, b1, b2);
      Appends(acc, b0, b1, b2);
      q' := Quad(3, vs[2] & 3, 0);
      if n == 4 {
        RunFourth(s, i + 3, acc + [b0, b1], b0, b1, b2);
        q' := Quad(0, 0, 0);
      }
    }
  }

  lemma Appends(acc: seq<byte>, b0: byte, b1: byte, b2: byte)
    ensures acc + [b0] + [b1] == acc + [b0, b1] && acc + [b0, b1] + [b2] == acc + [b0, b1, b2]
  {
  }

  /** The first two characters of a group give its first byte. */
  lemma RunPair(s: string, i: nat, q: Quad, acc: seq<byte>, b0: byte, b1: byte, b2: byte)
    requires q.pos == 0 && i + 2 <= |s|
    requires var vs := Sextets(b0, b1, b2);
      s[i] != '=' && SextetOf(s[i]) == Some(vs[0]) && s[i + 1] != '=' && SextetOf(s[i + 1]) == Some(vs[1])
    ensures Run(s, i, q, acc) == Run(s, i + 2, Quad(2, Sextets(b0, b1, b2)[1] & 15, 0), acc + [b0])
  {
    var vs := Sextets(b0, b1, b2);
    FeedSextets(q, b0, b1, b2);
    StepData(s, i, q, acc, vs[0]);
    assert acc + [] == acc;
    StepData(s, i + 1, Quad(1, vs[0], 0), acc, vs[1]);
  }

  /** The third character of a group gives its second byte. */
  lemma RunThird(s: string, i: nat, acc: seq<byte>, b0: byte, b1: byte, b2: byte)
    requires i < |s|
    requires s[i] != '=' && SextetOf(s[i]) == Some(Sextets(b0, b1, b2)[2])
    ensures Run(s, i, Quad(2, Sextets(b0, b1, b2)[1] & 15, 0), acc)
         == Run(s, i + 1, Quad(3, Sextets(b0, b1, b2)[2] & 3, 0), acc + [b1])
  {
    var vs := Sextets(b0, b1, b2);
    FeedSextets(Quad(0, 0, 0), b0, b1, b2);
    StepData(s, i, Quad(2, vs[1] & 15, 0), acc, vs[2]);
  }

  /** The fourth character of a group gives its third byte and empties the group. */
  lemma RunFourth(s: string, i: nat, acc: seq<byte>, b0: byte, b1: byte, b2: byte)
    requires i < |s|
    requires s[i] != '=' && SextetOf(s[i]) == Some(Sextets(b0, b1, b2)[3])
    ensures Run(s, i, Quad(3, Sextets(b0, b1, b2)[2] & 3, 0), acc)
         == Run(s, i + 1, Quad(0, 0, 0), acc + [b2])
  {
    var vs := Sextets(b0, b1, b2);
    FeedSextets(Quad(0, 0, 0), b0, b1, b2);
    StepData(s, i, Quad(3, vs[2] & 3, 0), acc, vs[3]);
  }

  lemma Firsts(b: seq<byte>)
    ensures |b| == 1 ==> [b[0]] == b
    ensures |b| == 2 ==> [b[0], b[1]] == b
    ensures |b| >= 3 ==> b[..3] == [b[0], b[1], b[2]]
  {
  }

  /** Where the data characters and the padding of a final group sit after a prefix. */
  lemma Padded(p: string, c: string, pad: string)
    ensures var s := p + (c + pad);
      |s| == |p| + |c| + |pad| && s[|p|..|p| + |c|] == c &&
      forall k | 0 <= k < |pad| :: s[|p| + |c| + k] == pad[k]
  {
  }

  /** A final group of one byte: two data characters and two padding characters. */
  lemma EncodeOne(p: string, b: seq<byte>, acc: seq<byte>)
    requires |b| == 1
    ensures Run(p + Encode(b), |p|, Quad(0, 0, 0), acc) == Ok(acc + b)
  {
    var s, i := p + Encode(b), |p|;
    assert s[i..i + 2] == Chars(Sextets(b[0], 0, 0)[..2]) && |s| == i + 4
        && s[i + 2] == '=' && s[i + 3] == '=' by {
      var c := Chars(Sextets(b[0], 0, 0)[..2]);
      assert Encode(b) == c + "==";
      Padded(p, c, "==");
    }
    var q' := RunGroup(s, i, Quad(0, 0, 0), acc, b[0], 0, 0, 2);
    assert Run(s, i + 2, q', acc + [b[0]]) == Run(s, i + 3, q'.(pads := 1), acc + [b[0]]);
    Firsts(b);
  }

  /** A final group of two bytes: three data characters and one padding character. */
  lemma EncodeTwo(p: string, b: seq<byte>, acc: seq<byte>)
    requires |b| == 2
    ensures Run(p + Encode(b), |p|, Quad(0, 0, 0), acc) == Ok(acc + b)
  {
    var s, i := p + Encode(b), |p|;
    assert s[i..i + 3] == Chars(Sextets(b[0], b[1], 0)[..3]) && |s| == i + 4 && s[i + 3] == '=' by {
      var c := Chars(Sextets(b[0], b[1], 0)[..3]);
      assert Encode(b) == c + "=";
      Padded(p, c, "=");
    }
    var q' := RunGroup(s, i, Quad(0, 0, 0), acc, b[0], b[1], 0, 3);
    Firsts(b);
  }

  /** A full group of three bytes: four data characters, after which the group is empty again. */
  lemma EncodeThree(p: string, b: seq<byte>, acc: seq<byte>)
    requires |b| >= 3
    ensures |p| + 4 <= |p + Encode(b)|
    ensures Run(p + Encode(b), |p|, Quad(0, 0, 0), acc)
         == Run(p + Encode(b), |p| + 4, Quad(0, 0, 0), acc + b[..3])
  {
    var s, i := p + Encode(b), |p|;
    var vs := Sextets(b[0], b[1], b[2]);
    assert s[i..i + 4] == Chars(vs[..4]) by {
      assert vs[..4] == vs;
      assert Encode(b) == Chars(vs) + Encode(b[3..]);
    }
    var q' := RunGroup(s, i, Quad(0, 0, 0), acc, b[0], b[1], b[2], 4);
    Firsts(b);
  }

  /** After the first group the encoding is that of the remaining bytes. */
  lemma EncodeRest(p: string, b: seq<byte>)
    requires |b| >= 3
    ensures var g := Chars(Sextets(b[0], b[1], b[2]));
      p + Encode(b) == (p + g) + Encode(b[3..]) && |p + g| == |p| + 4
  {
    var g := Chars(Sextets(b[0], b[1], b[2]));
    assert Encode(b) == g + Encode(b[3..]);
    Associates(p, g, Encode(b[3..]));
  }

  lemma Associates(x: string, y: string, z: string)
    ensures x + (y + z) == (x + y) + z
  {
  }

  lemma {:induction false} RunEncode(p: string, b: seq<byte>, acc: seq<byte>)
    ensures Run(p + Encode(b), |p|, Quad(0, 0, 0), acc) == Ok(acc + b)
    decreases |b|
  {
    if |b| == 0 {
      assert acc + b == acc;
    } else if |b| == 1 {
      EncodeOne(p, b, acc);
    } else if |b| == 2 {
      EncodeTwo(p, b, acc);
    } else {
      RunEncode(p + Chars(Sextets(b[0], b[1], b[2])), b[3..], acc + b[..3]);
      EncodeGroup(p, b, acc);
    }
  }

  /** A full group followed by an encoding that decodes to the remaining bytes decodes to them all. */
  lemma EncodeGroup(p: string, b: seq<byte>, acc: seq<byte>)
    requires |b| >= 3
    requires var g := Chars(Sextets(b[0], b[1], b[2]));
      Run((p + g) + Encode(b[3..]), |p + g|, Quad(0, 0, 0), acc + b[..3]) == Ok(acc + b[..3] + b[3..])
    ensures Run(p + Encode(b), |p|, Quad(0, 0, 0), acc) == Ok(acc + b)
  {
    EncodeThree(p, b, acc);
    EncodeRest(p, b);
    assert acc + b[..3] + b[3..] == acc + b;
  }

  /** `b64decode(b64encode(b)) == b` */
  lemma RoundTrip(b: seq<byte>)
    ensures Decode(Encode(b)) == Ok(b)
  {
    RunEncode("", b, []);
    assert "" + Encode(b) == Encode(b);
    assert [] + b == b;
  }

  // ---------------------------------------------------------------------
  // Non-validating mode

  /** The characters the non-validating decoder skips. */
  predicate Skipped(c: char)
  {
    c != '=' && SextetOf(c).None?
  }

  function Clean(s: string): (t: string)
    ensures |t| <= |s|
    ensures forall i | 0 <= i < |t| :: !Skipped(t[i])
  {
    if |s| == 0 then ""
    else if Skipped(s[0]) then Clean(s[1..])
    else [s[0]] + Clean(s[1..])
  }

  /** Removing the characters outside the alphabet (and other than '=') changes nothing. */
  lemma {:induction false} SkipsJunk(s: string, i: nat, q: Quad, acc: seq<byte>)
    requires i <= |s| && q.pos < 4
    ensures Run(s, i, q, acc) == Run(Clean(s[i..]), 0, q, acc)
    decreases |s| - i, 1
  {
    if i < |s| {
      assert s[i..][0] == s[i] && s[i..][1..] == s[i + 1..];
      if Skipped(s[i]) {
        SkipsJunk(s, i + 1, q, acc);
      } else {
        KeepsFirst(s, i, q, acc);
      }
    } else {
      assert s[i..] == [];
    }
  }

  lemma CleanKeeps(u: string)
    requires |u| > 0 && !Skipped(u[0])
    ensures Clean(u) == [u[0]] + Clean(u[1..])
  {
  }

  /** The step of `SkipsJunk` for a character the cleaning keeps. */
  lemma {:induction false} KeepsFirst(s: string, i: nat, q: Quad, acc: seq<byte>)
    requires i < |s| && q.pos < 4 && !Skipped(s[i])
    ensures Run(s, i, q, acc) == Run(Clean(s[i..]), 0, q, acc)
    decreases |s| - i, 0
  {
    var c := s[i];
    var t := Clean(s[i + 1..]);
    assert s[i..][0] == c && s[i..][1..] == s[i + 1..];
    CleanKeeps(s[i..]);
    if c == '=' {
      var q' := if q.pos >= 2 then q.(pads := q.pads + 1) else q;
      SkipsJunk(s, i + 1, q', acc);
      RunShift([c], t, 0, q', acc);
    } else {
      var f := Feed(q, SextetOf(c).value);
      SkipsJunk(s, i + 1, f.0, acc + f.1);
      RunShift([c], t, 0, f.0, acc + f.1);
    }
  }

  /** `b64decode` reads only the alphabet and the padding of its input. */
  lemma DecodeIgnoresJunk(s: string)
    requires IsAscii(s)
    ensures Decode(s) == Decode(Clean(s))
  {
    SkipsJunk(s, 0, Quad(0, 0, 0), []);
    assert s[0..] == s;
    assert IsAscii(Clean(s)) by { CleanAscii(s); }
  }

  lemma {:induction false} CleanAscii(s: string)
    requires IsAscii(s)
    ensures IsAscii(Clean(s))
  {
    if |s| > 0 {
      assert IsAscii(s[1..]) by {
        forall i | 0 <= i < |s[1..]| ensures s[1..][i] as int < 128 { assert s[1..][i] == s[i + 1]; }
      }
      CleanAscii(s[1..]);
    }
  }
}
