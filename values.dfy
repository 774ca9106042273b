/**
 * The Python values the integration handles: JSON values (as `json.loads`
 * produces them), fields of parsed protobuf messages, and the built-in
 * coercions `int()`, `float()`, `bool()`, `bytes()`, `list()` and `str()`
 * applied to them. A coercion that raises in Python yields `None`.
 */
module Values {
  import opened Wrappers
  import opened Dicts

  type byte = bv8

  /**
   * A Python float, which the model does not compute with. It carries the
   * three things the code observes of it: its `repr` text, `int(f)` (None for
   * NaN and the infinities, where Python raises) and `bool(f)`.
   */
  datatype Real = Real(text: string, trunc: Option<int>, truthy: bool)

  /** A JSON value; objects keep their insertion order. */
  datatype Json =
    | Null
    | Bool(b: bool)
    | Int(i: int)
    | Float(r: Real)
    | Str(s: string)
    | List(items: seq<Json>)
    | Obj(entries: Dict<string, Json>)

  /** A field of a parsed protobuf message; a message is the bag of its declared fields. */
  datatype Field =
    | FInt(i: int)
    | FBool(b: bool)
    | FFloat(r: Real)
    | FStr(s: string)
    | FBytes(bytes: seq<byte>)
    | FMsg(m: map<string, Field>)
    | FMsgs(ms: seq<map<string, Field>>)

  /** `hasattr(msg, name)` is `name in bag`: every declared field is present, defaulted or not. */
  type Bag = map<string, Field>

  // ---------------------------------------------------------------------
  // Decimal integers: `str(n)` and `int(s)`

  predicate IsDigit(c: char) { '0' <= c <= '9' }

  function DigitChar(d: nat): (c: char)
    requires d < 10
    ensures IsDigit(c)
  {
    (d + '0' as int) as char
  }

  function DigitValue(c: char): (d: nat)
    requires IsDigit(c)
    ensures d < 10 && DigitChar(d) == c
  {
    c as int - '0' as int
  }

  /** `str(n)` for n >= 0 */
  function NatToString(n: nat): (s: string)
    ensures |s| > 0 && forall i | 0 <= i < |s| :: IsDigit(s[i])
  {
    if n < 10 then [DigitChar(n)] else NatToString(n / 10) + [DigitChar(n % 10)]
  }

  /** `str(i)` */
  function IntToString(i: int): (s: string)
    ensures |s| > 0 && IsDigit(s[|s| - 1])
  {
    if i < 0 then "-" + NatToString(-i) else NatToString(i)
  }

  /**
   * The whitespace `int()` and `str.strip()` remove: the characters for which
   * Python's `str.isspace()` holds, that is tab to carriage return, the four
   * separators U+001C to U+001F, the space, U+0085, U+00A0, U+1680, U+2000
   * to U+200A, U+2028, U+2029, U+202F, U+205F and U+3000.
   */
  predicate IsSpace(c: char)
  {
    var n := c as int;
    (9 <= n <= 13) || (28 <= n <= 32) || n == 0x85 || n == 0xA0 || n == 0x1680 ||
    (0x2000 <= n <= 0x200A) || n == 0x2028 || n == 0x2029 || n == 0x202F || n == 0x205F || n == 0x3000
  }

  /**
   * The only whitespace `int()` strips from bytes: the ASCII characters tab
   * to carriage return, and the space.
   */
  predicate IsAsciiSpace(c: char)
  {
    (9 <= c as int <= 13) || c == ' '
  }

  /** The whitespace `int()` strips: `str.isspace()` for text, ASCII whitespace for bytes. */
  predicate Blank(c: char, bytes: bool)
  {
    if bytes then IsAsciiSpace(c) else IsSpace(c)
  }

  function TrimLeft(s: string, bytes: bool): (t: string)
    ensures |t| <= |s| && (|t| > 0 ==> !Blank(t[0], bytes))
  {
    if |s| > 0 && Blank(s[0], bytes) then TrimLeft(s[1..], bytes) else s
  }

  function TrimRight(s: string, bytes: bool): (t: string)
    ensures |t| <= |s| && (|t| > 0 ==> !Blank(t[|t| - 1], bytes))
  {
    if |s| > 0 && Blank(s[|s| - 1], bytes) then TrimRight(s[..|s| - 1], bytes) else s
  }

  /** The first `c` in `s` at or after `i` (or `|s|` when there is none). */
  function Find(s: string, c: char, i: nat): (j: nat)
    requires i <= |s|
    ensures i <= j <= |s| && (j < |s| ==> s[j] == c)
    ensures forall k | i <= k < j :: s[k] != c
    decreases |s| - i
  {
    if i == |s| || s[i] == c then i else Find(s, c, i + 1)
  }

  /** `s.strip()` */
  function Strip(s: string): string
  {
    TrimRight(TrimLeft(s, false), false)
  }

  /** Bytes read one character per byte, as `int()` of bytes reads them. */
  function BytesText(bs: seq<byte>): string
  {
    seq(|bs|, k requires 0 <= k < |bs| => bs[k] as char)
  }

  /**
   * The value of a run of decimal digits in which single underscores may
   * separate digits (`1_000`), or None if `t` is not such a run.
   */
  function DigitRun(t: string): Option<nat>
  {
    if |t| == 0 || !IsDigit(t[|t| - 1]) then None
    else if |t| == 1 then Some(DigitValue(t[0]))
    else
      var init := t[..|t| - 1];
      var init' := if init[|init| - 1] == '_' then init[..|init| - 1] else init;
      if |init'| == 0 then None
      else match DigitRun(init')
        case None => None
        case Some(n) => Some(n * 10 + DigitValue(t[|t| - 1]))
  }

  /** `int(s)` for a string in base 10: optional surrounding whitespace, optional sign, digits. */
  function ParseInt(s: string): Option<int>
  {
    ParseSigned(Strip(s))
  }

  /** `int(b)` for bytes in base 10: as for text, but only ASCII whitespace is stripped. */
  function ParseIntBytes(bs: seq<byte>): Option<int>
  {
    ParseSigned(TrimRight(TrimLeft(BytesText(bs), true), true))
  }

  /** An optional sign, then digits: the stripped text `int()` reads. */
  function ParseSigned(t: string): Option<int>
  {
    if |t| > 0 && (t[0] == '+' || t[0] == '-') then
      match DigitRun(t[1..])
      case None => None
      case Some(n) => var m: int := n; Some(if t[0] == '-' then 0 - m else m)
    else
      match DigitRun(t)
      case None => None
      case Some(n) => var v: int := n; Some(v)
  }

  lemma {:induction false} DigitRunOfNat(n: nat)
    ensures DigitRun(NatToString(n)) == Some(n)
  {
    if n >= 10 {
      var t := NatToString(n);
      assert t[..|t| - 1] == NatToString(n / 10);
      DigitRunOfNat(n / 10);
    }
  }

  lemma StripUnspaced(s: string)
    requires |s| > 0 && !IsSpace(s[0]) && !IsSpace(s[|s| - 1])
    ensures Strip(s) == s
  {
  }

  /** `int(str(i)) == i` */
  lemma {:induction false} ParseIntToString(i: int)
    ensures ParseInt(IntToString(i)) == Some(i)
  {
    var s := IntToString(i);
    StripUnspaced(s);
    if i < 0 {
      assert s[1..] == NatToString(-i);
      DigitRunOfNat(-i);
    } else {
      DigitRunOfNat(i);
    }
  }

  /**
   * `int()` ignores the whitespace around the digits: `int(a + str(i) + b) == i`
   * for any whitespace characters `a` and `b`, the separator U+001C included.
   */
  lemma ParseIntPadded(i: int, a: char, b: char)
    requires IsSpace(a) && IsSpace(b)
    ensures ParseInt([a] + IntToString(i) + [b]) == Some(i)
  {
    var s := IntToString(i);
    var p := [a] + s + [b];
    assert Strip(p) == Strip(s) by {
      StripUnspaced(s);
      assert TrimLeft(p, false) == s + [b] by {
        assert p[1..] == s + [b];
      }
      assert TrimRight(s + [b], false) == s by {
        assert (s + [b])[..|s + [b]| - 1] == s;
      }
    }
    ParseIntToString(i);
  }

  /** A file separator before the digits is whitespace to `int()`: `int("\x1c5") == 5`. */
  lemma ParseIntSeparator()
    ensures ParseInt([28 as char, '5']) == Some(5)
  {
    assert [28 as char, '5'] == [28 as char] + IntToString(5);
    assert TrimLeft([28 as char, '5'], false) == "5";
    assert Strip([28 as char, '5']) == "5";
    ParseIntToString(5);
  }

  /**
   * `int()` of bytes strips only ASCII whitespace: `int(b" 5") == 5`, while
   * `int(b"\x1c5")` and `int(b"\xa05")` raise.
   */
  lemma BytesSeparator()
    ensures IntOfField(FBytes([0x20, 0x35])) == Some(5)
    ensures IntOfField(FBytes([0x1C, 0x35])) == None
    ensures IntOfField(FBytes([0xA0, 0x35])) == None
  {
    assert BytesText([0x20, 0x35]) == [' ', '5'];
    assert TrimLeft([' ', '5'], true) == "5";
    assert BytesText([0x1C, 0x35]) == [28 as char, '5'];
    assert TrimLeft([28 as char, '5'], true) == [28 as char, '5'];
    assert BytesText([0xA0, 0x35]) == [0xA0 as char, '5'];
    assert TrimLeft([0xA0 as char, '5'], true) == [0xA0 as char, '5'];
    ParseIntToString(5);
  }

  /** A run of digits starts with a digit. */
  lemma {:induction false} DigitRunFirst(t: string)
    requires DigitRun(t).Some?
    ensures |t| > 0 && IsDigit(t[0])
    decreases |t|
  {
    if |t| > 1 {
      var init := t[..|t| - 1];
      var init' := if init[|init| - 1] == '_' then init[..|init| - 1] else init;
      DigitRunFirst(init');
      assert init'[0] == t[0];
    }
  }

  /** Text `int()` accepts starts and ends with something other than whitespace. */
  lemma SignedEnds(t: string)
    requires ParseSigned(t).Some?
    ensures |t| > 0 && !IsSpace(t[0]) && !IsSpace(t[|t| - 1])
  {
    if t[0] == '+' || t[0] == '-' {
      assert t[|t| - 1] == t[1..][|t[1..]| - 1];
    } else {
      DigitRunFirst(t);
    }
  }

  /** Stripping ASCII whitespace on the left is stripping all whitespace, when it stops at a non-space. */
  lemma {:induction false} TrimLeftAgrees(s: string)
    requires |TrimLeft(s, true)| > 0 && !IsSpace(TrimLeft(s, true)[0])
    ensures TrimLeft(s, false) == TrimLeft(s, true)
    decreases |s|
  {
    if IsAsciiSpace(s[0]) {
      TrimLeftAgrees(s[1..]);
    }
  }

  /** The same on the right. */
  lemma {:induction false} TrimRightAgrees(s: string)
    requires |TrimRight(s, true)| > 0 && !IsSpace(TrimRight(s, true)[|TrimRight(s, true)| - 1])
    ensures TrimRight(s, false) == TrimRight(s, true)
    decreases |s|
  {
    if IsAsciiSpace(s[|s| - 1]) {
      TrimRightAgrees(s[..|s| - 1]);
    }
  }

  /** Trimming on the right keeps the first character. */
  lemma {:induction false} TrimRightFirst(s: string, bytes: bool)
    requires |TrimRight(s, bytes)| > 0
    ensures TrimRight(s, bytes)[0] == s[0]
    decreases |s|
  {
    if Blank(s[|s| - 1], bytes) {
      TrimRightFirst(s[..|s| - 1], bytes);
    }
  }

  /** Where `int()` of bytes succeeds, it reads the same integer as `int()` of those characters as text. */
  lemma ParseIntBytesAgrees(bs: seq<byte>)
    ensures ParseIntBytes(bs).Some? ==> ParseInt(BytesText(bs)) == ParseIntBytes(bs)
  {
    var t := BytesText(bs);
    var u := TrimLeft(t, true);
    var a := TrimRight(u, true);
    if ParseSigned(a).Some? {
      SignedEnds(a);
      TrimRightFirst(u, true);
      TrimLeftAgrees(t);
      TrimRightAgrees(u);
    }
  }

  // ---------------------------------------------------------------------
  // Coercions of JSON values

  /** Python truthiness, `bool(v)` */
  function Truthy(v: Json): bool
  {
    match v
    case Null => false
    case Bool(b) => b
    case Int(i) => i != 0
    case Float(r) => r.truthy
    case Str(s) => |s| > 0
    case List(items) => |items| > 0
    case Obj(entries) => |entries| > 0
  }

  /** `int(v)` */
  function IntOfJson(v: Json): Option<int>
  {
    match v
    case Int(i) => Some(i)
    case Bool(b) => Some(if b then 1 else 0)
    case Float(r) => r.trunc
    case Str(s) => ParseInt(s)
    case _ => None
  }

  /** `float(i)` for an int (exact below 2**53; `repr` shown as for small values). */
  function RealOfInt(i: int): (r: Real)
    ensures r.trunc == Some(i) && (r.truthy <==> i != 0)
  {
    Real(IntToString(i) + ".0", Some(i), i != 0)
  }

  /** `repr(v)` (string escapes are not modelled). */
  function Repr(v: Json): string
  {
    match v
    case Null => "None"
    case Bool(b) => if b then "True" else "False"
    case Int(i) => IntToString(i)
    case Float(r) => r.text
    case Str(s) => "'" + s + "'"
    case List(items) =>
      "[" + Join(seq(|items|, k requires 0 <= k < |items| => Repr(items[k]))) + "]"
    case Obj(entries) =>
      "{" + Join(seq(|entries|, k requires 0 <= k < |entries| =>
                   "'" + entries[k].0 + "': " + Repr(entries[k].1))) + "}"
  }

  /** `", ".join(parts)` */
  function Join(parts: seq<string>): string
  {
    if |parts| == 0 then ""
    else if |parts| == 1 then parts[0]
    else parts[0] + ", " + Join(parts[1..])
  }

  /** `str(v)`, as an f-string renders it */
  function PyStr(v: Json): string
  {
    if v.Str? then v.s else Repr(v)
  }

  // ---------------------------------------------------------------------
  // Coercions of protobuf field values

  /** `int(f)` */
  function IntOfField(f: Field): Option<int>
  {
    match f
    case FInt(i) => Some(i)
    case FBool(b) => Some(if b then 1 else 0)
    case FFloat(r) => r.trunc
    case FStr(s) => ParseInt(s)
    case FBytes(bs) => ParseIntBytes(bs)
    case FMsg(_) => None
    case FMsgs(_) => None
  }

  /** `float(f)`; text fields are not parsed as float literals (they yield None). */
  function FloatOfField(f: Field): Option<Real>
  {
    match f
    case FInt(i) => Some(RealOfInt(i))
    case FBool(b) => Some(RealOfInt(if b then 1 else 0))
    case FFloat(r) => Some(r)
    case _ => None
  }

  /** `bool(f)`: never raises */
  function BoolOfField(f: Field): bool
  {
    match f
    case FInt(i) => i != 0
    case FBool(b) => b
    case FFloat(r) => r.truthy
    case FStr(s) => |s| > 0
    case FBytes(bs) => |bs| > 0
    case FMsg(_) => true
    case FMsgs(ms) => |ms| > 0
  }

  /**
   * On int and bool fields the coercions agree: `int()` and `float()` both
   * succeed, `int(float(f)) == int(f)`, and `bool(f)` is `int(f) != 0`, before
   * and after `float()`. A text field reads back the integer it spells.
   */
  lemma CoercionsAgree(f: Field, i: int)
    ensures (f.FInt? || f.FBool?) ==>
      IntOfField(f).Some? && FloatOfField(f).Some? &&
      IntOfField(FFloat(FloatOfField(f).value)) == IntOfField(f) &&
      (BoolOfField(f) <==> IntOfField(f).value != 0) &&
      BoolOfField(FFloat(FloatOfField(f).value)) == BoolOfField(f)
    ensures IntOfField(FStr(IntToString(i))) == Some(i) && BoolOfField(FStr(IntToString(i)))
  {
    ParseIntToString(i);
  }

  /** `bytes(f)`: an int n gives n zero bytes, a negative one raises; text and messages raise. */
  function BytesOfField(f: Field): Option<seq<byte>>
  {
    match f
    case FBytes(bs) => Some(bs)
    case FInt(i) => if i < 0 then None else Some(seq(i, _ => 0 as byte))
    case FBool(b) => Some(if b then [0 as byte] else [])
    case FMsgs(ms) => if |ms| == 0 then Some([]) else None
    case _ => None
  }

  /**
   * `list(f)` where each element is then read with `getattr(h, name, default)`:
   * a repeated message field gives its messages; iterating bytes or text gives
   * ints or characters, which have none of the header fields, so they read as
   * empty bags. Scalars and single messages are not iterable.
   */
  function ListOfField(f: Field): Option<seq<Bag>>
  {
    match f
    case FMsgs(ms) => Some(ms)
    case FBytes(bs) => Some(seq(|bs|, _ => map[]))
    case FStr(s) => Some(seq(|s|, _ => map[]))
    case _ => None
  }

  /** `getattr(msg, name, default)` */
  function FieldOr(bag: Bag, name: string, default: Field): Field
  {
    if name in bag then bag[name] else default
  }
}
