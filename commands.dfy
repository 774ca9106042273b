/**
 * Command payloads for v3 devices (`mqtt/commands_v3.py`): each command is a
 * two-entry dictionary — the command tag under "type", then one integer
 * argument — built under the message name "ecoflow.v3.Command". With no
 * descriptor pool bound, the bytes are the compact JSON text of the
 * dictionary (`json.dumps(fields, separators=(",", ":"))`, ASCII-only)
 * encoded as UTF-8.
 */
module CommandsV3 {
  import opened Wrappers
  import opened Dicts
  import opened Values
  import Base64

  // ---------------------------------------------------------------------
  // Compact JSON text, as `json.dumps(v, separators=(",", ":"))` writes it

  const HexDigits := "0123456789abcdef"

  /** Four lowercase hex digits of `n`. */
  function Hex4(n: nat): (s: string)
    requires n < 0x1_0000
    ensures |s| == 4 && Base64.IsAscii(s)
  {
    [HexDigits[n / 0x1000], HexDigits[(n / 0x100) % 16], HexDigits[(n / 0x10) % 16], HexDigits[n % 16]]
  }

  /** Printable ASCII other than `"` and `\`: the characters JSON text shows as themselves. */
  predicate Plain(s: string)
  {
    forall i | 0 <= i < |s| :: ' ' <= s[i] <= '~' && s[i] != '"' && s[i] != '\\'
  }

  /**
   * How `ensure_ascii` writes one character: `"` and `\` escaped, the five
   * short control escapes, every other character outside space..tilde as
   * `\uXXXX` (a UTF-16 surrogate pair above U+FFFF).
   */
  function EscapeChar(c: char): (s: string)
    ensures Base64.IsAscii(s) && |s| > 0
    ensures ' ' <= c <= '~' && c != '"' && c != '\\' ==> s == [c]
  {
    if c == '"' then "\\\""
    else if c == '\\' then "\\\\"
    else if c == '\n' then "\\n"
    else if c == '\r' then "\\r"
    else if c == '\t' then "\\t"
    else if c == '\U{8}' then "\\b"
    else if c == '\U{C}' then "\\f"
    else if ' ' <= c <= '~' then [c]
    else if c as int < 0x1_0000 then "\\u" + Hex4(c as int)
    else
      var v := c as int - 0x1_0000;
      "\\u" + Hex4(0xD800 + v / 0x400) + "\\u" + Hex4(0xDC00 + v % 0x400)
  }

  function Escaped(s: string): (r: string)
    ensures Base64.IsAscii(r)
    decreases |s|
  {
    if |s| == 0 then "" else EscapeChar(s[0]) + Escaped(s[1..])
  }

  /** A string literal: the escaped characters between double quotes. */
  function Quote(s: string): string
  {
    "\"" + Escaped(s) + "\""
  }

  /** `parts` joined with `,` */
  function Commas(parts: seq<string>): string
  {
    if |parts| == 0 then ""
    else if |parts| == 1 then parts[0]
    else parts[0] + "," + Commas(parts[1..])
  }

  /** The compact JSON text of a value (a float as its `repr` text). */
  function Dumps(v: Json): string
    decreases v, 1, 0
  {
    match v
    case Null => "null"
    case Bool(b) => if b then "true" else "false"
    case Int(i) => IntToString(i)
    case Float(r) => r.text
    case Str(s) => Quote(s)
    case List(items) => "[" + Commas(Items(v, 0)) + "]"
    case Obj(entries) => "{" + Commas(Members(v, 0)) + "}"
  }

  /** The texts of a list's items from index `from` on. */
  function Items(v: Json, from: nat): (r: seq<string>)
    requires v.List? && from <= |v.items|
    ensures |r| == |v.items| - from
    decreases v, 0, |v.items| - from
  {
    if from == |v.items| then [] else [Dumps(v.items[from])] + Items(v, from + 1)
  }

  /** The `"key":value` texts of a dictionary's entries from index `from` on. */
  function Members(v: Json, from: nat): (r: seq<string>)
    requires v.Obj? && from <= |v.entries|
    ensures |r| == |v.entries| - from
    decreases v, 0, |v.entries| - from
  {
    if from == |v.entries| then []
    else [Quote(v.entries[from].0) + ":" + Dumps(v.entries[from].1)] + Members(v, from + 1)
  }

  /** Plain text is written as itself. */
  lemma {:induction false} EscapedPlain(s: string)
    requires Plain(s)
    ensures Escaped(s) == s
    decreases |s|
  {
    if |s| > 0 {
      assert Plain([s[0]]);
      assert Plain(s[1..]) by {
        forall i | 0 <= i < |s[1..]| ensures ' ' <= s[1..][i] <= '~' && s[1..][i] != '"' && s[1..][i] != '\\' {
          assert s[1..][i] == s[i + 1];
        }
      }
      EscapedPlain(s[1..]);
      assert [s[0]] + s[1..] == s;
    }
  }

  lemma IntToStringAscii(i: int)
    ensures Base64.IsAscii(IntToString(i))
  {
    var s := IntToString(i);
    if i < 0 {
      forall k | 0 <= k < |s| ensures s[k] as int < 128 {
        if k > 0 { assert s[k] == NatToString(-i)[k - 1]; }
      }
    }
  }

  /** A dictionary of text, integer, boolean and null values is written in ASCII only. */
  lemma {:induction false} CommasAscii(parts: seq<string>)
    requires forall i | 0 <= i < |parts| :: Base64.IsAscii(parts[i])
    ensures Base64.IsAscii(Commas(parts))
    decreases |parts|
  {
    if |parts| > 1 {
      assert forall i | 0 <= i < |parts[1..]| :: parts[1..][i] == parts[i + 1];
      CommasAscii(parts[1..]);
    }
  }

  predicate Scalar(v: Json)
  {
    v.Null? || v.Bool? || v.Int? || v.Str?
  }

  lemma ScalarAscii(v: Json)
    requires Scalar(v)
    ensures Base64.IsAscii(Dumps(v))
  {
    if v.Int? {
      IntToStringAscii(v.i);
    }
  }

  lemma {:induction false} MembersAscii(v: Json, from: nat)
    requires v.Obj? && from <= |v.entries|
    requires forall i | 0 <= i < |v.entries| :: Scalar(v.entries[i].1)
    ensures forall i | 0 <= i < |Members(v, from)| :: Base64.IsAscii(Members(v, from)[i])
    decreases |v.entries| - from
  {
    if from < |v.entries| {
      MembersAscii(v, from + 1);
      var e := v.entries[from];
      MemberAscii(e.0, e.1);
      var head := Quote(e.0) + ":" + Dumps(e.1);
      var r := Members(v, from);
      var rest := Members(v, from + 1);
      assert r == [head] + rest;
      forall i | 0 <= i < |r| ensures Base64.IsAscii(r[i]) {
        if i == 0 { assert r[i] == head; } else { assert r[i] == rest[i - 1]; }
      }
    }
  }

  /** One `"key":value` text of a scalar value is ASCII. */
  lemma MemberAscii(k: string, x: Json)
    requires Scalar(x)
    ensures Base64.IsAscii(Quote(k) + ":" + Dumps(x))
  {
    ScalarAscii(x);
    AsciiJoin("\"", Escaped(k));
    AsciiJoin("\"" + Escaped(k), "\"");
    AsciiJoin(Quote(k), ":");
    AsciiJoin(Quote(k) + ":", Dumps(x));
  }

  lemma AsciiJoin(a: string, b: string)
    requires Base64.IsAscii(a) && Base64.IsAscii(b)
    ensures Base64.IsAscii(a + b)
  {
    forall i | 0 <= i < |a + b| ensures (a + b)[i] as int < 128 {
      if i >= |a| { assert (a + b)[i] == b[i - |a|]; }
    }
  }

  lemma FlatAscii(fields: Dict<string, Json>)
    requires forall i | 0 <= i < |fields| :: Scalar(fields[i].1)
    ensures Base64.IsAscii(Dumps(Obj(fields)))
  {
    MembersAscii(Obj(fields), 0);
    CommasAscii(Members(Obj(fields), 0));
  }

  // ---------------------------------------------------------------------
  // UTF-8, as `str.encode("utf-8")` writes it

  function Utf8Char(c: char): (b: seq<byte>)
    ensures 1 <= |b| <= 4
    ensures c as int < 128 ==> b == [c as int as byte]
  {
    var n := c as int;
    if n < 0x80 then [n as byte]
    else if n < 0x800 then [(0xC0 + n / 0x40) as byte, (0x80 + n % 0x40) as byte]
    else if n < 0x1_0000 then
      [(0xE0 + n / 0x1000) as byte, (0x80 + (n / 0x40) % 0x40) as byte, (0x80 + n % 0x40) as byte]
    else
      [(0xF0 + n / 0x4_0000) as byte, (0x80 + (n / 0x1000) % 0x40) as byte,
       (0x80 + (n / 0x40) % 0x40) as byte, (0x80 + n % 0x40) as byte]
  }

  function Utf8(s: string): seq<byte>
    decreases |s|
  {
    if |s| == 0 then [] else Utf8Char(s[0]) + Utf8(s[1..])
  }

  /** ASCII text encodes one byte per character, each byte the character's code. */
  lemma {:induction false} Utf8Ascii(s: string)
    requires Base64.IsAscii(s)
    ensures |Utf8(s)| == |s| && forall i | 0 <= i < |s| :: Utf8(s)[i] == s[i] as int as byte
    decreases |s|
  {
    if |s| > 0 {
      assert Base64.IsAscii(s[1..]) by {
        forall i | 0 <= i < |s[1..]| ensures s[1..][i] as int < 128 { assert s[1..][i] == s[i + 1]; }
      }
      Utf8Ascii(s[1..]);
      forall i | 0 <= i < |s| ensures Utf8(s)[i] == s[i] as int as byte {
        if i > 0 { assert s[i] == s[1..][i - 1]; }
      }
    }
  }

  // ---------------------------------------------------------------------
  // Building a message

  /** The module's descriptor pool: unbound, or bound and able to serialize named messages. */
  datatype CommandPool =
    | Unbound
    | BoundPool(serialize: (string, Dict<string, Json>) -> Option<seq<byte>>)  // None: the name or a field is unknown

  datatype BuildError = SerializeFailed

  /** `build_message(name, fields)` */
  function BuildMessage(pool: CommandPool, name: string, fields: Dict<string, Json>): Result<seq<byte>, BuildError>
  {
    match pool
    case Unbound => Ok(Utf8(Dumps(Obj(fields))))
    case BoundPool(serialize) =>
      match serialize(name, fields)
      case Some(bytes) => Ok(bytes)
      case None => Err(SerializeFailed)
  }

  /** The one message name every command is built under. */
  const CommandMessage := "ecoflow.v3.Command"

  /** `_encode_command(payload)` */
  function EncodeCommand(pool: CommandPool, payload: Dict<string, Json>): Result<seq<byte>, BuildError>
  {
    BuildMessage(pool, CommandMessage, payload)
  }

  // ---------------------------------------------------------------------
  // The commands

  /** `_bool(v)` */
  function Bool01(v: bool): (r: int)
    ensures r == 0 || r == 1
    ensures r == 1 <==> v
  {
    if v then 1 else 0
  }

  /** A command payload: its tag under "type", then its one integer argument. */
  function Command(tag: string, field: string, value: int): (p: Dict<string, Json>)
    ensures Keys(p) == ["type", field]
    ensures Get(p, "type") == Some(Str(tag))
    ensures field != "type" ==> Get(p, field) == Some(Int(value))
    ensures forall i | 0 <= i < |p| :: Scalar(p[i].1)
  {
    [("type", Str(tag)), (field, Int(value))]
  }

  /** The percentage `set_min_soc` sends. */
  function ClampPercent(percent: int): (p: int)
    ensures 0 <= p <= 100
    ensures 0 <= percent <= 100 ==> p == percent
    ensures percent < 0 ==> p == 0
    ensures percent > 100 ==> p == 100
  {
    if percent < 0 then 0 else if percent > 100 then 100 else percent
  }

  /** The wattage `set_ac_charge_power` sends. */
  function NonNegative(watts: int): (w: int)
    ensures w >= 0
    ensures watts >= 0 ==> w == watts
    ensures watts < 0 ==> w == 0
  {
    if watts < 0 then 0 else watts
  }

  function AcOutputPayload(enabled: bool): Dict<string, Json>
  {
    Command("AC_OUT_TOGGLE", "enable", Bool01(enabled))
  }

  function DcOutputPayload(enabled: bool): Dict<string, Json>
  {
    Command("DC_OUT_TOGGLE", "enable", Bool01(enabled))
  }

  function MinSocPayload(percent: int): Dict<string, Json>
  {
    Command("SET_MIN_SOC", "min_soc", ClampPercent(percent))
  }

  function AcChargePowerPayload(watts: int): Dict<string, Json>
  {
    Command("SET_AC_LIMIT_W", "ac_limit_w", NonNegative(watts))
  }

  function XboostPayload(enabled: bool): Dict<string, Json>
  {
    Command("SET_XBOOST", "xboost", Bool01(enabled))
  }

  /** `set_ac_output(enabled)` */
  function SetAcOutput(pool: CommandPool, enabled: bool): Result<seq<byte>, BuildError>
  {
    EncodeCommand(pool, AcOutputPayload(enabled))
  }

  /** `set_dc_output(enabled)` */
  function SetDcOutput(pool: CommandPool, enabled: bool): Result<seq<byte>, BuildError>
  {
    EncodeCommand(pool, DcOutputPayload(enabled))
  }

  /** `set_min_soc(percent)` */
  function SetMinSoc(pool: CommandPool, percent: int): Result<seq<byte>, BuildError>
  {
    EncodeCommand(pool, MinSocPayload(percent))
  }

  /** `set_ac_charge_power(watts)` */
  function SetAcChargePower(pool: CommandPool, watts: int): Result<seq<byte>, BuildError>
  {
    EncodeCommand(pool, AcChargePowerPayload(watts))
  }

  /** `set_xboost(enabled)` */
  function SetXboost(pool: CommandPool, enabled: bool): Result<seq<byte>, BuildError>
  {
    EncodeCommand(pool, XboostPayload(enabled))
  }

  /**
   * With a bound pool every command is serialized under the one name
   * `ecoflow.v3.Command`, and a serialization failure is the command's error.
   */
  lemma CommandsShareName(serialize: (string, Dict<string, Json>) -> Option<seq<byte>>, enabled: bool, percent: int, watts: int)
    ensures var pool := BoundPool(serialize);
      (SetAcOutput(pool, enabled).Ok? <==> serialize(CommandMessage, AcOutputPayload(enabled)).Some?) &&
      (SetDcOutput(pool, enabled).Ok? <==> serialize(CommandMessage, DcOutputPayload(enabled)).Some?) &&
      (SetMinSoc(pool, percent).Ok? <==> serialize(CommandMessage, MinSocPayload(percent)).Some?) &&
      (SetAcChargePower(pool, watts).Ok? <==> serialize(CommandMessage, AcChargePowerPayload(watts)).Some?) &&
      (SetXboost(pool, enabled).Ok? <==> serialize(CommandMessage, XboostPayload(enabled)).Some?) &&
      (SetMinSoc(pool, percent).Ok? ==> SetMinSoc(pool, percent).value == serialize(CommandMessage, MinSocPayload(percent)).value)
  {
  }

  // ---------------------------------------------------------------------
  // Reading a command back

  const CommandHead := "{\"type\":\""

  /** Reads `{"type":"<tag>","<field>":<integer>}` back into its three parts. */
  function ParseCommand(text: string): Option<(string, string, int)>
  {
    if |text| < |CommandHead| + 1 || text[..|CommandHead|] != CommandHead || text[|text| - 1] != '}' then None
    else ParseTag(text[|CommandHead|..|text| - 1])
  }

  /** Reads `<tag>","<field>":<integer>`. */
  function ParseTag(body: string): Option<(string, string, int)>
  {
    var j := Find(body, '"', 0);
    if j + 3 > |body| || body[j..j + 3] != "\",\"" then None
    else
      match ParseField(body[j + 3..])
      case None => None
      case Some(rest) => Some((body[..j], rest.0, rest.1))
  }

  /** Reads `<field>":<integer>`. */
  function ParseField(rest: string): Option<(string, int)>
  {
    var k := Find(rest, '"', 0);
    if k + 2 > |rest| || rest[k..k + 2] != "\":" then None
    else
      match ParseInt(rest[k + 2..])
      case None => None
      case Some(n) => Some((rest[..k], n))
  }

  /** A two-entry dictionary is written as its two members between braces. */
  lemma ObjPair(a: (string, Json), b: (string, Json))
    ensures Dumps(Obj([a, b])) == "{" + (Quote(a.0) + ":" + Dumps(a.1)) + "," + (Quote(b.0) + ":" + Dumps(b.1)) + "}"
  {
    var x, y := Quote(a.0) + ":" + Dumps(a.1), Quote(b.0) + ":" + Dumps(b.1);
    MembersPair(a, b);
    CommasPair(x, y);
  }

  lemma MembersPair(a: (string, Json), b: (string, Json))
    ensures Members(Obj([a, b]), 0) == [Quote(a.0) + ":" + Dumps(a.1), Quote(b.0) + ":" + Dumps(b.1)]
  {
    var v := Obj([a, b]);
    assert Members(v, 2) == [];
    assert Members(v, 1) == [Quote(b.0) + ":" + Dumps(b.1)];
  }

  lemma CommasPair(x: string, y: string)
    ensures Commas([x, y]) == x + "," + y
  {
    assert [x, y][1..] == [y];
  }

  /** A plain string literal is its text between quotes. */
  lemma QuotePlain(s: string)
    requires Plain(s)
    ensures Quote(s) == "\"" + s + "\""
  {
    EscapedPlain(s);
  }

  lemma QuoteType()
    ensures Quote("type") == "\"type\""
  {
    assert Plain("type");
    QuotePlain("type");
  }

  /** The JSON text of a command, for a plain tag and field name. */
  lemma CommandText(tag: string, field: string, value: int)
    requires Plain(tag) && Plain(field)
    ensures Dumps(Obj(Command(tag, field, value))) ==
      CommandHead + tag + "\",\"" + field + "\":" + IntToString(value) + "}"
  {
    var p := Command(tag, field, value);
    var d := IntToString(value);
    ObjPair(("type", Str(tag)), (field, Int(value)));
    QuoteType();
    QuotePlain(tag);
    QuotePlain(field);
    var t, x, f := Quote("type"), Dumps(Str(tag)), Quote(field);
    CommandLayout(tag, field, d, Dumps(Obj(p)), t, x, f);
  }

  /** The pieces of a two-entry command text, regrouped around its fixed punctuation. */
  lemma CommandLayout(tag: string, field: string, digits: string, text: string, t: string, x: string, f: string)
    requires text == "{" + (t + ":" + x) + "," + (f + ":" + digits) + "}"
    requires t == "\"type\"" && x == "\"" + tag + "\"" && f == "\"" + field + "\""
    ensures text == CommandHead + tag + "\",\"" + field + "\":" + digits + "}"
  {
  }

  /** The first quote after a plain prefix is the one that ends it. */
  lemma QuoteAfterPlain(p: string, q: string)
    requires Plain(p)
    ensures Find(p + "\"" + q, '"', 0) == |p|
  {
    var s := p + "\"" + q;
    assert s[|p|] == '"';
    assert forall k | 0 <= k < |p| :: s[k] == p[k];
  }

  lemma ParseFieldPieces(field: string, digits: string)
    requires Plain(field)
    ensures ParseField(field + "\":" + digits) ==
      match ParseInt(digits)
      case None => None
      case Some(n) => Some((field, n))
  {
    var rest := field + "\":" + digits;
    assert Find(rest, '"', 0) == |field| by {
      assert rest == field + "\"" + (":" + digits);
      QuoteAfterPlain(field, ":" + digits);
    }
    assert rest[|field|..|field| + 2] == "\":" && rest[|field| + 2..] == digits && rest[..|field|] == field;
  }

  lemma ParseTagPieces(tag: string, field: string, digits: string)
    requires Plain(tag) && Plain(field)
    ensures ParseTag(tag + "\",\"" + field + "\":" + digits) ==
      match ParseInt(digits)
      case None => None
      case Some(n) => Some((tag, field, n))
  {
    var body := tag + "\",\"" + field + "\":" + digits;
    assert Find(body, '"', 0) == |tag| by {
      assert body == tag + "\"" + (",\"" + field + "\":" + digits);
      QuoteAfterPlain(tag, ",\"" + field + "\":" + digits);
    }
    assert body[|tag|..|tag| + 3] == "\",\"" && body[|tag| + 3..] == field + "\":" + digits && body[..|tag|] == tag;
    ParseFieldPieces(field, digits);
  }

  /** Text laid out as a command reads back as its parts. */
  lemma ParsePieces(tag: string, field: string, digits: string)
    requires Plain(tag) && Plain(field)
    ensures ParseCommand(CommandHead + tag + "\",\"" + field + "\":" + digits + "}") ==
      match ParseInt(digits)
      case None => None
      case Some(n) => Some((tag, field, n))
  {
    var text := CommandHead + tag + "\",\"" + field + "\":" + digits + "}";
    var body := tag + "\",\"" + field + "\":" + digits;
    assert text[..|CommandHead|] == CommandHead && text[|CommandHead|..|text| - 1] == body && text[|text| - 1] == '}';
    ParseTagPieces(tag, field, digits);
  }

  /** Every command's JSON text reads back as its tag, field name and argument. */
  lemma ParseCommandText(tag: string, field: string, value: int)
    requires Plain(tag) && Plain(field)
    ensures ParseCommand(Dumps(Obj(Command(tag, field, value)))) == Some((tag, field, value))
  {
    CommandText(tag, field, value);
    ParsePieces(tag, field, IntToString(value));
    ParseIntToString(value);
  }

  /**
   * Unbound, a command's bytes are the UTF-8 of its JSON text, one byte per
   * character, and they read back as the command.
   */
  lemma CommandBytes(tag: string, field: string, value: int)
    requires Plain(tag) && Plain(field)
    ensures var text := Dumps(Obj(Command(tag, field, value)));
      EncodeCommand(Unbound, Command(tag, field, value)) == Ok(Utf8(text)) &&
      |Utf8(text)| == |text| &&
      (forall i | 0 <= i < |text| :: text[i] as int < 128 && Utf8(text)[i] == text[i] as int as byte) &&
      ParseCommand(text) == Some((tag, field, value))
  {
    var text := Dumps(Obj(Command(tag, field, value)));
    FlatAscii(Command(tag, field, value));
    Utf8Ascii(text);
    ParseCommandText(tag, field, value);
  }

  /** A build that succeeded with the UTF-8 of ASCII text that reads back as the command. */
  ghost predicate SentAs(r: Result<seq<byte>, BuildError>, tag: string, field: string, value: int)
  {
    r.Ok? && exists text: string :: Base64.IsAscii(text) && r.value == Utf8(text) && ParseCommand(text) == Some((tag, field, value))
  }

  /**
   * `build_message` never fails without a pool; a flat dict of scalars then
   * becomes its compact JSON (`Dumps`) in ASCII, one byte per character
   * holding its code, whatever the message name. With a pool it fails exactly
   * when serialization does.
   */
  lemma BuildOutcome(pool: CommandPool, name: string, fields: Dict<string, Json>)
    ensures pool.Unbound? ==> BuildMessage(pool, name, fields).Ok?
    ensures pool.Unbound? && (forall i | 0 <= i < |fields| :: Scalar(fields[i].1)) ==>
      var text, bytes := Dumps(Obj(fields)), BuildMessage(pool, name, fields).value;
      Base64.IsAscii(text) && bytes == Utf8(text) && |bytes| == |text| &&
      forall i | 0 <= i < |text| :: bytes[i] == text[i] as int as byte
    ensures pool.BoundPool? ==> (BuildMessage(pool, name, fields).Ok? <==> pool.serialize(name, fields).Some?)
  {
    if pool.Unbound? && (forall i | 0 <= i < |fields| :: Scalar(fields[i].1)) {
      FlatAscii(fields);
      Utf8Ascii(Dumps(Obj(fields)));
    }
  }

  /** Unbound, a plain-named command is sent as ASCII bytes that read back as the command. */
  lemma SentAsCommand(tag: string, field: string, value: int)
    requires Plain(tag) && Plain(field)
    ensures SentAs(EncodeCommand(Unbound, Command(tag, field, value)), tag, field, value)
  {
    var p := Command(tag, field, value);
    FlatAscii(p);
    ParseCommandText(tag, field, value);
    var text := Dumps(Obj(p));
    assert Base64.IsAscii(text) && EncodeCommand(Unbound, p).value == Utf8(text);
  }

  /**
   * Without a pool every command succeeds, and its bytes read back as its tag,
   * its field name and the argument after clamping or 0/1 conversion.
   */
  lemma CommandsSend(enabled: bool, percent: int, watts: int)
    ensures SentAs(SetAcOutput(Unbound, enabled), "AC_OUT_TOGGLE", "enable", if enabled then 1 else 0)
    ensures SentAs(SetDcOutput(Unbound, enabled), "DC_OUT_TOGGLE", "enable", if enabled then 1 else 0)
    ensures SentAs(SetMinSoc(Unbound, percent), "SET_MIN_SOC", "min_soc", if percent < 0 then 0 else if percent > 100 then 100 else percent)
    ensures SentAs(SetAcChargePower(Unbound, watts), "SET_AC_LIMIT_W", "ac_limit_w", if watts < 0 then 0 else watts)
    ensures SentAs(SetXboost(Unbound, enabled), "SET_XBOOST", "xboost", if enabled then 1 else 0)
  {
    CommandNamesPlain();
    SentAsCommand("AC_OUT_TOGGLE", "enable", Bool01(enabled));
    SentAsCommand("DC_OUT_TOGGLE", "enable", Bool01(enabled));
    SentAsCommand("SET_MIN_SOC", "min_soc", ClampPercent(percent));
    SentAsCommand("SET_AC_LIMIT_W", "ac_limit_w", NonNegative(watts));
    SentAsCommand("SET_XBOOST", "xboost", Bool01(enabled));
  }

  /** `set_min_soc` sends the clamped percentage: 150 becomes 100, -5 becomes 0. */
  lemma MinSocExamples()
    ensures MinSocPayload(150) == [("type", Str("SET_MIN_SOC")), ("min_soc", Int(100))]
    ensures MinSocPayload(-5) == [("type", Str("SET_MIN_SOC")), ("min_soc", Int(0))]
    ensures MinSocPayload(42) == [("type", Str("SET_MIN_SOC")), ("min_soc", Int(42))]
  {
  }

  /** Every command's tag and field name is written as itself. */
  lemma CommandNamesPlain()
    ensures Plain("AC_OUT_TOGGLE") && Plain("DC_OUT_TOGGLE") && Plain("SET_MIN_SOC")
    ensures Plain("SET_AC_LIMIT_W") && Plain("SET_XBOOST")
    ensures Plain("enable") && Plain("min_soc") && Plain("ac_limit_w") && Plain("xboost")
  {
  }

  /** Every command reads back from its unbound bytes as what was asked for. */
  lemma CommandsReadBack(enabled: bool, percent: int, watts: int)
    ensures ParseCommand(Dumps(Obj(AcOutputPayload(enabled)))) == Some(("AC_OUT_TOGGLE", "enable", Bool01(enabled)))
    ensures ParseCommand(Dumps(Obj(DcOutputPayload(enabled)))) == Some(("DC_OUT_TOGGLE", "enable", Bool01(enabled)))
    ensures ParseCommand(Dumps(Obj(MinSocPayload(percent)))) == Some(("SET_MIN_SOC", "min_soc", ClampPercent(percent)))
    ensures ParseCommand(Dumps(Obj(AcChargePowerPayload(watts)))) == Some(("SET_AC_LIMIT_W", "ac_limit_w", NonNegative(watts)))
    ensures ParseCommand(Dumps(Obj(XboostPayload(enabled)))) == Some(("SET_XBOOST", "xboost", Bool01(enabled)))
  {
    CommandNamesPlain();
    ParseCommandText("AC_OUT_TOGGLE", "enable", Bool01(enabled));
    ParseCommandText("DC_OUT_TOGGLE", "enable", Bool01(enabled));
    ParseCommandText("SET_MIN_SOC", "min_soc", ClampPercent(percent));
    ParseCommandText("SET_AC_LIMIT_W", "ac_limit_w", NonNegative(watts));
    ParseCommandText("SET_XBOOST", "xboost", Bool01(enabled));
  }
}
