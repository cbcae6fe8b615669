/**
 * JSON values as the hubs see them after `json.loads`, the Python truth
 * test and `dict.get` on them, and the JSON codec as an abstract pair of
 * functions. The text syntax of JSON is not modelled: `Codec` stands for
 * `json.dumps(...).encode('utf-8')` and `json.loads(bytes.decode('utf-8'))`,
 * and `Lawful` is the only thing the model knows about them.
 */
module Json {
  import opened Wrappers
  import opened Bytes

  /** A decoded JSON document. JSON numbers are modelled as integers. */
  datatype Json =
    | JNull
    | JBool(b: bool)
    | JNum(n: int)
    | JStr(s: string)
    | JArr(items: seq<Json>)
    | JObj(fields: map<string, Json>)

  /** Python's truth test (`if x:`) on a decoded value: None, False, 0, "", [] and {} are false. */
  predicate Truthy(j: Json) {
    match j
    case JNull => false
    case JBool(b) => b
    case JNum(n) => n != 0
    case JStr(s) => s != ""
    case JArr(items) => items != []
    case JObj(fields) => fields != map[]
  }

  /** Values Python can use as a dict key: lists and dicts raise TypeError. */
  predicate Hashable(j: Json) {
    !j.JArr? && !j.JObj?
  }

  /** `d.get(key, default)` on a decoded dict; `d.get(key)` is `Get(d, key, JNull)`. */
  function Get(d: map<string, Json>, key: string, default: Json): (r: Json)
    ensures key in d ==> r == d[key]
    ensures key !in d ==> r == default
  {
    if key in d then d[key] else default
  }

  /** Decimal digits of a natural number, as Python's `str` writes them. */
  function Decimal(n: nat): (r: string)
    ensures r != []
    ensures forall i :: 0 <= i < |r| ==> '0' <= r[i] <= '9'
  {
    if n < 10 then [DigitChar(n)] else Decimal(n / 10) + [DigitChar(n % 10)]
  }

  function DigitChar(d: nat): (c: char)
    requires d < 10
    ensures '0' <= c <= '9'
  {
    ['0', '1', '2', '3', '4', '5', '6', '7', '8', '9'][d]
  }

  /** The value of a string of decimal digits; the inverse of `Decimal`. */
  function DigitsValue(s: string): nat
  {
    if s == [] then 0
    else DigitsValue(s[..|s| - 1]) * 10 + (if '0' <= s[|s| - 1] <= '9' then (s[|s| - 1] as int - '0' as int) else 0)
  }

  lemma {:induction false} DecimalValue(n: nat)
    ensures DigitsValue(Decimal(n)) == n
  {
    if n >= 10 {
      DecimalValue(n / 10);
      var r := Decimal(n);
      assert r[..|r| - 1] == Decimal(n / 10);
    }
  }

  /** `Decimal` never maps two numbers to the same text. */
  lemma DecimalInjective(m: nat, n: nat)
    requires Decimal(m) == Decimal(n)
    ensures m == n
  {
    DecimalValue(m);
    DecimalValue(n);
  }

  /** Python's `str(x)` (as in an f-string) on a hashable decoded value. */
  function PyStr(j: Json): (r: string)
    requires Hashable(j)
    ensures j.JStr? ==> r == j.s
    ensures j.JNum? && j.n >= 0 ==> r != [] && (forall i :: 0 <= i < |r| ==> '0' <= r[i] <= '9') && DigitsValue(r) == j.n
    ensures j.JNum? && j.n < 0 ==> |r| >= 2 && r[0] == '-' && DigitsValue(r[1..]) == -j.n
  {
    match j
    case JNull => "None"
    case JBool(b) => if b then "True" else "False"
    case JNum(n) =>
      DecimalText(if n < 0 then -n else n);
      if n < 0 then "-" + Decimal(-n) else Decimal(n)
    case JStr(s) => s
  }

  /** The text of a number and of its negation, as `PyStr` builds them. */
  lemma DecimalText(m: nat)
    ensures DigitsValue(Decimal(m)) == m
    ensures |"-" + Decimal(m)| >= 2 && ("-" + Decimal(m))[0] == '-' && ("-" + Decimal(m))[1..] == Decimal(m)
  {
    DecimalValue(m);
    assert ("-" + Decimal(m))[1..] == Decimal(m);
  }

  /** Two numeric ids never give the same text, so a status naming a numeric id names exactly one. */
  lemma PyStrNumberInjective(a: int, b: int)
    requires PyStr(JNum(a)) == PyStr(JNum(b))
    ensures a == b
  {
    var ra, rb := PyStr(JNum(a)), PyStr(JNum(b));
    if (a >= 0) != (b >= 0) {
      assert false;
    } else if a < 0 {
      assert -a == DigitsValue(ra[1..]) == DigitsValue(rb[1..]) == -b;
    }
  }

  /** The JSON codec: serialisation to UTF-8 bytes and the partial parse back. */
  datatype Codec = Codec(dumps: Json -> seq<byte>, loads: seq<byte> -> Option<Json>)

  /**
   * What the model assumes of `json.dumps`/`json.loads`: parsing what was
   * written gives the value back, and the empty text is not JSON (so
   * `json.loads('')` raises).
   */
  ghost predicate Lawful(c: Codec) {
    && (forall j :: c.loads(c.dumps(j)) == Some(j))
    && c.loads([]) == None
  }

  /** A lawful codec never writes an empty payload. */
  lemma DumpsNonEmpty(c: Codec, j: Json)
    requires Lawful(c)
    ensures |c.dumps(j)| > 0
  {
    assert c.loads(c.dumps(j)) == Some(j);
  }

  /** `base64.b64decode` on a string: the decoded bytes, or None where it raises. */
  type Base64Decoder = string -> Option<seq<byte>>

  /** The dict a hub builds with the keys `status` and, optionally, `message`. */
  function StatusReply(status: string, message: Option<string>): (r: Json)
    ensures r.JObj? && Get(r.fields, "status", JNull) == JStr(status)
    ensures r.fields.Keys == if message.Some? then {"status", "message"} else {"status"}
    ensures message.Some? ==> Get(r.fields, "message", JNull) == JStr(message.value)
  {
    if message.Some? then JObj(map["status" := JStr(status), "message" := JStr(message.value)])
    else JObj(map["status" := JStr(status)])
  }
}
