/** JSON.stringify on the modelled values (section 25.5.2 of ECMA-262,
    producing the JSON text of RFC 8259 without any whitespace). */
module JsonWrite {
  import opened Wrappers
  import opened JsValue
  import Numerals

  /** Lower-case hexadecimal digit, as JSON.stringify writes in \u escapes */
  function HexDigit(d: nat): (c: char)
    requires d < 16
  {
    if d < 10 then (48 + d) as char else (87 + d) as char
  }

  /** The escape of one character inside a JSON string literal */
  function EscapeChar(c: char): (r: string)
    ensures |r| >= 1
    ensures r[0] == '\\' || (r == [c] && c != '"' && c != '\\' && c as int >= 0x20)
  {
    if c == '"' then ['\\', '"']
    else if c == '\\' then ['\\', '\\']
    else if c as int == 0x08 then ['\\', 'b']
    else if c as int == 0x0C then ['\\', 'f']
    else if c == '\n' then ['\\', 'n']
    else if c == '\r' then ['\\', 'r']
    else if c == '\t' then ['\\', 't']
    else if c as int < 0x20 then ['\\', 'u', '0', '0', HexDigit(c as int / 16), HexDigit(c as int % 16)]
    else [c]
  }

  function EscapeText(s: string): string
    decreases |s|
  {
    if s == [] then [] else EscapeChar(s[0]) + EscapeText(s[1..])
  }

  /** A JSON string literal for s */
  function Quote(s: string): string {
    ['"'] + EscapeText(s) + ['"']
  }

  /** Characters a written value can start with */
  predicate StartsValue(c: char) {
    c in {'n', 't', 'f', '"', '[', '{', '-'} || Numerals.IsDigit(c)
  }

  /** The text JSON.stringify produces for v in a position where it cannot be
      left out: undefined writes as null, which is what happens to an
      undefined array element */
  function Write(v: Value): (r: string)
    ensures |r| > 0 && StartsValue(r[0])
    decreases v
  {
    match v
    case Undefined => "null"
    case Null => "null"
    case Bool(b) => if b then "true" else "false"
    case Num(n) => Numerals.IntToText(n)
    case Str(s) => Quote(s)
    case Arr(items) => "[" + (if items == [] then "" else WriteElements(items)) + "]"
    case Obj(ps) => "{" + WriteMembers(ps, false) + "}"
  }

  /** Array elements separated by commas */
  function WriteElements(items: seq<Value>): string
    requires items != []
    decreases items
  {
    if |items| == 1 then Write(items[0])
    else Write(items[0]) + "," + WriteElements(items[1..])
  }

  /** Object members `"key":value` separated by commas; a member whose value
      is undefined is left out. needComma says whether a member was already
      written before ps. */
  function WriteMembers(ps: seq<Prop>, needComma: bool): string
    decreases ps
  {
    if ps == [] then ""
    else if ps[0].val.Undefined? then WriteMembers(ps[1..], needComma)
    else
      (if needComma then "," else "") + Quote(ps[0].key) + ":" + Write(ps[0].val)
      + WriteMembers(ps[1..], true)
  }

  /** JSON.stringify(v): undefined has no JSON text */
  function Stringify(v: Value): (r: Option<string>)
    ensures r.Some? <==> !v.Undefined?
    ensures r.Some? ==> r.value != ""
  {
    if v.Undefined? then None else Some(Write(v))
  }
}
