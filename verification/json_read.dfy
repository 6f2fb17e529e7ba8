/** JSON.parse on text (section 25.5.1 of ECMA-262 over the grammar of
    RFC 8259), restricted to integer numbers. Each parser takes the input
    and returns the value it read together with the unread rest. */
module JsonRead {
  import opened Wrappers
  import opened JsValue
  import Numerals

  /** The four whitespace characters RFC 8259 allows between tokens */
  predicate IsWs(c: char) {
    c == ' ' || c == '\t' || c == '\n' || c == '\r'
  }

  function SkipWs(s: string): (r: string)
    ensures |r| <= |s|
    ensures r == [] || !IsWs(r[0])
    ensures s == [] || !IsWs(s[0]) ==> r == s
    decreases |s|
  {
    if s != [] && IsWs(s[0]) then SkipWs(s[1..]) else s
  }

  predicate IsHex(c: char) {
    Numerals.IsDigit(c) || 'a' <= c <= 'f' || 'A' <= c <= 'F'
  }

  function HexValue(c: char): (d: nat)
    requires IsHex(c)
    ensures d < 16
  {
    if Numerals.IsDigit(c) then (c as int) - 48
    else if 'a' <= c <= 'f' then (c as int) - 87
    else (c as int) - 55
  }

  /** The UTF-16 code unit written as four hexadecimal digits at the front of s */
  function HexUnit(s: string): (r: Option<nat>)
    ensures r.Some? ==> |s| >= 4 && r.value < 0x10000
  {
    if |s| >= 4 && IsHex(s[0]) && IsHex(s[1]) && IsHex(s[2]) && IsHex(s[3]) then
      Some(HexValue(s[0]) * 4096 + HexValue(s[1]) * 256 + HexValue(s[2]) * 16 + HexValue(s[3]))
    else None
  }

  /** The code point a high and a low surrogate code unit encode together */
  function SurrogatePair(high: nat, low: nat): (c: char)
    requires 0xD800 <= high < 0xDC00 && 0xDC00 <= low < 0xE000
    ensures 0x10000 <= c as int <= 0x10FFFF
  {
    (0x10000 + (high - 0xD800) * 0x400 + (low - 0xDC00)) as char
  }

  /** The character denoted by the escape sequence after a backslash. A \u
      escape of a high surrogate followed by a \u escape of a low surrogate
      denotes the one character the pair encodes; a surrogate escape outside
      such a pair is refused, since the model's characters are Unicode
      scalar values. */
  function ParseEscape(s: string): (r: Option<(char, string)>)
    ensures r.Some? ==> |r.value.1| < |s|
  {
    if s == [] then None
    else if s[0] == '"' then Some(('"', s[1..]))
    else if s[0] == '\\' then Some(('\\', s[1..]))
    else if s[0] == '/' then Some(('/', s[1..]))
    else if s[0] == 'b' then Some((0x08 as char, s[1..]))
    else if s[0] == 'f' then Some((0x0C as char, s[1..]))
    else if s[0] == 'n' then Some(('\n', s[1..]))
    else if s[0] == 'r' then Some(('\r', s[1..]))
    else if s[0] == 't' then Some(('\t', s[1..]))
    else if s[0] == 'u' then
      match HexUnit(s[1..])
      case None => None
      case Some(code) =>
        if code < 0xD800 || 0xE000 <= code then Some((code as char, s[5..]))
        else if code < 0xDC00 && |s| >= 7 && s[5] == '\\' && s[6] == 'u' then
          match HexUnit(s[7..])
          case None => None
          case Some(low) =>
            if 0xDC00 <= low < 0xE000 then Some((SurrogatePair(code, low), s[11..])) else None
        else None
    else None
  }

  /** The high surrogate UTF-16 writes first for a character outside the
      basic multilingual plane */
  function HighSurrogate(c: char): (u: nat)
    requires 0x10000 <= c as int
    ensures 0xD800 <= u < 0xDC00
  {
    0xD800 + (c as int - 0x10000) / 0x400
  }

  /** The low surrogate UTF-16 writes second for such a character */
  function LowSurrogate(c: char): (u: nat)
    requires 0x10000 <= c as int
    ensures 0xDC00 <= u < 0xE000
  {
    0xDC00 + (c as int - 0x10000) % 0x400
  }

  /** Decoding the UTF-16 surrogates of a character gives the character back */
  lemma SurrogatesDecode(c: char)
    requires 0x10000 <= c as int
    ensures SurrogatePair(HighSurrogate(c), LowSurrogate(c)) == c
  {
  }

  /** Every high and low surrogate pair is the UTF-16 form of the character it
      decodes to */
  lemma SurrogatesEncode(high: nat, low: nat)
    requires 0xD800 <= high < 0xDC00 && 0xDC00 <= low < 0xE000
    ensures HighSurrogate(SurrogatePair(high, low)) == high
    ensures LowSurrogate(SurrogatePair(high, low)) == low
  {
  }

  /** A \u escape of a high surrogate directly followed by a \u escape of a
      low surrogate reads as the one character the pair encodes */
  lemma SurrogatePairEscape(s: string, high: nat, low: nat)
    requires |s| >= 11 && s[0] == 'u' && HexUnit(s[1..]) == Some(high)
    requires s[5] == '\\' && s[6] == 'u' && HexUnit(s[7..]) == Some(low)
    requires 0xD800 <= high < 0xDC00 && 0xDC00 <= low < 0xE000
    ensures ParseEscape(s) == Some((SurrogatePair(high, low), s[11..]))
  {
  }

  /** A \u escape of a surrogate that does not open such a pair is refused */
  lemma LoneSurrogateRefused(s: string, code: nat)
    requires s != [] && s[0] == 'u' && HexUnit(s[1..]) == Some(code) && 0xD800 <= code < 0xE000
    requires !(code < 0xDC00 && |s| >= 7 && s[5] == '\\' && s[6] == 'u'
               && HexUnit(s[7..]).Some? && 0xDC00 <= HexUnit(s[7..]).value < 0xE000)
    ensures ParseEscape(s) == None
  {
  }

  /** The body of a string literal after its opening quote, up to and
      including the closing quote. Unescaped control characters are refused. */
  function ParseString(s: string): (r: Option<(string, string)>)
    ensures r.Some? ==> |r.value.1| < |s|
    decreases |s|
  {
    if s == [] then None
    else if s[0] == '"' then Some(([], s[1..]))
    else if s[0] == '\\' then
      match ParseEscape(s[1..])
      case None => None
      case Some((c, rest)) =>
        match ParseString(rest)
        case None => None
        case Some((t, rest')) => Some(([c] + t, rest'))
    else if (s[0] as int) < 0x20 then None
    else
      match ParseString(s[1..])
      case None => None
      case Some((t, rest)) => Some(([s[0]] + t, rest))
  }

  /** A non-negative integer: a lone 0, or digits not starting with 0 */
  function ParseNat(s: string): (r: Option<(nat, string)>)
    ensures r.Some? ==> |r.value.1| < |s|
  {
    if s == [] then None
    else if s[0] == '0' then Some((0, s[1..]))
    else if Numerals.IsDigit(s[0]) then
      var k := Numerals.LeadingDigits(s);
      Some((Numerals.DigitsValue(s[..k]), s[k..]))
    else None
  }

  /** An integer number, optionally negative */
  function ParseNumber(s: string): (r: Option<(int, string)>)
    ensures r.Some? ==> |r.value.1| < |s|
  {
    if s != [] && s[0] == '-' then
      match ParseNat(s[1..])
      case None => None
      case Some((n, rest)) => Some((-(n as int), rest))
    else
      match ParseNat(s)
      case None => None
      case Some((n, rest)) => Some((n as int, rest))
  }

  /** Builds an object from its members in text order: a repeated key keeps
      its first position and takes its last value, as JSON.parse does */
  function DedupInto(acc: seq<Prop>, raw: seq<Prop>): (r: seq<Prop>)
    ensures DistinctKeys(acc) ==> DistinctKeys(r)
    ensures AllPropsJson(acc) && AllPropsJson(raw) ==> AllPropsJson(r)
    decreases |raw|
  {
    if raw == [] then acc
    else DedupInto(SetProp(acc, raw[0].key, raw[0].val), raw[1..])
  }

  function Dedup(raw: seq<Prop>): (r: seq<Prop>)
    ensures DistinctKeys(r)
    ensures AllPropsJson(raw) ==> AllPropsJson(r)
  {
    DedupInto([], raw)
  }

  /** A literal word such as null, spelled out at the front of s */
  function ParseWord(s: string, word: string, v: Value): (r: Option<(Value, string)>)
    requires |word| > 0
    ensures r.Some? ==> |r.value.1| < |s| && r.value.0 == v
  {
    if |s| >= |word| && s[..|word|] == word then Some((v, s[|word|..])) else None
  }

  /** One value, after optional leading whitespace */
  function ParseValue(s: string): (r: Option<(Value, string)>)
    ensures r.Some? ==> |r.value.1| < |s| && IsJson(r.value.0)
    decreases |s|, 0
  {
    var t := SkipWs(s);
    if t == [] then None
    else if t[0] == 'n' then ParseWord(t, "null", Null)
    else if t[0] == 't' then ParseWord(t, "true", Bool(true))
    else if t[0] == 'f' then ParseWord(t, "false", Bool(false))
    else if t[0] == '"' then
      match ParseString(t[1..])
      case None => None
      case Some((str, rest)) => Some((Str(str), rest))
    else if t[0] == '-' || Numerals.IsDigit(t[0]) then
      match ParseNumber(t)
      case None => None
      case Some((n, rest)) => Some((Num(n), rest))
    else if t[0] == '[' then ParseArray(t[1..])
    else if t[0] == '{' then ParseObject(t[1..])
    else None
  }

  /** An array after its opening bracket */
  function ParseArray(s: string): (r: Option<(Value, string)>)
    ensures r.Some? ==> |r.value.1| < |s| && IsJson(r.value.0)
    decreases |s|, 2
  {
    var u := SkipWs(s);
    if u != [] && u[0] == ']' then Some((Arr([]), u[1..]))
    else
      match ParseElements(s)
      case None => None
      case Some((items, rest)) => Some((Arr(items), rest))
  }

  /** An object after its opening brace */
  function ParseObject(s: string): (r: Option<(Value, string)>)
    ensures r.Some? ==> |r.value.1| < |s| && IsJson(r.value.0)
    decreases |s|, 2
  {
    var u := SkipWs(s);
    if u != [] && u[0] == '}' then Some((Obj([]), u[1..]))
    else
      match ParseMembers(s)
      case None => None
      case Some((raw, rest)) => Some((Obj(Dedup(raw)), rest))
  }

  /** Array elements up to and including the closing bracket */
  function ParseElements(s: string): (r: Option<(seq<Value>, string)>)
    ensures r.Some? ==> |r.value.1| < |s| && AllJson(r.value.0)
    decreases |s|, 1
  {
    match ParseValue(s)
    case None => None
    case Some((x, rest)) =>
      var u := SkipWs(rest);
      if u == [] then None
      else if u[0] == ']' then Some(([x], u[1..]))
      else if u[0] == ',' then
        match ParseElements(u[1..])
        case None => None
        case Some((xs, rest')) =>
          assert ([x] + xs)[1..] == xs;
          Some(([x] + xs, rest'))
      else None
  }

  /** Object members up to and including the closing brace, in text order
      and with any repeated keys still present */
  function ParseMembers(s: string): (r: Option<(seq<Prop>, string)>)
    ensures r.Some? ==> |r.value.1| < |s| && AllPropsJson(r.value.0)
    decreases |s|, 1
  {
    var t := SkipWs(s);
    if t == [] || t[0] != '"' then None
    else
      match ParseString(t[1..])
      case None => None
      case Some((key, afterKey)) =>
        var c := SkipWs(afterKey);
        if c == [] || c[0] != ':' then None
        else
          match ParseValue(c[1..])
          case None => None
          case Some((x, rest)) =>
            var u := SkipWs(rest);
            if u == [] then None
            else if u[0] == '}' then Some(([Prop(key, x)], u[1..]))
            else if u[0] == ',' then
              match ParseMembers(u[1..])
              case None => None
              case Some((ps, rest')) =>
                assert ([Prop(key, x)] + ps)[1..] == ps;
                Some(([Prop(key, x)] + ps, rest'))
            else None
  }

  /** JSON.parse(text): one value, surrounded only by whitespace; None is the
      SyntaxError the source catches */
  function Parse(text: string): (r: Option<Value>)
    ensures r.Some? ==> IsJson(r.value)
  {
    match ParseValue(text)
    case None => None
    case Some((v, rest)) => if SkipWs(rest) == [] then Some(v) else None
  }
}
