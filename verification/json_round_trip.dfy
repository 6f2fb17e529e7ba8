/** What JSON.parse(JSON.stringify(v)) gives back, and the proof that the
    modelled parser and writer agree on it. */
module JsonRoundTrip {
  import opened Wrappers
  import opened JsValue
  import opened JsonWrite
  import opened JsonRead
  import Numerals

  /** The value a stringify/parse round trip yields: undefined array elements
      become null, properties holding undefined disappear, and a repeated key
      keeps its first position and its last value */
  function Canon(v: Value): Value
    decreases v
  {
    match v
    case Undefined => Null
    case Arr(items) => Arr(CanonItems(items))
    case Obj(ps) => Obj(Dedup(CanonMembers(ps)))
    case _ => v
  }

  function CanonItems(items: seq<Value>): (r: seq<Value>)
    ensures |r| == |items|
    decreases items
  {
    if items == [] then [] else [Canon(items[0])] + CanonItems(items[1..])
  }

  function CanonMembers(ps: seq<Prop>): seq<Prop>
    decreases ps
  {
    if ps == [] then []
    else if ps[0].val.Undefined? then CanonMembers(ps[1..])
    else [Prop(ps[0].key, Canon(ps[0].val))] + CanonMembers(ps[1..])
  }

  /** A rest of input that cannot extend a number written before it */
  predicate EndsNumber(rest: string) {
    rest == [] || !Numerals.IsDigit(rest[0])
  }

  predicate HasDefined(ps: seq<Prop>) {
    exists i | 0 <= i < |ps| :: !ps[i].val.Undefined?
  }

  lemma HexDigitValue(d: nat)
    requires d < 16
    ensures IsHex(HexDigit(d)) && HexValue(HexDigit(d)) == d
  {
  }

  /** Reading back the escape of one character */
  lemma {:induction false} EscapeCharRoundTrip(c: char, t: string)
    ensures ParseString(EscapeChar(c) + t) ==
      match ParseString(t)
      case None => None
      case Some((str, rest)) => Some(([c] + str, rest))
  {
    var e := EscapeChar(c);
    var s := e + t;
    if e == [c] {
      assert s[0] == c && s[1..] == t;
    } else {
      assert s[0] == '\\';
      if c as int < 0x20 && c != '\n' && c != '\r' && c != '\t' && c as int != 0x08 && c as int != 0x0C {
        var hi := c as int / 16;
        var lo := c as int % 16;
        HexDigitValue(hi);
        HexDigitValue(lo);
        assert s[1..] == ['u', '0', '0', HexDigit(hi), HexDigit(lo)] + t;
        assert ParseEscape(s[1..]) == Some((c, t));
      } else {
        assert s[1..] == [e[1]] + t;
        assert ParseEscape(s[1..]) == Some((c, t));
      }
    }
  }

  lemma {:induction false} StringRoundTrip(str: string, rest: string)
    ensures ParseString(EscapeText(str) + ['"'] + rest) == Some((str, rest))
    decreases |str|
  {
    if str == [] {
      assert EscapeText(str) + ['"'] + rest == ['"'] + rest;
    } else {
      StringRoundTrip(str[1..], rest);
      EscapeCharRoundTrip(str[0], EscapeText(str[1..]) + ['"'] + rest);
      assert EscapeText(str) + ['"'] + rest
        == EscapeChar(str[0]) + (EscapeText(str[1..]) + ['"'] + rest);
      assert [str[0]] + str[1..] == str;
    }
  }

  lemma NatRoundTrip(n: nat, rest: string)
    requires EndsNumber(rest)
    ensures ParseNat(Numerals.NatToText(n) + rest) == Some((n, rest))
  {
    var d := Numerals.NatToText(n);
    var s := d + rest;
    assert s[0] == d[0];
    if n == 0 {
      assert s[1..] == rest;
    } else {
      Numerals.NumeralRun(n, rest);
      Numerals.NatTextRoundTrip(n);
      assert s[|d|..] == rest;
    }
  }

  lemma NumberRoundTrip(i: int, rest: string)
    requires EndsNumber(rest)
    ensures ParseNumber(Numerals.IntToText(i) + rest) == Some((i, rest))
  {
    if i < 0 {
      var d := Numerals.NatToText(-i);
      assert Numerals.IntToText(i) + rest == ['-'] + (d + rest);
      NatRoundTrip(-i, rest);
      NegativeNumber(d + rest, -i, rest);
    } else {
      var d := Numerals.NatToText(i);
      assert Numerals.IntToText(i) == d;
      NatRoundTrip(i, rest);
      NonNegativeNumber(d + rest, i, rest);
    }
  }

  lemma NegativeNumber(t: string, n: nat, rest: string)
    requires ParseNat(t) == Some((n, rest))
    ensures ParseNumber(['-'] + t) == Some((-(n as int), rest))
  {
    Prefixed('-', t);
  }

  lemma NonNegativeNumber(t: string, n: nat, rest: string)
    requires t != [] && t[0] != '-'
    requires ParseNat(t) == Some((n, rest))
    ensures ParseNumber(t) == Some((n as int, rest))
  {
  }

  /** The central round trip: parsing what was written, followed by any rest
      that cannot extend a number, reads back the canonical value and stops
      exactly at the rest */
  lemma {:induction false} ValueRoundTrip(v: Value, rest: string)
    requires EndsNumber(rest)
    ensures ParseValue(Write(v) + rest) == Some((Canon(v), rest))
    decreases v, 3
  {
    match v
    case Arr(items) => ArrayValueRoundTrip(items, rest);
    case Obj(ps) => ObjectValueRoundTrip(ps, rest);
    case _ => ScalarRoundTrip(v, rest);
  }

  lemma ScalarRoundTrip(v: Value, rest: string)
    requires !v.Arr? && !v.Obj?
    requires EndsNumber(rest)
    ensures ParseValue(Write(v) + rest) == Some((Canon(v), rest))
  {
    match v
    case Num(n) => NumValueRoundTrip(n, rest);
    case Str(str) => StrValueRoundTrip(str, rest);
    case _ => WordRoundTrip(v, rest);
  }

  lemma WordRoundTrip(v: Value, rest: string)
    requires v.Undefined? || v.Null? || v.Bool?
    ensures ParseValue(Write(v) + rest) == Some((Canon(v), rest))
  {
    var w := Write(v);
    var s := w + rest;
    assert s[0] == w[0];
    assert SkipWs(s) == s;
    assert s[..|w|] == w && s[|w|..] == rest;
  }

  lemma NumValueRoundTrip(n: int, rest: string)
    requires EndsNumber(rest)
    ensures ParseValue(Write(Num(n)) + rest) == Some((Num(n), rest))
  {
    var s := Write(Num(n)) + rest;
    assert s[0] == Write(Num(n))[0];
    assert SkipWs(s) == s;
    NumberRoundTrip(n, rest);
  }

  lemma StrValueRoundTrip(str: string, rest: string)
    ensures ParseValue(Write(Str(str)) + rest) == Some((Str(str), rest))
  {
    var s := Write(Str(str)) + rest;
    Bracketed('"', EscapeText(str), ['"'], rest);
    assert SkipWs(s) == s;
    StringRoundTrip(str, rest);
  }

  lemma {:induction false} ArrayValueRoundTrip(items: seq<Value>, rest: string)
    requires EndsNumber(rest)
    ensures ParseValue(Write(Arr(items)) + rest) == Some((Canon(Arr(items)), rest))
    decreases items, 3
  {
    var body := if items == [] then "" else WriteElements(items);
    Bracketed('[', body, "]", rest);
    OpensArray(Write(Arr(items)) + rest);
    ArrayRoundTrip(items, rest);
  }

  lemma {:induction false} ObjectValueRoundTrip(ps: seq<Prop>, rest: string)
    requires EndsNumber(rest)
    ensures ParseValue(Write(Obj(ps)) + rest) == Some((Canon(Obj(ps)), rest))
    decreases ps, 6
  {
    Bracketed('{', WriteMembers(ps, false), "}", rest);
    OpensObject(Write(Obj(ps)) + rest);
    ObjectRoundTrip(ps, rest);
  }

  lemma Prefixed(c: char, t: string)
    ensures ([c] + t)[0] == c && ([c] + t)[1..] == t
  {
  }

  lemma OpensArray(s: string)
    requires s != [] && s[0] == '['
    ensures ParseValue(s) == ParseArray(s[1..])
  {
    assert SkipWs(s) == s;
  }

  lemma OpensObject(s: string)
    requires s != [] && s[0] == '{'
    ensures ParseValue(s) == ParseObject(s[1..])
  {
    assert SkipWs(s) == s;
  }

  /** A bracketed text starts with its opening bracket, then the body and the rest */
  lemma Bracketed(open: char, body: string, close: string, rest: string)
    ensures var s := [open] + body + close + rest; s[0] == open && s[1..] == body + close + rest
  {
    var s := [open] + body + close + rest;
    assert s == [open] + (body + close + rest);
  }

  lemma {:induction false} ArrayRoundTrip(items: seq<Value>, rest: string)
    requires EndsNumber(rest)
    ensures ParseArray((if items == [] then "" else WriteElements(items)) + "]" + rest)
      == Some((Arr(CanonItems(items)), rest))
    decreases items, 2
  {
    if items != [] {
      var body := WriteElements(items);
      var s := body + "]" + rest;
      ElementsRoundTrip(items, rest);
      assert body[0] == Write(items[0])[0] by { ElementsStart(items); }
      assert SkipWs(s) == s;
    }
  }

  lemma {:induction false} ElementsStart(items: seq<Value>)
    requires items != []
    ensures |WriteElements(items)| > 0 && WriteElements(items)[0] == Write(items[0])[0]
  {
  }

  lemma {:induction false} ObjectRoundTrip(ps: seq<Prop>, rest: string)
    requires EndsNumber(rest)
    ensures ParseObject(WriteMembers(ps, false) + "}" + rest)
      == Some((Obj(Dedup(CanonMembers(ps))), rest))
    decreases ps, 5
  {
    var s := WriteMembers(ps, false) + "}" + rest;
    if HasDefined(ps) {
      MembersStartWithKey(ps);
      MembersRoundTrip(ps, rest);
      assert SkipWs(s) == s;
    } else {
      NoMembersWritten(ps, false);
      NoMembersCanon(ps);
    }
  }

  /** One step of the element parser when the value is followed by ']' */
  lemma ElementsLast(s: string, x: Value, tail: string)
    requires ParseValue(s) == Some((x, tail))
    requires tail != [] && tail[0] == ']'
    ensures ParseElements(s) == Some(([x], tail[1..]))
  {
    assert SkipWs(tail) == tail;
  }

  /** One step of the element parser when the value is followed by ',' */
  lemma ElementsNext(s: string, x: Value, tail: string, xs: seq<Value>, rest: string)
    requires ParseValue(s) == Some((x, tail))
    requires tail != [] && tail[0] == ','
    requires ParseElements(tail[1..]) == Some((xs, rest))
    ensures ParseElements(s) == Some(([x] + xs, rest))
  {
    assert SkipWs(tail) == tail;
  }

  lemma {:induction false} ElementsRoundTrip(items: seq<Value>, rest: string)
    requires items != []
    requires EndsNumber(rest)
    ensures ParseElements(WriteElements(items) + "]" + rest) == Some((CanonItems(items), rest))
    decreases items, 0
  {
    var s := WriteElements(items) + "]" + rest;
    if |items| == 1 {
      assert s == Write(items[0]) + ("]" + rest);
      ValueRoundTrip(items[0], "]" + rest);
      ElementsLast(s, Canon(items[0]), "]" + rest);
      assert CanonItems(items) == [Canon(items[0])];
    } else {
      var tail := "," + (WriteElements(items[1..]) + "]" + rest);
      assert s == Write(items[0]) + tail;
      ValueRoundTrip(items[0], tail);
      ElementsRoundTrip(items[1..], rest);
      assert tail[1..] == WriteElements(items[1..]) + "]" + rest;
      ElementsNext(s, Canon(items[0]), tail, CanonItems(items[1..]), rest);
    }
  }

  /** Members written with a leading comma are the same members after one */
  lemma {:induction false} CommaMembers(ps: seq<Prop>)
    ensures HasDefined(ps) ==> WriteMembers(ps, true) == "," + WriteMembers(ps, false)
    ensures !HasDefined(ps) ==> WriteMembers(ps, true) == "" && WriteMembers(ps, false) == ""
    decreases ps
  {
    if ps != [] {
      CommaMembers(ps[1..]);
      if ps[0].val.Undefined? {
        SkippedHead(ps);
      } else {
        assert HasDefined(ps) by { assert !ps[0].val.Undefined?; }
        DefinedHeadText(ps);
      }
    }
  }

  /** A defined first member is written with or without the leading comma */
  lemma DefinedHeadText(ps: seq<Prop>)
    requires ps != [] && !ps[0].val.Undefined?
    ensures WriteMembers(ps, true) == "," + WriteMembers(ps, false)
  {
    CommaShape(Quote(ps[0].key), Write(ps[0].val), WriteMembers(ps[1..], true));
  }

  lemma CommaShape(q: string, w: string, m: string)
    ensures "," + q + ":" + w + m == "," + ("" + q + ":" + w + m)
  {
  }

  /** An undefined first member does not decide whether any member is written */
  lemma SkippedHead(ps: seq<Prop>)
    requires ps != [] && ps[0].val.Undefined?
    ensures HasDefined(ps) <==> HasDefined(ps[1..])
  {
    if HasDefined(ps) {
      var i :| 0 <= i < |ps| && !ps[i].val.Undefined?;
      assert ps[1..][i - 1] == ps[i];
    }
    if HasDefined(ps[1..]) {
      var i :| 0 <= i < |ps[1..]| && !ps[1..][i].val.Undefined?;
      assert ps[i + 1] == ps[1..][i];
    }
  }

  lemma NoMembersWritten(ps: seq<Prop>, needComma: bool)
    requires !HasDefined(ps)
    ensures WriteMembers(ps, needComma) == ""
  {
    CommaMembers(ps);
  }

  lemma {:induction false} NoMembersCanon(ps: seq<Prop>)
    requires !HasDefined(ps)
    ensures CanonMembers(ps) == []
    decreases ps
  {
    if ps != [] {
      assert ps[0].val.Undefined?;
      assert !HasDefined(ps[1..]) by {
        forall i | 0 <= i < |ps[1..]|
          ensures ps[1..][i].val.Undefined?
        {
          assert ps[1..][i] == ps[i + 1];
        }
      }
      NoMembersCanon(ps[1..]);
    }
  }

  lemma {:induction false} MembersStartWithKey(ps: seq<Prop>)
    requires HasDefined(ps)
    ensures |WriteMembers(ps, false)| > 0 && WriteMembers(ps, false)[0] == '"'
    decreases ps
  {
    if ps[0].val.Undefined? {
      var i :| 0 <= i < |ps| && !ps[i].val.Undefined?;
      assert ps[1..][i - 1] == ps[i];
      MembersStartWithKey(ps[1..]);
    }
  }

  /** The member parser reads `"key":x` and stops at '}' */
  lemma MembersLast(s: string, key: string, c: string, x: Value, tail: string)
    requires s != [] && s[0] == '"'
    requires ParseString(s[1..]) == Some((key, c))
    requires c != [] && c[0] == ':'
    requires ParseValue(c[1..]) == Some((x, tail))
    requires tail != [] && tail[0] == '}'
    ensures ParseMembers(s) == Some(([Prop(key, x)], tail[1..]))
  {
    assert SkipWs(s) == s;
    assert SkipWs(c) == c;
    assert SkipWs(tail) == tail;
  }

  /** The member parser reads `"key":x` and continues after ',' */
  lemma MembersNext(s: string, key: string, c: string, x: Value, tail: string,
                    ps: seq<Prop>, rest: string)
    requires s != [] && s[0] == '"'
    requires ParseString(s[1..]) == Some((key, c))
    requires c != [] && c[0] == ':'
    requires ParseValue(c[1..]) == Some((x, tail))
    requires tail != [] && tail[0] == ','
    requires ParseMembers(tail[1..]) == Some((ps, rest))
    ensures ParseMembers(s) == Some(([Prop(key, x)] + ps, rest))
  {
    assert SkipWs(s) == s;
    assert SkipWs(c) == c;
    assert SkipWs(tail) == tail;
  }

  lemma {:induction false} MembersRoundTrip(ps: seq<Prop>, rest: string)
    requires HasDefined(ps)
    requires EndsNumber(rest)
    ensures ParseMembers(WriteMembers(ps, false) + "}" + rest) == Some((CanonMembers(ps), rest))
    decreases ps, 4
  {
    if ps[0].val.Undefined? {
      var i :| 0 <= i < |ps| && !ps[i].val.Undefined?;
      assert ps[1..][i - 1] == ps[i];
      MembersRoundTrip(ps[1..], rest);
    } else {
      MemberRoundTrip(ps, rest);
    }
  }

  /** How the text of members starting with a defined one splits up */
  lemma MemberText(ps: seq<Prop>, rest: string)
    requires ps != [] && !ps[0].val.Undefined?
    ensures WriteMembers(ps, false) + "}" + rest
      == ['"'] + (EscapeText(ps[0].key) + ['"']
         + (":" + (Write(ps[0].val) + (WriteMembers(ps[1..], true) + "}" + rest))))
  {
    FirstMemberText(ps);
    TextShape(EscapeText(ps[0].key), Write(ps[0].val), WriteMembers(ps[1..], true), rest);
  }

  lemma FirstMemberText(ps: seq<Prop>)
    requires ps != [] && !ps[0].val.Undefined?
    ensures WriteMembers(ps, false)
      == "" + (['"'] + EscapeText(ps[0].key) + ['"']) + ":" + Write(ps[0].val) + WriteMembers(ps[1..], true)
  {
  }

  lemma TailAfterHead(t: string)
    ensures (['"'] + t)[1..] == t && (":" + t)[1..] == t
  {
  }

  /** Regrouping the text of one member followed by the others */
  lemma TextShape(k: string, w: string, m: string, rest: string)
    ensures ("" + (['"'] + k + ['"']) + ":" + w + m) + "}" + rest
      == ['"'] + (k + ['"'] + (":" + (w + (m + "}" + rest))))
  {
  }

  /** The first member is defined: it is read, then the rest of the members */
  lemma {:induction false} MemberRoundTrip(ps: seq<Prop>, rest: string)
    requires ps != [] && !ps[0].val.Undefined?
    requires EndsNumber(rest)
    ensures ParseMembers(WriteMembers(ps, false) + "}" + rest) == Some((CanonMembers(ps), rest))
    decreases ps, 3
  {
    if HasDefined(ps[1..]) {
      MemberThenMore(ps, rest);
    } else {
      MemberAlone(ps, rest);
    }
  }

  /** A defined first member followed by a comma and more members */
  lemma {:induction false} MemberThenMore(ps: seq<Prop>, rest: string)
    requires ps != [] && !ps[0].val.Undefined? && HasDefined(ps[1..])
    requires EndsNumber(rest)
    ensures ParseMembers(WriteMembers(ps, false) + "}" + rest) == Some((CanonMembers(ps), rest))
    decreases ps, 2
  {
    var p := ps[0];
    var more := WriteMembers(ps[1..], false) + "}" + rest;
    var after := WriteMembers(ps[1..], true) + "}" + rest;
    var c := ":" + (Write(p.val) + after);
    var s := WriteMembers(ps, false) + "}" + rest;
    CommaMembers(ps[1..]);
    assert after == [','] + more;
    Prefixed(',', more);
    MemberHead(ps, rest);
    MembersRoundTrip(ps[1..], rest);
    MembersNext(s, p.key, c, Canon(p.val), after, CanonMembers(ps[1..]), rest);
  }

  /** A defined member with nothing written after it */
  lemma {:induction false} MemberAlone(ps: seq<Prop>, rest: string)
    requires ps != [] && !ps[0].val.Undefined? && !HasDefined(ps[1..])
    requires EndsNumber(rest)
    ensures ParseMembers(WriteMembers(ps, false) + "}" + rest) == Some((CanonMembers(ps), rest))
    decreases ps, 2
  {
    var p := ps[0];
    var after := WriteMembers(ps[1..], true) + "}" + rest;
    var c := ":" + (Write(p.val) + after);
    var s := WriteMembers(ps, false) + "}" + rest;
    NoMembersWritten(ps[1..], true);
    assert after == "}" + rest;
    MemberHead(ps, rest);
    NoMembersCanon(ps[1..]);
    assert CanonMembers(ps) == [Prop(p.key, Canon(p.val))];
    MembersLast(s, p.key, c, Canon(p.val), after);
  }

  /** The key and the value of the first member are read back */
  lemma {:induction false} MemberHead(ps: seq<Prop>, rest: string)
    requires ps != [] && !ps[0].val.Undefined?
    requires EndsNumber(WriteMembers(ps[1..], true) + "}" + rest)
    ensures var after := WriteMembers(ps[1..], true) + "}" + rest;
            var c := ":" + (Write(ps[0].val) + after);
            var s := WriteMembers(ps, false) + "}" + rest;
            && s != [] && s[0] == '"'
            && ParseString(s[1..]) == Some((ps[0].key, c))
            && c[0] == ':'
            && ParseValue(c[1..]) == Some((Canon(ps[0].val), after))
    decreases ps, 1
  {
    var p := ps[0];
    var after := WriteMembers(ps[1..], true) + "}" + rest;
    var c := ":" + (Write(p.val) + after);
    var s := WriteMembers(ps, false) + "}" + rest;
    MemberText(ps, rest);
    TailAfterHead(EscapeText(p.key) + ['"'] + c);
    StringRoundTrip(p.key, c);
    TailAfterHead(Write(p.val) + after);
    ValueRoundTrip(p.val, after);
  }

  /** JSON.parse(JSON.stringify(v)) succeeds and yields Canon(v) */
  lemma ParseWrite(v: Value)
    ensures Parse(Write(v)) == Some(Canon(v))
  {
    ValueRoundTrip(v, []);
    assert Write(v) + [] == Write(v);
  }

  /** Building an object from members whose keys are all new keeps them as
      they are, in order */
  lemma {:induction false} DedupIntoFresh(acc: seq<Prop>, raw: seq<Prop>)
    requires DistinctKeys(raw)
    requires KeySet(acc) !! KeySet(raw)
    ensures DedupInto(acc, raw) == acc + raw
    decreases |raw|
  {
    if raw == [] {
      assert acc + raw == acc;
    } else {
      var p := raw[0];
      var acc' := acc + [p];
      assert p.key in KeySet(raw);
      DedupFreshStep(acc, raw);
      FreshKeysAfterStep(acc, raw);
      DedupIntoFresh(acc', raw[1..]);
      ConsAppend(acc, raw);
    }
  }

  lemma ConsAppend<T>(a: seq<T>, b: seq<T>)
    requires b != []
    ensures a + [b[0]] + b[1..] == a + b
  {
  }

  lemma DedupFreshStep(acc: seq<Prop>, raw: seq<Prop>)
    requires raw != [] && raw[0].key !in KeySet(acc)
    ensures DedupInto(acc, raw) == DedupInto(acc + [raw[0]], raw[1..])
  {
    assert SetProp(acc, raw[0].key, raw[0].val) == acc + [raw[0]];
  }

  lemma FreshKeysAfterStep(acc: seq<Prop>, raw: seq<Prop>)
    requires raw != [] && DistinctKeys(raw)
    requires KeySet(acc) !! KeySet(raw)
    ensures KeySet(acc + [raw[0]]) !! KeySet(raw[1..])
  {
    KeySetConcat(acc, [raw[0]]);
    assert KeySet([raw[0]]) == {raw[0].key};
  }

  /** Canon changes nothing in a value JSON text can denote */
  lemma {:induction false} CanonOfJson(v: Value)
    requires IsJson(v)
    ensures Canon(v) == v
    decreases v
  {
    match v
    case Arr(items) => CanonItemsOfJson(items);
    case Obj(ps) =>
      CanonMembersOfJson(ps);
      DedupIntoFresh([], ps);
      assert [] + ps == ps;
    case _ =>
  }

  lemma CanonFixesJson(v: Value)
    ensures IsJson(v) ==> Canon(v) == v
  {
    if IsJson(v) {
      CanonOfJson(v);
    }
  }

  lemma {:induction false} CanonItemsOfJson(items: seq<Value>)
    requires AllJson(items)
    ensures CanonItems(items) == items
    decreases items
  {
    if items != [] {
      CanonOfJson(items[0]);
      CanonItemsOfJson(items[1..]);
    }
  }

  lemma {:induction false} CanonMembersOfJson(ps: seq<Prop>)
    requires AllPropsJson(ps)
    ensures CanonMembers(ps) == ps
    decreases ps
  {
    if ps != [] {
      assert !ps[0].val.Undefined?;
      CanonOfJson(ps[0].val);
      CanonMembersOfJson(ps[1..]);
    }
  }

  /** Dropping undefined members adds no key and keeps keys distinct */
  lemma {:induction false} CanonMembersKeys(ps: seq<Prop>)
    ensures KeySet(CanonMembers(ps)) <= KeySet(ps)
    ensures DistinctKeys(ps) ==> DistinctKeys(CanonMembers(ps))
    decreases ps
  {
    if ps != [] {
      CanonMembersKeys(ps[1..]);
      if !ps[0].val.Undefined? {
        var c := CanonMembers(ps);
        assert c[0].key == ps[0].key && c[1..] == CanonMembers(ps[1..]);
      }
    }
  }

  /** A property that is defined comes back as its canonical form */
  lemma {:induction false} CanonMembersGet(ps: seq<Prop>, k: string)
    requires !Get(ps, k).Undefined?
    ensures Get(CanonMembers(ps), k) == Canon(Get(ps, k))
    decreases ps
  {
    var c := CanonMembers(ps);
    if ps[0].key == k {
      assert c[0] == Prop(k, Canon(ps[0].val));
    } else {
      CanonMembersGet(ps[1..], k);
      if !ps[0].val.Undefined? {
        assert c[0].key != k && c[1..] == CanonMembers(ps[1..]);
      }
    }
  }

  /** In an object with distinct keys, a defined property survives
      JSON.parse(JSON.stringify(o)) as its canonical form */
  lemma CanonKeepsProperty(ps: seq<Prop>, k: string)
    requires DistinctKeys(ps) && !Get(ps, k).Undefined?
    ensures GetProperty(Canon(Obj(ps)), k) == Canon(Get(ps, k))
  {
    var c := CanonMembers(ps);
    CanonMembersKeys(ps);
    DedupIntoFresh([], c);
    assert [] + c == c;
    CanonMembersGet(ps, k);
  }

  /** Every value JSON text can denote survives JSON.parse(JSON.stringify(v))
      unchanged */
  lemma JsonRoundTrip(v: Value)
    requires IsJson(v)
    ensures Stringify(v).Some?
    ensures Parse(Stringify(v).value) == Some(v)
  {
    ParseWrite(v);
    CanonOfJson(v);
  }

  /** The canonical form is itself a value JSON text can denote */
  lemma CanonIsJson(v: Value)
    ensures IsJson(Canon(v))
  {
    ParseWrite(v);
  }
}
