/** JSON.parse (RFC 8259) over UTF-16 units, the strict wire check built on it, and the proof that parsing
    is a left inverse of printing. How a number token becomes a double is a parameter. */
module JsonWire {
  import opened Utf16
  import opened CanonicalJson

  datatype Parse<+T> = Bad | Good(value: T, rest: Text)

  /** Reads a number token. */
  type Reader = Text -> Number

  predicate IsWs(c: Unit) { c == 0x20 || c == 0x09 || c == 0x0a || c == 0x0d }

  function SkipWs(s: Text): (r: Text)
    ensures |r| <= |s|
  {
    if s != [] && IsWs(s[0]) then SkipWs(s[1..]) else s
  }

  predicate StartsWith(s: Text, p: Text) { |p| <= |s| && s[..|p|] == p }

  // ---- numbers ----

  predicate Digit(c: int) { 0x30 <= c <= 0x39 }

  function Digits(s: Text): (n: nat)
    ensures n <= |s|
  {
    if s != [] && Digit(s[0]) then 1 + Digits(s[1..]) else 0
  }

  /** Length of the integer part at the front of s, 0 if there is none: no leading zeros. */
  function IntLen(s: Text): (n: nat)
    ensures n <= |s|
  {
    if s == [] || !Digit(s[0]) then 0 else if s[0] == 0x30 then 1 else Digits(s)
  }

  /** A fraction, if s starts with a complete one. */
  function FracLen(s: Text): (n: nat)
    ensures n <= |s|
  {
    if s != [] && s[0] == 0x2e && Digits(s[1..]) > 0 then 1 + Digits(s[1..]) else 0
  }

  /** An exponent, if s starts with a complete one. */
  function ExpLen(s: Text): (n: nat)
    ensures n <= |s|
  {
    if s == [] || (s[0] != 0x65 && s[0] != 0x45) then 0
    else
      var sign := if |s| >= 2 && (s[1] == 0x2b || s[1] == MINUS) then 1 else 0;
      var d := Digits(s[1 + sign..]);
      if d > 0 then 1 + sign + d else 0
  }

  /** Length of the number token at the front of s, 0 if there is none. */
  function NumLen(s: Text): (n: nat)
    ensures n <= |s|
  {
    var sign := if s != [] && s[0] == MINUS then 1 else 0;
    var i := IntLen(s[sign..]);
    if i == 0 then 0
    else
      var f := FracLen(s[sign + i..]);
      sign + i + f + ExpLen(s[sign + i + f..])
  }

  // ---- strings ----

  function HexValue(c: int): int {
    if 0x30 <= c <= 0x39 then c - 0x30
    else if 0x61 <= c <= 0x66 then c - 0x61 + 10
    else if 0x41 <= c <= 0x46 then c - 0x41 + 10
    else -1
  }

  /** The code unit behind a one-letter escape. */
  function Unescape(c: Unit): Option<Unit> {
    if c == QUOTE || c == BACKSLASH || c == 0x2f then Some(c)
    else if c == 0x62 then Some(0x08)
    else if c == 0x66 then Some(0x0c)
    else if c == 0x6e then Some(0x0a)
    else if c == 0x72 then Some(0x0d)
    else if c == 0x74 then Some(0x09)
    else None
  }

  function Hex4(s: Text): Option<Unit>
    requires |s| >= 4
  {
    var a, b, c, d := HexValue(s[0]), HexValue(s[1]), HexValue(s[2]), HexValue(s[3]);
    if a < 0 || b < 0 || c < 0 || d < 0 then None else Some(((a * 16 + b) * 16 + c) * 16 + d)
  }

  /** The first unit of a string body and what follows it; None where the body is malformed. */
  function OneChar(s: Text): (r: Parse<Unit>)
    requires s != [] && s[0] != QUOTE
    ensures r.Good? ==> |r.rest| < |s|
  {
    if s[0] < 0x20 then Bad
    else if s[0] != BACKSLASH then Good(s[0], s[1..])
    else if |s| >= 2 && Unescape(s[1]).Some? then Good(Unescape(s[1]).value, s[2..])
    else if |s| >= 6 && s[1] == 0x75 && Hex4(s[2..6]).Some? then Good(Hex4(s[2..6]).value, s[6..])
    else Bad
  }

  /** The rest of a string after its opening quote. */
  function ParseChars(s: Text): (r: Parse<Text>)
    ensures r.Good? ==> |r.rest| < |s|
    decreases |s|
  {
    if s == [] then Bad
    else if s[0] == QUOTE then Good([], s[1..])
    else
      match OneChar(s)
      case Bad => Bad
      case Good(c, t) =>
        match ParseChars(t)
        case Bad => Bad
        case Good(cs, rest) => Good([c] + cs, rest)
  }

  // ---- values ----

  function ParseValue(num: Reader, s: Text): (r: Parse<Value>)
    ensures r.Good? ==> |r.rest| < |s|
    decreases |s|, 0
  {
    if StartsWith(s, NULL_TEXT) then Good(Null, s[4..])
    else if StartsWith(s, TRUE_TEXT) then Good(Bool(true), s[4..])
    else if StartsWith(s, FALSE_TEXT) then Good(Bool(false), s[5..])
    else if s != [] && s[0] == QUOTE then
      match ParseChars(s[1..])
      case Bad => Bad
      case Good(cs, rest) => Good(Str(cs), rest)
    else if s != [] && s[0] == OPEN_ARR then
      var t := SkipWs(s[1..]);
      if t != [] && t[0] == CLOSE_ARR then Good(Arr([]), t[1..])
      else
        match ParseItems(num, t, [])
        case Bad => Bad
        case Good(items, rest) => Good(Arr(items), rest)
    else if s != [] && s[0] == OPEN_OBJ then
      var t := SkipWs(s[1..]);
      if t != [] && t[0] == CLOSE_OBJ then Good(Obj(map[]), t[1..])
      else
        match ParseFields(num, t, map[])
        case Bad => Bad
        case Good(fields, rest) => Good(Obj(fields), rest)
    else
      var n := NumLen(s);
      if n > 0 then Good(Num(num(s[..n])), s[n..]) else Bad
  }

  function ParseItems(num: Reader, s: Text, acc: seq<Value>): (r: Parse<seq<Value>>)
    ensures r.Good? ==> |r.rest| < |s|
    decreases |s|, 1
  {
    match ParseValue(num, s)
    case Bad => Bad
    case Good(v, t) =>
      var u := SkipWs(t);
      if u == [] then Bad
      else if u[0] == COMMA then ParseItems(num, SkipWs(u[1..]), acc + [v])
      else if u[0] == CLOSE_ARR then Good(acc + [v], u[1..])
      else Bad
  }

  /** A repeated key overwrites the earlier value. */
  function ParseFields(num: Reader, s: Text, acc: map<Text, Value>): (r: Parse<map<Text, Value>>)
    ensures r.Good? ==> |r.rest| < |s|
    decreases |s|, 1
  {
    if s == [] || s[0] != QUOTE then Bad
    else
      match ParseChars(s[1..])
      case Bad => Bad
      case Good(k, t) =>
        var u := SkipWs(t);
        if u == [] || u[0] != COLON then Bad
        else
          match ParseValue(num, SkipWs(u[1..]))
          case Bad => Bad
          case Good(v, t2) =>
            var w := SkipWs(t2);
            if w == [] then Bad
            else if w[0] == COMMA then ParseFields(num, SkipWs(w[1..]), acc[k := v])
            else if w[0] == CLOSE_OBJ then Good(acc[k := v], w[1..])
            else Bad
  }

  function ParseText(num: Reader, s: Text): Option<Value> {
    match ParseValue(num, SkipWs(s))
    case Bad => None
    case Good(v, rest) => if SkipWs(rest) == [] then Some(v) else None
  }

  // ---- verifyCanonicalWire ----

  /** The class \s of regular expressions. */
  predicate RegexWs(c: Unit) {
    0x09 <= c <= 0x0d || c == 0x20 || c == 0xa0 || c == 0x1680 || 0x2000 <= c <= 0x200a
    || c == 0x2028 || c == 0x2029 || c == 0x202f || c == 0x205f || c == 0x3000 || c == 0xfeff
  }

  ghost predicate VerifyCanonicalWire(num: Reader, s: Text) {
    s != [] && s[0] != 0xfeff && !RegexWs(s[0]) && !RegexWs(s[|s| - 1])
    && var v := ParseText(num, s);
    v.Some? && Canon(v.value) == Some(s)
  }

  method CheckCanonicalWire(num: Reader, s: Text) returns (ok: bool)
    ensures ok == VerifyCanonicalWire(num, s)
  {
    if s == [] { return false; }
    if s[0] == 0xfeff { return false; }
    if RegexWs(s[0]) || RegexWs(s[|s| - 1]) { return false; }
    var v := ParseText(num, s);
    if v.None? { return false; }
    var t := CanonicalString(v.value);
    return t == Some(s);
  }

  /** What decimal-to-double conversion promises here: a safe integer's own text reads as that integer. */
  ghost predicate ReadsIntegers(num: Reader) {
    forall n: int :: Safe(n) ==> num(Dec(n)) == Int(n)
  }

  // ---- parsing undoes printing ----

  /** What may follow a value inside a canonical text. */
  predicate Ends(rest: Text) {
    rest == [] || rest[0] == COMMA || rest[0] == CLOSE_ARR || rest[0] == CLOSE_OBJ
  }

  lemma {:induction false} CharUndone(c: Unit, tail: Text)
    ensures Escape(c) + tail != [] && (Escape(c) + tail)[0] != QUOTE
    ensures OneChar(Escape(c) + tail) == Good(c, tail)
  {
    var s := Escape(c) + tail;
    assert s[|Escape(c)|..] == tail;
    if c < 0x20 && |Escape(c)| == 6 {
      assert s[2..6] == [0x30, 0x30, HexDigit(c / 16), HexDigit(c % 16)];
      assert HexValue(HexDigit(c / 16)) == c / 16 && HexValue(HexDigit(c % 16)) == c % 16;
    }
  }

  lemma {:induction false} CharsUndone(s: Text, rest: Text)
    ensures ParseChars(EscapeAll(s) + [QUOTE] + rest) == Good(s, rest)
    decreases |s|
  {
    if s == [] {
      assert EscapeAll(s) + [QUOTE] + rest == [QUOTE] + rest;
      assert ([QUOTE] + rest)[1..] == rest;
    } else {
      var tail := EscapeAll(s[1..]) + [QUOTE] + rest;
      assert EscapeAll(s) == Escape(s[0]) + EscapeAll(s[1..]);
      hide *;
      assert EscapeAll(s) + [QUOTE] + rest == Escape(s[0]) + tail;
      assert s == [s[0]] + s[1..];
      CharUndone(s[0], tail);
      CharsUndone(s[1..], rest);
      CharsStep(s[0], EscapeAll(s) + [QUOTE] + rest, tail, s[1..], rest);
    }
  }

  lemma {:induction false} CharsStep(c: Unit, s: Text, tail: Text, cs: Text, rest: Text)
    requires s != [] && s[0] != QUOTE && OneChar(s) == Good(c, tail) && ParseChars(tail) == Good(cs, rest)
    ensures ParseChars(s) == Good([c] + cs, rest)
  {
    hide OneChar;
  }

  // ---- the printed string is the shortest text of it ----

  predicate LowerHex(c: Unit) { 0x30 <= c <= 0x39 || 0x61 <= c <= 0x66 }

  /** Every six-unit escape up to the closing quote is spelled in lower case. */
  predicate LowerEscapes(s: Text)
    decreases |s|
  {
    s == [] || s[0] == QUOTE
    || match OneChar(s) {
         case Bad => true
         case Good(_, t) => (|s| - |t| == 6 ==> forall i | 2 <= i < 6 :: LowerHex(s[i])) && LowerEscapes(t)
       }
  }

  /** The unit at the front of s is spelled as it is printed. */
  predicate AsPrinted(s: Text)
    requires s != [] && s[0] != QUOTE && OneChar(s).Good?
  {
    s == Escape(OneChar(s).value) + OneChar(s).rest
  }

  /** No spelling of a unit is shorter than the printed one, and none as short but in lower case is another. */
  lemma ShortestChar(s: Text)
    requires s != [] && s[0] != QUOTE && OneChar(s).Good?
    ensures var c, t := OneChar(s).value, OneChar(s).rest;
      && |Escape(c)| + |t| <= |s|
      && (|Escape(c)| + |t| == |s| && (|s| - |t| == 6 ==> forall i | 2 <= i < 6 :: LowerHex(s[i])) <==> AsPrinted(s))
  {
    if s[0] != BACKSLASH {
      hide Hex4, Unescape;
      assert s == [s[0]] + s[1..];
    } else if |s| >= 2 && Unescape(s[1]).Some? {
      hide Hex4;
      assert s == [s[0], s[1]] + s[2..];
    } else {
      var c, t := OneChar(s).value, s[6..];
      assert OneChar(s) == Good(c, t) && Hex4(s[2..6]) == Some(c);
      hide Hex4, OneChar;
      SixUnits(s, c);
    }
  }

  lemma SixUnits(s: Text, c: Unit)
    requires |s| >= 6 && s[0] == BACKSLASH && s[1] == 0x75 && Hex4(s[2..6]) == Some(c)
    ensures |Escape(c)| == 6 && (forall i | 2 <= i < 6 :: LowerHex(s[i])) <==> s == Escape(c) + s[6..]
  {
    var x, y, z, u := s[2], s[3], s[4], s[5];
    assert s[2..6] == [x, y, z, u];
    SixSpelled(c, x, y, z, u);
    hide Hex4;
    assert s == [BACKSLASH, 0x75, x, y, z, u] + s[6..];
    hide Escape;
    var e := Escape(c);
    if s == e + s[6..] { assert |e| == 6 && e == s[..6] == [BACKSLASH, 0x75, x, y, z, u]; }
  }

  lemma SixSpelled(c: Unit, x: Unit, y: Unit, z: Unit, u: Unit)
    requires Hex4([x, y, z, u]) == Some(c)
    ensures |Escape(c)| == 6 && LowerHex(x) && LowerHex(y) && LowerHex(z) && LowerHex(u)
      <==> Escape(c) == [BACKSLASH, 0x75, x, y, z, u]
  {
  }

  /** What follows the opening quote of a printed string. */
  function Body(s: Text, rest: Text): Text { EscapeAll(s) + [QUOTE] + rest }

  lemma BodyStep(c: Unit, cs: Text, rest: Text)
    ensures Body([c] + cs, rest) == Escape(c) + Body(cs, rest)
  {
    assert ([c] + cs)[1..] == cs;
    hide Escape;
  }

  /** Of all string bodies that read as s, the printed one is the shortest, and the only one as short whose hex digits are
      in lower case: the spelling of section 3.2.2.2 of RFC 8785. */
  lemma {:induction false} PrintedIsShortest(body: Text, s: Text, rest: Text)
    requires ParseChars(body) == Good(s, rest)
    ensures |Quoted(s)| + |rest| <= 1 + |body|
    ensures |Quoted(s)| + |rest| == 1 + |body| && LowerEscapes(body) <==> [QUOTE] + body == Quoted(s) + rest
  {
    ShortestBody(body, s, rest);
    hide ParseChars, EscapeAll, LowerEscapes;
    assert Quoted(s) + rest == [QUOTE] + Body(s, rest);
    assert ([QUOTE] + body)[1..] == body && ([QUOTE] + Body(s, rest))[1..] == Body(s, rest);
  }

  lemma {:induction false} ShortestBody(body: Text, s: Text, rest: Text)
    requires ParseChars(body) == Good(s, rest)
    ensures |Body(s, rest)| <= |body|
    ensures |Body(s, rest)| == |body| && LowerEscapes(body) <==> body == Body(s, rest)
    decreases |body|
  {
    if body[0] == QUOTE {
      assert body == [QUOTE] + rest == Body(s, rest);
    } else {
      var c, t := OneChar(body).value, OneChar(body).rest;
      var cs := ParseChars(t).value;
      assert s == [c] + cs;
      ShortestChar(body);
      BodyStep(c, cs, rest);
      CharUndone(c, Body(cs, rest));
      assert AsPrinted(body) <==> body == Escape(c) + t;
      hide OneChar, Escape, Body, AsPrinted;
      ShortestBody(t, cs, rest);
    }
  }

  lemma {:induction false} DigitsOf(t: Text, rest: Text)
    requires (forall i | 0 <= i < |t| :: Digit(t[i])) && (rest == [] || !Digit(rest[0]))
    ensures Digits(t + rest) == |t|
    decreases |t|
  {
    if t == [] {
      assert t + rest == rest;
    } else {
      assert (t + rest)[1..] == t[1..] + rest;
      DigitsOf(t[1..], rest);
    }
  }

  lemma {:induction false} IntLenOf(n: nat, rest: Text)
    requires Ends(rest)
    ensures IntLen(DecNat(n) + rest) == |DecNat(n)|
  {
    DigitsOf(DecNat(n), rest);
  }

  lemma NumLenOf(s: Text, n: int, rest: Text)
    requires s == Dec(n) + rest && Ends(rest)
    ensures NumLen(s) == |Dec(n)|
  {
    var m: nat := if n < 0 then -n else n;
    var sign, t := if n < 0 then 1 else 0, DecNat(m);
    assert Dec(n) == (if n < 0 then [MINUS] else []) + t;
    IntLenOf(m, rest);
    NumLenParts(s, sign, t, rest);
  }

  lemma NumLenParts(s: Text, sign: int, t: Text, rest: Text)
    requires t != [] && Digit(t[0]) && IntLen(t + rest) == |t| && Ends(rest)
    requires s == (if sign == 1 then [MINUS] else []) + t + rest && 0 <= sign <= 1
    ensures NumLen(s) == sign + |t|
  {
    hide Digits, IntLen;
    assert s[sign..] == t + rest;
    assert s[sign + |t|..] == rest;
    assert s[sign + |t| + 0..] == rest;
  }

  /** No literal starts with another unit than n, t or f. */
  lemma NoLiteral(s: Text)
    requires s != [] && s[0] != 0x6e && s[0] != 0x74 && s[0] != 0x66
    ensures !StartsWith(s, NULL_TEXT) && !StartsWith(s, TRUE_TEXT) && !StartsWith(s, FALSE_TEXT)
  {
    if |s| >= 4 { assert s[..4][0] == s[0]; }
    if |s| >= 5 { assert s[..5][0] == s[0]; }
  }

  lemma {:induction false} LiteralUndone(num: Reader, v: Value, rest: Text)
    requires v.Null? || v.Bool?
    ensures ParseValue(num, Canon(v).value + rest) == Good(v, rest)
  {
    var s := Canon(v).value + rest;
    match v {
      case Null => assert s[..4] == NULL_TEXT && s[4..] == rest;
      case Bool(b) =>
        assert s[..4][0] == s[0];
        if b {
          assert s[..4] == TRUE_TEXT && s[4..] == rest;
        } else {
          assert s[..5] == FALSE_TEXT && s[5..] == rest;
        }
    }
  }

  lemma {:induction false} NumberUndone(num: Reader, n: int, rest: Text)
    requires ReadsIntegers(num) && Safe(n) && Ends(rest)
    ensures ParseValue(num, Dec(n) + rest) == Good(Num(Int(n)), rest)
  {
    var s := Dec(n) + rest;
    NumLenOf(s, n, rest);
    DecEdges(n);
    NoLiteral(s);
    hide NumLen, Dec, ParseChars, ParseItems, ParseFields, StartsWith;
    var k := |Dec(n)|;
    assert s[0] == Dec(n)[0];
    assert s[..k] == Dec(n) && s[k..] == rest;
    assert num(Dec(n)) == Int(n);
  }

  lemma {:induction false} StringUndone(num: Reader, cs: Text, rest: Text)
    ensures ParseValue(num, Quoted(cs) + rest) == Good(Str(cs), rest)
  {
    var s, body := Quoted(cs) + rest, EscapeAll(cs) + [QUOTE] + rest;
    assert s == [QUOTE] + body;
    CharsUndone(cs, rest);
    hide *;
    StringParsed(num, s, body, cs, rest);
  }

  /** A string text from the text of its units. */
  lemma {:induction false} StringParsed(num: Reader, s: Text, body: Text, cs: Text, rest: Text)
    requires s == [QUOTE] + body && ParseChars(body) == Good(cs, rest)
    ensures ParseValue(num, s) == Good(Str(cs), rest)
  {
    NoLiteral(s);
    hide StartsWith, ParseItems, ParseFields, ParseChars, NumLen;
    assert s[1..] == body;
  }

  /** The first unit of a canonical text tells what kind of value it is, and is never blank. */
  lemma CanonStart(v: Value)
    requires Canon(v).Some?
    ensures var t := Canon(v).value;
      t != [] && !RegexWs(t[0]) && !IsWs(t[0]) && t[0] != CLOSE_ARR && t[0] != CLOSE_OBJ && !RegexWs(t[|t| - 1])
  {
    hide CanonItems, CanonFields, Join, EscapeAll;
    if v.Num? { DecEdges(v.num.n); }
  }

  lemma DecEdges(n: int)
    ensures Dec(n) != [] && (Dec(n)[0] == MINUS || Digit(Dec(n)[0])) && Digit(Dec(n)[|Dec(n)| - 1])
  {
  }

  lemma {:induction false} ParseUndone(num: Reader, v: Value, rest: Text)
    requires ReadsIntegers(num) && Canon(v).Some? && Ends(rest)
    ensures ParseValue(num, Canon(v).value + rest) == Good(v, rest)
    decreases v, 1
  {
    hide ParseValue, EncodeString, Dec, ReadsIntegers;
    match v {
      case Null => LiteralUndone(num, v, rest);
      case Bool(b) => LiteralUndone(num, v, rest);
      case Num(x) => NumberUndone(num, x.n, rest);
      case Str(cs) =>
        assert EncodeString(cs) == Some(Quoted(cs)) by { EncodedIsQuoted(cs); }
        StringUndone(num, cs, rest);
      case Arr(items) => ArrayUndone(num, items, rest);
      case Obj(m) => ObjectUndone(num, v, rest);
      case Other =>
    }
  }

  lemma EncodedIsQuoted(s: Text)
    requires EncodeString(s).Some?
    ensures EncodeString(s).value == Quoted(s)
  {
  }

  lemma {:induction false} ArrayUndone(num: Reader, items: seq<Value>, rest: Text)
    requires ReadsIntegers(num) && Canon(Arr(items)).Some? && Ends(rest)
    ensures ParseValue(num, Canon(Arr(items)).value + rest) == Good(Arr(items), rest)
    decreases Arr(items), 0
  {
    ArrayStart(items);
    hide *;
    var j := Join(CanonItems(items).value);
    var body := j + [CLOSE_ARR] + rest;
    assert Canon(Arr(items)).value + rest == [OPEN_ARR] + body;
    if items == [] {
      assert body == [CLOSE_ARR] + rest;
    } else {
      assert items[0..] == items && [] + items == items;
      assert body[0] == j[0];
      ItemsUndone(num, items, 0, [], rest);
    }
    ArrayParsed(num, Canon(Arr(items)).value + rest, body, items, rest);
  }

  lemma ArrayStart(items: seq<Value>)
    requires Canon(Arr(items)).Some?
    ensures CanonItems(items).Some? && Canon(Arr(items)).value == [OPEN_ARR] + Join(CanonItems(items).value) + [CLOSE_ARR]
    ensures var j := Join(CanonItems(items).value);
      if items == [] then j == [] && !IsWs(CLOSE_ARR) else j != [] && !IsWs(j[0]) && j[0] != CLOSE_ARR
  {
    if items != [] {
      CanonItemsAt(items, 0);
      CanonStart(items[0]);
      JoinStart(CanonItems(items).value);
    }
  }

  /** An array text from the text of its items. */
  lemma {:induction false} ArrayParsed(num: Reader, s: Text, body: Text, items: seq<Value>, rest: Text)
    requires s == [OPEN_ARR] + body && body != [] && !IsWs(body[0])
    requires if items == [] then body == [CLOSE_ARR] + rest
             else body[0] != CLOSE_ARR && ParseItems(num, body, []) == Good(items, rest)
    ensures ParseValue(num, s) == Good(Arr(items), rest)
  {
    NoLiteral(s);
    hide StartsWith, ParseItems, ParseFields, ParseChars, NumLen;
    assert s[1..] == body && SkipWs(body) == body;
    if items == [] { assert body[1..] == rest; }
  }

  lemma JoinStart(ts: seq<Text>)
    requires ts != [] && ts[0] != []
    ensures Join(ts) != [] && Join(ts)[0] == ts[0][0]
  {
  }

  /** What follows the first of ts, up to the end. */
  ghost function After(ts: seq<Text>, close: Unit, rest: Text): Text
    requires ts != []
  {
    if |ts| == 1 then [close] + rest else [COMMA] + (Join(ts[1..]) + [close] + rest)
  }

  lemma JoinAfter(ts: seq<Text>, close: Unit, rest: Text)
    requires ts != []
    ensures Join(ts) + [close] + rest == ts[0] + After(ts, close, rest)
  {
    if |ts| > 1 { Regroup(ts[0], [COMMA], Join(ts[1..]), [close], rest); }
  }

  lemma Regroup(a: Text, b: Text, c: Text, d: Text, e: Text)
    ensures a + b + c + d + e == a + (b + (c + d + e))
  {
  }

  lemma {:induction false} ItemsUndone(num: Reader, items: seq<Value>, i: nat, acc: seq<Value>, rest: Text)
    requires ReadsIntegers(num) && i < |items| && CanonItems(items[i..]).Some?
    ensures ParseItems(num, Join(CanonItems(items[i..]).value) + [CLOSE_ARR] + rest, acc) == Good(acc + items[i..], rest)
    decreases items, 0, |items| - i
  {
    var ts, item := CanonItems(items[i..]).value, items[i];
    var after := After(ts, CLOSE_ARR, rest);
    ItemsSplit(items, i);
    JoinAfter(ts, CLOSE_ARR, rest);
    assert Ends(after) && after != [];
    if i + 1 == |items| {
      assert after == [CLOSE_ARR] + rest && after[1..] == rest && items[i..] == [item];
      hide *;
      ParseUndone(num, item, after);
      ItemsStep(num, ts[0] + after, acc, item, after);
    } else {
      var next := Join(ts[1..]) + [CLOSE_ARR] + rest;
      assert after == [COMMA] + next && after[1..] == next && SkipWs(next) == next by { JoinStart(ts[1..]); }
      assert acc + [item] + items[i + 1..] == acc + items[i..];
      hide *;
      ParseUndone(num, item, after);
      ItemsStep(num, ts[0] + after, acc, item, after);
      ItemsUndone(num, items, i + 1, acc + [item], rest);
    }
  }

  lemma ItemsSplit(items: seq<Value>, i: nat)
    requires i < |items| && CanonItems(items[i..]).Some?
    ensures var ts := CanonItems(items[i..]).value;
      Canon(items[i]) == Some(ts[0]) && CanonItems(items[i + 1..]) == Some(ts[1..])
      && (i + 1 < |items| ==> ts[1] != [] && !IsWs(ts[1][0]))
  {
    assert items[i..][0] == items[i] && items[i..][1..] == items[i + 1..];
    if i + 1 < |items| {
      assert items[i + 1..][0] == items[i + 1];
      CanonStart(items[i + 1]);
    }
  }

  lemma {:induction false} ItemsStep(num: Reader, s: Text, acc: seq<Value>, v: Value, after: Text)
    requires ParseValue(num, s) == Good(v, after) && after != [] && (after[0] == COMMA || after[0] == CLOSE_ARR)
    ensures ParseItems(num, s, acc)
      == if after[0] == COMMA then ParseItems(num, SkipWs(after[1..]), acc + [v]) else Good(acc + [v], after[1..])
  {
    hide ParseValue;
  }

  /** m with only the keys of ks. */
  ghost function Only(m: map<Text, Value>, ks: seq<Text>): map<Text, Value> {
    map k | k in m && k in ks :: m[k]
  }

  lemma {:induction false} ObjectUndone(num: Reader, v: Value, rest: Text)
    requires v.Obj? && ReadsIntegers(num) && Canon(v).Some? && Ends(rest)
    ensures ParseValue(num, Canon(v).value + rest) == Good(v, rest)
    decreases v, 0
  {
    var ks := SortedKeys(v.fields);
    ObjectStart(v, ks);
    OnlyAll(v.fields, ks);
    hide *;
    var j := Join(CanonFields(v, ks).value);
    var body := j + [CLOSE_OBJ] + rest;
    assert Canon(v).value + rest == [OPEN_OBJ] + body;
    if ks == [] {
      assert body == [CLOSE_OBJ] + rest;
    } else {
      assert body[0] == j[0];
      FieldsUndone(num, v, ks, map[], rest);
    }
    ObjectParsed(num, Canon(v).value + rest, body, v.fields, rest);
  }

  lemma OnlyAll(m: map<Text, Value>, ks: seq<Text>)
    requires KeyList(ks, m)
    ensures map[] + Only(m, ks) == m
    ensures ks == [] <==> m == map[]
  {
    if ks != [] { assert ks[0] in m; }
  }

  lemma ObjectStart(v: Value, ks: seq<Text>)
    requires v.Obj? && Canon(v).Some? && ks == SortedKeys(v.fields)
    ensures CanonFields(v, ks).Some? && Canon(v).value == [OPEN_OBJ] + Join(CanonFields(v, ks).value) + [CLOSE_OBJ]
    ensures var j := Join(CanonFields(v, ks).value);
      if ks == [] then j == [] && !IsWs(CLOSE_OBJ) else j != [] && !IsWs(j[0]) && j[0] != CLOSE_OBJ
  {
    if ks != [] {
      FieldQuoted(v, ks);
      JoinStart(CanonFields(v, ks).value);
    }
  }

  /** An object text from the text of its fields. */
  lemma {:induction false} ObjectParsed(num: Reader, s: Text, body: Text, fields: map<Text, Value>, rest: Text)
    requires s == [OPEN_OBJ] + body && body != [] && !IsWs(body[0])
    requires if fields == map[] then body == [CLOSE_OBJ] + rest
             else body[0] != CLOSE_OBJ && ParseFields(num, body, map[]) == Good(fields, rest)
    ensures ParseValue(num, s) == Good(Obj(fields), rest)
  {
    NoLiteral(s);
    hide StartsWith, ParseItems, ParseFields, ParseChars, NumLen;
    assert s[1..] == body && SkipWs(body) == body;
    if fields == map[] { assert body[1..] == rest; }
  }

  lemma {:induction false} FieldsUndone(num: Reader, v: Value, ks: seq<Text>, acc: map<Text, Value>, rest: Text)
    requires v.Obj? && ReadsIntegers(num) && ks != [] && (forall k | k in ks :: k in v.fields)
    requires CanonFields(v, ks).Some?
    ensures ParseFields(num, Join(CanonFields(v, ks).value) + [CLOSE_OBJ] + rest, acc) == Good(acc + Only(v.fields, ks), rest)
    decreases v, 0, |ks|
  {
    var ts, k := CanonFields(v, ks).value, ks[0];
    var t, w := Canon(v.fields[k]).value, v.fields[k];
    var after := After(ts, CLOSE_OBJ, rest);
    FieldsSplit(v, ks);
    JoinAfter(ts, CLOSE_OBJ, rest);
    assert Ends(after) && after != [];
    if |ks| == 1 {
      assert after == [CLOSE_OBJ] + rest && after[1..] == rest;
      assert acc[k := w] == acc + Only(v.fields, ks);
      hide *;
      ParseUndone(num, w, after);
      FieldsStep(num, ts[0] + after, acc, k, t, w, after);
    } else {
      var next := Join(ts[1..]) + [CLOSE_OBJ] + rest;
      assert after == [COMMA] + next && after[1..] == next && SkipWs(next) == next by { JoinStart(ts[1..]); }
      OnlyStep(v.fields, ks, acc);
      hide *;
      ParseUndone(num, w, after);
      FieldsStep(num, ts[0] + after, acc, k, t, w, after);
      FieldsUndone(num, v, ks[1..], acc[k := w], rest);
    }
  }

  lemma FieldsSplit(v: Value, ks: seq<Text>)
    requires v.Obj? && ks != [] && (forall k | k in ks :: k in v.fields) && CanonFields(v, ks).Some?
    ensures var ts, t := CanonFields(v, ks).value, Canon(v.fields[ks[0]]);
      t.Some? && ts[0] == Quoted(ks[0]) + [COLON] + t.value && t.value != [] && !IsWs(t.value[0])
      && CanonFields(v, ks[1..]) == Some(ts[1..]) && (|ks| > 1 ==> ts[1] != [] && ts[1][0] == QUOTE)
  {
    CanonStart(v.fields[ks[0]]);
    if |ks| > 1 { FieldQuoted(v, ks[1..]); }
  }

  lemma FieldQuoted(v: Value, ks: seq<Text>)
    requires v.Obj? && ks != [] && (forall k | k in ks :: k in v.fields) && CanonFields(v, ks).Some?
    ensures CanonFields(v, ks).value[0] != [] && CanonFields(v, ks).value[0][0] == QUOTE
  {
  }

  lemma OnlyStep(m: map<Text, Value>, ks: seq<Text>, acc: map<Text, Value>)
    requires ks != [] && ks[0] in m
    ensures acc[ks[0] := m[ks[0]]] + Only(m, ks[1..]) == acc + Only(m, ks)
  {
    assert forall k :: k in ks <==> k == ks[0] || k in ks[1..];
  }

  lemma {:induction false} FieldsStep(num: Reader, s: Text, acc: map<Text, Value>, k: Text, t: Text, v: Value, after: Text)
    requires s == Quoted(k) + [COLON] + t + after && t != [] && !IsWs(t[0])
    requires ParseValue(num, t + after) == Good(v, after)
    requires after != [] && (after[0] == COMMA || after[0] == CLOSE_OBJ)
    ensures ParseFields(num, s, acc)
      == if after[0] == COMMA then ParseFields(num, SkipWs(after[1..]), acc[k := v])
         else Good(acc[k := v], after[1..])
  {
    var u := [COLON] + (t + after);
    CharsUndone(k, u);
    hide ParseValue, EscapeAll, ParseChars;
    assert s[1..] == EscapeAll(k) + [QUOTE] + u;
    assert u[1..] == t + after && SkipWs(t + after) == t + after;
  }

  // ---- the main results ----

  /** JSON.parse is a left inverse of canonicalString on every accepted value. */
  lemma ParseInvertsCanon(num: Reader, v: Value)
    requires ReadsIntegers(num) && Canon(v).Some?
    ensures ParseText(num, Canon(v).value) == Some(v)
  {
    var t := Canon(v).value;
    CanonStart(v);
    ParseUndone(num, v, []);
    assert t + [] == t && SkipWs(t) == t;
  }

  /** Hence two accepted values with one canonical text are one value. */
  lemma CanonInjective(num: Reader, v: Value, w: Value)
    requires ReadsIntegers(num) && Canon(v).Some? && Canon(v) == Canon(w)
    ensures v == w
  {
    ParseInvertsCanon(num, v);
    ParseInvertsCanon(num, w);
  }

  /** The wire check accepts a text exactly when it is the canonical text of some accepted value. Repeated
      or unsorted keys, other escapes and other blanks are therefore always refused. */
  lemma WireAcceptsExactlyCanonical(num: Reader, s: Text)
    requires ReadsIntegers(num)
    ensures VerifyCanonicalWire(num, s) <==> exists v :: Canon(v) == Some(s)
  {
    if VerifyCanonicalWire(num, s) {
      assert Canon(ParseText(num, s).value) == Some(s);
    }
    if exists v :: Canon(v) == Some(s) {
      var v :| Canon(v) == Some(s);
      ParseInvertsCanon(num, v);
      CanonStart(v);
    }
  }

  // ---- the assumption on numbers can be met ----

  function DigitsValue(t: Text): int {
    if t == [] then 0
    else
      var c: int := t[|t| - 1];
      10 * DigitsValue(t[..|t| - 1]) + (c - 0x30)
  }

  lemma {:induction false} DigitsValueOf(n: nat)
    ensures DigitsValue(DecNat(n)) == n
    decreases n
  {
    if n >= 10 {
      DigitsValueOf(n / 10);
      assert DecNat(n)[..|DecNat(n)| - 1] == DecNat(n / 10);
    } else {
      assert DecNat(n)[..0] == [];
    }
  }

  /** A reader for integer tokens. */
  function ReadInt(t: Text): Number {
    if t != [] && t[0] == MINUS then Int(-DigitsValue(t[1..])) else Int(DigitsValue(t))
  }

  lemma ReaderExists()
    ensures ReadsIntegers(ReadInt)
  {
    forall n: int | Safe(n)
      ensures ReadInt(Dec(n)) == Int(n)
    {
      var m: nat := if n < 0 then -n else n;
      DigitsValueOf(m);
      if n < 0 { assert Dec(n)[1..] == DecNat(m); }
    }
  }
}
