/** JavaScript strings as sequences of UTF-16 code units. */
module Utf16 {
  type Unit = x: int | 0 <= x < 0x1_0000
  type Text = seq<Unit>
}

/** src/evidence/canonical.ts: the canonical JSON printer (RFC 8785 section 3.2) and the wire check. */
module CanonicalJson {
  import opened Utf16

  datatype Option<+T> = None | Some(value: T)

  /** A JavaScript number as the printer tells them apart: an integral value, minus zero, or anything else. */
  datatype Number = Int(n: int) | MinusZero | NotIntegral

  /** A value handed to the printer; an object is its own enumerable string keys with their values, and
      Other is everything that is no JSON value. */
  datatype Value =
    | Null | Bool(b: bool) | Num(num: Number) | Str(s: Text)
    | Arr(items: seq<Value>) | Obj(fields: map<Text, Value>) | Other

  const MAX_SAFE := 0x1F_FFFF_FFFF_FFFF

  predicate Safe(n: int) { -MAX_SAFE <= n <= MAX_SAFE }

  const QUOTE: Unit := 0x22
  const BACKSLASH: Unit := 0x5c
  const COMMA: Unit := 0x2c
  const COLON: Unit := 0x3a
  const MINUS: Unit := 0x2d
  const OPEN_ARR: Unit := 0x5b
  const CLOSE_ARR: Unit := 0x5d
  const OPEN_OBJ: Unit := 0x7b
  const CLOSE_OBJ: Unit := 0x7d
  const NULL_TEXT: Text := [0x6e, 0x75, 0x6c, 0x6c]
  const TRUE_TEXT: Text := [0x74, 0x72, 0x75, 0x65]
  const FALSE_TEXT: Text := [0x66, 0x61, 0x6c, 0x73, 0x65]

  /** The marks and literals of JSON, as characters. */
  lemma Spelled()
    ensures [QUOTE as char, BACKSLASH as char, COMMA as char, COLON as char, MINUS as char] == "\"\\,:-"
    ensures [OPEN_ARR as char, CLOSE_ARR as char, OPEN_OBJ as char, CLOSE_OBJ as char] == "[]{}"
    ensures |NULL_TEXT| == |TRUE_TEXT| == 4 && |FALSE_TEXT| == 5
    ensures forall i | 0 <= i < 4 :: NULL_TEXT[i] == "null"[i] as int && TRUE_TEXT[i] == "true"[i] as int
    ensures forall i | 0 <= i < 5 :: FALSE_TEXT[i] == "false"[i] as int
  {
  }

  // ---- scalars ----

  function DecNat(n: nat): (t: Text)
    ensures |t| >= 1 && forall i | 0 <= i < |t| :: 0x30 <= t[i] <= 0x39
    ensures n == 0 <==> t[0] == 0x30
    ensures n == 0 ==> |t| == 1
  {
    if n < 10 then [0x30 + n] else DecNat(n / 10) + [0x30 + n % 10]
  }

  /** String(n) for a safe integer. */
  function Dec(n: int): Text { if n < 0 then [MINUS] + DecNat(-n) else DecNat(n) }

  function EncodeNumber(x: Number): Option<Text> {
    if x.Int? && Safe(x.n) then Some(Dec(x.n)) else None
  }

  predicate HighSurrogate(c: int) { 0xd800 <= c <= 0xdbff }
  predicate LowSurrogate(c: int) { 0xdc00 <= c <= 0xdfff }

  /** No lone surrogate: the text has a UTF-8 encoding. */
  predicate WellFormed(s: Text) {
    if s == [] then true
    else if HighSurrogate(s[0]) then |s| >= 2 && LowSurrogate(s[1]) && WellFormed(s[2..])
    else !LowSurrogate(s[0]) && WellFormed(s[1..])
  }

  /** A surrogate without its other half. */
  predicate LoneAt(s: Text, i: nat)
    requires i < |s|
  {
    || (HighSurrogate(s[i]) && !(i + 1 < |s| && LowSurrogate(s[i + 1])))
    || (LowSurrogate(s[i]) && !(i > 0 && HighSurrogate(s[i - 1])))
  }

  lemma {:induction false} WellFormedExactly(s: Text)
    ensures WellFormed(s) <==> forall i: nat | i < |s| :: !LoneAt(s, i)
    decreases |s|
  {
    if s != [] {
      var pair := HighSurrogate(s[0]) && |s| >= 2 && LowSurrogate(s[1]);
      var n := if pair then 2 else 1;
      WellFormedExactly(s[n..]);
      forall i: nat | i < |s| && n <= i
        ensures LoneAt(s, i) <==> if i == n && LowSurrogate(s[n]) then !HighSurrogate(s[n - 1]) else LoneAt(s[n..], i - n)
      {
      }
      assert LoneAt(s, 0) <==> LowSurrogate(s[0]) || (HighSurrogate(s[0]) && !pair);
      if !LoneAt(s, 0) {
        assert !HighSurrogate(s[n - 1]);
        assert forall i: nat | i < |s[n..]| :: LoneAt(s[n..], i) <==> LoneAt(s, i + n);
      }
    }
  }

  function HexDigit(d: int): Unit
    requires 0 <= d < 16
  {
    if d < 10 then 0x30 + d else 0x61 + d - 10
  }

  /** How JSON.stringify writes one code unit of a well-formed string. */
  function Escape(c: Unit): (t: Text)
    ensures |t| >= 1
  {
    if c == QUOTE || c == BACKSLASH then [BACKSLASH, c]
    else if c == 0x08 then [BACKSLASH, 0x62]
    else if c == 0x09 then [BACKSLASH, 0x74]
    else if c == 0x0a then [BACKSLASH, 0x6e]
    else if c == 0x0c then [BACKSLASH, 0x66]
    else if c == 0x0d then [BACKSLASH, 0x72]
    else if c < 0x20 then [BACKSLASH, 0x75, 0x30, 0x30, HexDigit(c / 16), HexDigit(c % 16)]
    else [c]
  }

  function EscapeAll(s: Text): Text {
    if s == [] then [] else Escape(s[0]) + EscapeAll(s[1..])
  }

  function Quoted(s: Text): Text { [QUOTE] + EscapeAll(s) + [QUOTE] }

  function EncodeString(s: Text): Option<Text> {
    if WellFormed(s) then Some(Quoted(s)) else None
  }

  /** The surrogate loop of encodeString; charCodeAt past the end is NaN and fails the range test. */
  method CheckSurrogates(s: Text) returns (ok: bool)
    ensures ok == WellFormed(s)
  {
    var i := 0;
    while i < |s|
      invariant 0 <= i <= |s|
      invariant WellFormed(s) == WellFormed(s[i..])
    {
      var c := s[i];
      assert s[i..][1..] == s[i + 1..];
      if HighSurrogate(c) {
        if !(i + 1 < |s| && LowSurrogate(s[i + 1])) { return false; }
        assert s[i..][2..] == s[i + 2..];
        i := i + 2;
      } else if LowSurrogate(c) {
        return false;
      } else {
        i := i + 1;
      }
    }
    return true;
  }

  // ---- key order ----

  /** Ascending by UTF-16 code unit, a proper prefix first. */
  predicate Less(a: Text, b: Text) {
    if b == [] then false
    else if a == [] then true
    else a[0] < b[0] || (a[0] == b[0] && Less(a[1..], b[1..]))
  }

  lemma {:induction false} LessTotal(a: Text, b: Text)
    ensures a == b || Less(a, b) || Less(b, a)
    decreases |a|
  {
    if a != [] && b != [] && a[0] == b[0] {
      LessTotal(a[1..], b[1..]);
      if a[1..] == b[1..] { assert a == [a[0]] + a[1..] && b == [b[0]] + b[1..]; }
    }
  }

  /** a and b agree up to k, where a ends first or has the smaller unit. */
  predicate SmallerAt(a: Text, b: Text, k: nat) {
    k <= |a| && k < |b| && a[..k] == b[..k] && (k == |a| || a[k] < b[k])
  }

  lemma AgreeFirst(a: Text, b: Text, k: nat)
    requires 0 < k <= |a| && k <= |b| && a[..k] == b[..k]
    ensures a[0] == b[0]
  {
    assert a[..k][0] == b[..k][0];
  }

  /** This is the order of section 3.2.3 of RFC 8785: by the first unit that differs, numerically. */
  lemma {:induction false} LessExactly(a: Text, b: Text)
    ensures Less(a, b) <==> exists k: nat :: SmallerAt(a, b, k)
    decreases |a|
  {
    if a == [] || b == [] || a[0] != b[0] {
      if Less(a, b) { assert SmallerAt(a, b, 0); }
      forall k: nat | SmallerAt(a, b, k)
        ensures Less(a, b)
      {
        if k > 0 { AgreeFirst(a, b, k); }
      }
    } else {
      LessExactly(a[1..], b[1..]);
      forall k: nat | SmallerAt(a[1..], b[1..], k)
        ensures SmallerAt(a, b, k + 1)
      {
        assert a[..k + 1] == [a[0]] + a[1..][..k] && b[..k + 1] == [b[0]] + b[1..][..k];
      }
      forall k: nat | SmallerAt(a, b, k)
        ensures k > 0 && SmallerAt(a[1..], b[1..], k - 1)
      {
        assert a[1..][..k - 1] == a[..k][1..] && b[1..][..k - 1] == b[..k][1..];
      }
    }
  }

  lemma {:induction false} LessTransitive(a: Text, b: Text, c: Text)
    requires Less(a, b) && Less(b, c)
    ensures Less(a, c)
    decreases |a|
  {
    if a != [] && a[0] == b[0] && b[0] == c[0] { LessTransitive(a[1..], b[1..], c[1..]); }
  }

  lemma {:induction false} LessIrreflexive(a: Text)
    ensures !Less(a, a)
    decreases |a|
  {
    if a != [] { LessIrreflexive(a[1..]); }
  }

  predicate Ascending(ks: seq<Text>) {
    forall i, j | 0 <= i < j < |ks| :: Less(ks[i], ks[j])
  }

  /** ks lists exactly the keys of m, in ascending order. */
  ghost predicate KeyList(ks: seq<Text>, m: map<Text, Value>) {
    Ascending(ks) && forall k :: k in ks <==> k in m
  }

  function InsertKey(k: Text, ks: seq<Text>): seq<Text> {
    if ks == [] then [k]
    else if Less(k, ks[0]) then [k] + ks
    else [ks[0]] + InsertKey(k, ks[1..])
  }

  lemma {:induction false} InsertKeyAscends(k: Text, ks: seq<Text>)
    requires Ascending(ks) && k !in ks
    ensures Ascending(InsertKey(k, ks))
    ensures forall x :: x in InsertKey(k, ks) <==> x == k || x in ks
    decreases |ks|
  {
    if ks != [] {
      LessTotal(k, ks[0]);
      var t := ks[1..];
      assert ks == [ks[0]] + t;
      if Less(k, ks[0]) {
        forall i | 0 < i < |ks|
          ensures Less(k, ks[i])
        {
          LessTransitive(k, ks[0], ks[i]);
        }
      } else {
        InsertKeyAscends(k, t);
        forall x | x in InsertKey(k, t)
          ensures Less(ks[0], x)
        {
          if x != k { var i :| 0 <= i < |t| && t[i] == x; assert ks[i + 1] == x; }
        }
      }
    }
  }

  /** Object.keys(obj).sort(). */
  method SortKeys(m: map<Text, Value>) returns (ks: seq<Text>)
    ensures KeyList(ks, m)
  {
    ks := [];
    var left := m.Keys;
    while left != {}
      invariant left <= m.Keys
      invariant Ascending(ks) && forall k :: k in ks <==> k in m.Keys - left
      decreases left
    {
      var k :| k in left;
      InsertKeyAscends(k, ks);
      ks := InsertKey(k, ks);
      left := left - {k};
    }
  }

  lemma NonemptyHasMember(b: seq<Text>)
    ensures b != [] ==> exists k :: k in b
  {
    if b != [] { assert b[0] in b; }
  }

  lemma {:induction false} KeyListUnique(a: seq<Text>, b: seq<Text>)
    requires Ascending(a) && Ascending(b) && forall k :: k in a <==> k in b
    ensures a == b
    decreases |a|
  {
    if a == [] {
      NonemptyHasMember(b);
    } else {
      assert a[0] in b;
      assert b[0] in a;
      HeadsEqual(a, b);
      TailKeys(a);
      TailKeys(b);
      forall k
        ensures k in a[1..] <==> k in b[1..]
      {
        assert k in a <==> k in b;
      }
      KeyListUnique(a[1..], b[1..]);
      assert a == [a[0]] + a[1..] && b == [b[0]] + b[1..];
    }
  }

  lemma HeadsEqual(a: seq<Text>, b: seq<Text>)
    requires Ascending(a) && Ascending(b) && a != [] && b != [] && a[0] in b && b[0] in a
    ensures a[0] == b[0]
  {
    if a[0] != b[0] {
      assert Less(b[0], a[0]);
      assert Less(a[0], b[0]);
      LessTransitive(a[0], b[0], a[0]);
      LessIrreflexive(a[0]);
    }
  }

  lemma TailKeys(a: seq<Text>)
    requires Ascending(a) && a != []
    ensures forall k :: k in a[1..] <==> k in a && k != a[0]
  {
    LessIrreflexive(a[0]);
    assert a == [a[0]] + a[1..];
  }

  lemma {:induction false} KeyListExists(m: map<Text, Value>) returns (ks: seq<Text>)
    ensures KeyList(ks, m)
    decreases m.Keys
  {
    if m.Keys == {} { return []; }
    var k :| k in m.Keys;
    var rest := KeyListExists(m - {k});
    InsertKeyAscends(k, rest);
    return InsertKey(k, rest);
  }

  ghost function SortedKeys(m: map<Text, Value>): (ks: seq<Text>)
    ensures KeyList(ks, m)
  {
    assert exists l :: KeyList(l, m) by { var l := KeyListExists(m); }
    var ks :| KeyList(ks, m);
    ks
  }

  // ---- canonicalString ----

  /** Comma-separated. */
  function Join(ts: seq<Text>): Text {
    if ts == [] then []
    else if |ts| == 1 then ts[0]
    else ts[0] + [COMMA] + Join(ts[1..])
  }

  lemma {:induction false} JoinSnoc(ts: seq<Text>, t: Text)
    ensures Join(ts + [t]) == if ts == [] then t else Join(ts) + [COMMA] + t
    decreases |ts|
  {
    if |ts| > 1 {
      assert (ts + [t])[1..] == ts[1..] + [t];
      JoinSnoc(ts[1..], t);
    } else if |ts| == 1 {
      assert (ts + [t])[1..] == [t];
    }
  }

  /** The canonical text, or None where the source throws. */
  ghost function Canon(v: Value): Option<Text>
    decreases v, 1
  {
    match v
    case Null => Some(NULL_TEXT)
    case Bool(b) => Some(if b then TRUE_TEXT else FALSE_TEXT)
    case Num(x) => EncodeNumber(x)
    case Str(s) => EncodeString(s)
    case Arr(items) =>
      var ts := CanonItems(items);
      if ts.None? then None else Some([OPEN_ARR] + Join(ts.value) + [CLOSE_ARR])
    case Obj(m) =>
      var ts := CanonFields(v, SortedKeys(m));
      if ts.None? then None else Some([OPEN_OBJ] + Join(ts.value) + [CLOSE_OBJ])
    case Other => None
  }

  ghost function CanonItems(items: seq<Value>): (ts: Option<seq<Text>>)
    ensures ts.Some? ==> |ts.value| == |items|
    decreases items, 0
  {
    if items == [] then Some([])
    else
      var t, rest := Canon(items[0]), CanonItems(items[1..]);
      if t.None? || rest.None? then None else Some([t.value] + rest.value)
  }

  ghost function CanonFields(v: Value, ks: seq<Text>): (ts: Option<seq<Text>>)
    requires v.Obj? && forall k | k in ks :: k in v.fields
    ensures ts.Some? ==> |ts.value| == |ks|
    decreases v, 0, |ks|
  {
    if ks == [] then Some([])
    else
      var key, t, rest := EncodeString(ks[0]), Canon(v.fields[ks[0]]), CanonFields(v, ks[1..]);
      if key.None? || t.None? || rest.None? then None else Some([key.value + [COLON] + t.value] + rest.value)
  }

  lemma {:induction false} CanonItemsAt(items: seq<Value>, i: nat)
    requires i < |items|
    ensures CanonItems(items).Some? ==> Canon(items[i]) == Some(CanonItems(items).value[i])
    ensures Canon(items[i]).None? ==> CanonItems(items).None?
    decreases |items|
  {
    if i > 0 { CanonItemsAt(items[1..], i - 1); }
  }

  lemma {:induction false} CanonItemsFrom(items: seq<Value>, ts: seq<Text>)
    requires |ts| == |items| && forall i | 0 <= i < |items| :: Canon(items[i]) == Some(ts[i])
    ensures CanonItems(items) == Some(ts)
    decreases |items|
  {
    if items != [] {
      CanonItemsFrom(items[1..], ts[1..]);
      assert ts == [ts[0]] + ts[1..];
    }
  }

  /** One field of an object. */
  ghost function CanonField(v: Value, k: Text): Option<Text>
    requires v.Obj? && k in v.fields
  {
    var key, t := EncodeString(k), Canon(v.fields[k]);
    if key.None? || t.None? then None else Some(key.value + [COLON] + t.value)
  }

  lemma {:induction false} CanonFieldsAt(v: Value, ks: seq<Text>, i: nat)
    requires v.Obj? && (forall k | k in ks :: k in v.fields) && i < |ks|
    ensures CanonFields(v, ks).Some? ==> CanonField(v, ks[i]) == Some(CanonFields(v, ks).value[i])
    ensures CanonField(v, ks[i]).None? ==> CanonFields(v, ks).None?
    decreases |ks|
  {
    if i > 0 { CanonFieldsAt(v, ks[1..], i - 1); }
  }

  lemma {:induction false} CanonFieldsFrom(v: Value, ks: seq<Text>, ts: seq<Text>)
    requires v.Obj? && (forall k | k in ks :: k in v.fields)
    requires |ts| == |ks| && forall i | 0 <= i < |ks| :: CanonField(v, ks[i]) == Some(ts[i])
    ensures CanonFields(v, ks) == Some(ts)
    decreases |ks|
  {
    if ks != [] {
      assert CanonField(v, ks[0]) == Some(ts[0]);
      CanonFieldsFrom(v, ks[1..], ts[1..]);
      assert ts == [ts[0]] + ts[1..];
    }
  }

  /** What the printer takes: safe integers but no minus zero, no lone surrogate in a value or a key, and only JSON. */
  ghost predicate Printable(v: Value) {
    match v
    case Null => true
    case Bool(_) => true
    case Num(x) => x.Int? && -0x1F_FFFF_FFFF_FFFF <= x.n <= 0x1F_FFFF_FFFF_FFFF
    case Str(s) => forall i: nat | i < |s| :: !LoneAt(s, i)
    case Arr(items) => forall x | x in items :: Printable(x)
    case Obj(m) => forall k | k in m :: Printable(m[k]) && forall i: nat | i < |k| :: !LoneAt(k, i)
    case Other => false
  }

  /** It prints exactly those. */
  lemma {:induction false} PrintsExactly(v: Value)
    ensures Canon(v).Some? <==> Printable(v)
    decreases v, 1
  {
    match v {
      case Str(s) => WellFormedExactly(s);
      case Arr(items) => PrintsItems(items);
      case Obj(m) =>
        PrintsFields(v, SortedKeys(m));
        assert forall k | k in m :: k in SortedKeys(m);
      case _ =>
    }
  }

  lemma {:induction false} PrintsItems(items: seq<Value>)
    ensures CanonItems(items).Some? <==> forall x | x in items :: Printable(x)
    decreases items, 0
  {
    if items != [] {
      PrintsExactly(items[0]);
      PrintsItems(items[1..]);
      assert items == [items[0]] + items[1..];
    }
  }

  lemma {:induction false} PrintsFields(v: Value, ks: seq<Text>)
    requires v.Obj? && forall k | k in ks :: k in v.fields
    ensures CanonFields(v, ks).Some? <==> forall k | k in ks :: Printable(v.fields[k]) && forall i: nat | i < |k| :: !LoneAt(k, i)
    decreases v, 0, |ks|
  {
    if ks != [] {
      PrintsExactly(v.fields[ks[0]]);
      WellFormedExactly(ks[0]);
      PrintsFields(v, ks[1..]);
      assert ks == [ks[0]] + ks[1..];
    }
  }

  /** canonicalString, with its output loops. */
  method CanonicalString(v: Value) returns (r: Option<Text>)
    ensures r == Canon(v)
    decreases v, 1, 0
  {
    match v {
      case Null => return Some(NULL_TEXT);
      case Bool(b) => return Some(if b then TRUE_TEXT else FALSE_TEXT);
      case Num(x) => return EncodeNumber(x);
      case Str(s) => var ok := CheckSurrogates(s); return if ok then Some(Quoted(s)) else None;
      case Arr(items) => r := PrintArray(items);
      case Obj(m) => r := PrintObject(v);
      case Other => return None;
    }
  }

  method PrintArray(items: seq<Value>) returns (r: Option<Text>)
    ensures r == Canon(Arr(items))
    decreases Arr(items), 0, 2
  {
    r := PrintItems(items);
    if r.Some? { r := Some(r.value + [CLOSE_ARR]); }
  }

  /** The bracket and the items, without the closing bracket. */
  method PrintItems(items: seq<Value>) returns (r: Option<Text>)
    ensures var ts := CanonItems(items);
      r == if ts.None? then None else Some([OPEN_ARR] + Join(ts.value))
    decreases Arr(items), 0, 1
  {
    assert Join([]) == [];
    hide *;
    var out := [OPEN_ARR];
    ghost var done: seq<Text> := [];
    for i := 0 to |items|
      invariant |done| == i && forall j | 0 <= j < i :: Canon(items[j]) == Some(done[j])
      invariant out == [OPEN_ARR] + Join(done)
    {
      if i > 0 { out := out + [COMMA]; }
      var t := CanonicalString(items[i]);
      if t.None? {
        CanonItemsAt(items, i);
        return None;
      }
      JoinedSnoc(OPEN_ARR, done, t.value, out);
      out, done := out + t.value, done + [t.value];
    }
    CanonItemsFrom(items, done);
    return Some(out);
  }

  method PrintField(v: Value, k: Text) returns (r: Option<Text>)
    requires v.Obj? && k in v.fields
    ensures r == CanonField(v, k)
    decreases v, 0, 0
  {
    var ok := CheckSurrogates(k);
    if !ok { return None; }
    var t := CanonicalString(v.fields[k]);
    if t.None? { return None; }
    return Some(Quoted(k) + [COLON] + t.value);
  }

  method PrintObject(v: Value) returns (r: Option<Text>)
    requires v.Obj?
    ensures r == Canon(v)
    decreases v, 0, 2
  {
    var keys := SortKeys(v.fields);
    KeyListUnique(keys, SortedKeys(v.fields));
    r := PrintFields(v, keys);
    if r.Some? { r := Some(r.value + [CLOSE_OBJ]); }
  }

  /** The brace and the fields, without the closing brace. */
  method PrintFields(v: Value, keys: seq<Text>) returns (r: Option<Text>)
    requires v.Obj? && forall k | k in keys :: k in v.fields
    ensures var ts := CanonFields(v, keys);
      r == if ts.None? then None else Some([OPEN_OBJ] + Join(ts.value))
    decreases v, 0, 1
  {
    assert Join([]) == [] && PrintedFields(v, keys, [], 0);
    hide *;
    var out := [OPEN_OBJ];
    ghost var done: seq<Text> := [];
    for i := 0 to |keys|
      invariant PrintedFields(v, keys, done, i) && out == [OPEN_OBJ] + Join(done)
    {
      if i > 0 { out := out + [COMMA]; }
      assert keys[i] in keys;
      var t := PrintField(v, keys[i]);
      if t.None? {
        CanonFieldsAt(v, keys, i);
        return None;
      }
      PrintedSnoc(v, keys, done, i, t.value, out);
      out, done := out + t.value, done + [t.value];
    }
    PrintedAll(v, keys, done);
    return Some(out);
  }

  /** done holds the texts of the first i fields. */
  ghost predicate PrintedFields(v: Value, keys: seq<Text>, done: seq<Text>, i: int)
    requires v.Obj? && forall k | k in keys :: k in v.fields
    ensures PrintedFields(v, keys, done, i) ==> |done| == i
  {
    |done| == i <= |keys| && forall j | 0 <= j < i :: CanonField(v, keys[j]) == Some(done[j])
  }

  lemma PrintedSnoc(v: Value, keys: seq<Text>, done: seq<Text>, i: int, t: Text, out: Text)
    requires v.Obj? && forall k | k in keys :: k in v.fields
    requires PrintedFields(v, keys, done, i) && i < |keys| && CanonField(v, keys[i]) == Some(t)
    requires out == [OPEN_OBJ] + Join(done) + if i > 0 then [COMMA] else []
    ensures PrintedFields(v, keys, done + [t], i + 1) && out + t == [OPEN_OBJ] + Join(done + [t])
  {
    assert out + t == [OPEN_OBJ] + Join(done + [t]) by { JoinedSnoc(OPEN_OBJ, done, t, out); }
    hide Join, CanonField;
  }

  lemma JoinedSnoc(open: Unit, done: seq<Text>, t: Text, out: Text)
    requires out == [open] + Join(done) + if done != [] then [COMMA] else []
    ensures out + t == [open] + Join(done + [t])
  {
    JoinSnoc(done, t);
    if done == [] {
      assert Join(done) == [] && out == [open];
    } else {
      Regrouped([open], Join(done), [COMMA], t);
    }
  }

  lemma Regrouped(a: Text, b: Text, c: Text, d: Text)
    ensures a + b + c + d == a + (b + c + d)
  {
  }

  lemma PrintedAll(v: Value, keys: seq<Text>, done: seq<Text>)
    requires v.Obj? && forall k | k in keys :: k in v.fields
    requires PrintedFields(v, keys, done, |keys|)
    ensures CanonFields(v, keys) == Some(done)
  {
    CanonFieldsFrom(v, keys, done);
  }
}
