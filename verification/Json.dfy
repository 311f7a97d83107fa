/**
 The JSON text that is hashed and signed (`json.dumps(..., sort_keys=True, separators=(",", ":"))`),
 and the proof that the text determines the value.
 */
module Json {

  datatype Json =
    | Null
    | Num(n: nat)
    | Str(s: string)
    | Arr(items: seq<Json>)
    | Obj(fields: seq<Field>)

  datatype Field = Field(key: string, value: Json)

  // ----- decimal numbers

  function DigitChar(d: nat): (c: char)
    requires d < 10
    ensures IsDigit(c)
  {
    '0' + d as char
  }

  predicate IsDigit(c: char) {
    '0' <= c <= '9'
  }

  function Digits(n: nat): string {
    if n < 10 then [DigitChar(n)] else Digits(n / 10) + [DigitChar(n % 10)]
  }

  lemma {:induction false} DigitsAreDigits(n: nat)
    ensures |Digits(n)| > 0
    ensures forall i :: 0 <= i < |Digits(n)| ==> IsDigit(Digits(n)[i])
  {
    if n >= 10 {
      DigitsAreDigits(n / 10);
    }
  }

  lemma DigitCharInjective(a: nat, b: nat)
    requires a < 10 && b < 10 && DigitChar(a) == DigitChar(b)
    ensures a == b
  {
    assert ('0' + a as char) as int == 48 + a;
    assert ('0' + b as char) as int == 48 + b;
  }

  lemma {:induction false} DigitsInjective(a: nat, b: nat)
    requires Digits(a) == Digits(b)
    ensures a == b
  {
    DigitsAreDigits(a / 10);
    DigitsAreDigits(b / 10);
    var da, db := Digits(a), Digits(b);
    assert da[|da| - 1] == db[|db| - 1];
    DigitCharInjective(a % 10, b % 10);
    if a >= 10 && b >= 10 {
      assert da[..|da| - 1] == Digits(a / 10) && db[..|db| - 1] == Digits(b / 10);
      DigitsInjective(a / 10, b / 10);
    }
  }

  // ----- strings

  function HexChar(d: nat): char
    requires d < 16
  {
    if d < 10 then '0' + d as char else 'a' + (d - 10) as char
  }

  /** The four hexadecimal digits of a code unit, most significant first. */
  function Nibbles(u: nat): (nat, nat, nat, nat)
    requires u < 0x10000
  {
    (u / 4096, u / 256 % 16, u / 16 % 16, u % 16)
  }

  /** `\uXXXX` for one 16-bit code unit, followed by `rest`. */
  function EmitUnit(u: nat, rest: string): string
    requires u < 0x10000
  {
    var n := Nibbles(u);
    ['\\', 'u', HexChar(n.0), HexChar(n.1), HexChar(n.2), HexChar(n.3)] + rest
  }

  /** The surrogate pair that stands for a character beyond the 16-bit range. */
  function HighSurrogate(u: nat): (h: nat)
    requires 0x10000 <= u < 0x110000
    ensures 0xD800 <= h < 0xDC00
  {
    0xD800 + (u - 0x10000) / 0x400
  }

  function LowSurrogate(u: nat): (l: nat)
    requires 0x10000 <= u < 0x110000
    ensures 0xDC00 <= l < 0xE000
  {
    0xDC00 + (u - 0x10000) % 0x400
  }

  lemma SurrogatesInjective(u: nat, v: nat)
    requires 0x10000 <= u < 0x110000 && 0x10000 <= v < 0x110000
    requires HighSurrogate(u) == HighSurrogate(v) && LowSurrogate(u) == LowSurrogate(v)
    ensures u == v
  {
    var x, y := u - 0x10000, v - 0x10000;
    assert x == 0x400 * (x / 0x400) + x % 0x400 && y == 0x400 * (y / 0x400) + y % 0x400;
  }

  /** One character in the ASCII-only escaping of `json.dumps`, followed by `rest`. */
  function EmitChar(c: char, rest: string): string {
    var u := c as int;
    if c == '"' then ['\\', '"'] + rest
    else if c == '\\' then ['\\', '\\'] + rest
    else if c == '\n' then ['\\', 'n'] + rest
    else if c == '\r' then ['\\', 'r'] + rest
    else if c == '\t' then ['\\', 't'] + rest
    else if u == 8 then ['\\', 'b'] + rest
    else if u == 12 then ['\\', 'f'] + rest
    else if ' ' <= c <= '~' then [c] + rest
    else if u < 0x10000 then EmitUnit(u, rest)
    else EmitUnit(HighSurrogate(u), EmitUnit(LowSurrogate(u), rest))
  }

  function EmitChars(s: string, rest: string): string {
    if s == "" then rest else EmitChar(s[0], EmitChars(s[1..], rest))
  }

  function EmitString(s: string, rest: string): string {
    ['"'] + EmitChars(s, ['"'] + rest)
  }

  lemma HexCharInjective(a: nat, b: nat)
    requires a < 16 && b < 16 && HexChar(a) == HexChar(b)
    ensures a == b
  {
    assert a < 10 ==> HexChar(a) as int == 48 + a;
    assert b < 10 ==> HexChar(b) as int == 48 + b;
    assert a >= 10 ==> HexChar(a) as int == 87 + a;
    assert b >= 10 ==> HexChar(b) as int == 87 + b;
  }

  lemma NibblesInjective(u: nat, v: nat)
    requires u < 0x10000 && v < 0x10000 && Nibbles(u) == Nibbles(v)
    ensures u == v
  {
    assert u == 16 * (u / 16) + u % 16 && v == 16 * (v / 16) + v % 16;
    var u1, v1 := u / 16, v / 16;
    assert u1 == 16 * (u1 / 16) + u1 % 16 && v1 == 16 * (v1 / 16) + v1 % 16;
    var u2, v2 := u1 / 16, v1 / 16;
    assert u2 == u / 256 && v2 == v / 256;
    assert u2 == 16 * (u2 / 16) + u2 % 16 && v2 == 16 * (v2 / 16) + v2 % 16;
    assert u2 / 16 == u / 4096 && v2 / 16 == v / 4096;
  }

  lemma UnitUnambiguous(u: nat, r: string, v: nat, t: string)
    requires u < 0x10000 && v < 0x10000
    requires EmitUnit(u, r) == EmitUnit(v, t)
    ensures u == v && r == t
  {
    var a, b := EmitUnit(u, r), EmitUnit(v, t);
    var p, q := Nibbles(u), Nibbles(v);
    assert a[2] == HexChar(p.0) && a[3] == HexChar(p.1) && a[4] == HexChar(p.2) && a[5] == HexChar(p.3);
    assert b[2] == HexChar(q.0) && b[3] == HexChar(q.1) && b[4] == HexChar(q.2) && b[5] == HexChar(q.3);
    HexCharInjective(p.0, q.0);
    HexCharInjective(p.1, q.1);
    HexCharInjective(p.2, q.2);
    HexCharInjective(p.3, q.3);
    NibblesInjective(u, v);
    assert r == a[6..] && t == b[6..];
  }

  /** Which of the escaping's cases a character falls in: the second character of its escape, or '.'. */
  function EscapeKind(c: char): char {
    var u := c as int;
    if c == '"' then '"'
    else if c == '\\' then '\\'
    else if c == '\n' then 'n'
    else if c == '\r' then 'r'
    else if c == '\t' then 't'
    else if u == 8 then 'b'
    else if u == 12 then 'f'
    else if ' ' <= c <= '~' then '.'
    else 'u'
  }

  lemma EmittedKind(c: char, rest: string)
    ensures |EmitChar(c, rest)| > 0 && EmitChar(c, rest)[0] != '"'
    ensures EscapeKind(c) == '.' <==> EmitChar(c, rest)[0] != '\\'
    ensures EscapeKind(c) == '.' ==> EmitChar(c, rest) == [c] + rest
    ensures EscapeKind(c) != '.' ==> |EmitChar(c, rest)| > 1 && EmitChar(c, rest)[1] == EscapeKind(c)
    ensures EscapeKind(c) !in {'.', 'u'} ==> EmitChar(c, rest)[2..] == rest
  {
  }

  lemma AstralUnambiguous(u: nat, r: string, v: nat, t: string)
    requires 0x10000 <= u < 0x110000 && 0x10000 <= v < 0x110000
    requires EmitUnit(HighSurrogate(u), EmitUnit(LowSurrogate(u), r))
          == EmitUnit(HighSurrogate(v), EmitUnit(LowSurrogate(v), t))
    ensures u == v && r == t
  {
    UnitUnambiguous(HighSurrogate(u), EmitUnit(LowSurrogate(u), r), HighSurrogate(v), EmitUnit(LowSurrogate(v), t));
    UnitUnambiguous(LowSurrogate(u), r, LowSurrogate(v), t);
    SurrogatesInjective(u, v);
  }

  lemma UnicodeEscapeUnambiguous(c: char, r: string, d: char, t: string)
    requires EscapeKind(c) == EscapeKind(d) == 'u'
    requires EmitChar(c, r) == EmitChar(d, t)
    ensures c == d && r == t
  {
    var u: nat, v: nat := c as int, d as int;
    // no character is itself a surrogate, so the first code unit tells the two cases apart
    if u < 0x10000 && v < 0x10000 {
      UnitUnambiguous(u, r, v, t);
    } else if u < 0x10000 {
      UnitUnambiguous(u, r, HighSurrogate(v), EmitUnit(LowSurrogate(v), t));
    } else if v < 0x10000 {
      UnitUnambiguous(HighSurrogate(u), EmitUnit(LowSurrogate(u), r), v, t);
    } else {
      AstralUnambiguous(u, r, v, t);
    }
  }

  lemma CharUnambiguous(c: char, r: string, d: char, t: string)
    requires EmitChar(c, r) == EmitChar(d, t)
    ensures c == d && r == t
  {
    EmittedKind(c, r);
    EmittedKind(d, t);
    assert EscapeKind(c) == EscapeKind(d);
    if EscapeKind(c) == 'u' {
      UnicodeEscapeUnambiguous(c, r, d, t);
    } else if EscapeKind(c) == '.' {
      assert ([c] + r)[0] == ([d] + t)[0] && ([c] + r)[1..] == r && ([d] + t)[1..] == t;
    }
  }

  lemma {:induction false} CharsUnambiguous(s: string, r: string, s': string, r': string)
    requires EmitChars(s, ['"'] + r) == EmitChars(s', ['"'] + r')
    ensures s == s' && r == r'
    decreases |s|
  {
    if s != "" {
      EmittedKind(s[0], EmitChars(s[1..], ['"'] + r));
    }
    if s' != "" {
      EmittedKind(s'[0], EmitChars(s'[1..], ['"'] + r'));
    }
    if s == "" && s' == "" {
      assert r == (['"'] + r)[1..] && r' == (['"'] + r')[1..];
    } else if s != "" && s' != "" {
      CharUnambiguous(s[0], EmitChars(s[1..], ['"'] + r), s'[0], EmitChars(s'[1..], ['"'] + r'));
      CharsUnambiguous(s[1..], r, s'[1..], r');
      assert s == [s[0]] + s[1..] && s' == [s'[0]] + s'[1..];
    }
  }

  lemma StringUnambiguous(s: string, r: string, s': string, r': string)
    requires EmitString(s, r) == EmitString(s', r')
    ensures s == s' && r == r'
  {
    assert EmitString(s, r)[1..] == EmitChars(s, ['"'] + r);
    assert EmitString(s', r')[1..] == EmitChars(s', ['"'] + r');
    CharsUnambiguous(s, r, s', r');
  }

  // ----- values

  /** The text of `j` followed by `rest`. */
  function Emit(j: Json, rest: string): string
    decreases j, 1
  {
    match j
    case Null => "null" + rest
    case Num(n) => Digits(n) + rest
    case Str(s) => EmitString(s, rest)
    case Arr(items) => ['['] + EmitItems(items, rest)
    case Obj(fields) => ['{'] + EmitFields(fields, rest)
  }

  /** What remains of an array after its bracket or after an item; every item is followed by a comma
      or by the closing bracket. */
  function EmitItems(items: seq<Json>, rest: string): string
    decreases items, 0
  {
    if items == [] then [']'] + rest
    else if |items| == 1 then Emit(items[0], [']'] + rest)
    else Emit(items[0], [','] + EmitItems(items[1..], rest))
  }

  function EmitFields(fields: seq<Field>, rest: string): string
    decreases fields, 0
  {
    if fields == [] then ['}'] + rest
    else
      EmitString(fields[0].key, [':'] + (
        if |fields| == 1 then Emit(fields[0].value, ['}'] + rest)
        else Emit(fields[0].value, [','] + EmitFields(fields[1..], rest))))
  }

  function Dumps(j: Json): string {
    Emit(j, "")
  }

  /** What may follow a value: the end of the text, a separator or a closing bracket. */
  predicate Ends(rest: string) {
    rest == "" || rest[0] in {',', ']', '}'}
  }

  function FirstChar(j: Json): char {
    match j
    case Null => 'n'
    case Num(_) => '0'
    case Str(_) => '"'
    case Arr(_) => '['
    case Obj(_) => '{'
  }

  lemma EmitStarts(j: Json, rest: string)
    ensures |Emit(j, rest)| > 0
    ensures j.Num? ==> IsDigit(Emit(j, rest)[0])
    ensures !j.Num? ==> Emit(j, rest)[0] == FirstChar(j)
  {
    if j.Num? {
      DigitsAreDigits(j.n);
    }
  }

  /** A maximal run of digits is determined by the text. */
  lemma DigitRunUnambiguous(a: string, r: string, b: string, t: string)
    requires forall i :: 0 <= i < |a| ==> IsDigit(a[i])
    requires forall i :: 0 <= i < |b| ==> IsDigit(b[i])
    requires (r == "" || !IsDigit(r[0])) && (t == "" || !IsDigit(t[0])) && a + r == b + t
    ensures a == b && r == t
  {
    var text := a + r;
    assert text == b + t;
    assert forall i :: 0 <= i < |a| ==> text[i] == a[i] && IsDigit(text[i]);
    assert forall i :: 0 <= i < |b| ==> text[i] == b[i] && IsDigit(text[i]);
    assert |a| < |text| ==> text[|a|] == r[0] && !IsDigit(text[|a|]);
    assert |b| < |text| ==> text[|b|] == t[0] && !IsDigit(text[|b|]);
    assert |a| == |b|;
    assert a == (a + r)[..|a|] && b == (b + t)[..|a|];
    assert r == (a + r)[|a|..] && t == (b + t)[|a|..];
  }

  /** JSON text is uniquely decodable: no value's text, suitably followed, is another's. */
  lemma {:induction false} ValueUnambiguous(a: Json, r: string, b: Json, t: string)
    requires Ends(r) && Ends(t) && Emit(a, r) == Emit(b, t)
    ensures a == b && r == t
    decreases a, 1
  {
    EmitStarts(a, r);
    EmitStarts(b, t);
    assert a.Num? == b.Num? && FirstChar(a) == FirstChar(b);
    match a {
      case Null =>
        assert r == ("null" + r)[4..] && t == ("null" + t)[4..];
      case Num(n) =>
        DigitsAreDigits(n);
        DigitsAreDigits(b.n);
        DigitRunUnambiguous(Digits(n), r, Digits(b.n), t);
        DigitsInjective(n, b.n);
      case Str(s) =>
        StringUnambiguous(s, r, b.s, t);
      case Arr(items) =>
        assert Emit(a, r)[1..] == EmitItems(items, r) && Emit(b, t)[1..] == EmitItems(b.items, t);
        ItemsUnambiguous(items, r, b.items, t);
      case Obj(fields) =>
        assert Emit(a, r)[1..] == EmitFields(fields, r) && Emit(b, t)[1..] == EmitFields(b.fields, t);
        FieldsUnambiguous(fields, r, b.fields, t);
    }
  }

  function AfterItem(items: seq<Json>, rest: string): string
    requires items != []
  {
    if |items| == 1 then [']'] + rest else [','] + EmitItems(items[1..], rest)
  }

  lemma {:induction false} ItemsUnambiguous(a: seq<Json>, r: string, b: seq<Json>, t: string)
    requires EmitItems(a, r) == EmitItems(b, t)
    ensures a == b && r == t
    decreases a, 0
  {
    if a != [] {
      EmitStarts(a[0], AfterItem(a, r));
    }
    if b != [] {
      EmitStarts(b[0], AfterItem(b, t));
    }
    if a == [] || b == [] {
      assert a == [] && b == [];
      assert r == ([']'] + r)[1..] && t == ([']'] + t)[1..];
    } else {
      ValueUnambiguous(a[0], AfterItem(a, r), b[0], AfterItem(b, t));
      assert AfterItem(a, r)[0] == AfterItem(b, t)[0];
      if |a| == 1 {
        assert r == ([']'] + r)[1..] && t == ([']'] + t)[1..];
      } else {
        assert AfterItem(a, r)[1..] == EmitItems(a[1..], r) && AfterItem(b, t)[1..] == EmitItems(b[1..], t);
        ItemsUnambiguous(a[1..], r, b[1..], t);
        assert a == [a[0]] + a[1..] && b == [b[0]] + b[1..];
      }
    }
  }

  function AfterField(fields: seq<Field>, rest: string): string
    requires fields != []
  {
    if |fields| == 1 then ['}'] + rest else [','] + EmitFields(fields[1..], rest)
  }

  lemma {:induction false} FieldsUnambiguous(a: seq<Field>, r: string, b: seq<Field>, t: string)
    requires EmitFields(a, r) == EmitFields(b, t)
    ensures a == b && r == t
    decreases a, 0
  {
    if a == [] || b == [] {
      assert EmitFields(a, r)[0] == EmitFields(b, t)[0];
      assert a == [] && b == [];
      assert r == (['}'] + r)[1..] && t == (['}'] + t)[1..];
    } else {
      var x, y := Emit(a[0].value, AfterField(a, r)), Emit(b[0].value, AfterField(b, t));
      StringUnambiguous(a[0].key, [':'] + x, b[0].key, [':'] + y);
      assert x == ([':'] + x)[1..] && y == ([':'] + y)[1..];
      ValueUnambiguous(a[0].value, AfterField(a, r), b[0].value, AfterField(b, t));
      assert AfterField(a, r)[0] == AfterField(b, t)[0];
      if |a| == 1 {
        assert r == (['}'] + r)[1..] && t == (['}'] + t)[1..];
      } else {
        assert AfterField(a, r)[1..] == EmitFields(a[1..], r) && AfterField(b, t)[1..] == EmitFields(b[1..], t);
        FieldsUnambiguous(a[1..], r, b[1..], t);
        assert a == [a[0]] + a[1..] && b == [b[0]] + b[1..];
      }
    }
  }

  /** Two values with the same text are the same value. */
  lemma DumpsInjective(a: Json, b: Json)
    requires Dumps(a) == Dumps(b)
    ensures a == b
  {
    ValueUnambiguous(a, "", b, "");
  }
}
