/** The canonical text of a JSON-like value, from which dedupe keys are hashed, and a decoder for it: UTF-16
    code units, escapes, numbers, arrays and objects. */
module CanonicalJson {
  import opened Prelude

  // Program strings are sequences of 16-bit code units.
  type CodeUnit = n: int | 0 <= n < 0x1_0000
  type Text = seq<CodeUnit>

  // `Undefined` is what a missing field holds; numbers are integers.
  datatype Value =
    | Undefined
    | Null
    | Bool(b: bool)
    | Num(n: int)
    | Str(s: Text)
    | Arr(items: seq<Value>)
    | Obj(entries: seq<Entry>)

  datatype Entry = Entry(key: Text, value: Value)

  // The comparison used to sort keys, as "not after".
  type Order = (Text, Text) -> bool

  const QUOTE: CodeUnit := 34
  const COMMA: CodeUnit := 44
  const MINUS: CodeUnit := 45
  const COLON: CodeUnit := 58
  const LBRACKET: CodeUnit := 91
  const BACKSLASH: CodeUnit := 92
  const RBRACKET: CodeUnit := 93
  const LBRACE: CodeUnit := 123
  const RBRACE: CodeUnit := 125

  const NULL_TEXT: Text := [110, 117, 108, 108]
  const TRUE_TEXT: Text := [116, 114, 117, 101]
  const FALSE_TEXT: Text := [102, 97, 108, 115, 101]

  // ----- numbers

  predicate IsDigit(u: CodeUnit) {
    48 <= u <= 57
  }

  function Digits(n: nat): (r: Text)
    ensures |r| > 0 && forall i :: 0 <= i < |r| ==> IsDigit(r[i])
  {
    if n < 10 then [48 + n] else Digits(n / 10) + [48 + n % 10]
  }

  function Decimal(n: int): Text {
    if n < 0 then [MINUS] + Digits(-n) else Digits(n)
  }

  function DigitsValue(t: Text): nat
    requires forall i :: 0 <= i < |t| ==> IsDigit(t[i])
  {
    if t == [] then 0
    else
      assert IsDigit(t[|t| - 1]);
      10 * DigitsValue(t[..|t| - 1]) + (t[|t| - 1] as int - 48)
  }

  lemma {:induction false} DigitsRead(n: nat)
    ensures DigitsValue(Digits(n)) == n
  {
    if n < 10 {
      assert Digits(n)[..0] == [];
    } else {
      DigitsRead(n / 10);
      var t := Digits(n);
      assert t[..|t| - 1] == Digits(n / 10);
    }
  }

  /** Length of the leading run of digits. */
  function DigitSpan(t: Text): (k: nat)
    ensures k <= |t| && (forall i :: 0 <= i < k ==> IsDigit(t[i])) && (k < |t| ==> !IsDigit(t[k]))
  {
    if t == [] || !IsDigit(t[0]) then 0 else 1 + DigitSpan(t[1..])
  }

  // ----- string quoting (section 7 of RFC 8259, with lone surrogates escaped)

  predicate IsLead(u: CodeUnit) {
    0xD800 <= u <= 0xDBFF
  }

  predicate IsTrail(u: CodeUnit) {
    0xDC00 <= u <= 0xDFFF
  }

  function HexUnit(d: nat): CodeUnit
    requires d < 16
  {
    if d < 10 then 48 + d else 87 + d
  }

  function HexValue(u: CodeUnit): Option<nat> {
    if 48 <= u <= 57 then Some(u - 48) else if 97 <= u <= 102 then Some(u - 87) else None
  }

  function Hex4(u: CodeUnit): Text {
    [HexUnit(u / 4096), HexUnit(u / 256 % 16), HexUnit(u / 16 % 16), HexUnit(u % 16)]
  }

  function EscapeUnit(u: CodeUnit): Text {
    if u == QUOTE || u == BACKSLASH then [BACKSLASH, u]
    else if u == 8 then [BACKSLASH, 98]
    else if u == 9 then [BACKSLASH, 116]
    else if u == 10 then [BACKSLASH, 110]
    else if u == 12 then [BACKSLASH, 102]
    else if u == 13 then [BACKSLASH, 114]
    else if u < 32 || IsLead(u) || IsTrail(u) then [BACKSLASH, 117] + Hex4(u)
    else [u]
  }

  function EscapeAll(s: Text): Text {
    if s == [] then []
    else if |s| > 1 && IsLead(s[0]) && IsTrail(s[1]) then [s[0], s[1]] + EscapeAll(s[2..])
    else EscapeUnit(s[0]) + EscapeAll(s[1..])
  }

  function Quoted(s: Text): Text {
    [QUOTE] + EscapeAll(s) + [QUOTE]
  }

  /** Only quotation marks, backslashes, control characters and lone surrogates are escaped, the common control
      characters by a letter. */
  lemma EscapesAsJson(u: CodeUnit)
    ensures EscapeUnit(u) == [u] <==> u != QUOTE && u != BACKSLASH && 32 <= u && !(0xD800 <= u <= 0xDFFF)
    ensures u == 8 || u == 9 || u == 10 || u == 12 || u == 13 ==>
      EscapeUnit(u) == [BACKSLASH, if u == 8 then 98 else if u == 9 then 116 else if u == 10 then 110 else if u == 12 then 102 else 114]
    ensures |EscapeUnit(u)| == if u == 34 || u == 92 || 8 <= u <= 10 || 12 <= u <= 13 then 2 else if u < 32 || 0xD800 <= u <= 0xDFFF then 6 else 1
  {
  }

  /** Only negative numbers carry a sign, and none but zero begins with a zero. */
  lemma {:induction false} DecimalForm(n: int)
    ensures Decimal(n)[0] == MINUS <==> n < 0
    ensures n > 0 ==> Decimal(n)[0] != 48
  {
    if n >= 10 {
      DecimalForm(n / 10);
    }
  }

  /** Reads one possibly escaped unit from the inside of a string. */
  function ReadUnit(t: Text): (r: Option<(CodeUnit, Text)>)
    ensures r.Some? ==> |r.value.1| < |t|
  {
    if t == [] || t[0] == QUOTE then None
    else if t[0] != BACKSLASH then Some((t[0], t[1..]))
    else if |t| < 2 then None
    else if t[1] == QUOTE || t[1] == BACKSLASH then Some((t[1], t[2..]))
    else if t[1] == 98 then Some((8, t[2..]))
    else if t[1] == 116 then Some((9, t[2..]))
    else if t[1] == 110 then Some((10, t[2..]))
    else if t[1] == 102 then Some((12, t[2..]))
    else if t[1] == 114 then Some((13, t[2..]))
    else if t[1] == 117 && |t| >= 6 then
      match (HexValue(t[2]), HexValue(t[3]), HexValue(t[4]), HexValue(t[5]))
      case (Some(a), Some(b), Some(c), Some(d)) =>
        var u := 4096 * a + 256 * b + 16 * c + d;
        if u < 0x1_0000 then Some((u, t[6..])) else None
      case _ => None
    else None
  }

  /** Reads the rest of a string, whose opening quote is already consumed. */
  function ReadString(t: Text): (r: Option<(Text, Text)>)
    ensures r.Some? ==> |r.value.1| < |t|
  {
    if t == [] then None
    else if t[0] == QUOTE then Some(([], t[1..]))
    else
      match ReadUnit(t)
      case None => None
      case Some((u, rest)) =>
        match ReadString(rest)
        case None => None
        case Some((s, tail)) => Some(([u] + s, tail))
  }

  lemma {:induction false} EscapedUnitReads(u: CodeUnit, rest: Text)
    ensures ReadUnit(EscapeUnit(u) + rest) == Some((u, rest))
    ensures EscapeUnit(u) != [] && EscapeUnit(u)[0] != QUOTE
  {
    var t := EscapeUnit(u) + rest;
    if t[0] == BACKSLASH && t[1] == 117 {
      HexReads(u);
      assert t[2..6] == Hex4(u) && t[6..] == rest;
    } else if t[0] == BACKSLASH {
      assert t[2..] == rest;
    } else {
      assert t[1..] == rest;
    }
  }

  lemma {:induction false} HexDigitsSum(u: nat)
    ensures 4096 * (u / 4096) + 256 * (u / 256 % 16) + 16 * (u / 16 % 16) + u % 16 == u
  {
    var a, b := u / 16, u / 256;
    assert a / 16 == b && b / 16 == u / 4096;
  }

  lemma HexReads(u: CodeUnit)
    ensures var h := Hex4(u);
      HexValue(h[0]) == Some(u / 4096) && HexValue(h[1]) == Some(u / 256 % 16)
      && HexValue(h[2]) == Some(u / 16 % 16) && HexValue(h[3]) == Some(u % 16)
    ensures 4096 * (u / 4096) + 256 * (u / 256 % 16) + 16 * (u / 16 % 16) + u % 16 == u
  {
    HexDigitsSum(u);
  }

  // A pair of surrogates is copied as it is.
  lemma PairReads(lead: CodeUnit, trail: CodeUnit, s: Text, tail: Text, rest: Text)
    requires IsLead(lead) && IsTrail(trail) && ReadString(tail) == Some((s, rest))
    ensures ReadString([lead] + [trail] + tail) == Some(([lead] + [trail] + s, rest))
  {
    var t := [lead] + [trail] + tail;
    assert t[1..] == [trail] + tail && t[1..][1..] == tail;
    assert ReadString(t[1..]) == Some(([trail] + s, rest));
    assert [lead] + ([trail] + s) == [lead] + [trail] + s;
  }

  lemma UnitThenReads(u: CodeUnit, s: Text, tail: Text, rest: Text)
    requires ReadString(tail) == Some((s, rest))
    ensures ReadString(EscapeUnit(u) + tail) == Some(([u] + s, rest))
  {
    EscapedUnitReads(u, tail);
  }

  lemma {:induction false} EscapedReads(s: Text, rest: Text)
    ensures ReadString(EscapeAll(s) + [QUOTE] + rest) == Some((s, rest))
  {
    var t := EscapeAll(s) + [QUOTE] + rest;
    if s == [] {
      assert t[1..] == rest;
    } else if |s| > 1 && IsLead(s[0]) && IsTrail(s[1]) {
      var tail := EscapeAll(s[2..]) + [QUOTE] + rest;
      assert t == [s[0]] + [s[1]] + tail;
      EscapedReads(s[2..], rest);
      PairReads(s[0], s[1], s[2..], tail, rest);
      assert [s[0]] + [s[1]] + s[2..] == s;
    } else {
      var tail := EscapeAll(s[1..]) + [QUOTE] + rest;
      assert t == EscapeUnit(s[0]) + tail;
      EscapedReads(s[1..], rest);
      UnitThenReads(s[0], s[1..], tail, rest);
      assert [s[0]] + s[1..] == s;
    }
  }

  // ----- the canonical text

  /** Stable insertion by key: a new entry goes before later entries with an equal key. */
  function InsertEntry(notAfter: Order, e: Entry, es: seq<Entry>): (r: seq<Entry>)
    ensures |r| == |es| + 1 && forall x :: x in r <==> x == e || x in es
  {
    if es == [] || notAfter(e.key, es[0].key) then [e] + es
    else [es[0]] + InsertEntry(notAfter, e, es[1..])
  }

  function SortEntries(notAfter: Order, es: seq<Entry>): (r: seq<Entry>)
    ensures |r| == |es| && forall x :: x in r <==> x in es
  {
    if es == [] then [] else InsertEntry(notAfter, es[0], SortEntries(notAfter, es[1..]))
  }

  function Canonicalize(notAfter: Order, v: Value): Text
    decreases v, 1, 0
  {
    match v
    case Undefined => NULL_TEXT
    case Null => NULL_TEXT
    case Bool(b) => if b then TRUE_TEXT else FALSE_TEXT
    case Num(n) => Decimal(n)
    case Str(s) => Quoted(s)
    case Arr(items) => [LBRACKET] + CanonicalItems(notAfter, v, items) + [RBRACKET]
    case Obj(entries) => [LBRACE] + CanonicalEntries(notAfter, v, SortEntries(notAfter, entries)) + [RBRACE]
  }

  function CanonicalItems(notAfter: Order, v: Value, items: seq<Value>): Text
    requires v.Arr? && forall x :: x in items ==> x in v.items
    decreases v, 0, |items|
  {
    if items == [] then []
    else
      assert items[0] in v.items;
      Canonicalize(notAfter, items[0])
      + (if |items| == 1 then [] else [COMMA] + CanonicalItems(notAfter, v, items[1..]))
  }

  function CanonicalEntries(notAfter: Order, v: Value, es: seq<Entry>): Text
    requires v.Obj? && forall e :: e in es ==> e in v.entries
    decreases v, 0, |es|
  {
    if es == [] then []
    else
      assert es[0] in v.entries;
      Quoted(es[0].key) + [COLON] + Canonicalize(notAfter, es[0].value)
      + (if |es| == 1 then [] else [COMMA] + CanonicalEntries(notAfter, v, es[1..]))
  }

  // ----- normal form and its plain printing

  /** The value with missing fields read as null and every object's entries in key order. */
  function Normalize(notAfter: Order, v: Value): Value {
    match v
    case Undefined => Null
    case Arr(items) => Arr(NormalItems(notAfter, items))
    case Obj(entries) => Obj(SortEntries(notAfter, NormalEntries(notAfter, entries)))
    case _ => v
  }

  function NormalItems(notAfter: Order, items: seq<Value>): (r: seq<Value>)
    ensures |r| == |items|
  {
    if items == [] then [] else [Normalize(notAfter, items[0])] + NormalItems(notAfter, items[1..])
  }

  function NormalEntries(notAfter: Order, es: seq<Entry>): (r: seq<Entry>)
    ensures |r| == |es|
  {
    if es == [] then []
    else [Entry(es[0].key, Normalize(notAfter, es[0].value))] + NormalEntries(notAfter, es[1..])
  }

  function Print(v: Value): Text {
    match v
    case Undefined => NULL_TEXT
    case Null => NULL_TEXT
    case Bool(b) => if b then TRUE_TEXT else FALSE_TEXT
    case Num(n) => Decimal(n)
    case Str(s) => Quoted(s)
    case Arr(items) => [LBRACKET] + PrintItems(items) + [RBRACKET]
    case Obj(entries) => [LBRACE] + PrintEntries(entries) + [RBRACE]
  }

  function PrintItems(items: seq<Value>): Text {
    if items == [] then []
    else Print(items[0]) + (if |items| == 1 then [] else [COMMA] + PrintItems(items[1..]))
  }

  function PrintEntries(es: seq<Entry>): Text {
    if es == [] then []
    else PrintEntry(es[0]) + (if |es| == 1 then [] else [COMMA] + PrintEntries(es[1..]))
  }

  function PrintEntry(e: Entry): Text {
    Quoted(e.key) + [COLON] + Print(e.value)
  }

  lemma {:induction false} SortNormalCommute(notAfter: Order, es: seq<Entry>)
    ensures SortEntries(notAfter, NormalEntries(notAfter, es)) == NormalEntries(notAfter, SortEntries(notAfter, es))
  {
    if es != [] {
      SortNormalCommute(notAfter, es[1..]);
      InsertNormalCommute(notAfter, es[0], SortEntries(notAfter, es[1..]));
    }
  }

  lemma {:induction false} InsertNormalCommute(notAfter: Order, e: Entry, es: seq<Entry>)
    ensures InsertEntry(notAfter, Entry(e.key, Normalize(notAfter, e.value)), NormalEntries(notAfter, es))
         == NormalEntries(notAfter, InsertEntry(notAfter, e, es))
  {
    if !(es == [] || notAfter(e.key, es[0].key)) {
      InsertNormalCommute(notAfter, e, es[1..]);
      assert ([es[0]] + InsertEntry(notAfter, e, es[1..]))[1..] == InsertEntry(notAfter, e, es[1..]);
    } else {
      assert ([e] + es)[1..] == es;
    }
  }

  /** Canonicalising is printing the normal form. */
  lemma {:induction false} CanonicalIsPrintedNormalForm(notAfter: Order, v: Value)
    ensures Canonicalize(notAfter, v) == Print(Normalize(notAfter, v))
    decreases v, 1, 0
  {
    match v
    case Arr(items) => ItemsPrinted(notAfter, v, items);
    case Obj(entries) =>
      SortNormalCommute(notAfter, entries);
      EntriesPrinted(notAfter, v, SortEntries(notAfter, entries));
    case _ =>
  }

  lemma {:induction false} ItemsPrinted(notAfter: Order, v: Value, items: seq<Value>)
    requires v.Arr? && forall x :: x in items ==> x in v.items
    ensures CanonicalItems(notAfter, v, items) == PrintItems(NormalItems(notAfter, items))
    decreases v, 0, |items|
  {
    if items != [] {
      assert items[0] in v.items;
      CanonicalIsPrintedNormalForm(notAfter, items[0]);
      ItemsPrinted(notAfter, v, items[1..]);
    }
  }

  lemma {:induction false} EntriesPrinted(notAfter: Order, v: Value, es: seq<Entry>)
    requires v.Obj? && forall e :: e in es ==> e in v.entries
    ensures CanonicalEntries(notAfter, v, es) == PrintEntries(NormalEntries(notAfter, es))
    decreases v, 0, |es|
  {
    if es != [] {
      assert es[0] in v.entries;
      CanonicalIsPrintedNormalForm(notAfter, es[0].value);
      EntriesPrinted(notAfter, v, es[1..]);
    }
  }

  // ----- the decoder

  function ReadNumber(t: Text): (r: Option<(int, Text)>)
    ensures r.Some? ==> |r.value.1| < |t|
  {
    if t != [] && t[0] == MINUS then
      var k := DigitSpan(t[1..]);
      if k == 0 then None else Some((-(DigitsValue(t[1..][..k]) as int), t[1..][k..]))
    else
      var k := DigitSpan(t);
      if k == 0 then None else Some((DigitsValue(t[..k]), t[k..]))
  }

  /** Reads one value off the front of a canonical text and returns what follows it. */
  function ReadValue(t: Text): (r: Option<(Value, Text)>)
    ensures r.Some? ==> |r.value.1| < |t|
    decreases |t|, 0
  {
    if t == [] then None
    else if t[0] == QUOTE then
      match ReadString(t[1..]) case None => None case Some((s, rest)) => Some((Str(s), rest))
    else if t[0] == LBRACKET then
      if |t| > 1 && t[1] == RBRACKET then Some((Arr([]), t[2..]))
      else match ReadItems(t[1..]) case None => None case Some((items, rest)) => Some((Arr(items), rest))
    else if t[0] == LBRACE then
      if |t| > 1 && t[1] == RBRACE then Some((Obj([]), t[2..]))
      else match ReadEntries(t[1..]) case None => None case Some((es, rest)) => Some((Obj(es), rest))
    else if NULL_TEXT <= t then Some((Null, t[4..]))
    else if TRUE_TEXT <= t then Some((Bool(true), t[4..]))
    else if FALSE_TEXT <= t then Some((Bool(false), t[5..]))
    else
      match ReadNumber(t) case None => None case Some((n, rest)) => Some((Num(n), rest))
  }

  function ReadItems(t: Text): (r: Option<(seq<Value>, Text)>)
    ensures r.Some? ==> |r.value.1| < |t|
    decreases |t|, 1
  {
    match ReadValue(t)
    case None => None
    case Some((v, rest)) =>
      if rest == [] then None
      else if rest[0] == RBRACKET then Some(([v], rest[1..]))
      else if rest[0] == COMMA then
        match ReadItems(rest[1..]) case None => None case Some((vs, tail)) => Some(([v] + vs, tail))
      else None
  }

  function ReadEntry(t: Text): (r: Option<(Entry, Text)>)
    ensures r.Some? ==> |r.value.1| < |t|
    decreases |t|, 0
  {
    if t == [] || t[0] != QUOTE then None
    else
      match ReadString(t[1..])
      case None => None
      case Some((key, rest)) =>
        if rest == [] || rest[0] != COLON then None
        else match ReadValue(rest[1..]) case None => None case Some((v, tail)) => Some((Entry(key, v), tail))
  }

  function ReadEntries(t: Text): (r: Option<(seq<Entry>, Text)>)
    ensures r.Some? ==> |r.value.1| < |t|
    decreases |t|, 1
  {
    match ReadEntry(t)
    case None => None
    case Some((e, rest)) =>
      if rest == [] then None
      else if rest[0] == RBRACE then Some(([e], rest[1..]))
      else if rest[0] == COMMA then
        match ReadEntries(rest[1..]) case None => None case Some((es, tail)) => Some(([e] + es, tail))
      else None
  }

  /** Decodes a whole canonical text. */
  function Decode(t: Text): Option<Value> {
    match ReadValue(t) case Some((v, rest)) => (if rest == [] then Some(v) else None) case None => None
  }

  // ----- the decoder undoes printing

  predicate Complete(v: Value) {
    match v
    case Undefined => false
    case Arr(items) => forall x :: x in items ==> Complete(x)
    case Obj(entries) => forall e :: e in entries ==> Complete(e.value)
    case _ => true
  }

  lemma {:induction false} NormalFormComplete(notAfter: Order, v: Value)
    ensures Complete(Normalize(notAfter, v))
  {
    match v
    case Arr(items) =>
      forall x | x in NormalItems(notAfter, items) ensures Complete(x) {
        NormalItemOrigin(notAfter, items, x);
        var y :| y in items && x == Normalize(notAfter, y);
        NormalFormComplete(notAfter, y);
      }
    case Obj(entries) =>
      forall e | e in NormalEntries(notAfter, entries) ensures Complete(e.value) {
        NormalEntryOrigin(notAfter, entries, e);
        var d :| d in entries && e == Entry(d.key, Normalize(notAfter, d.value));
        NormalFormComplete(notAfter, d.value);
      }
    case _ =>
  }

  lemma {:induction false} NormalItemOrigin(notAfter: Order, items: seq<Value>, x: Value)
    requires x in NormalItems(notAfter, items)
    ensures exists y :: y in items && x == Normalize(notAfter, y)
  {
    if x != Normalize(notAfter, items[0]) {
      NormalItemOrigin(notAfter, items[1..], x);
    } else {
      assert items[0] in items;
    }
  }

  lemma {:induction false} NormalEntryOrigin(notAfter: Order, es: seq<Entry>, e: Entry)
    requires e in NormalEntries(notAfter, es)
    ensures exists d :: d in es && e == Entry(d.key, Normalize(notAfter, d.value))
  {
    if e != Entry(es[0].key, Normalize(notAfter, es[0].value)) {
      NormalEntryOrigin(notAfter, es[1..], e);
    } else {
      assert es[0] in es;
    }
  }

  // What may follow a value inside a larger text.
  predicate Delimited(rest: Text) {
    rest == [] || rest[0] == COMMA || rest[0] == RBRACKET || rest[0] == RBRACE
  }

  lemma {:induction false} SpanOfDigits(d: Text, rest: Text)
    requires (forall i :: 0 <= i < |d| ==> IsDigit(d[i])) && Delimited(rest)
    ensures DigitSpan(d + rest) == |d|
  {
    if d == [] {
      assert d + rest == rest;
    } else {
      assert (d + rest)[1..] == d[1..] + rest;
      SpanOfDigits(d[1..], rest);
    }
  }

  lemma {:induction false} DigitRunReads(d: Text, n: nat, rest: Text)
    requires d != [] && (forall i :: 0 <= i < |d| ==> IsDigit(d[i])) && DigitsValue(d) == n
    requires DigitSpan(d + rest) == |d|
    ensures ReadNumber(d + rest) == Some((n, rest))
    ensures ReadNumber([MINUS] + d + rest) == Some((-(n as int), rest))
  {
    var t := d + rest;
    assert t[..|d|] == d && t[|d|..] == rest;
    assert ([MINUS] + d + rest)[1..] == t;
    assert IsDigit(t[0]);
  }

  lemma NumberReads(n: int, rest: Text)
    requires Delimited(rest)
    ensures ReadNumber(Decimal(n) + rest) == Some((n, rest))
    ensures Decimal(n) != [] && (Decimal(n)[0] == MINUS || IsDigit(Decimal(n)[0]))
  {
    var m: nat := if n < 0 then -n else n;
    var d := Digits(m);
    DigitsRead(m);
    SpanOfDigits(d, rest);
    DigitRunReads(d, m, rest);
  }

  lemma StringReads(s: Text, rest: Text)
    ensures Quoted(s) + rest != [] && (Quoted(s) + rest)[0] == QUOTE
    ensures ReadString((Quoted(s) + rest)[1..]) == Some((s, rest))
  {
    assert (Quoted(s) + rest)[1..] == EscapeAll(s) + [QUOTE] + rest;
    EscapedReads(s, rest);
  }

  lemma LiteralReads(v: Value, rest: Text)
    requires v.Null? || v.Bool?
    ensures ReadValue(Print(v) + rest) == Some((v, rest))
    ensures Print(v) != [] && Print(v)[0] != RBRACKET && Print(v)[0] != RBRACE
  {
  }

  lemma {:induction false} NumValueReads(n: int, rest: Text)
    requires Delimited(rest)
    ensures ReadValue(Print(Num(n)) + rest) == Some((Num(n), rest))
    ensures Print(Num(n)) != [] && Print(Num(n))[0] != RBRACKET && Print(Num(n))[0] != RBRACE
  {
    NumberReads(n, rest);
  }

  lemma StrValueReads(s: Text, rest: Text)
    ensures ReadValue(Print(Str(s)) + rest) == Some((Str(s), rest))
    ensures Print(Str(s)) != [] && Print(Str(s))[0] != RBRACKET && Print(Str(s))[0] != RBRACE
  {
    StringReads(s, rest);
  }

  lemma ScalarReads(v: Value, rest: Text)
    requires v.Null? || v.Bool? || v.Num? || v.Str?
    requires Delimited(rest)
    ensures ReadValue(Print(v) + rest) == Some((v, rest))
    ensures Print(v) != [] && Print(v)[0] != RBRACKET && Print(v)[0] != RBRACE
  {
    match v
    case Null => LiteralReads(v, rest);
    case Bool(_) => LiteralReads(v, rest);
    case Num(n) => NumValueReads(n, rest);
    case Str(s) => StrValueReads(s, rest);
  }

  lemma {:induction false} ArrayReads(items: seq<Value>, rest: Text)
    requires items != [] ==> PrintItems(items) != [] && PrintItems(items)[0] != RBRACKET
    requires items != [] ==> ReadItems(PrintItems(items) + [RBRACKET] + rest) == Some((items, rest))
    ensures ReadValue(Print(Arr(items)) + rest) == Some((Arr(items), rest))
  {
    var t := Print(Arr(items)) + rest;
    assert t[0] == LBRACKET;
    if items == [] {
      assert PrintItems(items) == [];
      assert t[1] == RBRACKET && t[2..] == rest;
    } else {
      Regroup([LBRACKET] + PrintItems(items), [RBRACKET], rest);
      Regroup([LBRACKET], PrintItems(items), [RBRACKET] + rest);
      Regroup(PrintItems(items), [RBRACKET], rest);
      assert t[1..] == PrintItems(items) + [RBRACKET] + rest;
      assert t[1] == PrintItems(items)[0];
    }
  }

  lemma ObjectReads(es: seq<Entry>, rest: Text)
    requires es != [] ==> PrintEntries(es) != [] && PrintEntries(es)[0] != RBRACE
    requires es != [] ==> ReadEntries(PrintEntries(es) + [RBRACE] + rest) == Some((es, rest))
    ensures ReadValue(Print(Obj(es)) + rest) == Some((Obj(es), rest))
  {
    var t := Print(Obj(es)) + rest;
    assert t[0] == LBRACE;
    if es == [] {
      assert PrintEntries(es) == [];
      assert t[1] == RBRACE && t[2..] == rest;
    } else {
      Regroup([LBRACE] + PrintEntries(es), [RBRACE], rest);
      Regroup([LBRACE], PrintEntries(es), [RBRACE] + rest);
      Regroup(PrintEntries(es), [RBRACE], rest);
      assert t[1..] == PrintEntries(es) + [RBRACE] + rest;
      assert t[1] == PrintEntries(es)[0];
    }
  }

  lemma {:induction false} PrintedReads(v: Value, rest: Text)
    requires Complete(v) && Delimited(rest)
    ensures ReadValue(Print(v) + rest) == Some((v, rest))
    ensures Print(v) != [] && Print(v)[0] != RBRACKET && Print(v)[0] != RBRACE
    decreases v, 1, 0
  {
    match v
    case Arr(items) =>
      if items != [] {
        PrintedItemsRead(v, items, rest);
      }
      ArrayReads(items, rest);
    case Obj(entries) =>
      if entries != [] {
        PrintedEntriesRead(v, entries, rest);
      }
      ObjectReads(entries, rest);
    case _ => ScalarReads(v, rest);
  }

  lemma ReadItemsLast(t: Text, items: seq<Value>, tail: Text)
    requires |items| == 1 && tail != [] && tail[0] == RBRACKET && ReadValue(t) == Some((items[0], tail))
    ensures ReadItems(t) == Some((items, tail[1..]))
  {
    assert items == [items[0]];
  }

  lemma ReadItemsMore(t: Text, items: seq<Value>, tail: Text, rest: Text)
    requires |items| > 1 && tail != [] && tail[0] == COMMA && ReadValue(t) == Some((items[0], tail))
    requires ReadItems(tail[1..]) == Some((items[1..], rest))
    ensures ReadItems(t) == Some((items, rest))
  {
    assert items == [items[0]] + items[1..];
  }

  lemma ReadEntriesLast(t: Text, es: seq<Entry>, tail: Text)
    requires |es| == 1 && tail != [] && tail[0] == RBRACE && ReadEntry(t) == Some((es[0], tail))
    ensures ReadEntries(t) == Some((es, tail[1..]))
  {
    assert es == [es[0]];
  }

  lemma ReadEntriesMore(t: Text, es: seq<Entry>, tail: Text, rest: Text)
    requires |es| > 1 && tail != [] && tail[0] == COMMA && ReadEntry(t) == Some((es[0], tail))
    requires ReadEntries(tail[1..]) == Some((es[1..], rest))
    ensures ReadEntries(t) == Some((es, rest))
  {
    assert es == [es[0]] + es[1..];
  }

  lemma TailOf(c: CodeUnit, t: Text)
    ensures ([c] + t)[1..] == t
  {
  }

  lemma Regroup(a: Text, b: Text, c: Text)
    ensures a + b + c == a + (b + c)
  {
  }

  lemma {:induction false} ItemsSplit(items: seq<Value>, rest: Text)
    requires items != []
    ensures |items| == 1 ==> PrintItems(items) + [RBRACKET] + rest == Print(items[0]) + ([RBRACKET] + rest)
    ensures |items| > 1 ==>
      PrintItems(items) + [RBRACKET] + rest == Print(items[0]) + ([COMMA] + (PrintItems(items[1..]) + [RBRACKET] + rest))
  {
    var head, more := Print(items[0]), PrintItems(items[1..]);
    assert PrintItems(items) == head + (if |items| == 1 then [] else [COMMA] + more);
  }

  lemma {:induction false} EntriesSplit(es: seq<Entry>, rest: Text)
    requires es != []
    ensures |es| == 1 ==> PrintEntries(es) + [RBRACE] + rest == PrintEntry(es[0]) + ([RBRACE] + rest)
    ensures |es| > 1 ==>
      PrintEntries(es) + [RBRACE] + rest == PrintEntry(es[0]) + ([COMMA] + (PrintEntries(es[1..]) + [RBRACE] + rest))
  {
    var head, more := PrintEntry(es[0]), PrintEntries(es[1..]);
    assert PrintEntries(es) == head + (if |es| == 1 then [] else [COMMA] + more);
  }

  lemma {:induction false} PrintedItemsRead(v: Value, items: seq<Value>, rest: Text)
    requires v.Arr? && items != [] && forall x :: x in items ==> x in v.items && Complete(x)
    ensures ReadItems(PrintItems(items) + [RBRACKET] + rest) == Some((items, rest))
    ensures PrintItems(items) != [] && PrintItems(items)[0] != RBRACKET
    decreases v, 0, |items|
  {
    var t := PrintItems(items) + [RBRACKET] + rest;
    assert items[0] in v.items;
    ItemsSplit(items, rest);
    if |items| == 1 {
      PrintedReads(items[0], [RBRACKET] + rest);
      TailOf(RBRACKET, rest);
      ReadItemsLast(t, items, [RBRACKET] + rest);
    } else {
      var inner := PrintItems(items[1..]) + [RBRACKET] + rest;
      PrintedReads(items[0], [COMMA] + inner);
      PrintedItemsRead(v, items[1..], rest);
      TailOf(COMMA, inner);
      ReadItemsMore(t, items, [COMMA] + inner, rest);
    }
  }

  lemma {:induction false} PrintedEntriesRead(v: Value, es: seq<Entry>, rest: Text)
    requires v.Obj? && es != [] && forall e :: e in es ==> e in v.entries && Complete(e.value)
    ensures ReadEntries(PrintEntries(es) + [RBRACE] + rest) == Some((es, rest))
    ensures PrintEntries(es) != [] && PrintEntries(es)[0] != RBRACE
    decreases v, 0, |es|
  {
    var t := PrintEntries(es) + [RBRACE] + rest;
    assert es[0] in v.entries;
    EntriesSplit(es, rest);
    if |es| == 1 {
      PrintedEntryReads(es[0], [RBRACE] + rest);
      TailOf(RBRACE, rest);
      ReadEntriesLast(t, es, [RBRACE] + rest);
    } else {
      var inner := PrintEntries(es[1..]) + [RBRACE] + rest;
      PrintedEntryReads(es[0], [COMMA] + inner);
      PrintedEntriesRead(v, es[1..], rest);
      TailOf(COMMA, inner);
      ReadEntriesMore(t, es, [COMMA] + inner, rest);
    }
  }

  lemma {:induction false} PrintedEntryReads(e: Entry, rest: Text)
    requires Complete(e.value) && Delimited(rest)
    ensures ReadEntry(PrintEntry(e) + rest) == Some((e, rest))
    ensures PrintEntry(e) != [] && PrintEntry(e)[0] == QUOTE
    decreases e.value, 2, 0
  {
    var tail := [COLON] + Print(e.value) + rest;
    Regroup(Quoted(e.key), [COLON], Print(e.value));
    Regroup(Quoted(e.key), [COLON] + Print(e.value), rest);
    assert PrintEntry(e) + rest == Quoted(e.key) + tail;
    StringReads(e.key, tail);
    Regroup([COLON], Print(e.value), rest);
    assert tail[1..] == Print(e.value) + rest;
    PrintedReads(e.value, rest);
  }

  /** Decoding the canonical text of any value, under any key comparison, gives back its normal form. */
  lemma {:induction false} DecodeUndoesCanonicalize(notAfter: Order, v: Value)
    ensures Decode(Canonicalize(notAfter, v)) == Some(Normalize(notAfter, v))
  {
    CanonicalIsPrintedNormalForm(notAfter, v);
    NormalFormComplete(notAfter, v);
    var n := Normalize(notAfter, v);
    PrintedReads(n, []);
    assert Print(n) + [] == Print(n);
  }
}
