/**
 `JSON.stringify` and `JSON.parse` (RFC 8259) on values without undefined members. A number
 is kept as its literal, so the print and parse of fractions and exponents is exact without
 floating point.
 */
module Json {
  import opened Bytes
  import opened Wrappers

  datatype Json =
    | Null
    | Bool(b: bool)
    | Num(literal: string)
    | Str(text: string)
    | Arr(items: seq<Json>)
    | Obj(fields: seq<Member>)

  datatype Member = Member(key: string, value: Json)

  // ----- strings -----

  function EscapeChar(c: char): (r: string)
    ensures r != ""
  {
    if c == '\"' then "\\\""
    else if c == '\\' then "\\\\"
    else if c == '\U{8}' then "\\b"
    else if c == '\U{c}' then "\\f"
    else if c == '\n' then "\\n"
    else if c == '\r' then "\\r"
    else if c == '\t' then "\\t"
    else if c as int < 0x20 then "\\u00" + [HexDigit(c as int / 16), HexDigit(c as int % 16)]
    else [c]
  }

  function Escape(s: string): string {
    if s == "" then "" else EscapeChar(s[0]) + Escape(s[1..])
  }

  function Quote(s: string): string {
    "\"" + Escape(s) + "\""
  }

  /** One character of a string body, escaped or not, and what follows it. */
  function ParseChar(s: string): (r: Option<(char, string)>)
    ensures r.Some? ==> |r.value.1| < |s|
  {
    if s == "" || (s[0] as int) < 0x20 then None
    else if s[0] != '\\' then Some((s[0], s[1..]))
    else if |s| < 2 then None
    else if s[1] == '\"' || s[1] == '\\' || s[1] == '/' then Some((s[1], s[2..]))
    else if s[1] == 'b' then Some(('\U{8}', s[2..]))
    else if s[1] == 'f' then Some(('\U{c}', s[2..]))
    else if s[1] == 'n' then Some(('\n', s[2..]))
    else if s[1] == 'r' then Some(('\r', s[2..]))
    else if s[1] == 't' then Some(('\t', s[2..]))
    else ParseUnicode(s)
  }

  /** The code unit of an escape of four hex digits; -1 when the text does not start with one. */
  function EscapedUnit(s: string): (code: int)
    ensures -1 <= code < 0x10000
    ensures code >= 0 ==> |s| >= 6
  {
    if |s| < 6 || s[0] != '\\' || s[1] != 'u' then -1
    else
      var a, b, c, d := HexValue(s[2]), HexValue(s[3]), HexValue(s[4]), HexValue(s[5]);
      if a < 0 || b < 0 || c < 0 || d < 0 then -1 else ((a * 16 + b) * 16 + c) * 16 + d
  }

  /** A unicode escape: one code unit, or two that pair up. A surrogate alone reads as U+FFFD. */
  function ParseUnicode(s: string): (r: Option<(char, string)>)
    ensures r.Some? ==> |r.value.1| < |s|
  {
    var code := EscapedUnit(s);
    if code < 0 then None
    else if !(0xD800 <= code < 0xE000) then Some((code as char, s[6..]))
    else
      var low := EscapedUnit(s[6..]);
      if code < 0xDC00 && 0xDC00 <= low < 0xE000
      then Some(((0x10000 + (code - 0xD800) * 0x400 + (low - 0xDC00)) as char, s[12..]))
      else Some(('\U{FFFD}', s[6..]))
  }

  /** The rest of a string after its opening quote. */
  function ParseText(s: string): (r: Option<(string, string)>)
    ensures r.Some? ==> |r.value.1| < |s|
    decreases |s|
  {
    if s != "" && s[0] == '\"' then Some(("", s[1..]))
    else
      var (c, rest) :- ParseChar(s);
      var (text, after) :- ParseText(rest);
      Some(([c] + text, after))
  }

  lemma EscapeCharParses(c: char, rest: string)
    ensures ParseChar(EscapeChar(c) + rest) == Some((c, rest))
    ensures (EscapeChar(c) + rest)[0] != '\"'
  {
    var s := EscapeChar(c) + rest;
    assert s[|EscapeChar(c)|..] == rest;
    if (c as int) < 0x20 && |EscapeChar(c)| == 6 {
      var hi, lo := c as int / 16, c as int % 16;
      assert s[4] == HexDigit(hi) && s[5] == HexDigit(lo);
      assert HexValue(s[4]) == hi && HexValue(s[5]) == lo;
    }
  }

  lemma {:induction false} StringRoundTrip(s: string, rest: string)
    ensures ParseText(Escape(s) + "\"" + rest) == Some((s, rest))
  {
    var out := Escape(s) + "\"" + rest;
    if s == "" {
      assert out == "\"" + rest;
    } else {
      var tail := Escape(s[1..]) + "\"" + rest;
      assert out == EscapeChar(s[0]) + tail;
      EscapeCharParses(s[0], tail);
      StringRoundTrip(s[1..], rest);
      assert s == [s[0]] + s[1..];
    }
  }

  // ----- numbers -----

  predicate Digit(c: char) { '0' <= c <= '9' }

  predicate NumberChar(c: char) { Digit(c) || c in "+-.eE" }

  datatype NumberState = Start | Minus | Zero | Whole | Point | Fraction | Exponent | Sign | Power | Bad

  function NumberStep(st: NumberState, c: char): NumberState {
    match st
    case Start => if c == '-' then Minus else if c == '0' then Zero else if Digit(c) then Whole else Bad
    case Minus => if c == '0' then Zero else if Digit(c) then Whole else Bad
    case Zero => if c == '.' then Point else if c == 'e' || c == 'E' then Exponent else Bad
    case Whole =>
      if Digit(c) then Whole else if c == '.' then Point else if c == 'e' || c == 'E' then Exponent else Bad
    case Point => if Digit(c) then Fraction else Bad
    case Fraction => if Digit(c) then Fraction else if c == 'e' || c == 'E' then Exponent else Bad
    case Exponent => if c == '+' || c == '-' then Sign else if Digit(c) then Power else Bad
    case Sign => if Digit(c) then Power else Bad
    case Power => if Digit(c) then Power else Bad
    case Bad => Bad
  }

  predicate NumberFrom(st: NumberState, s: string)
    decreases |s|
  {
    if s == "" then st.Zero? || st.Whole? || st.Fraction? || st.Power?
    else NumberFrom(NumberStep(st, s[0]), s[1..])
  }

  /** The number grammar of section 6 of RFC 8259. */
  predicate NumberLiteral(s: string) {
    NumberFrom(Start, s)
  }

  lemma {:induction false} BadIsFinal(s: string)
    ensures !NumberFrom(Bad, s)
  {
    if s == "" {
    } else {
      BadIsFinal(s[1..]);
    }
  }

  lemma {:induction false} NumberCharacters(st: NumberState, s: string)
    requires NumberFrom(st, s)
    ensures forall c :: c in s ==> NumberChar(c)
    decreases |s|
  {
    if s == "" {
    } else {
      if NumberStep(st, s[0]).Bad? {
        BadIsFinal(s[1..]);
      }
      NumberCharacters(NumberStep(st, s[0]), s[1..]);
    }
  }

  lemma NumberHead(s: string)
    requires NumberLiteral(s)
    ensures s != "" && (s[0] == '-' || Digit(s[0]))
  {
    if s != "" && s[0] != '-' && !Digit(s[0]) {
      BadIsFinal(s[1..]);
    }
  }

  /** The longest beginning of number characters. */
  function NumberRun(s: string): (r: string)
    ensures r <= s
  {
    if s != "" && NumberChar(s[0]) then [s[0]] + NumberRun(s[1..]) else ""
  }

  lemma {:induction false} NumberRunStops(lit: string, rest: string)
    requires forall c :: c in lit ==> NumberChar(c)
    requires rest == "" || !NumberChar(rest[0])
    ensures NumberRun(lit + rest) == lit
  {
    if lit == "" {
      assert lit + rest == rest;
    } else {
      assert (lit + rest)[1..] == lit[1..] + rest;
      NumberRunStops(lit[1..], rest);
      assert lit == [lit[0]] + lit[1..];
    }
  }

  // ----- printing -----

  function Print(v: Json): (s: string)
    ensures s != "" || v.Num?
    decreases v
  {
    match v
    case Null => "null"
    case Bool(b) => if b then "true" else "false"
    case Num(literal) => literal
    case Str(text) => Quote(text)
    case Arr(items) =>
      if items == [] then "[]" else "[" + Print(items[0]) + PrintItems(items[1..])
    case Obj(fields) =>
      if fields == [] then "{}"
      else "{" + PrintField(fields[0]) + PrintFields(fields[1..])
  }

  /** The later items of an array and its closing bracket. */
  function PrintItems(items: seq<Json>): (s: string)
    ensures s != "" && (s[0] == ',' || s[0] == ']')
    decreases items
  {
    if items == [] then "]" else "," + Print(items[0]) + PrintItems(items[1..])
  }

  /** The later members of an object and its closing brace. */
  function PrintFields(fields: seq<Member>): (s: string)
    ensures s != "" && (s[0] == ',' || s[0] == '}')
    decreases fields
  {
    if fields == [] then "}"
    else "," + PrintField(fields[0]) + PrintFields(fields[1..])
  }

  function PrintField(m: Member): (s: string)
    ensures s != "" && s[0] == '\"'
    decreases m
  {
    Quote(m.key) + ":" + Print(m.value)
  }

  // ----- parsing -----

  predicate Space(c: char) { c in " \t\n\r" }

  function SkipSpace(s: string): (r: string)
    ensures |r| <= |s|
  {
    if s != "" && Space(s[0]) then SkipSpace(s[1..]) else s
  }

  /** Consumes one expected character after white space. */
  function Expect(s: string, c: char): (r: Option<string>)
    ensures r.Some? ==> |r.value| < |s|
  {
    var t := SkipSpace(s);
    if t != "" && t[0] == c then Some(t[1..]) else None
  }

  function ParseWord(t: string, word: string, v: Json): (r: Option<(Json, string)>)
    requires word != ""
    ensures r.Some? ==> |r.value.1| < |t|
  {
    if word <= t then Some((v, t[|word|..])) else None
  }

  function ParseNumber(t: string): (r: Option<(Json, string)>)
    ensures r.Some? ==> |r.value.1| < |t|
  {
    var run := NumberRun(t);
    if run != "" && NumberLiteral(run) then Some((Num(run), t[|run|..])) else None
  }

  function ParseValue(s: string): (r: Option<(Json, string)>)
    ensures r.Some? ==> |r.value.1| < |s|
    decreases |s|, 1
  {
    var t := SkipSpace(s);
    if t == "" then None
    else if t[0] == 'n' then ParseWord(t, "null", Null)
    else if t[0] == 't' then ParseWord(t, "true", Bool(true))
    else if t[0] == 'f' then ParseWord(t, "false", Bool(false))
    else if t[0] == '\"' then
      var (text, rest) :- ParseText(t[1..]);
      Some((Str(text), rest))
    else if t[0] == '[' then
      if Expect(t[1..], ']').Some? then Some((Arr([]), Expect(t[1..], ']').value))
      else
        var (v, rest) :- ParseValue(t[1..]);
        var (vs, after) :- ParseItems(rest);
        Some((Arr([v] + vs), after))
    else if t[0] == '{' then
      if Expect(t[1..], '}').Some? then Some((Obj([]), Expect(t[1..], '}').value))
      else
        var (f, rest) :- ParseField(t[1..]);
        var (fs, after) :- ParseFields(rest);
        Some((Obj([f] + fs), after))
    else ParseNumber(t)
  }

  function ParseItems(s: string): (r: Option<(seq<Json>, string)>)
    ensures r.Some? ==> |r.value.1| < |s|
    decreases |s|, 0
  {
    if Expect(s, ']').Some? then Some(([], Expect(s, ']').value))
    else
      var t :- Expect(s, ',');
      var (v, rest) :- ParseValue(t);
      var (vs, after) :- ParseItems(rest);
      Some(([v] + vs, after))
  }

  function ParseField(s: string): (r: Option<(Member, string)>)
    ensures r.Some? ==> |r.value.1| < |s|
    decreases |s|, 0
  {
    var t :- Expect(s, '\"');
    var (key, rest) :- ParseText(t);
    var u :- Expect(rest, ':');
    var (v, after) :- ParseValue(u);
    Some((Member(key, v), after))
  }

  function ParseFields(s: string): (r: Option<(seq<Member>, string)>)
    ensures r.Some? ==> |r.value.1| < |s|
    decreases |s|, 0
  {
    if Expect(s, '}').Some? then Some(([], Expect(s, '}').value))
    else
      var t :- Expect(s, ',');
      var (f, rest) :- ParseField(t);
      var (fs, after) :- ParseFields(rest);
      Some(([f] + fs, after))
  }

  /** `JSON.parse`; `None` stands for its exception. */
  function Parse(s: string): Option<Json> {
    var (v, rest) :- ParseValue(s);
    if SkipSpace(rest) == "" then Some(v) else None
  }

  // ----- round trip -----

  /** Every number in the value carries a literal of the number grammar. */
  predicate Printable(v: Json)
    decreases v
  {
    match v
    case Num(literal) => NumberLiteral(literal)
    case Arr(items) => forall i :: 0 <= i < |items| ==> Printable(items[i])
    case Obj(fields) => forall i :: 0 <= i < |fields| ==> Printable(fields[i].value)
    case _ => true
  }

  predicate Delimited(rest: string) {
    rest == "" || !NumberChar(rest[0])
  }

  lemma ExpectHead(c: char, rest: string)
    requires !Space(c)
    ensures Expect([c] + rest, c) == Some(rest)
    ensures forall d :: d != c ==> Expect([c] + rest, d) == None
  {
    assert ([c] + rest)[1..] == rest;
  }

  /** A printed value starts with neither white space nor a closing bracket. */
  lemma PrintHead(v: Json, rest: string)
    requires Printable(v)
    ensures Print(v) != ""
    ensures SkipSpace(Print(v) + rest) == Print(v) + rest
    ensures Expect(Print(v) + rest, ']') == None && Expect(Print(v) + rest, '}') == None
  {
    if v.Num? {
      NumberHead(v.literal);
    }
  }

  lemma WordStep(word: string, v: Json, rest: string)
    requires (word == "null" && v == Null) || (word == "true" && v == Bool(true))
             || (word == "false" && v == Bool(false))
    ensures ParseValue(word + rest) == Some((v, rest))
  {
    var s := word + rest;
    assert s[|word|..] == rest && word <= s && s[0] == word[0];
  }

  lemma NumberTake(literal: string, rest: string)
    requires NumberLiteral(literal)
    requires NumberRun(literal + rest) == literal
    ensures ParseNumber(literal + rest) == Some((Num(literal), rest))
  {
    NumberHead(literal);
    assert (literal + rest)[|literal|..] == rest;
  }

  lemma NumberDispatch(s: string)
    requires s != "" && (s[0] == '-' || Digit(s[0]))
    ensures ParseValue(s) == ParseNumber(s)
  {
  }

  lemma NumberValue(literal: string, rest: string)
    requires NumberLiteral(literal) && Delimited(rest)
    ensures ParseValue(literal + rest) == Some((Num(literal), rest))
  {
    NumberCharacters(Start, literal);
    NumberRunStops(literal, rest);
    NumberHead(literal);
    NumberTake(literal, rest);
    NumberDispatch(literal + rest);
  }

  lemma StringStep(text: string, rest: string)
    ensures ParseValue(Quote(text) + rest) == Some((Str(text), rest))
  {
    var s := Quote(text) + rest;
    assert s[1..] == Escape(text) + "\"" + rest;
    StringRoundTrip(text, rest);
  }

  lemma {:induction false} ParseUndoesPrint(v: Json, rest: string)
    requires Printable(v)
    requires v.Num? ==> Delimited(rest)
    ensures ParseValue(Print(v) + rest) == Some((v, rest))
    decreases v, 1
  {
    match v
    case Null => WordStep("null", Null, rest);
    case Bool(b) => WordStep(if b then "true" else "false", v, rest);
    case Num(literal) => NumberValue(literal, rest);
    case Str(text) => StringStep(text, rest);
    case Arr(items) => ArrayRoundTrip(items, rest);
    case Obj(fields) => ObjectRoundTrip(fields, rest);
  }

  // What is printed for a non-empty list, and the parser on each shape of input.

  lemma Concatenate(p: string, q: string, rest: string)
    ensures p + q + rest == p + (q + rest)
  {
  }

  lemma Regroup(open: string, p: string, q: string, rest: string)
    ensures open + p + q + rest == open + (p + (q + rest))
  {
  }

  lemma PrintableParts(v: Json)
    requires Printable(v)
    ensures v.Arr? && v.items != [] ==> Printable(v.items[0]) && Printable(Arr(v.items[1..]))
    ensures v.Obj? && v.fields != [] ==> Printable(v.fields[0].value) && Printable(Obj(v.fields[1..]))
  {
  }

  lemma TailsDelimit(items: seq<Json>, fields: seq<Member>, rest: string)
    ensures Delimited(PrintItems(items) + rest)
    ensures Delimited(PrintFields(fields) + rest)
  {
  }

  lemma ArrayShape(items: seq<Json>, rest: string)
    requires items != []
    ensures Print(Arr(items)) + rest == "[" + (Print(items[0]) + (PrintItems(items[1..]) + rest))
    ensures PrintItems(items) + rest == "," + (Print(items[0]) + (PrintItems(items[1..]) + rest))
  {
    Regroup("[", Print(items[0]), PrintItems(items[1..]), rest);
    Regroup(",", Print(items[0]), PrintItems(items[1..]), rest);
  }

  lemma ObjectShape(fields: seq<Member>, rest: string)
    requires fields != []
    ensures Print(Obj(fields)) + rest == "{" + (PrintField(fields[0]) + (PrintFields(fields[1..]) + rest))
    ensures PrintFields(fields) + rest == "," + (PrintField(fields[0]) + (PrintFields(fields[1..]) + rest))
  {
    Regroup("{", PrintField(fields[0]), PrintFields(fields[1..]), rest);
    Regroup(",", PrintField(fields[0]), PrintFields(fields[1..]), rest);
  }

  lemma EmptyLists(rest: string)
    ensures ParseValue("[]" + rest) == Some((Arr([]), rest))
    ensures ParseValue("{}" + rest) == Some((Obj([]), rest))
    ensures ParseItems("]" + rest) == Some(([], rest))
    ensures ParseFields("}" + rest) == Some(([], rest))
  {
    ExpectHead(']', rest);
    ExpectHead('}', rest);
    assert ("[]" + rest)[1..] == "]" + rest;
    assert ("{}" + rest)[1..] == "}" + rest;
  }

  lemma ArrayStep(inner: string, v: Json, middle: string, vs: seq<Json>, rest: string)
    requires Expect(inner, ']') == None
    requires ParseValue(inner) == Some((v, middle))
    requires ParseItems(middle) == Some((vs, rest))
    ensures ParseValue("[" + inner) == Some((Arr([v] + vs), rest))
  {
    assert ("[" + inner)[1..] == inner;
  }

  lemma ItemsStep(inner: string, v: Json, middle: string, vs: seq<Json>, rest: string)
    requires ParseValue(inner) == Some((v, middle))
    requires ParseItems(middle) == Some((vs, rest))
    ensures ParseItems("," + inner) == Some(([v] + vs, rest))
  {
    ExpectHead(',', inner);
  }

  lemma ObjectStep(inner: string, m: Member, middle: string, ms: seq<Member>, rest: string)
    requires Expect(inner, '}') == None
    requires ParseField(inner) == Some((m, middle))
    requires ParseFields(middle) == Some((ms, rest))
    ensures ParseValue("{" + inner) == Some((Obj([m] + ms), rest))
  {
    assert ("{" + inner)[1..] == inner;
  }

  lemma FieldsStep(inner: string, m: Member, middle: string, ms: seq<Member>, rest: string)
    requires ParseField(inner) == Some((m, middle))
    requires ParseFields(middle) == Some((ms, rest))
    ensures ParseFields("," + inner) == Some(([m] + ms, rest))
  {
    ExpectHead(',', inner);
  }

  lemma FieldStep(key: string, value: string, v: Json, rest: string)
    requires ParseValue(value) == Some((v, rest))
    ensures ParseField(Quote(key) + ":" + value) == Some((Member(key, v), rest))
    ensures Expect(Quote(key) + ":" + value, '}') == None
  {
    var body := Escape(key) + "\"" + (":" + value);
    assert Quote(key) + ":" + value == "\"" + body;
    ExpectHead('\"', body);
    StringRoundTrip(key, ":" + value);
    ExpectHead(':', value);
  }

  lemma {:induction false} ArrayRoundTrip(items: seq<Json>, rest: string)
    requires Printable(Arr(items))
    ensures ParseValue(Print(Arr(items)) + rest) == Some((Arr(items), rest))
    decreases items, 2
  {
    if items == [] {
      EmptyLists(rest);
    } else {
      var tail := PrintItems(items[1..]) + rest;
      ArrayShape(items, rest);
      PrintableParts(Arr(items));
      TailsDelimit(items[1..], [], rest);
      PrintHead(items[0], tail);
      ParseUndoesPrint(items[0], tail);
      ItemsRoundTrip(items[1..], rest);
      ArrayStep(Print(items[0]) + tail, items[0], tail, items[1..], rest);
      assert items == [items[0]] + items[1..];
    }
  }

  lemma {:induction false} ItemsRoundTrip(items: seq<Json>, rest: string)
    requires Printable(Arr(items))
    ensures ParseItems(PrintItems(items) + rest) == Some((items, rest))
    decreases items, 2
  {
    if items == [] {
      EmptyLists(rest);
    } else {
      var tail := PrintItems(items[1..]) + rest;
      ArrayShape(items, rest);
      PrintableParts(Arr(items));
      TailsDelimit(items[1..], [], rest);
      ParseUndoesPrint(items[0], tail);
      ItemsRoundTrip(items[1..], rest);
      ItemsStep(Print(items[0]) + tail, items[0], tail, items[1..], rest);
      assert items == [items[0]] + items[1..];
    }
  }

  lemma {:induction false} FieldRoundTrip(m: Member, rest: string)
    requires Printable(m.value) && Delimited(rest)
    ensures ParseField(PrintField(m) + rest) == Some((m, rest))
    ensures Expect(PrintField(m) + rest, '}') == None
    decreases m
  {
    ParseUndoesPrint(m.value, rest);
    FieldStep(m.key, Print(m.value) + rest, m.value, rest);
    Concatenate(Quote(m.key) + ":", Print(m.value), rest);
  }

  lemma {:induction false} ObjectRoundTrip(fields: seq<Member>, rest: string)
    requires Printable(Obj(fields))
    ensures ParseValue(Print(Obj(fields)) + rest) == Some((Obj(fields), rest))
    decreases fields, 3
  {
    if fields == [] {
      EmptyLists(rest);
    } else {
      var tail := PrintFields(fields[1..]) + rest;
      ObjectShape(fields, rest);
      PrintableParts(Obj(fields));
      TailsDelimit([], fields[1..], rest);
      FieldRoundTrip(fields[0], tail);
      FieldsRoundTrip(fields[1..], rest);
      ObjectStep(PrintField(fields[0]) + tail, fields[0], tail, fields[1..], rest);
      assert fields == [fields[0]] + fields[1..];
    }
  }

  lemma {:induction false} FieldsRoundTrip(fields: seq<Member>, rest: string)
    requires Printable(Obj(fields))
    ensures ParseFields(PrintFields(fields) + rest) == Some((fields, rest))
    decreases fields, 3
  {
    if fields == [] {
      EmptyLists(rest);
    } else {
      var tail := PrintFields(fields[1..]) + rest;
      ObjectShape(fields, rest);
      PrintableParts(Obj(fields));
      TailsDelimit([], fields[1..], rest);
      FieldRoundTrip(fields[0], tail);
      FieldsRoundTrip(fields[1..], rest);
      FieldsStep(PrintField(fields[0]) + tail, fields[0], tail, fields[1..], rest);
      assert fields == [fields[0]] + fields[1..];
    }
  }

  /** `JSON.parse(JSON.stringify(v))` is `v`. */
  lemma JsonRoundTrip(v: Json)
    requires Printable(v)
    ensures Parse(Print(v)) == Some(v)
  {
    ParseUndoesPrint(v, "");
    assert Print(v) + "" == Print(v);
  }

  // ----- how texts look -----

  lemma {:induction false} EscapeAppend(a: string, b: string)
    ensures Escape(a + b) == Escape(a) + Escape(b)
  {
    if a == "" {
      assert a + b == b;
    } else {
      assert (a + b)[1..] == a[1..] + b;
      EscapeAppend(a[1..], b);
    }
  }

  lemma PrintOne(c: char)
    ensures Print(Str([c])) == "\"" + EscapeChar(c) + "\""
  {
    assert Escape([c]) == EscapeChar(c) + Escape("");
  }

  /** Section 7 of RFC 8259, as `JSON.stringify` chooses among its escapes. */
  lemma PrintedCharacters(c: char)
    ensures Print(Str([34 as char])) == "\"\\\"\"" && Print(Str([92 as char])) == "\"\\\\\""
    ensures Print(Str([8 as char])) == "\"\\b\"" && Print(Str([12 as char])) == "\"\\f\""
    ensures Print(Str([10 as char])) == "\"\\n\"" && Print(Str([13 as char])) == "\"\\r\""
    ensures Print(Str([9 as char])) == "\"\\t\""
    ensures Print(Str([1 as char])) == "\"\\u0001\"" && Print(Str([31 as char])) == "\"\\u001f\""
    ensures c as int >= 32 && c as int != 34 && c as int != 92 ==> Print(Str([c])) == "\"" + [c] + "\""
  {
    PrintOne(34 as char);
    PrintOne(92 as char);
    PrintOne(8 as char);
    PrintOne(12 as char);
    PrintOne(10 as char);
    PrintOne(13 as char);
    PrintOne(9 as char);
    PrintOne(1 as char);
    PrintOne(31 as char);
    PrintOne(c);
  }

  lemma PrintedWords()
    ensures Print(Null) == "null" && Print(Bool(true)) == "true" && Print(Bool(false)) == "false"
    ensures Print(Arr([])) == "[]" && Print(Obj([])) == "{}"
  {
  }

  /** White space before a value or a sign makes no difference: blank, tab and the two line ends. */
  lemma SpaceIsSkipped(c: char, s: string, d: char)
    requires c as int in {9, 10, 13, 32}
    ensures ParseValue([c] + s) == ParseValue(s) && Expect([c] + s, d) == Expect(s, d)
  {
    assert ([c] + s)[1..] == s;
    assert SkipSpace([c] + s) == SkipSpace(s);
  }

  // ----- objects -----

  /** `v.key`: the last binding of the key; a missing key reads as absent. */
  function Get(v: Json, key: string): Option<Json> {
    if v.Obj? then Find(v.fields, key) else None
  }

  function Find(fields: seq<Member>, key: string): Option<Json> {
    if fields == [] then None
    else
      var later := Find(fields[1..], key);
      if later.Some? then later
      else if fields[0].key == key then Some(fields[0].value)
      else None
  }

  /** The last member with this key. */
  predicate LastWith(fields: seq<Member>, key: string, i: int) {
    0 <= i < |fields| && fields[i].key == key && forall j :: i < j < |fields| ==> fields[j].key != key
  }

  /** A key reads as its last binding, and only then as anything. */
  lemma {:induction false} FindIff(fields: seq<Member>, key: string)
    ensures forall i :: LastWith(fields, key, i) ==> Find(fields, key) == Some(fields[i].value)
    ensures (forall i :: 0 <= i < |fields| ==> fields[i].key != key) ==> Find(fields, key) == None
  {
    if fields == [] {
    } else {
      FindIff(fields[1..], key);
      forall i | LastWith(fields, key, i) ensures Find(fields, key) == Some(fields[i].value) {
        if i > 0 {
          forall j | i - 1 < j < |fields[1..]| ensures fields[1..][j].key != key {
            assert fields[j + 1].key != key;
          }
          assert LastWith(fields[1..], key, i - 1);
        } else {
          forall j | 0 <= j < |fields[1..]| ensures fields[1..][j].key != key {
            assert fields[j + 1].key != key;
          }
        }
      }
    }
  }

  predicate DistinctKeys(fields: seq<Member>) {
    forall i, j :: 0 <= i < j < |fields| ==> fields[i].key != fields[j].key
  }

  /** Assigning a member: an existing key keeps its place, a new key goes last. */
  function Put(fields: seq<Member>, key: string, v: Json): seq<Member> {
    if fields == [] then [Member(key, v)]
    else if fields[0].key == key then [Member(key, v)] + fields[1..]
    else [fields[0]] + Put(fields[1..], key, v)
  }

  /** `{...base, ...more}`. */
  function Spread(base: seq<Member>, more: seq<Member>): seq<Member>
    decreases |more|
  {
    if more == [] then base else Spread(Put(base, more[0].key, more[0].value), more[1..])
  }

  predicate HasKey(fields: seq<Member>, key: string) {
    exists i :: 0 <= i < |fields| && fields[i].key == key
  }

  lemma {:induction false} PutKeys(fields: seq<Member>, key: string, v: Json, k: string)
    ensures HasKey(Put(fields, key, v), k) <==> HasKey(fields, k) || k == key
  {
    var after := Put(fields, key, v);
    if fields == [] {
      assert after[0].key == key;
    } else if fields[0].key == key {
      assert after[0].key == key;
      forall i | 0 <= i < |fields| ensures after[i].key == fields[i].key {}
      if HasKey(fields, k) {
        var i :| 0 <= i < |fields| && fields[i].key == k;
        assert after[i].key == k;
      }
    } else {
      PutKeys(fields[1..], key, v, k);
      assert after[0] == fields[0] && after[1..] == Put(fields[1..], key, v);
      HasKeyTail(fields, k);
      HasKeyTail(after, k);
    }
  }

  lemma HasKeyTail(fields: seq<Member>, k: string)
    requires fields != []
    ensures HasKey(fields, k) <==> fields[0].key == k || HasKey(fields[1..], k)
  {
    if HasKey(fields[1..], k) {
      var i :| 0 <= i < |fields[1..]| && fields[1..][i].key == k;
      assert fields[i + 1].key == k;
    }
    if HasKey(fields, k) && fields[0].key != k {
      var i :| 0 <= i < |fields| && fields[i].key == k;
      assert fields[1..][i - 1].key == k;
    }
  }

  lemma {:induction false} FindNeedsKey(fields: seq<Member>, k: string)
    ensures Find(fields, k).Some? <==> HasKey(fields, k)
  {
    if fields == [] {
    } else {
      FindNeedsKey(fields[1..], k);
      HasKeyTail(fields, k);
    }
  }

  lemma DistinctTail(fields: seq<Member>)
    requires fields != [] && DistinctKeys(fields)
    ensures DistinctKeys(fields[1..]) && !HasKey(fields[1..], fields[0].key)
  {
    forall i, j | 0 <= i < j < |fields[1..]| ensures fields[1..][i].key != fields[1..][j].key {
      assert fields[i + 1].key != fields[j + 1].key;
    }
    forall i | 0 <= i < |fields[1..]| ensures fields[1..][i].key != fields[0].key {
      assert fields[0].key != fields[i + 1].key;
    }
  }

  lemma DistinctCons(m: Member, rest: seq<Member>)
    requires DistinctKeys(rest) && !HasKey(rest, m.key)
    ensures DistinctKeys([m] + rest)
  {
    var all := [m] + rest;
    forall i, j | 0 <= i < j < |all| ensures all[i].key != all[j].key {
      if i > 0 {
        assert rest[i - 1].key != rest[j - 1].key;
      } else {
        assert rest[j - 1].key != m.key;
      }
    }
  }

  /** An assigned member reads as assigned, and every other as before. */
  lemma {:induction false} PutReads(fields: seq<Member>, key: string, v: Json, k: string)
    requires DistinctKeys(fields)
    ensures DistinctKeys(Put(fields, key, v))
    ensures Find(Put(fields, key, v), k) == if k == key then Some(v) else Find(fields, k)
  {
    var after := Put(fields, key, v);
    if fields == [] {
      assert after[1..] == [];
    } else {
      DistinctTail(fields);
      FindNeedsKey(fields[1..], k);
      if fields[0].key == key {
        assert after[1..] == fields[1..];
        DistinctCons(Member(key, v), fields[1..]);
      } else {
        PutReads(fields[1..], key, v, k);
        PutKeys(fields[1..], key, v, fields[0].key);
        assert after[1..] == Put(fields[1..], key, v);
        DistinctCons(fields[0], Put(fields[1..], key, v));
      }
    }
  }

  /** A spread reads as its last binding in `more`, and as `base` for the keys that `more` does not bind. */
  lemma {:induction false} SpreadReads(base: seq<Member>, more: seq<Member>, k: string)
    requires DistinctKeys(base)
    ensures Find(Spread(base, more), k) == if HasKey(more, k) then Find(more, k) else Find(base, k)
    decreases |more|
  {
    if more == [] {
    } else {
      PutReads(base, more[0].key, more[0].value, k);
      SpreadReads(Put(base, more[0].key, more[0].value), more[1..], k);
      HasKeyTail(more, k);
      FindNeedsKey(more[1..], k);
    }
  }

  predicate PrintableFields(fields: seq<Member>) {
    forall i :: 0 <= i < |fields| ==> Printable(fields[i].value)
  }

  lemma {:induction false} PutPrintable(fields: seq<Member>, key: string, v: Json)
    requires PrintableFields(fields) && Printable(v)
    ensures PrintableFields(Put(fields, key, v))
  {
    if fields == [] || fields[0].key == key {
    } else {
      PutPrintable(fields[1..], key, v);
    }
  }

  lemma {:induction false} SpreadPrintable(base: seq<Member>, more: seq<Member>)
    requires PrintableFields(base) && PrintableFields(more)
    ensures PrintableFields(Spread(base, more))
    decreases |more|
  {
    if more == [] {
    } else {
      PutPrintable(base, more[0].key, more[0].value);
      SpreadPrintable(Put(base, more[0].key, more[0].value), more[1..]);
    }
  }

  // ----- integers -----

  function Decimal(n: nat): (s: string)
    ensures s != ""
  {
    var digit := (n % 10 + '0' as int) as char;
    if n < 10 then [digit] else Decimal(n / 10) + [digit]
  }

  lemma {:induction false} DecimalDigits(n: nat)
    ensures forall c :: c in Decimal(n) ==> Digit(c)
    ensures n > 0 ==> Decimal(n)[0] != '0'
    ensures n == 0 ==> Decimal(n) == "0"
  {
    if n < 10 {
    } else {
      DecimalDigits(n / 10);
    }
  }

  lemma {:induction false} DigitsFollowWhole(s: string)
    requires forall c :: c in s ==> Digit(c)
    ensures NumberFrom(Whole, s)
  {
    if s == "" {
    } else {
      assert s[0] in s;
      DigitsFollowWhole(s[1..]);
    }
  }

  /** The number that decimal digits spell. */
  function Spelled(s: string): int {
    if s == "" then 0 else Spelled(s[..|s| - 1]) * 10 + (s[|s| - 1] as int - '0' as int)
  }

  /** The digits of a number spell it, and do not start with a zero unless it is zero. */
  lemma {:induction false} DecimalSpells(n: nat)
    ensures (forall c :: c in Decimal(n) ==> Digit(c)) && Spelled(Decimal(n)) == n
    ensures Decimal(n)[0] == '0' ==> n == 0
  {
    DecimalDigits(n);
    if n < 10 {
      assert Decimal(n)[..0] == "";
    } else {
      DecimalSpells(n / 10);
      assert Decimal(n)[..|Decimal(n)| - 1] == Decimal(n / 10);
    }
  }

  lemma DecimalLiteral(n: nat)
    ensures NumberLiteral(Decimal(n))
  {
    var s := Decimal(n);
    DecimalDigits(n);
    assert s[0] in s;
    if n > 0 {
      DigitsFollowWhole(s[1..]);
    }
  }
}
