/**
 The grammar of RFC 8259, apart from the parser: which texts a value has. What the parser accepts is in the
 grammar, as the value it returns.
 */
module JsonGrammar {
  import opened Bytes
  import opened Json
  import opened Wrappers

  // ----- numbers: section 6 -----

  predicate AllDigits(s: string) {
    forall i :: 0 <= i < |s| ==> '0' <= s[i] <= '9'
  }

  /** How many digits the text starts with. */
  function Lead(s: string): (n: nat)
    ensures n <= |s|
  {
    if s != "" && '0' <= s[0] <= '9' then 1 + Lead(s[1..]) else 0
  }

  predicate IsExponent(s: string) {
    || s == ""
    || (s[0] in "eE" && var power := if |s| > 1 && s[1] in "+-" then s[2..] else s[1..];
                        power != "" && AllDigits(power))
  }

  predicate IsFraction(s: string) {
    if s != "" && s[0] == '.' then Lead(s[1..]) > 0 && IsExponent(s[1..][Lead(s[1..])..]) else IsExponent(s)
  }

  predicate IsWhole(s: string) {
    Lead(s) > 0 && (Lead(s) > 1 ==> s[0] != '0') && IsFraction(s[Lead(s)..])
  }

  /** A sign, a whole number without leading zeros, a fraction, an exponent; all but the whole number may be absent. */
  predicate IsNumber(s: string) {
    IsWhole(if s != "" && s[0] == '-' then s[1..] else s)
  }

  lemma {:induction false} PowerIff(s: string)
    ensures NumberFrom(Power, s) <==> AllDigits(s)
  {
    if s == "" {
    } else {
      PowerIff(s[1..]);
      BadIsFinal(s[1..]);
      assert AllDigits(s) <==> '0' <= s[0] <= '9' && AllDigits(s[1..]) by {
        AllDigitsTail(s);
      }
    }
  }

  lemma AllDigitsTail(s: string)
    requires s != ""
    ensures AllDigits(s) <==> '0' <= s[0] <= '9' && AllDigits(s[1..])
  {
    if '0' <= s[0] <= '9' && AllDigits(s[1..]) {
      forall i | 0 <= i < |s| ensures '0' <= s[i] <= '9' {
        if i > 0 {
          assert s[1..][i - 1] == s[i];
        }
      }
    }
    if AllDigits(s) {
      forall i | 0 <= i < |s[1..]| ensures '0' <= s[1..][i] <= '9' {
        assert s[1..][i] == s[i + 1];
      }
    }
  }

  lemma SignIff(s: string)
    ensures NumberFrom(Sign, s) <==> s != "" && AllDigits(s)
  {
    if s != "" {
      PowerIff(s[1..]);
      BadIsFinal(s[1..]);
      AllDigitsTail(s);
    }
  }

  /** After the letter of an exponent. */
  lemma ExponentIff(s: string)
    ensures NumberFrom(Exponent, s)
            <==> var power := if s != "" && s[0] in "+-" then s[1..] else s; power != "" && AllDigits(power)
  {
    if s != "" {
      SignIff(s[1..]);
      PowerIff(s[1..]);
      BadIsFinal(s[1..]);
      AllDigitsTail(s);
    }
  }

  /** After the first digit of a fraction. */
  lemma {:induction false} FractionIff(s: string)
    ensures NumberFrom(Fraction, s) <==> IsExponent(s[Lead(s)..])
  {
    if s == "" {
    } else if '0' <= s[0] <= '9' {
      FractionIff(s[1..]);
      assert s[Lead(s)..] == s[1..][Lead(s[1..])..];
    } else {
      EndIff(s);
      assert s[0..] == s;
      BadIsFinal(s[1..]);
    }
  }

  /** At the letter of an exponent, or not. */
  lemma EndIff(s: string)
    requires s != ""
    ensures IsExponent(s) <==> s[0] in "eE" && NumberFrom(Exponent, s[1..])
  {
    ExponentIff(s[1..]);
    if |s| > 1 {
      assert s[1..][0] == s[1] && s[1..][1..] == s[2..];
    }
  }

  lemma PointIff(s: string)
    ensures NumberFrom(Point, s) <==> Lead(s) > 0 && IsExponent(s[Lead(s)..])
  {
    if s != "" {
      FractionIff(s[1..]);
      BadIsFinal(s[1..]);
      if '0' <= s[0] <= '9' {
        assert s[Lead(s)..] == s[1..][Lead(s[1..])..];
      }
    }
  }

  /** After a zero: no more digits. */
  lemma ZeroIff(s: string)
    ensures NumberFrom(Zero, s) <==> Lead(s) == 0 && IsFraction(s)
  {
    if s != "" {
      PointIff(s[1..]);
      EndIff(s);
      BadIsFinal(s[1..]);
    }
  }

  lemma {:induction false} WholeIff(s: string)
    ensures NumberFrom(Whole, s) <==> IsFraction(s[Lead(s)..])
  {
    if s == "" {
    } else if '0' <= s[0] <= '9' {
      WholeIff(s[1..]);
      assert s[Lead(s)..] == s[1..][Lead(s[1..])..];
    } else {
      PointIff(s[1..]);
      EndIff(s);
      BadIsFinal(s[1..]);
      assert s[0..] == s;
    }
  }

  lemma UnsignedIff(s: string)
    ensures NumberFrom(Minus, s) <==> IsWhole(s)
  {
    if s != "" {
      ZeroIff(s[1..]);
      WholeIff(s[1..]);
      BadIsFinal(s[1..]);
      if '0' <= s[0] <= '9' {
        assert s[Lead(s)..] == s[1..][Lead(s[1..])..];
      }
    }
  }

  /** The literals that are read as numbers are those of the grammar. */
  lemma NumberLiteralIff(s: string)
    ensures NumberLiteral(s) <==> IsNumber(s)
  {
    UnsignedIff(s);
    if s != "" {
      UnsignedIff(s[1..]);
    }
  }

  // ----- strings: section 7 -----

  /** The code unit that an escape of four hex digits stands for. */
  predicate Unit(e: string, code: int) {
    && |e| == 6 && e[0] == '\\' && e[1] == 'u' && (forall i :: 2 <= i < 6 ==> HexValue(e[i]) >= 0)
    && code == ((HexValue(e[2]) * 16 + HexValue(e[3])) * 16 + HexValue(e[4])) * 16 + HexValue(e[5])
  }

  predicate ShortEscape(c: char, e: string) {
    && |e| == 2 && e[0] == '\\'
    && var n := c as int;
       (e[1] == c && c in "\"\\/") || (e[1] == 'b' && n == 8) || (e[1] == 'f' && n == 12) || (e[1] == 'n' && n == 10)
       || (e[1] == 'r' && n == 13) || (e[1] == 't' && n == 9)
  }

  /** One or two code units; a surrogate without its pair reads as U+FFFD. */
  ghost predicate LongEscape(c: char, e: string) {
    exists code ::
      || (Unit(e, code) && c as int == if 0xD800 <= code < 0xE000 then 0xFFFD else code)
      || (|e| == 12 && Unit(e[..6], code) && 0xD800 <= code < 0xDC00
          && exists low :: Unit(e[6..], low) && 0xDC00 <= low < 0xE000
                           && c as int == 0x10000 + (code - 0xD800) * 0x400 + (low - 0xDC00))
  }

  ghost predicate SpellsChar(c: char, e: string) {
    (e == [c] && c as int >= 0x20 && c !in "\"\\") || ShortEscape(c, e) || LongEscape(c, e)
  }

  /** The text starts with the escapes of two code units that pair up. */
  ghost predicate Pairs(s: string) {
    |s| >= 12 && exists code, low ::
      Unit(s[..6], code) && 0xD800 <= code < 0xDC00 && Unit(s[6..12], low) && 0xDC00 <= low < 0xE000
  }

  /** Character by character; two code units that pair up are not read apart. */
  ghost predicate SpellsText(text: string, body: string)
    decreases |text|
  {
    if text == "" then body == ""
    else exists n :: SpellsHead(text[0], body, n) && SpellsText(text[1..], body[n..])
  }

  ghost predicate SpellsHead(c: char, body: string, n: int) {
    0 <= n <= |body| && SpellsChar(c, body[..n]) && (Pairs(body) ==> n == 12)
  }

  lemma UnicodeSound(s: string, c: char, rest: string)
    requires ParseUnicode(s) == Some((c, rest))
    ensures |rest| <= |s| && rest == s[|s| - |rest|..] && LongEscape(c, s[..|s| - |rest|])
    ensures Pairs(s) ==> |s| - |rest| == 12
  {
    var code := EscapedUnit(s);
    assert Unit(s[..6], code);
    if Pairs(s) {
      assert s[6..12] == s[6..][..6];
    }
    if 0xD800 <= code < 0xDC00 {
      var low := EscapedUnit(s[6..]);
      if 0xDC00 <= low < 0xE000 {
        assert Unit(s[6..][..6], low);
        assert s[..12][6..] == s[6..][..6] && s[..12][..6] == s[..6];
      }
    }
  }

  lemma CharSound(s: string, c: char, rest: string)
    requires s != "" && s[0] != '\"' && ParseChar(s) == Some((c, rest))
    ensures |rest| < |s| && rest == s[|s| - |rest|..] && SpellsChar(c, s[..|s| - |rest|])
    ensures Pairs(s) ==> |s| - |rest| == 12
  {
    if s[0] == '\\' && s[1] !in "\"\\/bfnrt" {
      UnicodeSound(s, c, rest);
    } else if s[0] == '\\' {
      assert ShortEscape(c, s[..2]);
    }
  }

  lemma PairsLater(s: string, body: string)
    requires body <= s && Pairs(body)
    ensures Pairs(s)
  {
    assert body[..6] == s[..6] && body[6..12] == s[6..12];
  }

  /** One character of a string that goes on after it: the body up to the quote starts with its spelling. */
  lemma HeadSound(s: string, c: char, after: string, rest: string)
    requires s != "" && s[0] != '\"' && ParseChar(s) == Some((c, after)) && |rest| < |after|
    ensures var (n, body) := (|s| - |after|, s[..|s| - |rest| - 1]);
      0 <= n <= |body| && SpellsHead(c, body, n) && body[n..] == after[..|after| - |rest| - 1]
  {
    CharSound(s, c, after);
    var n, body := |s| - |after|, s[..|s| - |rest| - 1];
    assert body[..n] == s[..n];
    assert body <= s;
    if Pairs(body) {
      PairsLater(s, body);
    }
  }

  lemma {:induction false} TextSound(s: string, text: string, rest: string)
    requires ParseText(s) == Some((text, rest))
    ensures |rest| < |s| && rest == s[|s| - |rest|..]
    ensures var body := s[..|s| - |rest| - 1]; s[|s| - |rest| - 1] == '\"' && SpellsText(text, body)
    decreases |s|
  {
    if s[0] == '\"' {
    } else {
      var (c, after) := ParseChar(s).value;
      CharSound(s, c, after);
      TextSound(after, text[1..], rest);
      HeadSound(s, c, after, rest);
    }
  }

  // ----- values: sections 2 to 5 -----

  predicate Blanks(s: string) {
    forall i :: 0 <= i < |s| ==> s[i] as int in {9, 10, 13, 32}
  }

  /** The text is one of this value, without blanks around it. */
  ghost predicate Denotes(v: Json, s: string)
    decreases v, 0
  {
    match v
    case Null => s == "null"
    case Bool(b) => s == if b then "true" else "false"
    case Num(literal) => s == literal && IsNumber(s)
    case Str(text) => Quoted(text, s)
    case Arr(items) =>
      |s| >= 2 && s[0] == '[' && s[|s| - 1] == ']'
      && var inner := s[1..|s| - 1]; if items == [] then Blanks(inner) else DenotesItems(items, inner)
    case Obj(fields) =>
      |s| >= 2 && s[0] == '{' && s[|s| - 1] == '}'
      && var inner := s[1..|s| - 1]; if fields == [] then Blanks(inner) else DenotesFields(fields, inner)
  }

  ghost predicate Quoted(text: string, s: string) {
    |s| >= 2 && s[0] == s[|s| - 1] == '\"' && SpellsText(text, s[1..|s| - 1])
  }

  /** Items between commas, each with blanks around it. */
  ghost predicate DenotesItems(items: seq<Json>, s: string)
    requires items != []
    decreases items
  {
    exists a, b, c, more ::
      && Joined(s, a, b, c, more, |items|) && Denotes(items[0], b)
      && (|items| > 1 ==> DenotesItems(items[1..], more))
  }

  ghost predicate DenotesFields(fields: seq<Member>, s: string)
    requires fields != []
    decreases fields
  {
    exists a, b, c, more ::
      && Joined(s, a, b, c, more, |fields|) && DenotesField(fields[0], b)
      && (|fields| > 1 ==> DenotesFields(fields[1..], more))
  }

  /** An element with blanks on both sides and, if more follow, a comma and these. */
  predicate Joined(s: string, a: string, b: string, c: string, more: string, count: nat) {
    Blanks(a) && Blanks(c) && s == a + b + c + (if count > 1 then "," + more else "")
  }

  /** A key in quotes, a colon, and a value, with blanks around each but the ends. */
  ghost predicate DenotesField(m: Member, s: string)
    decreases m
  {
    exists k, c, d, b :: FieldText(s, k, c, d, b) && Quoted(m.key, k) && Denotes(m.value, b)
  }

  predicate FieldText(s: string, k: string, c: string, d: string, b: string) {
    Blanks(c) && Blanks(d) && s == k + c + ":" + d + b
  }

  lemma {:induction false} SkipSound(s: string)
    ensures |SkipSpace(s)| <= |s| && SkipSpace(s) == s[|s| - |SkipSpace(s)|..]
    ensures Blanks(s[..|s| - |SkipSpace(s)|])
  {
    if s == "" || !Space(s[0]) {
    } else {
      SkipSound(s[1..]);
      var n := |s| - |SkipSpace(s)|;
      assert s[..n] == [s[0]] + s[1..][..n - 1];
    }
  }

  lemma ExpectSound(s: string, c: char, rest: string) returns (a: string)
    requires Expect(s, c) == Some(rest)
    ensures Blanks(a) && s == a + [c] + rest
  {
    SkipSound(s);
    a := s[..|s| - |SkipSpace(s)|];
    assert SkipSpace(s) == [c] + rest;
  }

  lemma KeySound(t: string, key: string, rest: string) returns (k: string)
    requires ParseText(t) == Some((key, rest))
    ensures Quoted(key, k) && "\"" + t == k + rest
  {
    TextSound(t, key, rest);
    k := QuotedHead(t, key, |t| - |rest| - 1, rest);
  }

  lemma QuotedHead(t: string, key: string, n: nat, rest: string) returns (k: string)
    requires n < |t| && t[n] == '\"' && SpellsText(key, t[..n]) && rest == t[n + 1..]
    ensures Quoted(key, k) && "\"" + t == k + rest
  {
    k := "\"" + t[..n + 1];
    assert k[1..|k| - 1] == t[..n];
    assert t == t[..n + 1] + rest;
  }

  lemma AtomSound(t: string, v: Json, rest: string) returns (b: string)
    requires t != "" && SkipSpace(t) == t && t[0] != '[' && t[0] != '{' && ParseValue(t) == Some((v, rest))
    ensures t == b + rest && Denotes(v, b)
  {
    if t[0] == '\"' {
      b := KeySound(t[1..], v.text, rest);
      assert t == "\"" + t[1..];
    } else {
      b := WordSound(t, v, rest);
    }
  }

  lemma WordSound(t: string, v: Json, rest: string) returns (b: string)
    requires t != "" && SkipSpace(t) == t && t[0] !in "[{\"" && ParseValue(t) == Some((v, rest))
    ensures t == b + rest && Denotes(v, b)
  {
    if t[0] == 'n' {
      b := "null";
    } else if t[0] == 't' {
      b := "true";
    } else if t[0] == 'f' {
      b := "false";
    } else {
      b := NumberRun(t);
      NumberLiteralIff(b);
    }
  }

  // How the parser takes lists apart.

  lemma SkipTwice(s: string)
    ensures SkipSpace(SkipSpace(s)) == SkipSpace(s)
  {
  }

  lemma ValueAfterBlanks(s: string)
    ensures ParseValue(SkipSpace(s)) == ParseValue(s)
  {
    SkipTwice(s);
  }

  lemma ArrayParts(t: string, v: Json, rest: string) returns (first: Json, middle: string, others: seq<Json>)
    requires t != "" && SkipSpace(t) == t && t[0] == '[' && ParseValue(t) == Some((v, rest))
    requires Expect(t[1..], ']').None?
    ensures ParseValue(t[1..]) == Some((first, middle)) && ParseItems(middle) == Some((others, rest))
    ensures v == Arr([first] + others)
  {
    first, middle := ParseValue(t[1..]).value.0, ParseValue(t[1..]).value.1;
    others := ParseItems(middle).value.0;
  }

  lemma ItemsParts(s: string, others: seq<Json>, rest: string) returns (t: string, second: Json, middle: string)
    requires ParseItems(s) == Some((others, rest)) && Expect(s, ']').None?
    ensures Expect(s, ',') == Some(t) && ParseValue(t) == Some((second, middle))
    ensures others != [] && others[0] == second && ParseItems(middle) == Some((others[1..], rest))
  {
    t := Expect(s, ',').value;
    second, middle := ParseValue(t).value.0, ParseValue(t).value.1;
  }

  lemma ObjectParts(t: string, v: Json, rest: string) returns (first: Member, middle: string, others: seq<Member>)
    requires t != "" && SkipSpace(t) == t && t[0] == '{' && ParseValue(t) == Some((v, rest))
    requires Expect(t[1..], '}').None?
    ensures ParseField(t[1..]) == Some((first, middle)) && ParseFields(middle) == Some((others, rest))
    ensures v == Obj([first] + others)
  {
    first, middle := ParseField(t[1..]).value.0, ParseField(t[1..]).value.1;
    others := ParseFields(middle).value.0;
  }

  lemma FieldsParts(s: string, others: seq<Member>, rest: string) returns (t: string, second: Member, middle: string)
    requires ParseFields(s) == Some((others, rest)) && Expect(s, '}').None?
    ensures Expect(s, ',') == Some(t) && ParseField(t) == Some((second, middle))
    ensures others != [] && others[0] == second && ParseFields(middle) == Some((others[1..], rest))
  {
    t := Expect(s, ',').value;
    second, middle := ParseField(t).value.0, ParseField(t).value.1;
  }

  // How the texts of lists are put together.

  lemma BracketArray(items: seq<Json>, inner: string)
    requires if items == [] then Blanks(inner) else DenotesItems(items, inner)
    ensures Denotes(Arr(items), "[" + inner + "]")
  {
    var b := "[" + inner + "]";
    assert b[1..|b| - 1] == inner;
  }

  lemma BraceObject(fields: seq<Member>, inner: string)
    requires if fields == [] then Blanks(inner) else DenotesFields(fields, inner)
    ensures Denotes(Obj(fields), "{" + inner + "}")
  {
    var b := "{" + inner + "}";
    assert b[1..|b| - 1] == inner;
  }

  lemma LastItem(v: Json, a: string, b: string, c: string)
    requires Blanks(a) && Denotes(v, b) && Blanks(c)
    ensures DenotesItems([v], a + b + c)
  {
    assert a + b + c + "" == a + b + c;
    assert Joined(a + b + c, a, b, c, "", 1);
  }

  lemma ItemBefore(v: Json, a: string, b: string, c: string, others: seq<Json>, more: string)
    requires Blanks(a) && Denotes(v, b) && Blanks(c) && others != [] && DenotesItems(others, more)
    ensures DenotesItems([v] + others, a + b + c + ("," + more))
  {
    assert ([v] + others)[1..] == others;
    assert Joined(a + b + c + ("," + more), a, b, c, more, |[v] + others|);
  }

  lemma LastField(m: Member, a: string, b: string, c: string)
    requires Blanks(a) && DenotesField(m, b) && Blanks(c)
    ensures DenotesFields([m], a + b + c)
  {
    assert a + b + c + "" == a + b + c;
    assert Joined(a + b + c, a, b, c, "", 1);
  }

  lemma FieldBefore(m: Member, a: string, b: string, c: string, others: seq<Member>, more: string)
    requires Blanks(a) && DenotesField(m, b) && Blanks(c) && others != [] && DenotesFields(others, more)
    ensures DenotesFields([m] + others, a + b + c + ("," + more))
  {
    assert ([m] + others)[1..] == others;
    assert Joined(a + b + c + ("," + more), a, b, c, more, |[m] + others|);
  }

  lemma Regroup(ab: string, c: string, sign: string, rest: string)
    ensures ab + (c + sign + rest) == ab + c + sign + rest
  {
  }

  lemma RegroupMore(ab: string, c: string, more: string, close: string, rest: string)
    ensures ab + (c + "," + (more + close + rest)) == (ab + c + ("," + more)) + close + rest
  {
  }

  /** What was read as a value is blanks and a text of that value. */
  lemma {:induction false} ValueSound(s: string, v: Json, rest: string) returns (a: string, b: string)
    requires ParseValue(s) == Some((v, rest))
    ensures Blanks(a) && s == a + b + rest && Denotes(v, b)
    decreases |s|, 3
  {
    var t := SkipSpace(s);
    SkipSound(s);
    SkipTwice(s);
    ValueAfterBlanks(s);
    a := s[..|s| - |t|];
    b := BareSound(t, v, rest);
    Shift(a, b, rest);
  }

  /** The same without blanks before it. */
  lemma {:induction false} BareSound(t: string, v: Json, rest: string) returns (b: string)
    requires SkipSpace(t) == t && ParseValue(t) == Some((v, rest))
    ensures t == b + rest && Denotes(v, b)
    decreases |t|, 2
  {
    NoValueInNothing(t);
    if t[0] == '[' {
      b := ArraySound(t, v, rest);
    } else if t[0] == '{' {
      b := ObjectSound(t, v, rest);
    } else {
      b := AtomSound(t, v, rest);
    }
  }

  lemma NoValueInNothing(s: string)
    requires ParseValue(s).Some?
    ensures s != ""
  {
  }

  lemma EmptyArray(t: string, rest: string) returns (b: string)
    requires t != "" && t[0] == '[' && Expect(t[1..], ']') == Some(rest)
    ensures t == b + rest && Denotes(Arr([]), b)
  {
    var a := ExpectSound(t[1..], ']', rest);
    BracketArray([], a);
    b := "[" + a + "]";
  }

  lemma EmptyObject(t: string, rest: string) returns (b: string)
    requires t != "" && t[0] == '{' && Expect(t[1..], '}') == Some(rest)
    ensures t == b + rest && Denotes(Obj([]), b)
  {
    var a := ExpectSound(t[1..], '}', rest);
    BraceObject([], a);
    b := "{" + a + "}";
  }

  lemma ArrayIsEmpty(t: string, v: Json, rest: string)
    requires t != "" && SkipSpace(t) == t && t[0] == '[' && ParseValue(t) == Some((v, rest))
    requires Expect(t[1..], ']').Some?
    ensures v == Arr([]) && Expect(t[1..], ']') == Some(rest)
  {
  }

  lemma ObjectIsEmpty(t: string, v: Json, rest: string)
    requires t != "" && SkipSpace(t) == t && t[0] == '{' && ParseValue(t) == Some((v, rest))
    requires Expect(t[1..], '}').Some?
    ensures v == Obj([]) && Expect(t[1..], '}') == Some(rest)
  {
  }

  /** A list between its brackets, before the rest. */
  lemma Enclosed(t: string, open: char, a: string, b: string, middle: string, inner: string, close: string,
                 rest: string)
    requires t != "" && t[0] == open && t[1..] == a + b + middle && a + b + middle == inner + close + rest
    ensures t == ([open] + inner + close) + rest
  {
    assert t == [open] + (inner + close + rest);
  }

  lemma {:induction false} ArraySound(t: string, v: Json, rest: string) returns (b: string)
    requires t != "" && SkipSpace(t) == t && t[0] == '[' && ParseValue(t) == Some((v, rest))
    ensures t == b + rest && Denotes(v, b)
    decreases |t|, 1
  {
    if Expect(t[1..], ']').Some? {
      ArrayIsEmpty(t, v, rest);
      b := EmptyArray(t, rest);
    } else {
      var first, middle, others := ArrayParts(t, v, rest);
      var a, c := ValueSound(t[1..], first, middle);
      var inner := ItemsSound(middle, others, rest, a, c, first);
      BracketArray([first] + others, inner);
      b := "[" + inner + "]";
      Enclosed(t, '[', a, c, middle, inner, "]", rest);
    }
  }

  /** The rest of an array after its first item `b`, up to the bracket. */
  lemma {:induction false} ItemsSound(s: string, others: seq<Json>, rest: string, a: string, b: string, first: Json)
    returns (inner: string)
    requires ParseItems(s) == Some((others, rest)) && Blanks(a) && Denotes(first, b)
    ensures DenotesItems([first] + others, inner) && a + b + s == inner + "]" + rest
    decreases |s|, 0
  {
    if Expect(s, ']').Some? {
      assert others == [] && Expect(s, ']') == Some(rest);
      var c := ExpectSound(s, ']', rest);
      LastItem(first, a, b, c);
      inner := a + b + c;
      assert [first] + others == [first];
      Regroup(a + b, c, "]", rest);
    } else {
      var t, second, middle := ItemsParts(s, others, rest);
      var c := ExpectSound(s, ',', t);
      var a', b' := ValueSound(t, second, middle);
      var more := ItemsSound(middle, others[1..], rest, a', b', second);
      assert [second] + others[1..] == others;
      ItemBefore(first, a, b, c, others, more);
      inner := a + b + c + ("," + more);
      RegroupMore(a + b, c, more, "]", rest);
    }
  }

  lemma FieldParts(s: string, m: Member, rest: string) returns (t: string, middle: string, u: string)
    requires ParseField(s) == Some((m, rest))
    ensures Expect(s, '\"') == Some(t) && ParseText(t) == Some((m.key, middle)) && Expect(middle, ':') == Some(u)
    ensures ParseValue(u) == Some((m.value, rest))
  {
    t := Expect(s, '\"').value;
    middle := ParseText(t).value.1;
    u := Expect(middle, ':').value;
  }

  lemma {:induction false} FieldSound(s: string, m: Member, rest: string) returns (a: string, b: string)
    requires ParseField(s) == Some((m, rest))
    ensures Blanks(a) && s == a + b + rest && DenotesField(m, b)
    decreases |s|, 1
  {
    var t, middle, u := FieldParts(s, m, rest);
    a := ExpectSound(s, '\"', t);
    var k := KeySound(t, m.key, middle);
    var c := ExpectSound(middle, ':', u);
    var d, value := ValueSound(u, m.value, rest);
    b := k + c + ":" + d + value;
    assert FieldText(b, k, c, d, value);
    FieldJoins(s, a, t, k, middle, c, u, d, value, rest);
  }

  lemma FieldJoins(s: string, a: string, t: string, k: string, middle: string, c: string, u: string, d: string,
                   value: string, rest: string)
    requires s == a + ['\"'] + t && "\"" + t == k + middle && middle == c + [':'] + u && u == d + value + rest
    ensures s == a + (k + c + ":" + d + value) + rest
  {
    assert s == a + ("\"" + t);
    assert k + middle == k + c + ":" + d + value + rest;
  }

  lemma {:induction false} ObjectSound(t: string, v: Json, rest: string) returns (b: string)
    requires t != "" && SkipSpace(t) == t && t[0] == '{' && ParseValue(t) == Some((v, rest))
    ensures t == b + rest && Denotes(v, b)
    decreases |t|, 1
  {
    if Expect(t[1..], '}').Some? {
      ObjectIsEmpty(t, v, rest);
      b := EmptyObject(t, rest);
    } else {
      var first, middle, others := ObjectParts(t, v, rest);
      var a, c := FieldSound(t[1..], first, middle);
      var inner := FieldsSound(middle, others, rest, a, c, first);
      BraceObject([first] + others, inner);
      b := "{" + inner + "}";
      Enclosed(t, '{', a, c, middle, inner, "}", rest);
    }
  }

  lemma {:induction false} FieldsSound(s: string, others: seq<Member>, rest: string, a: string, b: string,
                                       first: Member) returns (inner: string)
    requires ParseFields(s) == Some((others, rest)) && Blanks(a) && DenotesField(first, b)
    ensures DenotesFields([first] + others, inner) && a + b + s == inner + "}" + rest
    decreases |s|, 0
  {
    if Expect(s, '}').Some? {
      assert others == [] && Expect(s, '}') == Some(rest);
      var c := ExpectSound(s, '}', rest);
      LastField(first, a, b, c);
      inner := a + b + c;
      assert [first] + others == [first];
      Regroup(a + b, c, "}", rest);
    } else {
      var t, second, middle := FieldsParts(s, others, rest);
      var c := ExpectSound(s, ',', t);
      var a', b' := FieldSound(t, second, middle);
      var more := FieldsSound(middle, others[1..], rest, a', b', second);
      assert [second] + others[1..] == others;
      FieldBefore(first, a, b, c, others, more);
      inner := a + b + c + ("," + more);
      RegroupMore(a + b, c, more, "}", rest);
    }
  }

  // ----- every text of the grammar is parsed -----

  lemma {:induction false} SkipBlanks(a: string, s: string)
    requires Blanks(a)
    ensures SkipSpace(a + s) == SkipSpace(s)
  {
    if a == "" {
      assert a + s == s;
    } else {
      assert a[0] as int in {9, 10, 13, 32} && Space(a[0]);
      assert (a + s)[1..] == a[1..] + s;
      SkipBlanks(a[1..], s);
    }
  }

  lemma AfterBlanks(a: string, s: string)
    requires Blanks(a)
    ensures ParseValue(a + s) == ParseValue(s)
    ensures forall c :: Expect(a + s, c) == Expect(s, c)
  {
    SkipBlanks(a, s);
  }

  lemma ExpectSign(c: string, sign: char, rest: string)
    requires Blanks(c) && !Space(sign)
    ensures Expect(c + ([sign] + rest), sign) == Some(rest)
    ensures forall d :: d != sign ==> Expect(c + ([sign] + rest), d) == None
  {
    AfterBlanks(c, [sign] + rest);
    ExpectHead(sign, rest);
  }

  /** A value does not start with a closing bracket, nor a member with a brace. */
  lemma ValueIsNoBracket(s: string)
    ensures ParseValue(s).Some? ==> Expect(s, ']') == None
    ensures ParseField(s).Some? ==> Expect(s, '}') == None
  {
  }

  lemma UnitReads(e: string, tail: string, code: int)
    requires Unit(e, code)
    ensures EscapedUnit(e + tail) == code
  {
    assert forall i :: 0 <= i < 6 ==> (e + tail)[i] == e[i];
  }

  lemma PairComplete(c: char, e: string, tail: string, code: int, low: int)
    requires |e| == 12 && Unit(e[..6], code) && 0xD800 <= code < 0xDC00 && Unit(e[6..], low) && 0xDC00 <= low < 0xE000
    requires c as int == 0x10000 + (code - 0xD800) * 0x400 + (low - 0xDC00)
    ensures ParseUnicode(e + tail) == Some((c, tail))
  {
    assert e + tail == e[..6] + (e[6..] + tail);
    UnitReads(e[..6], e[6..] + tail, code);
    assert (e + tail)[6..] == e[6..] + tail;
    UnitReads(e[6..], tail, low);
    assert (e + tail)[12..] == tail;
  }

  lemma LoneComplete(c: char, e: string, tail: string, code: int)
    requires Unit(e, code) && c as int == if 0xD800 <= code < 0xE000 then 0xFFFD else code
    requires !Pairs(e + tail)
    ensures ParseUnicode(e + tail) == Some((c, tail))
  {
    var s := e + tail;
    UnitReads(e, tail, code);
    assert s[6..] == tail && s[..6] == e;
    var low := EscapedUnit(tail);
    if low >= 0 {
      assert Unit(tail[..6], low) && s[6..12] == tail[..6];
    }
  }

  lemma CharComplete(c: char, e: string, tail: string)
    requires SpellsChar(c, e) && (Pairs(e + tail) ==> |e| == 12)
    ensures e != "" && (e + tail)[0] != '\"' && ParseChar(e + tail) == Some((c, tail))
  {
    var s := e + tail;
    if e == [c] && c as int >= 0x20 && c !in "\"\\" {
      assert s[0] == c && s[1..] == tail;
    } else if ShortEscape(c, e) {
      assert s[0] == '\\' && s[1] == e[1] && s[2..] == tail;
    } else {
      LongComplete(c, e, tail);
      assert s[0] == e[0] == '\\' && s[1] == e[1] == 'u';
    }
  }

  lemma LongComplete(c: char, e: string, tail: string)
    requires LongEscape(c, e) && (Pairs(e + tail) ==> |e| == 12)
    ensures |e| >= 6 && e[0] == '\\' && e[1] == 'u' && ParseUnicode(e + tail) == Some((c, tail))
  {
    if |e| == 6 {
      var code :| Unit(e, code) && c as int == if 0xD800 <= code < 0xE000 then 0xFFFD else code;
      LoneComplete(c, e, tail, code);
    } else {
      var code :| |e| == 12 && Unit(e[..6], code) && 0xD800 <= code < 0xDC00
                  && exists low :: Unit(e[6..], low) && 0xDC00 <= low < 0xE000
                                   && c as int == 0x10000 + (code - 0xD800) * 0x400 + (low - 0xDC00);
      var low :| Unit(e[6..], low) && 0xDC00 <= low < 0xE000
                 && c as int == 0x10000 + (code - 0xD800) * 0x400 + (low - 0xDC00);
      PairComplete(c, e, tail, code, low);
    }
  }

  /** Two code units that pair up do so before the closing quote, or not at all. */
  lemma PairsWithin(body: string, rest: string)
    requires Pairs(body + "\"" + rest)
    ensures Pairs(body) || |body| < 6
  {
    var s := body + "\"" + rest;
    var code, low :| Unit(s[..6], code) && 0xD800 <= code < 0xDC00 && Unit(s[6..12], low) && 0xDC00 <= low < 0xE000;
    if |body| >= 12 {
      assert body[..6] == s[..6] && body[6..12] == s[6..12];
    }
  }

  /** The first character of a string body is read as it is spelled, and the rest is left. */
  lemma HeadComplete(c: char, body: string, n: int, rest: string)
    requires SpellsHead(c, body, n)
    ensures 0 < n <= |body| && (body + "\"" + rest)[0] != '\"'
    ensures ParseChar(body + "\"" + rest) == Some((c, body[n..] + "\"" + rest))
  {
    var s, tail := body + "\"" + rest, body[n..] + "\"" + rest;
    assert s == body[..n] + tail;
    if Pairs(s) {
      PairsWithin(body, rest);
      HeadBeforePair(c, body, n, rest);
    }
    CharComplete(c, body[..n], tail);
  }

  lemma {:induction false} TextComplete(text: string, body: string, rest: string)
    requires SpellsText(text, body)
    ensures ParseText(body + "\"" + rest) == Some((text, rest))
    decreases |text|
  {
    if text == "" {
      assert body + "\"" + rest == "\"" + rest;
    } else {
      var n :| SpellsHead(text[0], body, n) && SpellsText(text[1..], body[n..]);
      HeadComplete(text[0], body, n, rest);
      TextComplete(text[1..], body[n..], rest);
      assert text == [text[0]] + text[1..];
    }
  }

  /** A head that starts like a pair is not one character or two. */
  lemma HeadBeforePair(c: char, body: string, n: int, rest: string)
    requires SpellsHead(c, body, n) && Pairs(body + "\"" + rest) && (Pairs(body) || |body| < 6)
    ensures n == 12
  {
    var s := body + "\"" + rest;
    var code, low :| Unit(s[..6], code) && 0xD800 <= code < 0xDC00 && Unit(s[6..12], low) && 0xDC00 <= low < 0xE000;
  }

  lemma QuotedComplete(text: string, k: string, rest: string)
    requires Quoted(text, k)
    ensures k[0] == '\"' && ParseText((k + rest)[1..]) == Some((text, rest))
  {
    TextComplete(text, k[1..|k| - 1], rest);
    assert (k + rest)[1..] == k[1..|k| - 1] + "\"" + rest;
  }

  /** A value that is no list, and what follows it. */
  lemma AtomComplete(v: Json, b: string, rest: string)
    requires Denotes(v, b) && !v.Arr? && !v.Obj? && (v.Num? ==> Delimited(rest))
    ensures ParseValue(b + rest) == Some((v, rest))
  {
    match v
    case Null => WordStep("null", v, rest);
    case Bool(x) => WordStep(if x then "true" else "false", v, rest);
    case Num(literal) =>
      NumberLiteralIff(literal);
      NumberValue(literal, rest);
    case Str(text) =>
      QuotedComplete(text, b, rest);
      assert (b + rest)[0] == '\"' && SkipSpace(b + rest) == b + rest;
  }

  lemma ArrayInner(items: seq<Json>, b: string) returns (inner: string)
    requires Denotes(Arr(items), b) && items != []
    ensures b == "[" + inner + "]" && DenotesItems(items, inner)
  {
    inner := b[1..|b| - 1];
  }

  lemma ObjectInner(fields: seq<Member>, b: string) returns (inner: string)
    requires Denotes(Obj(fields), b) && fields != []
    ensures b == "{" + inner + "}" && DenotesFields(fields, inner)
  {
    inner := b[1..|b| - 1];
  }

  lemma {:induction false} ValueComplete(v: Json, b: string, rest: string)
    requires Denotes(v, b) && (v.Num? ==> Delimited(rest))
    ensures ParseValue(b + rest) == Some((v, rest))
    decreases v, 1
  {
    if v.Arr? && v.items != [] {
      ArrayComplete(v.items, b, rest);
    } else if v.Obj? && v.fields != [] {
      ObjectComplete(v.fields, b, rest);
    } else if v.Arr? || v.Obj? {
      EmptyListComplete(v, b, rest);
    } else {
      AtomComplete(v, b, rest);
    }
  }

  lemma {:induction false} ArrayComplete(items: seq<Json>, b: string, rest: string)
    requires Denotes(Arr(items), b) && items != []
    ensures ParseValue(b + rest) == Some((Arr(items), rest))
    decreases items, 1
  {
    var inner := ArrayInner(items, b);
    var middle := ItemsComplete(items, inner, rest);
    FullArrayComplete(items, inner, middle, rest);
    Closed("[", inner, "]", rest);
  }

  lemma Closed(open: string, inner: string, close: string, rest: string)
    ensures open + inner + close + rest == open + (inner + (close + rest))
  {
  }

  lemma {:induction false} ObjectComplete(fields: seq<Member>, b: string, rest: string)
    requires Denotes(Obj(fields), b) && fields != []
    ensures ParseValue(b + rest) == Some((Obj(fields), rest))
    decreases fields, 1
  {
    var inner := ObjectInner(fields, b);
    var middle := FieldsComplete(fields, inner, rest);
    FullObjectComplete(fields, inner, middle, rest);
    Closed("{", inner, "}", rest);
  }

  lemma FullArrayComplete(items: seq<Json>, inner: string, middle: string, rest: string)
    requires items != []
    requires ParseValue(inner + ("]" + rest)) == Some((items[0], middle))
    requires ParseItems(middle) == Some((items[1..], rest))
    ensures ParseValue("[" + (inner + ("]" + rest))) == Some((Arr(items), rest))
  {
    ValueIsNoBracket(inner + ("]" + rest));
    ArrayStep(inner + ("]" + rest), items[0], middle, items[1..], rest);
    assert [items[0]] + items[1..] == items;
  }

  lemma FullObjectComplete(fields: seq<Member>, inner: string, middle: string, rest: string)
    requires fields != []
    requires ParseField(inner + ("}" + rest)) == Some((fields[0], middle))
    requires ParseFields(middle) == Some((fields[1..], rest))
    ensures ParseValue("{" + (inner + ("}" + rest))) == Some((Obj(fields), rest))
  {
    ValueIsNoBracket(inner + ("}" + rest));
    ObjectStep(inner + ("}" + rest), fields[0], middle, fields[1..], rest);
    assert [fields[0]] + fields[1..] == fields;
  }

  lemma EmptyListComplete(v: Json, b: string, rest: string)
    requires Denotes(v, b) && (v == Arr([]) || v == Obj([]))
    ensures ParseValue(b + rest) == Some((v, rest))
  {
    var inner := b[1..|b| - 1];
    if v.Arr? {
      ExpectSign(inner, ']', rest);
      EmptyArrayComplete(inner + ("]" + rest), rest);
      assert b + rest == "[" + (inner + ("]" + rest));
    } else {
      ExpectSign(inner, '}', rest);
      EmptyObjectComplete(inner + ("}" + rest), rest);
      assert b + rest == "{" + (inner + ("}" + rest));
    }
  }

  lemma EmptyArrayComplete(s: string, rest: string)
    requires Expect(s, ']') == Some(rest)
    ensures ParseValue("[" + s) == Some((Arr([]), rest))
  {
    assert ("[" + s)[1..] == s && SkipSpace("[" + s) == "[" + s;
  }

  lemma EmptyObjectComplete(s: string, rest: string)
    requires Expect(s, '}') == Some(rest)
    ensures ParseValue("{" + s) == Some((Obj([]), rest))
  {
    assert ("{" + s)[1..] == s && SkipSpace("{" + s) == "{" + s;
  }

  /** After blanks or a sign, a number ends. */
  lemma SignDelimits(c: string, sign: char, rest: string)
    requires Blanks(c) && sign in ",]}"
    ensures Delimited(c + ([sign] + rest))
  {
    if c != "" {
      assert c[0] as int in {9, 10, 13, 32};
    }
  }

  /** The end of an array after its last item. */
  lemma ItemsEnd(c: string, rest: string)
    requires Blanks(c)
    ensures Delimited(c + ("]" + rest)) && ParseItems(c + ("]" + rest)) == Some(([], rest))
  {
    SignDelimits(c, ']', rest);
    ExpectSign(c, ']', rest);
  }

  lemma FieldsEnd(c: string, rest: string)
    requires Blanks(c)
    ensures Delimited(c + ("}" + rest)) && ParseFields(c + ("}" + rest)) == Some(([], rest))
  {
    SignDelimits(c, '}', rest);
    ExpectSign(c, '}', rest);
  }

  /** A comma and the items after it. */
  lemma ItemsGoOn(c: string, next: string, v: Json, middle: string, vs: seq<Json>, rest: string)
    requires Blanks(c) && ParseValue(next) == Some((v, middle)) && ParseItems(middle) == Some((vs, rest))
    ensures Delimited(c + ("," + next)) && ParseItems(c + ("," + next)) == Some(([v] + vs, rest))
  {
    SignDelimits(c, ',', next);
    ExpectSign(c, ',', next);
    ItemsAfterComma(c + ("," + next), next, v, middle, vs, rest);
  }

  lemma FieldsGoOn(c: string, next: string, m: Member, middle: string, ms: seq<Member>, rest: string)
    requires Blanks(c) && ParseField(next) == Some((m, middle)) && ParseFields(middle) == Some((ms, rest))
    ensures Delimited(c + ("," + next)) && ParseFields(c + ("," + next)) == Some(([m] + ms, rest))
  {
    SignDelimits(c, ',', next);
    ExpectSign(c, ',', next);
    FieldsAfterComma(c + ("," + next), next, m, middle, ms, rest);
  }

  /** An element, what follows it up to the closing sign, and the rest. */
  lemma JoinedThen(s: string, a: string, b: string, c: string, more: string, count: nat, close: string)
    requires Joined(s, a, b, c, more, count)
    ensures s + close == a + (b + (c + if count > 1 then "," + (more + close) else close))
  {
  }

  lemma ListTail<T>(items: seq<T>)
    requires |items| > 1
    ensures [items[1]] + items[1..][1..] == items[1..] && items[1..][0] == items[1]
  {
  }

  /** The items of an array: the first, and then the others up to the bracket. */
  lemma {:induction false} ItemsComplete(items: seq<Json>, inner: string, rest: string) returns (middle: string)
    requires items != [] && DenotesItems(items, inner)
    ensures ParseValue(inner + ("]" + rest)) == Some((items[0], middle))
    ensures ParseItems(middle) == Some((items[1..], rest))
    decreases items, 0
  {
    var a, b, c, more :|
      && Joined(inner, a, b, c, more, |items|) && Denotes(items[0], b)
      && (|items| > 1 ==> DenotesItems(items[1..], more));
    JoinedThen(inner, a, b, c, more, |items|, "]" + rest);
    if |items| == 1 {
      middle := c + ("]" + rest);
      ItemsEnd(c, rest);
      assert items[1..] == [];
    } else {
      var after := ItemsComplete(items[1..], more, rest);
      middle := c + ("," + (more + ("]" + rest)));
      ListTail(items);
      ItemsGoOn(c, more + ("]" + rest), items[1], after, items[1..][1..], rest);
    }
    ValueComplete(items[0], b, middle);
    AfterBlanks(a, b + middle);
  }

  lemma ItemsAfterComma(s: string, t: string, v: Json, middle: string, vs: seq<Json>, rest: string)
    requires Expect(s, ']') == None && Expect(s, ',') == Some(t)
    requires ParseValue(t) == Some((v, middle)) && ParseItems(middle) == Some((vs, rest))
    ensures ParseItems(s) == Some(([v] + vs, rest))
  {
  }

  lemma FieldsAfterComma(s: string, t: string, m: Member, middle: string, ms: seq<Member>, rest: string)
    requires Expect(s, '}') == None && Expect(s, ',') == Some(t)
    requires ParseField(t) == Some((m, middle)) && ParseFields(middle) == Some((ms, rest))
    ensures ParseFields(s) == Some(([m] + ms, rest))
  {
  }

  lemma FieldReads(s: string, t: string, key: string, middle: string, u: string, v: Json, rest: string)
    requires Expect(s, '\"') == Some(t) && ParseText(t) == Some((key, middle)) && Expect(middle, ':') == Some(u)
    requires ParseValue(u) == Some((v, rest))
    ensures ParseField(s) == Some((Member(key, v), rest))
  {
  }

  /** A key in quotes after blanks. */
  lemma KeyComplete(a: string, key: string, k: string, middle: string) returns (t: string)
    requires Blanks(a) && Quoted(key, k)
    ensures Expect(a + (k + middle), '\"') == Some(t) && ParseText(t) == Some((key, middle))
  {
    t := (k + middle)[1..];
    QuotedComplete(key, k, middle);
    assert k + middle == ['\"'] + t;
    ExpectSign(a, '\"', t);
  }

  lemma {:induction false} FieldComplete(m: Member, a: string, b: string, rest: string)
    requires Blanks(a) && DenotesField(m, b) && Delimited(rest)
    ensures ParseField(a + (b + rest)) == Some((m, rest))
    decreases m, 2
  {
    var k, c, d, value :| FieldText(b, k, c, d, value) && Quoted(m.key, k) && Denotes(m.value, value);
    var u := d + (value + rest);
    var middle := c + (":" + u);
    FieldThen(b, k, c, d, value, rest);
    var t := KeyComplete(a, m.key, k, middle);
    ExpectSign(c, ':', u);
    ValueComplete(m.value, value, rest);
    AfterBlanks(d, value + rest);
    FieldReads(a + (b + rest), t, m.key, middle, u, m.value, rest);
  }

  lemma FieldThen(s: string, k: string, c: string, d: string, b: string, rest: string)
    requires FieldText(s, k, c, d, b)
    ensures s + rest == k + (c + (":" + (d + (b + rest))))
  {
  }

  lemma {:induction false} FieldsComplete(fields: seq<Member>, inner: string, rest: string) returns (middle: string)
    requires fields != [] && DenotesFields(fields, inner)
    ensures ParseField(inner + ("}" + rest)) == Some((fields[0], middle))
    ensures ParseFields(middle) == Some((fields[1..], rest))
    decreases fields, 0
  {
    var a, b, c, more :|
      && Joined(inner, a, b, c, more, |fields|) && DenotesField(fields[0], b)
      && (|fields| > 1 ==> DenotesFields(fields[1..], more));
    JoinedThen(inner, a, b, c, more, |fields|, "}" + rest);
    if |fields| == 1 {
      middle := c + ("}" + rest);
      FieldsEnd(c, rest);
      assert fields[1..] == [];
    } else {
      var after := FieldsComplete(fields[1..], more, rest);
      middle := c + ("," + (more + ("}" + rest)));
      ListTail(fields);
      FieldsGoOn(c, more + ("}" + rest), fields[1], after, fields[1..][1..], rest);
    }
    FieldComplete(fields[0], a, b, middle);
  }

  /** A JSON text of the value, with blanks around it. */
  ghost predicate IsJson(s: string, v: Json) {
    exists a, b, c :: Padded(s, a, b, c) && Denotes(v, b)
  }

  predicate Padded(s: string, a: string, b: string, c: string) {
    s == a + b + c && Blanks(a) && Blanks(c)
  }

  lemma ParsedIsJson(s: string, v: Json)
    requires Parse(s) == Some(v)
    ensures IsJson(s, v)
  {
    var c := ParseValue(s).value.1;
    var a, b := ValueSound(s, v, c);
    SkipSound(c);
    assert c[..|c|] == c;
    assert Padded(s, a, b, c);
  }

  lemma JsonIsParsed(s: string, v: Json)
    requires IsJson(s, v)
    ensures Parse(s) == Some(v)
  {
    var a, b, c :| Padded(s, a, b, c) && Denotes(v, b);
    PaddedIsParsed(v, a, b, c);
  }

  lemma PaddedIsParsed(v: Json, a: string, b: string, c: string)
    requires Blanks(a) && Denotes(v, b) && Blanks(c)
    ensures Parse(a + b + c) == Some(v)
  {
    BlanksDelimit(c);
    ValueComplete(v, b, c);
    PaddedReads(a, b + c, c, v);
    Shift(a, b, c);
  }

  lemma Shift(a: string, b: string, c: string)
    ensures a + b + c == a + (b + c)
  {
  }

  lemma PaddedReads(a: string, t: string, c: string, v: Json)
    requires Blanks(a) && Blanks(c) && ParseValue(t) == Some((v, c))
    ensures Parse(a + t) == Some(v)
  {
    AfterBlanks(a, t);
    OnlyBlanks(c);
    ParseReads(a + t, v, c);
  }

  lemma OnlyBlanks(c: string)
    requires Blanks(c)
    ensures SkipSpace(c) == ""
  {
    SkipBlanks(c, "");
    assert c + "" == c;
  }

  lemma ParseReads(s: string, v: Json, rest: string)
    requires ParseValue(s) == Some((v, rest)) && SkipSpace(rest) == ""
    ensures Parse(s) == Some(v)
  {
  }

  /** The parser reads exactly the JSON texts, each as the value it is a text of. */
  lemma ParseIff(s: string, v: Json)
    ensures Parse(s) == Some(v) <==> IsJson(s, v)
  {
    if Parse(s) == Some(v) {
      ParsedIsJson(s, v);
    }
    if IsJson(s, v) {
      JsonIsParsed(s, v);
    }
  }

  lemma BlanksDelimit(c: string)
    requires Blanks(c)
    ensures Delimited(c)
  {
    if c != "" {
      assert c[0] as int in {9, 10, 13, 32};
    }
  }
}
