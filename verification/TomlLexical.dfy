/**
 Every key, value and line the printer emits is read back as what it stands for,
 exactly when no text in it contains U+007F, which the printer leaves unescaped.
 */
module TomlLexical {
  import opened Prelude
  import CT = ConfigTree
  import opened TomlWriter
  import opened TomlReader

  predicate CleanText(s: string) {
    '\U{7F}' !in s
  }

  predicate Clean(v: Value) {
    match v
    case Str(s) => CleanText(s)
    case Array(items) => CleanItems(items)
    case Table(entries) => CleanEntries(entries)
    case _ => true
  }

  predicate CleanItems(items: Values) {
    match items
    case NoItems => true
    case Item(v, rest) => Clean(v) && CleanItems(rest)
  }

  predicate CleanEntries(entries: Entries) {
    match entries
    case NoEntries => true
    case Entry(k, v, rest) => CleanText(k) && Clean(v) && CleanEntries(rest)
  }

  /* Concatenations, regrouped */

  lemma FirstOfFour(a: string, b: string, c: string, d: string)
    ensures a + b + c + d == a + (b + c + d)
  {
  }

  lemma FirstOfFive(a: string, b: string, c: string, d: string, e: string)
    ensures a + b + c + d + e == a + (b + c + d + e)
  {
    FirstOfFour(a, b, c, d);
  }

  /* Strings */

  lemma ReadsUnicodeEscape(c: char, tail: string)
    requires c < ' '
    ensures ReadEscape("u00" + [LowerHex(c as int / 16), LowerHex(c as int % 16)] + tail) == Got(c, tail)
  {
    var hi, lo := c as int / 16, c as int % 16;
    var digits := "00" + [LowerHex(hi), LowerHex(lo)];
    var s := "u00" + [LowerHex(hi), LowerHex(lo)] + tail;
    assert s[1..5] == digits && s[5..] == tail;
    assert HexDigit(LowerHex(hi)) == Some(hi) && HexDigit(LowerHex(lo)) == Some(lo);
    assert HexValue(digits) == Some(16 * hi + lo);
  }

  lemma ReadsEscape(c: char, tail: string)
    requires |EscapeChar(c)| > 1
    ensures EscapeChar(c)[0] == '\\' && ReadEscape(EscapeChar(c)[1..] + tail) == Got(c, tail)
  {
    var e := EscapeChar(c)[1..];
    if |e| == 1 {
      assert (e + tail)[1..] == tail;
    } else {
      assert e == "u00" + [LowerHex(c as int / 16), LowerHex(c as int % 16)];
      ReadsUnicodeEscape(c, tail);
    }
  }

  /** One printed character, read in front of a tail. */
  lemma ReadsChar(c: char, tail: string)
    ensures ReadString(EscapeChar(c) + tail) ==
      match ReadString(tail)
      case Fail => Fail
      case Got(text, rest) => if c == '\U{7F}' then Fail else Got([c] + text, rest)
  {
    var whole := EscapeChar(c) + tail;
    if |EscapeChar(c)| > 1 {
      ReadsEscape(c, tail);
      assert whole[0] == '\\' && whole[1..] == EscapeChar(c)[1..] + tail;
    } else {
      assert whole[0] == c && whole[1..] == tail;
    }
  }

  lemma ReadsClosingQuote(rest: string)
    ensures ReadString("" + "\"" + rest) == Got("", rest)
  {
    var whole := "" + "\"" + rest;
    assert whole[0] == '\"' && whole[1..] == rest;
  }

  lemma EscapedText(c: char, t: string, rest: string)
    ensures Escape([c] + t) + "\"" + rest == EscapeChar(c) + (Escape(t) + "\"" + rest)
  {
    assert ([c] + t)[0] == c && ([c] + t)[1..] == t;
    FirstOfFour(EscapeChar(c), Escape(t), "\"", rest);
  }

  lemma {:induction false} ReadsString(s: string, rest: string)
    ensures ReadString(Escape(s) + "\"" + rest) == if CleanText(s) then Got(s, rest) else Fail
  {
    if s == "" {
      ReadsClosingQuote(rest);
    } else {
      var c, t := s[0], s[1..];
      assert s == [c] + t;
      ReadsString(t, rest);
      ReadsChar(c, Escape(t) + "\"" + rest);
      EscapedText(c, t, rest);
    }
  }

  lemma QuotedText(text: string, rest: string)
    ensures var s := "\"" + text + "\"" + rest; s[0] == '\"' && s[1..] == text + "\"" + rest
  {
    FirstOfFour("\"", text, "\"", rest);
  }

  lemma ReadsQuoted(s: string, rest: string)
    ensures (Quoted(s) + rest)[0] == '\"'
    ensures ReadString((Quoted(s) + rest)[1..]) == if CleanText(s) then Got(s, rest) else Fail
  {
    ReadsString(s, rest);
    QuotedText(Escape(s), rest);
  }

  /* Keys */

  predicate EndsKey(rest: string) {
    rest == "" || !BareKeyChar(rest[0])
  }

  lemma {:induction false} ReadsBare(key: string, rest: string)
    requires EndsKey(rest) && forall i | 0 <= i < |key| :: BareChar(key[i])
    ensures ReadBare(key + rest) == (key, rest)
  {
    if key == "" {
      assert key + rest == rest;
    } else {
      ReadsBare(key[1..], rest);
      assert (key + rest)[1..] == key[1..] + rest;
      assert key == [key[0]] + key[1..];
    }
  }

  lemma ReadsKey(key: string, rest: string)
    requires EndsKey(rest)
    ensures ReadKey(TomlKey(key) + rest) == if CleanText(key) then Got(key, rest) else Fail
  {
    if IsBare(key) {
      ReadsBare(key, rest);
      assert (key + rest)[0] == key[0] && BareChar(key[0]);
      assert CleanText(key) by {
        forall i | 0 <= i < |key| ensures key[i] != '\U{7F}' {
          assert BareChar(key[i]);
        }
      }
    } else {
      ReadsQuoted(key, rest);
    }
  }

  predicate CleanPath(path: seq<string>) {
    path == [] || (CleanText(path[0]) && CleanPath(path[1..]))
  }

  predicate EndsPath(rest: string) {
    rest == "" || rest[0] != '.'
  }

  lemma LastKeyStep(s: string, key: string, rest: string)
    requires EndsPath(rest)
    ensures ReadKey(s) == Fail ==> ReadDotted(s) == Fail
    ensures ReadKey(s) == Got(key, rest) ==> ReadDotted(s) == Got([key], rest)
  {
  }

  lemma DottedStep(s: string, tail: string, key: string, more: string)
    requires tail == "." + more
    ensures ReadKey(s) == Fail ==> ReadDotted(s) == Fail
    ensures ReadKey(s) == Got(key, tail) ==> (ReadDotted(s) ==
      match ReadDotted(more)
      case Fail => Fail
      case Got(keys, rest) => Got([key] + keys, rest))
  {
    assert tail[0] == '.' && tail[1..] == more;
  }

  /** One key and the rest of the path, as one result. */
  lemma DottedTogether(s: string, path: seq<string>, tail: string, more: string, rest: string)
    requires |path| > 1 && tail == "." + more
    requires ReadKey(s) == if CleanText(path[0]) then Got(path[0], tail) else Fail
    requires ReadDotted(more) == if CleanPath(path[1..]) then Got(path[1..], rest) else Fail
    ensures ReadDotted(s) == if CleanPath(path) then Got(path, rest) else Fail
  {
    DottedStep(s, tail, path[0], more);
    assert path == [path[0]] + path[1..];
  }

  lemma {:induction false} ReadsDotted(path: seq<string>, rest: string)
    requires path != [] && EndsKey(rest) && EndsPath(rest)
    ensures ReadDotted(DottedKeys(path) + rest) == if CleanPath(path) then Got(path, rest) else Fail
    decreases |path|
  {
    var text := DottedKeys(path) + rest;
    if |path| == 1 {
      ReadsKey(path[0], rest);
      LastKeyStep(text, path[0], rest);
      assert path[1..] == [] && path == [path[0]];
    } else {
      var more := DottedKeys(path[1..]) + rest;
      ReadsKey(path[0], "." + more);
      ReadsDotted(path[1..], rest);
      DottedText(path, rest);
      DottedTogether(text, path, "." + more, more, rest);
    }
  }

  lemma DottedText(path: seq<string>, rest: string)
    requires |path| > 1
    ensures DottedKeys(path) + rest == TomlKey(path[0]) + ("." + (DottedKeys(path[1..]) + rest))
  {
    Regroup(TomlKey(path[0]), ".", DottedKeys(path[1..]), rest);
  }

  lemma Regroup(a: string, b: string, c: string, d: string)
    ensures a + b + c + d == a + (b + (c + d))
  {
  }

  /* Integers */

  lemma {:induction false} ReadsDigits(digits: string, rest: string)
    requires AllDigits(digits) && (rest == "" || !IsDigit(rest[0]))
    ensures ReadDigits(digits + rest) == (digits, rest)
  {
    if digits == "" {
      assert digits + rest == rest;
    } else {
      ReadsDigits(digits[1..], rest);
      assert (digits + rest)[1..] == digits[1..] + rest;
      assert digits == [digits[0]] + digits[1..];
    }
  }

  lemma ReadsNat(n: nat, rest: string)
    requires rest == "" || !IsDigit(rest[0])
    ensures ReadNat(Decimal(n) + rest) == Got(n, rest)
  {
    DecimalDigits(n);
    ReadsDigits(Decimal(n), rest);
  }

  /* Values */

  /** What follows a value: the end of the line, or a separator. */
  predicate EndsValue(rest: string) {
    rest == "" || rest[0] == ',' || rest[0] == ']' || rest[0] == ' '
  }

  predicate Solid(s: string) {
    s != "" && s[0] != ' ' && s[0] != '\t'
  }

  lemma ValueStarts(v: Value)
    ensures Solid(TomlValue(v)) && TomlValue(v)[0] != ']'
  {
    match v
    case Int(n) => DecimalDigits(if n < 0 then -n else n);
    case _ =>
  }

  lemma KeyStarts(key: string)
    ensures Solid(TomlKey(key)) && TomlKey(key)[0] !in {'[', '#', '}'}
  {
    if IsBare(key) {
      assert BareChar(key[0]);
    }
  }

  lemma SkipsOne(s: string)
    requires Solid(s)
    ensures SkipBlanks(s) == s && SkipBlanks(" " + s) == s
  {
    assert (" " + s)[1..] == s;
  }

  lemma NumberIsNoWord(s: string)
    requires s != "" && (IsDigit(s[0]) || s[0] == '-')
    ensures !("true" <= s) && !("false" <= s) && s[0] !in {'\"', '[', '{'}
  {
  }

  lemma ReadsNegative(n: nat, rest: string)
    requires EndsValue(rest)
    ensures ReadValue("-" + Decimal(n) + rest) == Got(CT.Int(0 - n as int), rest)
  {
    var s := "-" + Decimal(n) + rest;
    ReadsNat(n, rest);
    NumberIsNoWord(s);
    assert s[0] == '-' && s[1..] == Decimal(n) + rest;
  }

  lemma ReadsNonNegative(n: nat, rest: string)
    requires EndsValue(rest)
    ensures ReadValue(Decimal(n) + rest) == Got(CT.Int(n), rest)
  {
    var s := Decimal(n) + rest;
    DecimalDigits(n);
    ReadsNat(n, rest);
    assert s[0] == Decimal(n)[0];
    NumberIsNoWord(s);
  }

  lemma ReadsInt(n: int, rest: string)
    requires EndsValue(rest)
    ensures ReadValue(TomlInt(n) + rest) == Got(CT.Int(n), rest)
  {
    if n < 0 {
      ReadsNegative(-n, rest);
    } else {
      ReadsNonNegative(n, rest);
    }
  }

  lemma ReadsBool(b: bool, rest: string)
    ensures ReadValue((if b then "true" else "false") + rest) == Got(CT.Bool(b), rest)
  {
    var s := (if b then "true" else "false") + rest;
    if b {
      assert "true" <= s && s[4..] == rest;
    } else {
      assert s[0] == 'f' && "false" <= s && s[5..] == rest;
      assert !("true" <= s);
    }
  }

  lemma ReadsEmptyTable(rest: string)
    ensures ReadValue("{  }" + rest) == Got(CT.Map(map[]), rest)
  {
    var s := "{  }" + rest;
    assert s[1..] == "  }" + rest && ("  }" + rest)[1..] == " }" + rest && (" }" + rest)[1..] == "}" + rest;
    SkipsOne("}" + rest);
    assert " }" + rest == " " + ("}" + rest);
    assert SkipBlanks("  }" + rest) == SkipBlanks(" }" + rest);
    assert ("}" + rest)[1..] == rest;
  }

  lemma TableStep(s: string, body: string)
    requires s == "{ " + body && Solid(body) && body[0] != '}'
    ensures ReadValue(s) ==
      match ReadPairs(body)
      case Fail => Fail
      case Got(entries, rest) => Got(CT.Map(entries), rest)
  {
    SkipsOne(body);
    assert s[0] == '{' && s[1..] == " " + body;
  }

  lemma StringStep(text: string, rest: string)
    ensures ReadValue(Quoted(text) + rest) == if CleanText(text) then Got(CT.Str(text), rest) else Fail
  {
    ReadsQuoted(text, rest);
  }

  lemma ArrayStep(body: string, rest: string)
    ensures ReadValue("[" + body + "]" + rest) ==
      match ReadItems("" + body + "]" + rest)
      case Fail => Fail
      case Got(items, rest') => Got(CT.List(items), rest')
  {
    var s := "[" + body + "]" + rest;
    FirstOfFour("[", body, "]", rest);
    assert "" + body == body;
    assert s[0] == '[' && s[1..] == "" + body + "]" + rest;
  }

  lemma TableText(pairs: string, rest: string)
    ensures "{ " + pairs + " }" + rest == "{ " + (pairs + " }" + rest)
  {
    FirstOfFour("{ ", pairs, " }", rest);
  }

  lemma NoTableText(rest: string)
    ensures "{ " + "" + " }" + rest == "{  }" + rest
  {
    assert "{ " + "" + " }" == "{  }";
  }

  lemma BracesStep(pairs: string, rest: string)
    requires Solid(pairs + (" }" + rest)) && (pairs + (" }" + rest))[0] != '}'
    ensures ReadValue("{ " + pairs + " }" + rest) ==
      match ReadPairs(pairs + " }" + rest)
      case Fail => Fail
      case Got(entries, rest') => Got(CT.Map(entries), rest')
  {
    var body := pairs + " }" + rest;
    TableText(pairs, rest);
    assert body == pairs + (" }" + rest);
    TableStep("{ " + body, body);
  }

  lemma PairsInBraces(entries: Entries, rest: string)
    requires entries.Entry?
    ensures ReadValue("{ " + TomlPairs(entries) + " }" + rest) ==
      match ReadPairs(TomlPairs(entries) + " }" + rest)
      case Fail => Fail
      case Got(pairs, rest') => Got(CT.Map(pairs), rest')
  {
    PairsStart(entries, " }" + rest);
    BracesStep(TomlPairs(entries), rest);
  }

  lemma {:induction false} ReadsValue(v: Value, rest: string)
    requires EndsValue(rest) && Distinct(v)
    ensures ReadValue(TomlValue(v) + rest) == if Clean(v) then Got(Denote(v), rest) else Fail
    decreases v, 1
  {
    match v
    case Str(text) => StringStep(text, rest);
    case Bool(b) => ReadsBool(b, rest);
    case Int(n) => ReadsInt(n, rest);
    case Array(items) =>
      ReadsItems(items, "", rest);
      ArrayStep(TomlItems(items), rest);
    case Table(NoEntries) =>
      NoTableText(rest);
      ReadsEmptyTable(rest);
    case Table(entries) =>
      ReadsPairs(entries, rest);
      PairsInBraces(entries, rest);
  }

  lemma PairsStart(entries: Entries, rest: string)
    requires entries.Entry?
    ensures Solid(TomlPairs(entries) + rest) && (TomlPairs(entries) + rest)[0] != '}'
  {
    KeyStarts(entries.key);
    assert (TomlPairs(entries) + rest)[0] == TomlKey(entries.key)[0];
  }

  /** Reading one item and what follows it. */
  lemma ItemsStep(s: string, t: string, after: string, item: CT.Tree)
    requires SkipBlanks(s) == t && Solid(t) && t[0] != ']'
    ensures ReadValue(t) == Fail ==> ReadItems(s) == Fail
    ensures ReadValue(t) == Got(item, after) && after != "" && after[0] == ']' ==>
      ReadItems(s) == Got([item], after[1..])
    ensures ReadValue(t) == Got(item, after) && after != "" && after[0] == ',' ==> (ReadItems(s) ==
      match ReadItems(after[1..])
      case Fail => Fail
      case Got(items, rest) => Got([item] + items, rest))
  {
  }

  lemma {:induction false} ReadsItems(items: Values, blank: string, rest: string)
    requires (blank == "" || blank == " ") && DistinctItems(items)
    ensures ReadItems(blank + TomlItems(items) + "]" + rest) ==
      if CleanItems(items) then Got(DenoteItems(items), rest) else Fail
    decreases items, 2
  {
    var t := TomlItems(items) + "]" + rest;
    var s := blank + TomlItems(items) + "]" + rest;
    ItemsText(items, blank, rest);
    match items
    case NoItems =>
    case Item(v, more) =>
      var after := AfterItem(more, rest);
      ReadsValue(v, after);
      if more == NoItems {
        ReadsLastItem(s, t, after, Denote(v), Clean(v));
      } else {
        ReadsItems(more, " ", rest);
        ReadsEarlierItem(s, t, after, Denote(v), Clean(v), DenoteItems(more), CleanItems(more), rest);
      }
  }

  lemma AfterComma(body: string, rest: string)
    ensures var after := ", " + body + "]" + rest; after[0] == ',' && after[1..] == " " + body + "]" + rest
  {
    var after := ", " + body + "]" + rest;
    FirstOfFour(", ", body, "]", rest);
    FirstOfFour(" ", body, "]", rest);
    assert after == ", " + (body + "]" + rest);
  }

  lemma AfterBracket(rest: string)
    ensures ("]" + rest)[0] == ']' && ("]" + rest)[1..] == rest
  {
  }

  lemma FirstItemText(v: Value, more: Values, rest: string)
    ensures TomlItems(Item(v, more)) + "]" + rest == TomlValue(v) + AfterItem(more, rest)
  {
    if more == NoItems {
      assert TomlValue(v) + "]" + rest == TomlValue(v) + ("]" + rest);
    } else {
      FirstOfFive(TomlValue(v), ", ", TomlItems(more), "]", rest);
    }
  }

  lemma SkipsOptional(blank: string, text: string, rest: string)
    requires blank == "" || blank == " "
    requires Solid(text + "]" + rest)
    ensures SkipBlanks(blank + text + "]" + rest) == text + "]" + rest
  {
    FirstOfFour(blank, text, "]", rest);
    SkipsOne(text + "]" + rest);
    assert "" + (text + "]" + rest) == text + "]" + rest;
  }

  /** How the text of a list is made up. */
  lemma ItemsText(items: Values, blank: string, rest: string)
    requires blank == "" || blank == " "
    ensures var t := TomlItems(items) + "]" + rest; SkipBlanks(blank + TomlItems(items) + "]" + rest) == t && Solid(t)
    ensures items == NoItems ==> var t := TomlItems(items) + "]" + rest; t[0] == ']' && t[1..] == rest
    ensures items.Item? ==> var t := TomlItems(items) + "]" + rest;
      t == TomlValue(items.head) + AfterItem(items.tail, rest) && t[0] != ']'
    ensures items.Item? ==> var after := AfterItem(items.tail, rest);
      if items.tail == NoItems then after[0] == ']' && after[1..] == rest
      else after[0] == ',' && after[1..] == " " + TomlItems(items.tail) + "]" + rest
  {
    var t := TomlItems(items) + "]" + rest;
    AfterBracket(rest);
    match items
    case NoItems =>
      assert t == "]" + rest;
      SkipsOptional(blank, TomlItems(items), rest);
    case Item(v, more) =>
      FirstItemText(v, more, rest);
      AfterComma(TomlItems(more), rest);
      ValueStarts(v);
      assert t[0] == TomlValue(v)[0];
      SkipsOptional(blank, TomlItems(items), rest);
  }

  function AfterItem(more: Values, rest: string): string {
    if more == NoItems then "]" + rest else ", " + TomlItems(more) + "]" + rest
  }

  lemma ReadsLastItem(s: string, t: string, after: string, item: CT.Tree, ok: bool)
    requires SkipBlanks(s) == t && Solid(t) && t[0] != ']' && after != "" && after[0] == ']'
    requires ReadValue(t) == if ok then Got(item, after) else Fail
    ensures ReadItems(s) == if ok then Got([item] + [], after[1..]) else Fail
  {
    ItemsStep(s, t, after, item);
    assert [item] + [] == [item];
  }

  lemma ReadsEarlierItem(s: string, t: string, after: string, item: CT.Tree, ok: bool, items: seq<CT.Tree>,
      okRest: bool, rest: string)
    requires SkipBlanks(s) == t && Solid(t) && t[0] != ']' && after != "" && after[0] == ','
    requires ReadValue(t) == if ok then Got(item, after) else Fail
    requires ReadItems(after[1..]) == if okRest then Got(items, rest) else Fail
    ensures ReadItems(s) == if ok && okRest then Got([item] + items, rest) else Fail
  {
    ItemsStep(s, t, after, item);
  }

  lemma PairStep(s: string, key: string, after: string, equals: string, value: string)
    requires SkipBlanks(after) == equals && equals != "" && equals[0] == '=' && SkipBlanks(equals[1..]) == value
    ensures ReadKey(s) == Fail ==> ReadPair(s) == Fail
    ensures ReadKey(s) == Got(key, after) ==> (ReadPair(s) ==
      match ReadValue(value)
      case Fail => Fail
      case Got(v, rest) => Got((key, v), rest))
  {
  }

  lemma PairText(key: string, value: string, rest: string)
    ensures key + " = " + value + rest == key + (" " + ("= " + (value + rest)))
  {
    Regroup(key, " = ", value, rest);
    assert " = " + (value + rest) == " " + ("= " + (value + rest));
  }

  lemma {:induction false} ReadsPair(key: string, v: Value, rest: string)
    requires EndsValue(rest) && Distinct(v)
    ensures ReadPair(TomlPair(key, v) + rest) ==
      if CleanText(key) && Clean(v) then Got((key, Denote(v)), rest) else Fail
    decreases v, 2
  {
    var value := TomlValue(v) + rest;
    var equals := "= " + value;
    var after := " " + equals;
    PairText(TomlKey(key), TomlValue(v), rest);
    ReadsKey(key, after);
    SkipsOne(equals);
    assert equals[1..] == " " + value;
    ValueStarts(v);
    assert value[0] == TomlValue(v)[0];
    SkipsOne(value);
    ReadsValue(v, rest);
    PairStep(TomlPair(key, v) + rest, key, after, equals, value);
  }

  lemma KeysOfDenotation(entries: Entries)
    ensures DenoteEntries(entries).Keys == Keys(entries)
  {
  }

  /** Reading one pair of an inline table and what follows it. */
  lemma PairsStep(s: string, key: string, v: CT.Tree, after: string, t: string)
    requires SkipBlanks(after) == t
    ensures ReadPair(s) == Fail ==> ReadPairs(s) == Fail
    ensures ReadPair(s) == Got((key, v), after) && t != "" && t[0] == '}' ==> ReadPairs(s) == Got(map[key := v], t[1..])
    ensures ReadPair(s) == Got((key, v), after) && t != "" && t[0] == ',' ==> (ReadPairs(s) ==
      match ReadPairs(SkipBlanks(t[1..]))
      case Fail => Fail
      case Got(entries, rest) => if key in entries then Fail else Got(entries[key := v], rest))
  {
  }

  lemma {:induction false} ReadsPairs(entries: Entries, rest: string)
    requires entries != NoEntries && DistinctEntries(entries)
    ensures ReadPairs(TomlPairs(entries) + " }" + rest) ==
      if CleanEntries(entries) then Got(DenoteEntries(entries), rest) else Fail
    decreases entries, 3
  {
    var Entry(k, v, more) := entries;
    var s := TomlPairs(entries) + " }" + rest;
    KeysOfDenotation(more);
    PairsText(k, v, more, rest);
    if more == NoEntries {
      ReadsPair(k, v, " }" + rest);
      ReadsLastPair(s, k, Denote(v), CleanText(k) && Clean(v), " }" + rest, "}" + rest);
    } else {
      var t, body := ", " + TomlPairs(more) + " }" + rest, TomlPairs(more) + " }" + rest;
      ReadsPairs(more, rest);
      ReadsPair(k, v, t);
      SeparatorOfPairs(more, rest);
      ReadsEarlierPair(s, k, Denote(v), CleanText(k) &&
        Clean(v), t, body, DenoteEntries(more), CleanEntries(more), rest);
    }
  }

  lemma PairsText(k: string, v: Value, more: Entries, rest: string)
    ensures var s := TomlPairs(Entry(k, v, more)) + " }" + rest;
      if more == NoEntries then
        s == TomlPair(k, v) + (" }" + rest) && SkipBlanks(" }" + rest) == "}" + rest && ("}" + rest)[1..] == rest
      else s == TomlPair(k, v) + (", " + TomlPairs(more) + " }" + rest)
  {
    var pair := TomlPair(k, v);
    if more == NoEntries {
      assert pair + " }" + rest == pair + (" }" + rest);
      assert " }" + rest == " " + ("}" + rest);
      SkipsOne("}" + rest);
    } else {
      FirstOfFive(pair, ", ", TomlPairs(more), " }", rest);
    }
  }

  lemma ReadsLastPair(s: string, k: string, v: CT.Tree, ok: bool, after: string, t: string)
    requires SkipBlanks(after) == t && t != "" && t[0] == '}'
    requires ReadPair(s) == if ok then Got((k, v), after) else Fail
    ensures ReadPairs(s) == if ok then Got(map[k := v], t[1..]) else Fail
  {
    PairsStep(s, k, v, after, t);
  }

  lemma ReadsEarlierPair(s: string, k: string, v: CT.Tree, ok: bool, t: string, body: string, entries: CT.Object,
      okRest: bool, rest: string)
    requires SkipBlanks(t) == t && t != "" && t[0] == ',' && SkipBlanks(t[1..]) == body && k !in entries
    requires ReadPair(s) == if ok then Got((k, v), t) else Fail
    requires ReadPairs(body) == if okRest then Got(entries, rest) else Fail
    ensures ReadPairs(s) == if ok && okRest then Got(entries[k := v], rest) else Fail
  {
    PairsStep(s, k, v, t, t);
  }

  /** What follows a pair of an inline table that has another one. */
  lemma SeparatorOfPairs(more: Entries, rest: string)
    requires more != NoEntries
    ensures var t := ", " + TomlPairs(more) + " }" + rest; var body := TomlPairs(more) + " }" + rest;
      SkipBlanks(t) == t && t[0] == ',' && SkipBlanks(t[1..]) == body
  {
    var t, body := ", " + TomlPairs(more) + " }" + rest, TomlPairs(more) + " }" + rest;
    assert t[1..] == " " + body && t[0] == ',';
    KeyStarts(more.key);
    assert body[0] == TomlKey(more.key)[0];
    SkipsOne(body);
    SkipsOne(t);
  }
}
