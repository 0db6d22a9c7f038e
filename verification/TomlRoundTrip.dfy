/** Reading a printed document gives back the printed mapping. */
module TomlRoundTrip {
  import opened Prelude
  import opened TomlWriter
  import opened TomlReader
  import opened TomlLexical

  /* The statements a printed document consists of */

  function PairStatements(entries: Entries): seq<Statement> {
    match entries
    case NoEntries => []
    case Entry(k, v, rest) => (if IsInline(v) then [Pair(k, Denote(v))] else []) + PairStatements(rest)
  }

  function Statements(entries: Entries, path: CT.Path): seq<Statement>
    decreases entries, 1
  {
    PairStatements(entries) + TableStatements(entries, path)
  }

  function TableStatements(entries: Entries, path: CT.Path): seq<Statement>
    decreases entries, 0
  {
    match entries
    case NoEntries => []
    case Entry(k, v, rest) => EntryStatements(v, path + [k]) + TableStatements(rest, path)
  }

  function EntryStatements(v: Value, path: CT.Path): seq<Statement>
    decreases v, 2
  {
    if v.Table? then [Header(path, false)] + Statements(v.entries, path)
    else if IsTableArray(v) then ItemStatements(v.items, path)
    else []
  }

  function ItemStatements(items: Values, path: CT.Path): seq<Statement>
    requires AllTables(items)
    decreases items, 1
  {
    match items
    case NoItems => []
    case Item(v, rest) => [Header(path, true)] + Statements(v.entries, path) + ItemStatements(rest, path)
  }

  /* Reading the lines */

  predicate CleanInline(entries: Entries) {
    match entries
    case NoEntries => true
    case Entry(k, v, rest) => (IsInline(v) ==> CleanText(k) && Clean(v)) && CleanInline(rest)
  }

  predicate CleanTables(entries: Entries) {
    match entries
    case NoEntries => true
    case Entry(k, v, rest) => (IsInline(v) || (CleanText(k) && Clean(v))) && CleanTables(rest)
  }

  lemma CleanSplits(entries: Entries)
    ensures CleanEntries(entries) <==> CleanInline(entries) && CleanTables(entries)
  {
  }

  lemma {:induction false} CleanPathExtends(path: CT.Path, k: string)
    ensures CleanPath(path + [k]) <==> CleanPath(path) && CleanText(k)
  {
    if path != [] {
      CleanPathExtends(path[1..], k);
      assert (path + [k])[1..] == path[1..] + [k];
    } else {
      assert (path + [k])[1..] == [];
    }
  }

  /** Statements read so far, with more appended if those lines are fine. */
  function Then(before: Option<seq<Statement>>, fine: bool, more: seq<Statement>): Option<seq<Statement>> {
    if before.Some? && fine then Some(before.value + more) else None
  }

  lemma ReadsPairLine(k: string, v: Value)
    requires Distinct(v)
    ensures ReadLine(TomlPair(k, v)) == if CleanText(k) && Clean(v) then Ok(Some(Pair(k, Denote(v)))) else Err(())
  {
    var line := TomlPair(k, v);
    ReadsPair(k, v, "");
    assert line + "" == line;
    KeyStarts(k);
    assert line[0] == TomlKey(k)[0];
    SkipsOne(line);
  }

  lemma HeaderText(keys: string, brackets: string, closing: string)
    requires keys != "" && keys[0] != '[' && |brackets| <= 2
    ensures (brackets + keys + closing)[|brackets|..] == keys + closing
    ensures brackets == "[" ==> !("[[" <= brackets + keys + closing)
    ensures brackets == "[[" ==> "[[" <= brackets + keys + closing
  {
    var line := brackets + keys + closing;
    assert line == brackets + (keys + closing);
    assert brackets == "[" ==> line[1] == keys[0];
  }

  lemma DottedStarts(path: CT.Path)
    requires path != []
    ensures Solid(DottedKeys(path)) && DottedKeys(path)[0] != '['
  {
    KeyStarts(path[0]);
    assert DottedKeys(path)[0] == TomlKey(path[0])[0];
  }

  lemma ReadsTableHeader(path: CT.Path)
    requires path != []
    ensures ReadLine("[" + DottedKeys(path) + "]") == if CleanPath(path) then Ok(Some(Header(path, false))) else Err(())
  {
    DottedStarts(path);
    ReadsDotted(path, "]");
    HeaderText(DottedKeys(path), "[", "]");
    assert "]"[1..] == "";
  }

  lemma ReadsArrayHeader(path: CT.Path)
    requires path != []
    ensures ReadLine("[[" + DottedKeys(path) + "]]") == if CleanPath(path) then Ok(Some(Header(path, true)))
      else Err(())
  {
    DottedStarts(path);
    ReadsDotted(path, "]]");
    HeaderText(DottedKeys(path), "[[", "]]");
    assert "]]"[2..] == "";
  }

  lemma ReadsHeaderLine(path: CT.Path, repeated: bool)
    requires path != []
    ensures ReadLine(HeaderLine(path, repeated)) == if CleanPath(path) then Ok(Some(Header(path, repeated)))
      else Err(())
  {
    if repeated {
      ReadsArrayHeader(path);
    } else {
      ReadsTableHeader(path);
    }
  }

  lemma AppendLine(lines: seq<string>, line: string)
    ensures ReadLines(lines + [line]) ==
      match (ReadLines(lines), ReadLine(line))
      case (Some(before), Ok(None)) => Some(before)
      case (Some(before), Ok(Some(statement))) => Some(before + [statement])
      case _ => None
  {
    assert (lines + [line])[..|lines|] == lines;
  }

  lemma ReadsWithHeader(lines: seq<string>, path: CT.Path, repeated: bool)
    requires path != []
    ensures ReadLines(WithHeader(lines, path, repeated)) ==
      Then(ReadLines(lines), CleanPath(path), [Header(path, repeated)])
  {
    ReadsHeaderLine(path, repeated);
    if lines != [] {
      AppendLine(lines, "");
      AppendLine(lines + [""], HeaderLine(path, repeated));
    } else {
      AppendLine(lines, HeaderLine(path, repeated));
      assert lines + [] == lines;
    }
  }

  lemma {:induction false} ReadsPairLines(lines: seq<string>, entries: Entries)
    requires DistinctEntries(entries)
    ensures ReadLines(lines + PairLines(entries)) ==
      Then(ReadLines(lines), CleanInline(entries), PairStatements(entries))
    decreases entries
  {
    match entries
    case NoEntries =>
      assert lines + [] == lines;
      assert ReadLines(lines).Some? ==> ReadLines(lines).value + [] == ReadLines(lines).value;
    case Entry(k, v, rest) =>
      if IsInline(v) {
        var line := TomlPair(k, v);
        AppendPairLine(lines, k, v);
        ReadsPairLines(lines + [line], rest);
        FirstPairLine(lines, entries);
        ThenTwice(ReadLines(lines), CleanText(k) &&
          Clean(v), [Pair(k, Denote(v))], CleanInline(rest), PairStatements(rest));
      } else {
        ReadsPairLines(lines, rest);
        assert PairLines(entries) == PairLines(rest) && PairStatements(entries) == PairStatements(rest);
      }
  }

  lemma AppendPairLine(lines: seq<string>, k: string, v: Value)
    requires Distinct(v)
    ensures ReadLines(lines + [TomlPair(k, v)]) ==
      Then(ReadLines(lines), CleanText(k) && Clean(v), [Pair(k, Denote(v))])
  {
    AppendLine(lines, TomlPair(k, v));
    ReadsPairLine(k, v);
  }

  lemma ThenTwice(before: Option<seq<Statement>>, a: bool, s: seq<Statement>, b: bool, t: seq<Statement>)
    ensures Then(Then(before, a, s), b, t) == Then(before, a && b, s + t)
  {
    if before.Some? {
      assert (before.value + s) + t == before.value + (s + t);
    }
  }

  /** Header, pairs and tables, read one after the other, are the whole section. */
  lemma ThenSection(before: Option<seq<Statement>>, pairs: Option<seq<Statement>>, entries: Entries, path: CT.Path,
      header: Statement)
    requires pairs == Then(Then(before, CleanPath(path), [header]), CleanInline(entries), PairStatements(entries))
    ensures Then(pairs, CleanTables(entries), TableStatements(entries, path)) ==
      Then(before, CleanPath(path) && CleanEntries(entries), [header] + Statements(entries, path))
  {
    var inline, tables := PairStatements(entries), TableStatements(entries, path);
    CleanSplits(entries);
    ThenTwice(before, CleanPath(path), [header], CleanInline(entries), inline);
    ThenTwice(before, CleanPath(path) && CleanInline(entries), [header] + inline, CleanTables(entries), tables);
    assert [header] + inline + tables == [header] + Statements(entries, path);
  }

  lemma {:induction false} ReadsWritten(lines: seq<string>, entries: Entries, path: CT.Path, repeated: bool)
    requires DistinctEntries(entries) && path != []
    ensures ReadLines(Written(lines, entries, path, repeated)) ==
      Then(ReadLines(lines), CleanPath(path) &&
        CleanEntries(entries), [Header(path, repeated)] + Statements(entries, path))
    decreases entries, 1
  {
    var head := WithHeader(lines, path, repeated);
    ReadsWithHeader(lines, path, repeated);
    ReadsPairLines(head, entries);
    ReadsTables(head + PairLines(entries), entries, path);
    ThenSection(ReadLines(lines), ReadLines(head + PairLines(entries)), entries, path, Header(path, repeated));
  }

  lemma {:induction false} ReadsTables(lines: seq<string>, entries: Entries, path: CT.Path)
    requires DistinctEntries(entries) && (ReadLines(lines).Some? ==> CleanPath(path))
    ensures ReadLines(WrittenTables(lines, entries, path)) ==
      Then(ReadLines(lines), CleanTables(entries), TableStatements(entries, path))
    decreases entries, 0
  {
    match entries
    case NoEntries =>
      assert ReadLines(lines).Some? ==> ReadLines(lines).value + [] == ReadLines(lines).value;
    case Entry(k, v, rest) =>
      CleanPathExtends(path, k);
      ReadsEntry(lines, v, path + [k]);
      var fine := IsInline(v) || (CleanPath(path + [k]) && Clean(v));
      var after := WrittenEntry(lines, v, path + [k]);
      ReadsTables(after, rest, path);
      ThenTwice(ReadLines(lines), fine, EntryStatements(v, path + [k]), CleanTables(rest), TableStatements(rest, path));
  }

  lemma {:induction false} ReadsEntry(lines: seq<string>, v: Value, path: CT.Path)
    requires Distinct(v) && path != []
    ensures ReadLines(WrittenEntry(lines, v, path)) ==
      Then(ReadLines(lines), IsInline(v) || (CleanPath(path) && Clean(v)), EntryStatements(v, path))
    decreases v, 2
  {
    if v.Table? {
      ReadsWritten(lines, v.entries, path, false);
    } else if IsTableArray(v) {
      ReadsItemTables(lines, v.items, path);
    } else {
      assert ReadLines(lines).Some? ==> ReadLines(lines).value + [] == ReadLines(lines).value;
    }
  }

  lemma {:induction false} ReadsItemTables(lines: seq<string>, items: Values, path: CT.Path)
    requires AllTables(items) && DistinctItems(items) && path != []
    ensures ReadLines(WrittenItems(lines, items, path)) ==
      Then(ReadLines(lines), items == NoItems || (CleanPath(path) && CleanItems(items)), ItemStatements(items, path))
    decreases items, 1
  {
    match items
    case NoItems =>
      assert ReadLines(lines).Some? ==> ReadLines(lines).value + [] == ReadLines(lines).value;
    case Item(v, rest) =>
      ReadsWritten(lines, v.entries, path, true);
      var after := Written(lines, v.entries, path, true);
      ReadsItemTables(after, rest, path);
      ThenTwice(ReadLines(lines), CleanPath(path) &&
        CleanEntries(v.entries), [Header(path, true)] + Statements(v.entries, path),
                rest == NoItems || (CleanPath(path) && CleanItems(rest)), ItemStatements(rest, path));
  }

  lemma ReadsDocumentLines(entries: Entries)
    requires DistinctEntries(entries)
    ensures ReadLines(Written([], entries, [], false)) ==
      if CleanEntries(entries) then Some(Statements(entries, [])) else None
  {
    ReadsPairLines([], entries);
    ReadsTables([] + PairLines(entries), entries, []);
    ThenTwice(Some([]), CleanInline(entries), PairStatements(entries), CleanTables(entries),
      TableStatements(entries, []));
    CleanSplits(entries);
    assert [] + Statements(entries, []) == Statements(entries, []);
  }

  /* One statement per line */

  predicate OneLine(s: string) {
    '\n' !in s
  }

  lemma {:induction false} EscapeIsOneLine(s: string)
    ensures OneLine(Escape(s))
  {
    if s != "" {
      EscapeIsOneLine(s[1..]);
      assert OneLine(EscapeChar(s[0]));
    }
  }

  lemma KeyIsOneLine(key: string)
    ensures OneLine(TomlKey(key))
  {
    if IsBare(key) {
      forall i | 0 <= i < |key| ensures key[i] != '\n' {
        assert BareChar(key[i]);
      }
    } else {
      EscapeIsOneLine(key);
    }
  }

  lemma {:induction false} DecimalIsOneLine(n: nat)
    ensures OneLine(Decimal(n))
  {
    if n >= 10 {
      DecimalIsOneLine(n / 10);
    }
  }

  lemma {:induction false} ValueIsOneLine(v: Value)
    ensures OneLine(TomlValue(v))
    decreases v, 1
  {
    match v
    case Str(s) => EscapeIsOneLine(s);
    case Bool(_) =>
    case Int(n) => DecimalIsOneLine(if n < 0 then -n else n);
    case Array(items) => ItemsAreOneLine(items);
    case Table(entries) => PairsAreOneLine(entries);
  }

  lemma {:induction false} ItemsAreOneLine(items: Values)
    ensures OneLine(TomlItems(items))
    decreases items, 2
  {
    if items.Item? {
      ValueIsOneLine(items.head);
      ItemsAreOneLine(items.tail);
    }
  }

  lemma {:induction false} PairsAreOneLine(entries: Entries)
    ensures OneLine(TomlPairs(entries))
    decreases entries, 2
  {
    if entries.Entry? {
      KeyIsOneLine(entries.key);
      ValueIsOneLine(entries.value);
      PairsAreOneLine(entries.rest);
    }
  }

  lemma {:induction false} DottedIsOneLine(path: CT.Path)
    ensures OneLine(DottedKeys(path))
    decreases |path|
  {
    if path != [] {
      KeyIsOneLine(path[0]);
      DottedIsOneLine(path[1..]);
    }
  }

  ghost predicate OneLineEach(lines: seq<string>) {
    forall i | 0 <= i < |lines| :: OneLine(lines[i])
  }

  lemma {:induction false} PairLinesAreOneLine(entries: Entries)
    ensures OneLineEach(PairLines(entries))
    decreases entries
  {
    if entries.Entry? {
      PairLinesAreOneLine(entries.rest);
      KeyIsOneLine(entries.key);
      ValueIsOneLine(entries.value);
      assert OneLine(TomlPair(entries.key, entries.value));
    }
  }

  lemma {:induction false} WrittenIsOneLine(lines: seq<string>, entries: Entries, path: CT.Path, repeated: bool)
    requires OneLineEach(lines)
    ensures OneLineEach(Written(lines, entries, path, repeated))
    decreases entries, 1
  {
    DottedIsOneLine(path);
    assert OneLine(HeaderLine(path, repeated));
    PairLinesAreOneLine(entries);
    TablesAreOneLine(WithHeader(lines, path, repeated) + PairLines(entries), entries, path);
  }

  lemma {:induction false} TablesAreOneLine(lines: seq<string>, entries: Entries, path: CT.Path)
    requires OneLineEach(lines)
    ensures OneLineEach(WrittenTables(lines, entries, path))
    decreases entries, 0
  {
    if entries.Entry? {
      var v, below := entries.value, path + [entries.key];
      if v.Table? {
        WrittenIsOneLine(lines, v.entries, below, false);
      } else if IsTableArray(v) {
        ItemTablesAreOneLine(lines, v.items, below);
      }
      TablesAreOneLine(WrittenEntry(lines, v, below), entries.rest, path);
    }
  }

  lemma {:induction false} ItemTablesAreOneLine(lines: seq<string>, items: Values, path: CT.Path)
    requires AllTables(items) && OneLineEach(lines)
    ensures OneLineEach(WrittenItems(lines, items, path))
    decreases items, 1
  {
    if items.Item? {
      WrittenIsOneLine(lines, items.head.entries, path, true);
      ItemTablesAreOneLine(Written(lines, items.head.entries, path, true), items.tail, path);
    }
  }

  lemma {:induction false} SplitLine(line: string, text: string)
    requires OneLine(line)
    ensures Split(line + "\n" + text, '\n') == [line] + Split(text, '\n')
  {
    var whole := line + "\n" + text;
    if line == "" {
      assert whole[1..] == text;
    } else {
      SplitLine(line[1..], text);
      assert whole[1..] == line[1..] + "\n" + text;
      assert line == [line[0]] + line[1..];
    }
  }

  lemma {:induction false} SplitJoined(lines: seq<string>)
    requires OneLineEach(lines)
    ensures Split(JoinLines(lines) + "\n", '\n') == (if lines == [] then [""] else lines) + [""]
    decreases |lines|
  {
    if |lines| <= 1 {
      var line := if lines == [] then "" else lines[0];
      SplitLine(line, "");
      assert JoinLines(lines) + "\n" == line + "\n" + "";
    } else {
      SplitJoined(lines[1..]);
      SplitLine(lines[0], JoinLines(lines[1..]) + "\n");
      assert JoinLines(lines) + "\n" == lines[0] + "\n" + (JoinLines(lines[1..]) + "\n");
    }
  }

  /* Building the document */

  /** What lies below a key: its table, or the last table of its array. */
  function Below(root: CT.Object, k: string): Option<CT.Object> {
    if k !in root then None
    else if root[k].Map? then Some(root[k].entries)
    else if root[k].List? && root[k].items != [] && root[k].items[|root[k].items| - 1].Map? then
      Some(root[k].items[|root[k].items| - 1].entries)
    else None
  }

  function PutBelow(root: CT.Object, k: string, t: CT.Object): CT.Object
    requires Below(root, k).Some?
  {
    if root[k].Map? then root[k := CT.Map(t)]
    else root[k := CT.List(root[k].items[|root[k].items| - 1 := CT.Map(t)])]
  }

  lemma PutBelowLaws(root: CT.Object, k: string, t: CT.Object, u: CT.Object)
    requires Below(root, k).Some?
    ensures Below(PutBelow(root, k, t), k) == Some(t)
    ensures PutBelow(PutBelow(root, k, t), k, u) == PutBelow(root, k, u)
    ensures PutBelow(root, k, Below(root, k).value) == root
  {
    if root[k].List? {
      var items, last := root[k].items, |root[k].items| - 1;
      assert items[last := CT.Map(t)][last := CT.Map(u)] == items[last := CT.Map(u)];
      assert items[last := CT.Map(items[last].entries)] == items;
    }
    assert PutBelow(PutBelow(root, k, t), k, u) == PutBelow(root, k, u);
  }

  lemma ChangeBelow(root: CT.Object, k: string, path: CT.Path, change: Change)
    requires Below(root, k).Some?
    ensures ChangeAt(root, [k] + path, change) ==
      match ChangeAt(Below(root, k).value, path, change)
      case None => None
      case Some(t) => Some(PutBelow(root, k, t))
  {
    assert ([k] + path)[0] == k && ([k] + path)[1..] == path;
  }

  /** The same statements, one table further down. */
  function Prefixed(k: string, s: Statement): Statement {
    match s
    case Header(path, repeated) => Header([k] + path, repeated)
    case Pair(_, _) => s
  }

  function PrefixedAll(k: string, statements: seq<Statement>): seq<Statement> {
    if statements == [] then [] else [Prefixed(k, statements[0])] + PrefixedAll(k, statements[1..])
  }

  ghost predicate HeadersNamed(statements: seq<Statement>) {
    forall i | 0 <= i < |statements| :: statements[i].Header? ==> statements[i].path != []
  }

  lemma BuildBelow(root: CT.Object, k: string, current: CT.Path, s: Statement)
    requires Below(root, k).Some? && (s.Header? ==> s.path != [])
    ensures Build(Builder(root, [k] + current), Prefixed(k, s)) ==
      match Build(Builder(Below(root, k).value, current), s)
      case None => None
      case Some(b) => Some(Builder(PutBelow(root, k, b.root), [k] + b.current))
  {
    match s
    case Pair(key, v) => ChangeBelow(root, k, current, AddPair(key, v));
    case Header(path, repeated) =>
      var parent, key := path[..|path| - 1], path[|path| - 1];
      assert ([k] + path)[..|path|] == [k] + parent && ([k] + path)[|path|] == key;
      ChangeBelow(root, k, parent, if repeated then AppendTable(key) else AddTable(key));
  }

  /** A part of a document acts below its key as it would on a document of its own. */
  lemma {:induction false} BuildAllBelow(root: CT.Object, k: string, current: CT.Path, statements: seq<Statement>)
    requires Below(root, k).Some? && HeadersNamed(statements)
    ensures BuildAll(Builder(root, [k] + current), PrefixedAll(k, statements)) ==
      match BuildAll(Builder(Below(root, k).value, current), statements)
      case None => None
      case Some(b) => Some(Builder(PutBelow(root, k, b.root), [k] + b.current))
    decreases |statements|
  {
    PutBelowLaws(root, k, map[], map[]);
    if statements != [] {
      BuildBelow(root, k, current, statements[0]);
      match Build(Builder(Below(root, k).value, current), statements[0])
      case None =>
      case Some(b) =>
        assert PrefixedAll(k, statements)[1..] == PrefixedAll(k, statements[1..]);
        var root' := PutBelow(root, k, b.root);
        PutBelowLaws(root, k, b.root, map[]);
        BuildAllBelow(root', k, b.current, statements[1..]);
        match BuildAll(b, statements[1..])
        case None =>
        case Some(c) => PutBelowLaws(root, k, b.root, c.root);
    }
  }

  lemma {:induction false} BuildAllConcat(b: Builder, s: seq<Statement>, t: seq<Statement>)
    ensures BuildAll(b, s + t) == if BuildAll(b, s).None? then None else BuildAll(BuildAll(b, s).value, t)
    decreases |s|
  {
    if s == [] {
      assert s + t == t;
    } else {
      assert (s + t)[1..] == s[1..] + t;
      if Build(b, s[0]).Some? {
        BuildAllConcat(Build(b, s[0]).value, s[1..], t);
      }
    }
  }

  lemma {:induction false} PrefixedConcat(k: string, s: seq<Statement>, t: seq<Statement>)
    ensures PrefixedAll(k, s + t) == PrefixedAll(k, s) + PrefixedAll(k, t)
    decreases |s|
  {
    if s == [] {
      assert s + t == t;
    } else {
      PrefixedConcat(k, s[1..], t);
      assert (s + t)[1..] == s[1..] + t;
    }
  }

  lemma {:induction false} PrefixedPairs(k: string, entries: Entries)
    ensures PrefixedAll(k, PairStatements(entries)) == PairStatements(entries) && HeadersNamed(PairStatements(entries))
    decreases entries
  {
    if entries.Entry? {
      PrefixedPairs(k, entries.rest);
      var s, rest := PairStatements(entries), PairStatements(entries.rest);
      if IsInline(entries.value) {
        assert s == [Pair(entries.key, Denote(entries.value))] + rest;
        assert s[1..] == rest && Prefixed(k, s[0]) == s[0];
      } else {
        assert s == rest;
      }
    }
  }

  /** Printed below a longer path, a table gives the same statements with longer headers. */
  lemma {:induction false} StatementsBelow(k: string, entries: Entries, path: CT.Path)
    ensures Statements(entries, [k] + path) == PrefixedAll(k, Statements(entries, path)) &&
      HeadersNamed(Statements(entries, path))
    decreases entries, 1
  {
    PrefixedPairs(k, entries);
    TableStatementsBelow(k, entries, path);
    PrefixedConcat(k, PairStatements(entries), TableStatements(entries, path));
  }

  lemma {:induction false} TableStatementsBelow(k: string, entries: Entries, path: CT.Path)
    ensures TableStatements(entries, [k] + path) == PrefixedAll(k, TableStatements(entries, path))
    ensures HeadersNamed(TableStatements(entries, path))
    decreases entries, 0
  {
    if entries.Entry? {
      var v, below := entries.value, path + [entries.key];
      assert [k] + path + [entries.key] == [k] + below;
      EntryStatementsBelow(k, v, below);
      TableStatementsBelow(k, entries.rest, path);
      PrefixedConcat(k, EntryStatements(v, below), TableStatements(entries.rest, path));
    }
  }

  lemma {:induction false} EntryStatementsBelow(k: string, v: Value, path: CT.Path)
    requires path != []
    ensures EntryStatements(v, [k] + path) == PrefixedAll(k, EntryStatements(v, path)) &&
      HeadersNamed(EntryStatements(v, path))
    decreases v, 2
  {
    if v.Table? {
      StatementsBelow(k, v.entries, path);
      PrefixedConcat(k, [Header(path, false)], Statements(v.entries, path));
      assert PrefixedAll(k, [Header(path, false)]) == [Header([k] + path, false)];
    } else if IsTableArray(v) {
      ItemStatementsBelow(k, v.items, path);
    }
  }

  lemma {:induction false} ItemStatementsBelow(k: string, items: Values, path: CT.Path)
    requires path != [] && AllTables(items)
    ensures ItemStatements(items, [k] + path) == PrefixedAll(k, ItemStatements(items, path)) &&
      HeadersNamed(ItemStatements(items, path))
    decreases items, 1
  {
    if items.Item? {
      var body := Statements(items.head.entries, path);
      StatementsBelow(k, items.head.entries, path);
      ItemStatementsBelow(k, items.tail, path);
      PrefixedConcat(k, [Header(path, true)], body);
      PrefixedConcat(k, [Header(path, true)] + body, ItemStatements(items.tail, path));
      assert PrefixedAll(k, [Header(path, true)]) == [Header([k] + path, true)];
    }
  }

  /* The document built from its statements */

  function InlinePart(entries: Entries): CT.Object {
    match entries
    case NoEntries => map[]
    case Entry(k, v, rest) => if IsInline(v) then InlinePart(rest)[k := Denote(v)] else InlinePart(rest)
  }

  function TablePart(entries: Entries): CT.Object {
    match entries
    case NoEntries => map[]
    case Entry(k, v, rest) => if IsInline(v) then TablePart(rest) else TablePart(rest)[k := Denote(v)]
  }

  lemma {:induction false} PartsMakeWhole(entries: Entries)
    requires DistinctEntries(entries)
    ensures InlinePart(entries).Keys + TablePart(entries).Keys == Keys(entries)
    ensures InlinePart(entries).Keys !! TablePart(entries).Keys
    ensures InlinePart(entries) + TablePart(entries) == DenoteEntries(entries)
    decreases entries
  {
    if entries.Entry? {
      PartsMakeWhole(entries.rest);
    }
  }

  lemma AddsBesideRest(m: CT.Object, k: string, v: Value, rest: Entries)
    requires DistinctEntries(rest) && k !in Keys(rest)
    ensures m[k := Denote(v)] + InlinePart(rest) == m + InlinePart(rest)[k := Denote(v)]
  {
    PartsMakeWhole(rest);
  }

  lemma {:induction false} PairsBuild(m: CT.Object, entries: Entries)
    requires DistinctEntries(entries) && m.Keys !! Keys(entries)
    ensures BuildAll(Builder(m, []), PairStatements(entries)) == Some(Builder(m + InlinePart(entries), []))
    decreases entries
  {
    if entries.Entry? {
      var k, v := entries.key, entries.value;
      var s := PairStatements(entries);
      if IsInline(v) {
        var m' := m[k := Denote(v)];
        PairsBuild(m', entries.rest);
        assert s[0] == Pair(k, Denote(v)) && s[1..] == PairStatements(entries.rest);
        AddsBesideRest(m, k, v, entries.rest);
      } else {
        PairsBuild(m, entries.rest);
        assert s == PairStatements(entries.rest);
      }
    } else {
      assert m + map[] == m;
    }
  }

  /** A document consisting of one table's statements builds that table. */
  lemma {:induction false} TableBuilds(entries: Entries)
    requires DistinctEntries(entries)
    ensures BuildAll(Builder(map[], []), Statements(entries, [])).Some?
    ensures BuildAll(Builder(map[], []), Statements(entries, [])).value.root == DenoteEntries(entries)
    decreases entries, 1
  {
    PairsBuild(map[], entries);
    PartsMakeWhole(entries);
    var b := Builder(map[] + InlinePart(entries), []);
    assert b.root == InlinePart(entries);
    TablesBuild(b, entries);
    BuildAllConcat(Builder(map[], []), PairStatements(entries), TableStatements(entries, []));
  }

  lemma {:induction false} TablesBuild(b: Builder, entries: Entries)
    requires DistinctEntries(entries) && b.root.Keys !! TablePart(entries).Keys
    ensures BuildAll(b, TableStatements(entries, [])).Some?
    ensures BuildAll(b, TableStatements(entries, [])).value.root == b.root + TablePart(entries)
    decreases entries, 0
  {
    if entries.Entry? {
      var k, v, rest := entries.key, entries.value, entries.rest;
      PartsMakeWhole(rest);
      EntryBuilds(b, k, v);
      var b' := BuildAll(b, EntryStatements(v, [k])).value;
      RootAfterEntry(b.root, b'.root, entries);
      TablesBuild(b', rest);
      FirstEntryThenRest(b, entries);
    } else {
      assert b.root + map[] == b.root;
    }
  }

  lemma RootAfterEntry(root: CT.Object, root': CT.Object, entries: Entries)
    requires entries.Entry? && DistinctEntries(entries) && root.Keys !! TablePart(entries).Keys
    requires root' == if IsInline(entries.value) then root else root[entries.key := Denote(entries.value)]
    ensures root'.Keys !! TablePart(entries.rest).Keys
    ensures root' + TablePart(entries.rest) == root + TablePart(entries)
  {
    PartsMakeWhole(entries.rest);
  }

  lemma FirstEntryThenRest(b: Builder, entries: Entries)
    requires entries.Entry? && BuildAll(b, EntryStatements(entries.value, [entries.key])).Some?
    ensures BuildAll(b, TableStatements(entries, [])) ==
      BuildAll(BuildAll(b, EntryStatements(entries.value, [entries.key])).value, TableStatements(entries.rest, []))
  {
    assert [] + [entries.key] == [entries.key];
    BuildAllConcat(b, EntryStatements(entries.value, [entries.key]), TableStatements(entries.rest, []));
  }

  lemma {:induction false} EntryBuilds(b: Builder, k: string, v: Value)
    requires Distinct(v) && (IsInline(v) || k !in b.root)
    ensures BuildAll(b, EntryStatements(v, [k])).Some?
    ensures BuildAll(b, EntryStatements(v, [k])).value.root == if IsInline(v) then b.root else b.root[k := Denote(v)]
    decreases v, 2
  {
    if v.Table? {
      var started := Builder(b.root[k := CT.Map(map[])], [k]);
      OpensTable(b, k, false);
      SectionBuilds(started.root, k, v.entries);
      BuildAllConcat(b, [Header([k], false)], Statements(v.entries, [k]));
    } else if IsTableArray(v) {
      ItemsBuild(b, k, v.items, []);
      assert [] + DenoteItems(v.items) == DenoteItems(v.items);
    }
  }

  lemma OpensTable(b: Builder, k: string, repeated: bool)
    requires if repeated then k in b.root ==> b.root[k].List? else k !in b.root
    ensures BuildAll(b, [Header([k], repeated)]) == Some(Builder(
      if !repeated then b.root[k := CT.Map(map[])]
      else if k in b.root then b.root[k := CT.List(b.root[k].items + [CT.Map(map[])])]
      else b.root[k := CT.List([CT.Map(map[])])], [k]))
  {
    var h := Header([k], repeated);
    assert [k][..0] == [] && [h][1..] == [];
    assert Build(b, h).Some?;
  }

  /** Below a table just opened, the statements of a table build it there. */
  lemma {:induction false} SectionBuilds(root: CT.Object, k: string, entries: Entries)
    requires Below(root, k) == Some(map[]) && DistinctEntries(entries)
    ensures BuildAll(Builder(root, [k]), Statements(entries, [k])).Some?
    ensures BuildAll(Builder(root, [k]), Statements(entries, [k])).value.root ==
      PutBelow(root, k, DenoteEntries(entries))
    decreases entries, 2
  {
    TableBuilds(entries);
    StatementsBelow(k, entries, []);
    assert [k] + [] == [k];
    BuildAllBelow(root, k, [], Statements(entries, []));
  }

  /** One `[[k]]` section appends its table to the list at `k`. */
  lemma {:induction false} ItemBuilds(b: Builder, k: string, entries: Entries, before: seq<CT.Tree>)
    requires DistinctEntries(entries)
    requires if before == [] then k !in b.root else k in b.root && b.root[k] == CT.List(before)
    ensures BuildAll(b, [Header([k], true)] + Statements(entries, [k])).Some?
    ensures BuildAll(b, [Header([k], true)] + Statements(entries, [k])).value.root ==
      b.root[k := CT.List(before + [CT.Map(DenoteEntries(entries))])]
    decreases entries, 3
  {
    var started := b.root[k := CT.List(before + [CT.Map(map[])])];
    assert before == [] ==> before + [CT.Map(map[])] == [CT.Map(map[])];
    OpensTable(b, k, true);
    SectionBuilds(started, k, entries);
    BuildAllConcat(b, [Header([k], true)], Statements(entries, [k]));
    assert (before + [CT.Map(map[])])[|before| := CT.Map(DenoteEntries(entries))] ==
      before + [CT.Map(DenoteEntries(entries))];
  }

  /** The first section of an array of tables, then the rest of it. */
  lemma ItemThenRest(b: Builder, k: string, v: Value, rest: Values, b': Builder)
    requires v.Table? && AllTables(rest)
    requires BuildAll(b, [Header([k], true)] + Statements(v.entries, [k])) == Some(b')
    ensures BuildAll(b, ItemStatements(Item(v, rest), [k])) == BuildAll(b', ItemStatements(rest, [k]))
  {
    BuildAllConcat(b, [Header([k], true)] + Statements(v.entries, [k]), ItemStatements(rest, [k]));
  }

  lemma {:induction false} ItemsBuild(b: Builder, k: string, items: Values, before: seq<CT.Tree>)
    requires AllTables(items) && DistinctItems(items)
    requires if before == [] then k !in b.root && items.Item? else k in b.root && b.root[k] == CT.List(before)
    ensures BuildAll(b, ItemStatements(items, [k])).Some?
    ensures BuildAll(b, ItemStatements(items, [k])).value.root == b.root[k := CT.List(before + DenoteItems(items))]
    decreases items, 1
  {
    match items
    case NoItems =>
      assert before + [] == before;
    case Item(v, rest) =>
      ItemBuilds(b, k, v.entries, before);
      var b' := BuildAll(b, [Header([k], true)] + Statements(v.entries, [k])).value;
      var after := before + [Denote(v)];
      ItemThenRest(b, k, v, rest, b');
      ItemsBuild(b', k, rest, after);
      assert after + DenoteItems(rest) == before + DenoteItems(items);
  }

  /**
   For every mapping of strings, integers, booleans, lists and mappings, in every order of
   its keys, the printed document is valid TOML for exactly that mapping, unless some text
   in it contains U+007F; then it is no valid TOML.
   */
  lemma RoundTrip(data: Entries)
    requires DistinctEntries(data)
    ensures ReadToml(DumpToml(data)) == if CleanEntries(data) then Some(DenoteEntries(data)) else None
  {
    var lines := Written([], data, [], false);
    WrittenIsOneLine([], data, [], false);
    SplitJoined(lines);
    ReadsDocumentLines(data);
    AppendLine(lines, "");
    AppendLine([""], "");
    AppendLine([], "");
    assert [] + [""] == [""];
    TableBuilds(data);
  }
}
