/** The hand-written TOML printer of the config reconciler. */
module TomlWriter {
  import opened Prelude
  import ConfigTree

  /** The values the printer accepts, apart from floats. A table lists its entries in insertion order. */
  datatype Value =
    | Str(text: string)
    | Int(number: int)
    | Bool(flag: bool)
    | Array(items: Values)
    | Table(entries: Entries)

  datatype Values = NoItems | Item(head: Value, tail: Values)

  datatype Entries = NoEntries | Entry(key: string, value: Value, rest: Entries)

  /* What the values mean */

  function Denote(v: Value): ConfigTree.Tree {
    match v
    case Str(s) => ConfigTree.Str(s)
    case Int(n) => ConfigTree.Int(n)
    case Bool(b) => ConfigTree.Bool(b)
    case Array(items) => ConfigTree.List(DenoteItems(items))
    case Table(entries) => ConfigTree.Map(DenoteEntries(entries))
  }

  function DenoteItems(items: Values): seq<ConfigTree.Tree> {
    match items
    case NoItems => []
    case Item(v, rest) => [Denote(v)] + DenoteItems(rest)
  }

  function DenoteEntries(entries: Entries): ConfigTree.Object {
    match entries
    case NoEntries => map[]
    case Entry(k, v, rest) => DenoteEntries(rest)[k := Denote(v)]
  }

  function Keys(entries: Entries): set<string> {
    match entries
    case NoEntries => {}
    case Entry(k, _, rest) => {k} + Keys(rest)
  }

  /** A Python dictionary has each key once. */
  predicate Distinct(v: Value) {
    match v
    case Array(items) => DistinctItems(items)
    case Table(entries) => DistinctEntries(entries)
    case _ => true
  }

  predicate DistinctItems(items: Values) {
    match items
    case NoItems => true
    case Item(v, rest) => Distinct(v) && DistinctItems(rest)
  }

  predicate DistinctEntries(entries: Entries) {
    match entries
    case NoEntries => true
    case Entry(k, v, rest) => k !in Keys(rest) && Distinct(v) && DistinctEntries(rest)
  }

  /* Keys and inline values */

  predicate BareChar(c: char) {
    IsDigit(c) || 'a' <= c <= 'z' || 'A' <= c <= 'Z' || c == '_' || c == '-'
  }

  predicate IsBare(key: string) {
    key != "" && forall i | 0 <= i < |key| :: BareChar(key[i])
  }

  function LowerHex(n: nat): char
    requires n < 16
  {
    if n < 10 then '0' + n as char else 'a' + (n - 10) as char
  }

  /** JSON's escapes; every other character stands for itself. */
  function EscapeChar(c: char): string {
    if c == '\"' then "\\\""
    else if c == '\\' then "\\\\"
    else if c == '\n' then "\\n"
    else if c == '\r' then "\\r"
    else if c == '\t' then "\\t"
    else if c == '\U{C}' then "\\f"
    else if c == '\U{8}' then "\\b"
    else if c < ' ' then "\\u00" + [LowerHex(c as int / 16), LowerHex(c as int % 16)]
    else [c]
  }

  function Escape(s: string): string {
    if s == "" then "" else EscapeChar(s[0]) + Escape(s[1..])
  }

  function Quoted(s: string): string {
    "\"" + Escape(s) + "\""
  }

  function TomlKey(key: string): string {
    if IsBare(key) then key else Quoted(key)
  }

  function TomlInt(n: int): string {
    if n < 0 then "-" + Decimal(-n) else Decimal(n)
  }

  function TomlValue(v: Value): string {
    match v
    case Str(s) => Quoted(s)
    case Bool(b) => if b then "true" else "false"
    case Int(n) => TomlInt(n)
    case Array(items) => "[" + TomlItems(items) + "]"
    case Table(entries) => "{ " + TomlPairs(entries) + " }"
  }

  function TomlItems(items: Values): string {
    match items
    case NoItems => ""
    case Item(v, NoItems) => TomlValue(v)
    case Item(v, rest) => TomlValue(v) + ", " + TomlItems(rest)
  }

  function TomlPair(key: string, v: Value): string {
    TomlKey(key) + " = " + TomlValue(v)
  }

  function TomlPairs(entries: Entries): string {
    match entries
    case NoEntries => ""
    case Entry(k, v, NoEntries) => TomlKey(k) + " = " + TomlValue(v)
    case Entry(k, v, rest) => TomlKey(k) + " = " + TomlValue(v) + ", " + TomlPairs(rest)
  }

  /* Documents */

  predicate AllTables(items: Values) {
    match items
    case NoItems => true
    case Item(v, rest) => v.Table? && AllTables(rest)
  }

  /** A non-empty list of mappings is printed as an array of tables. */
  predicate IsTableArray(v: Value) {
    v.Array? && v.items.Item? && AllTables(v.items)
  }

  predicate IsInline(v: Value) {
    !v.Table? && !IsTableArray(v)
  }

  function DottedKeys(path: seq<string>): string {
    if path == [] then ""
    else if |path| == 1 then TomlKey(path[0])
    else TomlKey(path[0]) + "." + DottedKeys(path[1..])
  }

  function HeaderLine(path: seq<string>, repeated: bool): string {
    if repeated then "[[" + DottedKeys(path) + "]]" else "[" + DottedKeys(path) + "]"
  }

  function WithHeader(lines: seq<string>, path: seq<string>, repeated: bool): seq<string> {
    if path == [] then lines
    else lines + (if lines != [] then [""] else []) + [HeaderLine(path, repeated)]
  }

  function PairLines(entries: Entries): seq<string> {
    match entries
    case NoEntries => []
    case Entry(k, v, rest) => (if IsInline(v) then [TomlPair(k, v)] else []) + PairLines(rest)
  }

  lemma FirstPairLine(lines: seq<string>, entries: Entries)
    requires entries.Entry?
    ensures lines + PairLines(entries) ==
      (if IsInline(entries.value) then lines + [TomlPair(entries.key, entries.value)] else lines) +
        PairLines(entries.rest)
  {
    var pair, rest := [TomlPair(entries.key, entries.value)], PairLines(entries.rest);
    assert lines + (pair + rest) == lines + pair + rest;
    assert [] + rest == rest;
  }

  /** The lines after a table has been printed below those already there. */
  function Written(lines: seq<string>, entries: Entries, path: seq<string>, repeated: bool): seq<string>
    decreases entries, 1
  {
    WrittenTables(WithHeader(lines, path, repeated) + PairLines(entries), entries, path)
  }

  function WrittenTables(lines: seq<string>, entries: Entries, path: seq<string>): seq<string>
    decreases entries, 0
  {
    match entries
    case NoEntries => lines
    case Entry(k, v, rest) => WrittenTables(WrittenEntry(lines, v, path + [k]), rest, path)
  }

  function WrittenEntry(lines: seq<string>, v: Value, path: seq<string>): seq<string>
    decreases v, 2
  {
    if v.Table? then Written(lines, v.entries, path, false)
    else if IsTableArray(v) then WrittenItems(lines, v.items, path)
    else lines
  }

  function WrittenItems(lines: seq<string>, items: Values, path: seq<string>): seq<string>
    requires AllTables(items)
    decreases items, 1
  {
    match items
    case NoItems => lines
    case Item(v, rest) => WrittenItems(Written(lines, v.entries, path, true), rest, path)
  }

  function JoinLines(lines: seq<string>): string {
    if lines == [] then ""
    else if |lines| == 1 then lines[0]
    else lines[0] + "\n" + JoinLines(lines[1..])
  }

  function DumpToml(entries: Entries): string {
    JoinLines(Written([], entries, [], false)) + "\n"
  }

  /** The `lines` list that the nested printer appends to. */
  class TomlPrinter {
    var lines: seq<string>

    constructor ()
      ensures lines == []
    {
      lines := [];
    }

    method WriteTable(table: Entries, path: seq<string>, repeated: bool)
      modifies this
      ensures lines == Written(old(lines), table, path, repeated)
      decreases table, 1
    {
      if path != [] {
        if lines != [] {
          lines := lines + [""];
        }
        lines := lines + [HeaderLine(path, repeated)];
      }
      assert lines == WithHeader(old(lines), path, repeated);
      WritePairs(table);
      WriteTables(table, path);
    }

    /** The first loop: everything that fits on a line of its own. */
    method WritePairs(table: Entries)
      modifies this
      ensures lines == old(lines) + PairLines(table)
    {
      var entries := table;
      assert old(lines) + PairLines(table) == lines + PairLines(entries);
      while entries.Entry?
        invariant lines + PairLines(entries) == old(lines) + PairLines(table)
        decreases entries
      {
        FirstPairLine(lines, entries);
        if IsInline(entries.value) {
          lines := lines + [TomlPair(entries.key, entries.value)];
        }
        entries := entries.rest;
      }
      assert lines + [] == lines;
    }

    /** The second loop: the tables and arrays of tables below. */
    method WriteTables(table: Entries, path: seq<string>)
      modifies this
      ensures lines == WrittenTables(old(lines), table, path)
      decreases table, 0
    {
      var entries := table;
      while entries.Entry?
        invariant entries == table || entries < table
        invariant WrittenTables(lines, entries, path) == WrittenTables(old(lines), table, path)
        decreases entries
      {
        var value, below := entries.value, path + [entries.key];
        if value.Table? {
          WriteTable(value.entries, below, false);
        } else if IsTableArray(value) {
          WriteItems(value.items, below);
        }
        entries := entries.rest;
      }
    }

    method WriteItems(tables: Values, path: seq<string>)
      requires AllTables(tables)
      modifies this
      ensures lines == WrittenItems(old(lines), tables, path)
      decreases tables, 2
    {
      var items := tables;
      while items.Item?
        invariant items == tables || items < tables
        invariant AllTables(items)
        invariant WrittenItems(lines, items, path) == WrittenItems(old(lines), tables, path)
        decreases items
      {
        WriteTable(items.head.entries, path, true);
        items := items.tail;
      }
    }
  }

  method Dump(data: Entries) returns (text: string)
    ensures text == DumpToml(data)
  {
    var printer := new TomlPrinter();
    printer.WriteTable(data, [], false);
    text := JoinLines(printer.lines) + "\n";
  }
}
