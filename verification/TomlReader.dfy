/**
 A reader for the part of TOML v1.0.0 that the printer uses: one-line basic
 strings, decimal integers, booleans, inline arrays and tables, one-key pairs,
 table headers and array-of-tables headers. It is written from the TOML
 specification, not from the printer. Two rejections that no printed document depends on
 are left out: a header that extends a static array, and one that extends an inline table.
 */
module TomlReader {
  import opened Prelude
  import opened ConfigTree

  datatype Parsed<+T> = Fail | Got(value: T, rest: string)

  /* Sections "Keys" and "String" */

  predicate BareKeyChar(c: char) {
    IsDigit(c) || 'a' <= c <= 'z' || 'A' <= c <= 'Z' || c == '_' || c == '-'
  }

  /** Control characters other than tab may not stand in a basic string. */
  predicate MustBeEscaped(c: char) {
    (c < ' ' && c != '\t') || c == '\U{7F}'
  }

  function SkipBlanks(s: string): (r: string)
    ensures |r| <= |s|
  {
    if s != "" && (s[0] == ' ' || s[0] == '\t') then SkipBlanks(s[1..]) else s
  }

  function HexValue(s: string): Option<nat>
    requires |s| == 4
  {
    if HexDigit(s[0]).Some? && HexDigit(s[1]).Some? && HexDigit(s[2]).Some? && HexDigit(s[3]).Some? then
      Some(4096 * HexDigit(s[0]).value + 256 * HexDigit(s[1]).value + 16 * HexDigit(s[2]).value + HexDigit(s[3]).value)
    else None
  }

  /** The character an escape stands for, after its backslash. */
  function ReadEscape(s: string): (r: Parsed<char>)
    ensures r.Got? ==> |r.rest| < |s|
  {
    if s == "" then Fail else
    match s[0]
    case '\"' => Got('\"', s[1..])
    case '\\' => Got('\\', s[1..])
    case 'b' => Got('\U{8}', s[1..])
    case 't' => Got('\t', s[1..])
    case 'n' => Got('\n', s[1..])
    case 'f' => Got('\U{C}', s[1..])
    case 'r' => Got('\r', s[1..])
    case 'u' =>
      if |s| < 5 then Fail else
      (match HexValue(s[1..5])
       case None => Fail
       case Some(n) => if 0xD800 <= n <= 0xDFFF then Fail else Got(n as char, s[5..]))
    case _ => Fail
  }

  /** The rest of a basic string, up to its closing quote. */
  function ReadString(s: string): (r: Parsed<string>)
    ensures r.Got? ==> |r.rest| < |s|
    decreases |s|
  {
    if s == "" then Fail
    else if s[0] == '\"' then Got("", s[1..])
    else if s[0] == '\\' then
      match ReadEscape(s[1..])
      case Fail => Fail
      case Got(c, rest) =>
        (match ReadString(rest)
         case Fail => Fail
         case Got(tail, rest') => Got([c] + tail, rest'))
    else if MustBeEscaped(s[0]) then Fail
    else
      match ReadString(s[1..])
      case Fail => Fail
      case Got(tail, rest) => Got([s[0]] + tail, rest)
  }

  function ReadBare(s: string): (r: (string, string))
    ensures |r.0| + |r.1| == |s|
  {
    if s == "" || !BareKeyChar(s[0]) then ("", s)
    else
      var (key, rest) := ReadBare(s[1..]);
      ([s[0]] + key, rest)
  }

  function ReadKey(s: string): (r: Parsed<string>)
    ensures r.Got? ==> |r.rest| < |s|
  {
    if s != "" && s[0] == '\"' then ReadString(s[1..])
    else
      var (key, rest) := ReadBare(s);
      if key == "" then Fail else Got(key, rest)
  }

  function ReadDotted(s: string): (r: Parsed<seq<string>>)
    ensures r.Got? ==> |r.rest| < |s| && r.value != []
    decreases |s|
  {
    match ReadKey(s)
    case Fail => Fail
    case Got(key, rest) =>
      if rest != "" && rest[0] == '.' then
        match ReadDotted(rest[1..])
        case Fail => Fail
        case Got(keys, rest') => Got([key] + keys, rest')
      else Got([key], rest)
  }

  /* Sections "Integer", "Boolean", "Array" and "Inline Table" */

  function ReadDigits(s: string): (r: (string, string))
    ensures |r.0| + |r.1| == |s| && AllDigits(r.0)
  {
    if s == "" || !IsDigit(s[0]) then ("", s)
    else
      var (digits, rest) := ReadDigits(s[1..]);
      ([s[0]] + digits, rest)
  }

  /** Digits without a superfluous leading zero. */
  function ReadNat(s: string): (r: Parsed<nat>)
    ensures r.Got? ==> |r.rest| < |s|
  {
    var (digits, rest) := ReadDigits(s);
    if digits == "" || (|digits| > 1 && digits[0] == '0') then Fail else Got(DigitsValue(digits), rest)
  }

  function ReadValue(s: string): (r: Parsed<Tree>)
    ensures r.Got? ==> |r.rest| < |s|
    decreases |s|, 1
  {
    if s == "" then Fail
    else if s[0] == '\"' then
      match ReadString(s[1..])
      case Fail => Fail
      case Got(text, rest) => Got(Str(text), rest)
    else if s[0] == '[' then
      match ReadItems(s[1..])
      case Fail => Fail
      case Got(items, rest) => Got(List(items), rest)
    else if s[0] == '{' then
      var t := SkipBlanks(s[1..]);
      if t != "" && t[0] == '}' then Got(Map(map[]), t[1..])
      else
        match ReadPairs(t)
        case Fail => Fail
        case Got(entries, rest) => Got(Map(entries), rest)
    else if "true" <= s then Got(Bool(true), s[4..])
    else if "false" <= s then Got(Bool(false), s[5..])
    else if s[0] == '-' then
      match ReadNat(s[1..])
      case Fail => Fail
      case Got(n, rest) => Got(Int(0 - n as int), rest)
    else
      match ReadNat(s)
      case Fail => Fail
      case Got(n, rest) => Got(Int(n), rest)
  }

  /** The rest of an array, up to its closing bracket. */
  function ReadItems(s: string): (r: Parsed<seq<Tree>>)
    ensures r.Got? ==> |r.rest| < |s|
    decreases |s|, 2
  {
    var t := SkipBlanks(s);
    if t != "" && t[0] == ']' then Got([], t[1..])
    else
      match ReadValue(t)
      case Fail => Fail
      case Got(item, rest) =>
        var u := SkipBlanks(rest);
        if u != "" && u[0] == ']' then Got([item], u[1..])
        else if u != "" && u[0] == ',' then
          match ReadItems(u[1..])
          case Fail => Fail
          case Got(items, rest') => Got([item] + items, rest')
        else Fail
  }

  function ReadPair(s: string): (r: Parsed<(string, Tree)>)
    ensures r.Got? ==> |r.rest| < |s|
    decreases |s|, 2
  {
    match ReadKey(s)
    case Fail => Fail
    case Got(key, rest) =>
      var t := SkipBlanks(rest);
      if t == "" || t[0] != '=' then Fail
      else
        match ReadValue(SkipBlanks(t[1..]))
        case Fail => Fail
        case Got(v, rest') => Got((key, v), rest')
  }

  /** The rest of an inline table with at least one pair; no key may appear twice. */
  function ReadPairs(s: string): (r: Parsed<Object>)
    ensures r.Got? ==> |r.rest| < |s|
    decreases |s|, 3
  {
    match ReadPair(s)
    case Fail => Fail
    case Got((key, v), rest) =>
      var t := SkipBlanks(rest);
      if t != "" && t[0] == '}' then Got(map[key := v], t[1..])
      else if t != "" && t[0] == ',' then
        match ReadPairs(SkipBlanks(t[1..]))
        case Fail => Fail
        case Got(entries, rest') => if key in entries then Fail else Got(entries[key := v], rest')
      else Fail
  }

  /* Lines */

  datatype Statement =
    | Header(path: Path, repeated: bool)
    | Pair(key: string, value: Tree)

  predicate OnlyBlanks(s: string) {
    SkipBlanks(s) == ""
  }

  /** A line is blank or a comment (Ok(None)), one statement, or an error. */
  function ReadLine(line: string): Result<Option<Statement>, ()> {
    var s := SkipBlanks(line);
    if s == "" || s[0] == '#' then Ok(None)
    else if "[[" <= s then
      match ReadDotted(s[2..])
      case Fail => Err(())
      case Got(path, rest) =>
        if "]]" <= rest && OnlyBlanks(rest[2..]) then Ok(Some(Header(path, true))) else Err(())
    else if s[0] == '[' then
      match ReadDotted(s[1..])
      case Fail => Err(())
      case Got(path, rest) =>
        if "]" <= rest && OnlyBlanks(rest[1..]) then Ok(Some(Header(path, false))) else Err(())
    else
      match ReadPair(s)
      case Fail => Err(())
      case Got((key, v), rest) => if OnlyBlanks(rest) then Ok(Some(Pair(key, v))) else Err(())
  }

  function ReadLines(lines: seq<string>): Option<seq<Statement>> {
    if lines == [] then Some([])
    else
      match (ReadLines(lines[..|lines| - 1]), ReadLine(lines[|lines| - 1]))
      case (Some(before), Ok(None)) => Some(before)
      case (Some(before), Ok(Some(statement))) => Some(before + [statement])
      case _ => None
  }

  /* Sections "Table" and "Array of Tables" */

  datatype Change = AddTable(key: string) | AppendTable(key: string) | AddPair(key: string, value: Tree)

  /** Nothing may be defined twice; an array of tables grows at its end. */
  function Changed(m: Object, change: Change): Option<Object> {
    match change
    case AddTable(k) => if k in m then None else Some(m[k := Map(map[])])
    case AddPair(k, v) => if k in m then None else Some(m[k := v])
    case AppendTable(k) =>
      if k !in m then Some(m[k := List([Map(map[])])])
      else if m[k].List? then Some(m[k := List(m[k].items + [Map(map[])])])
      else None
  }

  /**
   Changes the table a path leads to. A key that holds an array of tables leads to its
   last element; a key that is not there yet leads to a new table.
   */
  function ChangeAt(m: Object, path: Path, change: Change): Option<Object>
    decreases |path|
  {
    if path == [] then Changed(m, change) else
    var k, rest := path[0], path[1..];
    if k !in m then
      match ChangeAt(map[], rest, change)
      case None => None
      case Some(t) => Some(m[k := Map(t)])
    else if m[k].Map? then
      match ChangeAt(m[k].entries, rest, change)
      case None => None
      case Some(t) => Some(m[k := Map(t)])
    else if m[k].List? && m[k].items != [] && m[k].items[|m[k].items| - 1].Map? then
      var items, last := m[k].items, |m[k].items| - 1;
      match ChangeAt(items[last].entries, rest, change)
      case None => None
      case Some(t) => Some(m[k := List(items[last := Map(t)])])
    else None
  }

  /** The document so far, and the table that pairs go into. */
  datatype Builder = Builder(root: Object, current: Path)

  function Build(b: Builder, statement: Statement): Option<Builder> {
    match statement
    case Pair(k, v) =>
      (match ChangeAt(b.root, b.current, AddPair(k, v))
       case None => None
       case Some(root) => Some(Builder(root, b.current)))
    case Header(path, repeated) =>
      if path == [] then None else
      var parent, k := path[..|path| - 1], path[|path| - 1];
      match ChangeAt(b.root, parent, if repeated then AppendTable(k) else AddTable(k))
      case None => None
      case Some(root) => Some(Builder(root, path))
  }

  function BuildAll(b: Builder, statements: seq<Statement>): Option<Builder>
    decreases |statements|
  {
    if statements == [] then Some(b)
    else
      match Build(b, statements[0])
      case None => None
      case Some(b') => BuildAll(b', statements[1..])
  }

  /** The mapping a document stands for, or None for a document that is not valid. */
  function ReadToml(text: string): Option<Object> {
    match ReadLines(Split(text, '\n'))
    case None => None
    case Some(statements) =>
      match BuildAll(Builder(map[], []), statements)
      case None => None
      case Some(b) => Some(b.root)
  }
}
