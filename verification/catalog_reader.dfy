/**
 The catalog reader (`native/src/catalog.rs`): a bounded subset of the Common Lisp reader with lists, keywords, decimal
 integers, strings, and line and block comments.

 A source is a sequence of bytes, each written as the character of its code. The functions say what the reader does from a
 cursor; the class `Reader` does it by moving its cursor.
 */
module CatalogReader {
  import opened Wrappers

  const MAXIMUM_CATALOG_BYTES: nat := 65536
  const MAXIMUM_DEPTH: nat := 32
  const MAXIMUM_NODES: nat := 4096
  const I64_MAX: int := 0x7fff_ffff_ffff_ffff

  datatype Form = List(forms: seq<Form>) | Keyword(name: string) | Text(value: string) | Integer(number: int)

  datatype ReadError = TooLarge | UnterminatedComment | CommentNesting | ListNesting | NodeLimit | UnexpectedEnd
                     | UnterminatedString | UnterminatedEscape | UnsupportedSyntax | InvalidKeyword
                     | UnsupportedToken | IntegerRange | MoreForms

  // ---- Characters ----

  predicate White(c: char) {
    c == ' ' || c == '\t' || c == '\n' || c == '\r' || c == '\U{0c}'
  }

  predicate Delimiter(c: char) {
    White(c) || c == '(' || c == ')' || c == ';' || c == '"'
  }

  predicate Digit(c: char) {
    '0' <= c <= '9'
  }

  predicate KeywordChar(c: char) {
    'a' <= c <= 'z' || 'A' <= c <= 'Z' || Digit(c) || c == '-'
  }

  function Lower(c: char): char {
    if 'A' <= c <= 'Z' then (c as int + 32) as char else c
  }

  function LowerAll(s: string): (r: string)
    ensures |r| == |s| && forall i :: 0 <= i < |s| ==> r[i] == Lower(s[i])
  {
    if s == "" then "" else [Lower(s[0])] + LowerAll(s[1..])
  }

  predicate Pair(s: string, c: nat, first: char, second: char) {
    c + 2 <= |s| && s[c] == first && s[c + 1] == second
  }

  // ---- Space and comments ----

  function SkipWhite(s: string, c: nat): (r: nat)
    requires c <= |s|
    ensures c <= r <= |s| && (r < |s| ==> !White(s[r]))
    decreases |s| - c
  {
    if c < |s| && White(s[c]) then SkipWhite(s, c + 1) else c
  }

  function SkipLine(s: string, c: nat): (r: nat)
    requires c <= |s|
    ensures c <= r <= |s| && (c < |s| && s[c] != '\n' ==> c < r)
    decreases |s| - c
  {
    if c < |s| && s[c] != '\n' then SkipLine(s, c + 1) else c
  }

  /** The rest of a block comment that is `depth` levels deep at the cursor. */
  function SkipBlock(s: string, c: nat, depth: nat): (r: Result<nat, ReadError>)
    requires c <= |s|
    ensures r.Ok? ==> c <= r.value <= |s|
    decreases |s| - c, depth
  {
    if depth == 0 then Ok(c)
    else if c == |s| then Err(UnterminatedComment)
    else if Pair(s, c, '#', '|') then
      if depth + 1 > MAXIMUM_DEPTH then Err(CommentNesting) else SkipBlock(s, c + 2, depth + 1)
    else if Pair(s, c, '|', '#') then SkipBlock(s, c + 2, depth - 1)
    else SkipBlock(s, c + 1, depth)
  }

  function SkipSpace(s: string, c: nat): (r: Result<nat, ReadError>)
    requires c <= |s|
    ensures r.Ok? ==> c <= r.value <= |s|
    decreases |s| - c
  {
    var d := SkipWhite(s, c);
    if d < |s| && s[d] == ';' then SkipSpace(s, SkipLine(s, d))
    else if Pair(s, d, '#', '|') then
      match SkipBlock(s, d + 2, 1)
      case Err(e) => Err(e)
      case Ok(e) => SkipSpace(s, e)
    else Ok(d)
  }

  // ---- Tokens ----

  function ReadString(s: string, c: nat, value: string): (r: Result<(string, nat), ReadError>)
    requires c <= |s|
    ensures r.Ok? ==> c < r.value.1 <= |s|
    decreases |s| - c
  {
    if c == |s| then Err(UnterminatedString)
    else if s[c] == '"' then Ok((value, c + 1))
    else if s[c] == '\\' then
      if c + 1 == |s| then Err(UnterminatedEscape) else ReadString(s, c + 2, value + [s[c + 1]])
    else ReadString(s, c + 1, value + [s[c]])
  }

  function TokenEnd(s: string, c: nat): (r: nat)
    requires c <= |s|
    ensures c <= r <= |s|
    decreases |s| - c
  {
    if c < |s| && !Delimiter(s[c]) then TokenEnd(s, c + 1) else c
  }

  function Value(digits: string): nat
    requires forall i :: 0 <= i < |digits| ==> Digit(digits[i])
  {
    if digits == "" then 0
    else
      var last := digits[|digits| - 1];
      assert Digit(last);
      Value(digits[..|digits| - 1]) * 10 + (last as int - '0' as int)
  }

  function Unsigned(s: string): string {
    if s != "" && (s[0] == '+' || s[0] == '-') then s[1..] else s
  }

  function ParseInteger(s: string): Result<Form, ReadError> {
    var digits := Unsigned(s);
    if digits == "" || !(forall i :: 0 <= i < |digits| ==> Digit(digits[i])) then Err(UnsupportedToken)
    else
      var n: int := if s[0] == '-' then -(Value(digits) as int) else Value(digits);
      if -I64_MAX - 1 <= n <= I64_MAX then Ok(Integer(n)) else Err(IntegerRange)
  }

  function ParseToken(token: string): Result<Form, ReadError> {
    if token != "" && token[0] == ':' then
      var name := token[1..];
      if name == "" || !(forall i :: 0 <= i < |name| ==> KeywordChar(name[i])) then Err(InvalidKeyword)
      else Ok(Keyword(LowerAll(name)))
    else if LowerAll(token) == "nil" then Ok(List([]))
    else if token != "" && token[|token| - 1] == '.' then ParseInteger(token[..|token| - 1])
    else ParseInteger(token)
  }

  // ---- Forms ----

  datatype Parsed = Parsed(form: Form, cursor: nat, nodes: nat)
  datatype ParsedList = ParsedList(forms: seq<Form>, cursor: nat, nodes: nat)

  function ReadForm(s: string, c: nat, nodes: nat, depth: nat): (r: Result<Parsed, ReadError>)
    requires c <= |s|
    ensures r.Ok? ==> c < r.value.cursor <= |s|
    decreases |s| - c, 1
  {
    match SkipSpace(s, c)
    case Err(e) => Err(e)
    case Ok(d) =>
      if depth > MAXIMUM_DEPTH then Err(ListNesting)
      else if nodes + 1 > MAXIMUM_NODES then Err(NodeLimit)
      else if d == |s| then Err(UnexpectedEnd)
      else if s[d] == '(' then
        match ReadItems(s, d + 1, nodes + 1, depth)
        case Err(e) => Err(e)
        case Ok(items) => Ok(Parsed(List(items.forms), items.cursor, items.nodes))
      else if s[d] == '"' then
        match ReadString(s, d + 1, "")
        case Err(e) => Err(e)
        case Ok(read) => Ok(Parsed(Text(read.0), read.1, nodes + 1))
      else if s[d] in ")#'`,|\\" then Err(UnsupportedSyntax)
      else
        var end := TokenEnd(s, d + 1);
        match ParseToken(s[d..end])
        case Err(e) => Err(e)
        case Ok(form) => Ok(Parsed(form, end, nodes + 1))
  }

  /** The rest of a list of the given depth, up to and past its closing parenthesis. */
  function ReadItems(s: string, c: nat, nodes: nat, depth: nat): (r: Result<ParsedList, ReadError>)
    requires c <= |s|
    ensures r.Ok? ==> c < r.value.cursor <= |s|
    decreases |s| - c, 2
  {
    match SkipSpace(s, c)
    case Err(e) => Err(e)
    case Ok(d) =>
      if d < |s| && s[d] == ')' then Ok(ParsedList([], d + 1, nodes))
      else
        match ReadForm(s, d, nodes, depth + 1)
        case Err(e) => Err(e)
        case Ok(first) =>
          match ReadItems(s, first.cursor, first.nodes, depth)
          case Err(e) => Err(e)
          case Ok(rest) => Ok(ParsedList([first.form] + rest.forms, rest.cursor, rest.nodes))
  }

  function ReadSource(s: string): Result<Form, ReadError> {
    if |s| > MAXIMUM_CATALOG_BYTES then Err(TooLarge)
    else
      match ReadForm(s, 0, 0, 0)
      case Err(e) => Err(e)
      case Ok(read) =>
        match SkipSpace(s, read.cursor)
        case Err(e) => Err(e)
        case Ok(end) => if end != |s| then Err(MoreForms) else Ok(read.form)
  }

  // ---- The reader that moves its cursor ----

  class Reader {
    const bytes: string
    var cursor: nat
    var nodes: nat

    constructor (bytes: string)
      ensures this.bytes == bytes && cursor == 0 && nodes == 0
    {
      this.bytes, cursor, nodes := bytes, 0, 0;
    }

    predicate Valid()
      reads this
    {
      cursor <= |bytes|
    }

    method Skip() returns (error: Option<ReadError>)
      requires Valid()
      modifies this`cursor
      ensures Valid()
      ensures error.None? ==> SkipSpace(bytes, old(cursor)) == Ok(cursor)
      ensures error.Some? ==> SkipSpace(bytes, old(cursor)) == Err(error.value)
    {
      while true
        invariant Valid() && old(cursor) <= cursor
        invariant SkipSpace(bytes, old(cursor)) == SkipSpace(bytes, cursor)
        decreases |bytes| - cursor
      {
        ghost var start := cursor;
        while cursor < |bytes| && White(bytes[cursor])
          invariant Valid() && start <= cursor && SkipWhite(bytes, start) == SkipWhite(bytes, cursor)
        {
          cursor := cursor + 1;
        }
        if cursor < |bytes| && bytes[cursor] == ';' {
          ghost var line := cursor;
          while cursor < |bytes| && bytes[cursor] != '\n'
            invariant Valid() && line <= cursor && SkipLine(bytes, line) == SkipLine(bytes, cursor)
            invariant line == cursor ==> bytes[cursor] == ';'
          {
            cursor := cursor + 1;
          }
        } else if Pair(bytes, cursor, '#', '|') {
          error := SkipComment();
          if error.Some? {
            return;
          }
        } else {
          return None;
        }
      }
    }

    method SkipComment() returns (error: Option<ReadError>)
      requires Valid() && Pair(bytes, cursor, '#', '|')
      modifies this`cursor
      ensures Valid() && (error.None? ==> cursor > old(cursor))
      ensures error.None? ==> SkipBlock(bytes, old(cursor) + 2, 1) == Ok(cursor)
      ensures error.Some? ==> SkipBlock(bytes, old(cursor) + 2, 1) == Err(error.value)
    {
      cursor := cursor + 2;
      var depth := 1;
      while depth > 0
        invariant Valid() && cursor >= old(cursor) + 2
        invariant SkipBlock(bytes, old(cursor) + 2, 1) == SkipBlock(bytes, cursor, depth)
        decreases |bytes| - cursor, depth
      {
        if cursor == |bytes| {
          return Some(UnterminatedComment);
        }
        if Pair(bytes, cursor, '#', '|') {
          depth := depth + 1;
          if depth > MAXIMUM_DEPTH {
            return Some(CommentNesting);
          }
          cursor := cursor + 2;
        } else if Pair(bytes, cursor, '|', '#') {
          depth := depth - 1;
          cursor := cursor + 2;
        } else {
          cursor := cursor + 1;
        }
      }
      return None;
    }

    method NextForm(depth: nat) returns (r: Result<Form, ReadError>)
      requires Valid()
      modifies this
      ensures Valid()
      ensures match r
        case Err(e) => ReadForm(bytes, old(cursor), old(nodes), depth) == Err(e)
        case Ok(form) => ReadForm(bytes, old(cursor), old(nodes), depth) == Ok(Parsed(form, cursor, nodes))
      decreases |bytes| - cursor, 1
    {
      var error := Skip();
      if error.Some? {
        return Err(error.value);
      }
      if depth > MAXIMUM_DEPTH {
        return Err(ListNesting);
      }
      nodes := nodes + 1;
      if nodes > MAXIMUM_NODES {
        return Err(NodeLimit);
      }
      if cursor == |bytes| {
        return Err(UnexpectedEnd);
      }
      var byte := bytes[cursor];
      cursor := cursor + 1;
      if byte == '(' {
        var items := Items(depth);
        return match items case Err(e) => Err(e) case Ok(forms) => Ok(List(forms));
      }
      if byte == '"' {
        r := StringBody();
        return;
      }
      if byte in ")#'`,|\\" {
        return Err(UnsupportedSyntax);
      }
      var start := cursor - 1;
      FindTokenEnd();
      return ParseToken(bytes[start..cursor]);
    }

    method FindTokenEnd()
      requires Valid()
      modifies this`cursor
      ensures Valid() && cursor == TokenEnd(bytes, old(cursor))
    {
      while cursor < |bytes| && !Delimiter(bytes[cursor])
        invariant Valid() && TokenEnd(bytes, old(cursor)) == TokenEnd(bytes, cursor)
      {
        cursor := cursor + 1;
      }
    }

    method Items(depth: nat) returns (r: Result<seq<Form>, ReadError>)
      requires Valid()
      modifies this
      ensures Valid()
      ensures match r
        case Err(e) => ReadItems(bytes, old(cursor), old(nodes), depth) == Err(e)
        case Ok(forms) => ReadItems(bytes, old(cursor), old(nodes), depth) == Ok(ParsedList(forms, cursor, nodes))
      decreases |bytes| - cursor, 2
    {
      var values: seq<Form> := [];
      ghost var whole := ReadItems(bytes, cursor, nodes, depth);
      assert whole.Ok? ==> values + whole.value.forms == whole.value.forms;
      while true
        invariant Valid() && cursor >= old(cursor)
        invariant match ReadItems(bytes, cursor, nodes, depth)
          case Err(e) => whole == Err(e)
          case Ok(rest) => whole == Ok(ParsedList(values + rest.forms, rest.cursor, rest.nodes))
        decreases |bytes| - cursor
      {
        var error := Skip();
        if error.Some? {
          return Err(error.value);
        }
        if cursor < |bytes| && bytes[cursor] == ')' {
          cursor := cursor + 1;
          assert values + [] == values;
          return Ok(values);
        }
        var value := NextForm(depth + 1);
        if value.Err? {
          return Err(value.error);
        }
        ghost var tail := ReadItems(bytes, cursor, nodes, depth);
        assert tail.Ok? ==> values + ([value.value] + tail.value.forms) == (values + [value.value]) + tail.value.forms;
        values := values + [value.value];
      }
    }

    method StringBody() returns (r: Result<Form, ReadError>)
      requires Valid()
      modifies this`cursor
      ensures Valid()
      ensures match r
        case Err(e) => ReadString(bytes, old(cursor), "") == Err(e)
        case Ok(form) => form.Text? && ReadString(bytes, old(cursor), "") == Ok((form.value, cursor))
    {
      var value := "";
      while true
        invariant Valid() && ReadString(bytes, old(cursor), "") == ReadString(bytes, cursor, value)
        decreases |bytes| - cursor
      {
        if cursor == |bytes| {
          return Err(UnterminatedString);
        }
        var byte := bytes[cursor];
        cursor := cursor + 1;
        if byte == '"' {
          return Ok(Text(value));
        }
        if byte == '\\' {
          if cursor == |bytes| {
            return Err(UnterminatedEscape);
          }
          value := value + [bytes[cursor]];
          cursor := cursor + 1;
        } else {
          value := value + [byte];
        }
      }
    }
  }

  method Read(source: string) returns (r: Result<Form, ReadError>)
    ensures r == ReadSource(source)
  {
    if |source| > MAXIMUM_CATALOG_BYTES {
      return Err(TooLarge);
    }
    var reader := new Reader(source);
    r := reader.NextForm(0);
    if r.Err? {
      return;
    }
    var error := reader.Skip();
    if error.Some? {
      return Err(error.value);
    }
    if reader.cursor != |source| {
      return Err(MoreForms);
    }
  }
}
