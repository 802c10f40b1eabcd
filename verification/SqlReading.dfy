// The engine reading the statements of a SQL backup, and what a restore makes of
// them. The readers are written from the statements' grammar, not from the printer.
module SqlReading {
  import opened Wrappers
  import opened SqlScript
  import opened SqlLiterals
  import opened SqlDump

  /* ----- names ----- */

  // What is read, and the text behind it.
  datatype Name = Name(name: string, rest: string)

  // MySQL quotes names with backticks, the others as section 5.2 of ISO/IEC 9075-2.
  function NameQuote(e: Engine): char {
    match e
    case Mysql => '`'
    case _ => '"'
  }

  function Ahead(c: char, r: Option<Name>): Option<Name> {
    if r.Some? then Some(Name([c] + r.value.name, r.value.rest)) else None
  }

  // Behind the opening quote; a doubled quote stands for one.
  function ReadQuoted(q: char, s: string): (r: Option<Name>)
    ensures r.Some? ==> |r.value.rest| < |s|
    decreases |s|
  {
    if |s| == 0 then None
    else if s[0] != q then Ahead(s[0], ReadQuoted(q, s[1..]))
    else if Two(s, q, q) then Ahead(q, ReadQuoted(q, s[2..]))
    else Some(Name("", s[1..]))
  }

  function ReadName(e: Engine, s: string): (r: Option<Name>)
    ensures r.Some? ==> |r.value.rest| < |s|
  {
    if Starts(s, [NameQuote(e)]) then ReadQuoted(NameQuote(e), s[1..]) else None
  }

  lemma {:induction false} QuotedReads(q: char, name: string, rest: string, s: string)
    requires s == Double(q, name) + ([q] + rest) && !Starts(rest, [q])
    ensures ReadQuoted(q, s) == Some(Name(name, rest))
    decreases |name|
  {
    if |name| == 0 {
      assert s == [q] + rest;
    } else {
      var head, tail := if name[0] == q then [q, q] else [name[0]], Double(q, name[1..]) + ([q] + rest);
      Assoc(head, Double(q, name[1..]), [q] + rest);
      assert s[|head|..] == tail;
      QuotedReads(q, name[1..], rest, tail);
      assert [name[0]] + name[1..] == name;
    }
  }

  /** A printed name reads back, whatever it holds: quotes, dots, commas, parentheses. */
  lemma NameReadsBack(e: Engine, name: string, rest: string)
    requires !Starts(rest, [NameQuote(e)])
    ensures ReadName(e, QuoteIdent(e, name) + rest) == Some(Name(name, rest))
  {
    var q := NameQuote(e);
    var s := QuoteIdent(e, name) + rest;
    assert s[0] == q && s[1..] == Double(q, name) + ([q] + rest);
    assert Starts(s, [q]);
    QuotedReads(q, name, rest, s[1..]);
  }

  // The text behind an expected mark.
  function Behind(s: string, mark: string): (r: Option<string>)
    ensures r.Some? ==> |r.value| <= |s|
  {
    if Starts(s, mark) then Some(s[|mark|..]) else None
  }

  lemma BehindMark(mark: string, rest: string, s: string)
    requires s == mark + rest
    ensures Behind(s, mark) == Some(rest)
  {
  }

  // A table name with its schema, if any.
  datatype Target = Target(schema: string, table: string, rest: string)

  function ReadTarget(e: Engine, s: string): Option<Target> {
    var first :- ReadName(e, s);
    if Starts(first.rest, ".") then
      var second :- ReadName(e, first.rest[1..]);
      Some(Target(first.name, second.name, second.rest))
    else Some(Target("", first.name, first.rest))
  }

  lemma TargetReadsBack(e: Engine, t: Table, rest: string)
    requires Starts(rest, " ")
    ensures ReadTarget(e, Text(Qualify(e, t)) + rest) == Some(Target(t.schema, t.name, rest))
  {
    PlainText(QuoteIdent(e, t.name));
    OtherMark(rest, ' ', NameQuote(e));
    OtherMark(rest, ' ', '.');
    NameReadsBack(e, t.name, rest);
    if t.schema != "" {
      SchemaAhead(e, t);
      TwoNames(e, t.schema, t.name, rest);
    }
  }

  lemma OtherMark(s: string, a: char, b: char)
    requires Starts(s, [a]) && a != b
    ensures !Starts(s, [b])
  {
    assert s[..1][0] == a;
  }

  lemma TwoNames(e: Engine, schema: string, table: string, rest: string)
    requires ReadName(e, QuoteIdent(e, table) + rest) == Some(Name(table, rest))
    ensures ReadTarget(e, QuoteIdent(e, schema) + "." + QuoteIdent(e, table) + rest) == Some(Target(schema, table, rest))
  {
    var second := QuoteIdent(e, table) + rest;
    var behind := "." + second;
    assert behind[1..] == second && Starts(behind, ".");
    OtherMark(behind, '.', NameQuote(e));
    NameReadsBack(e, schema, behind);
    FourTexts(QuoteIdent(e, schema), ".", QuoteIdent(e, table), rest);
  }

  lemma FourTexts(a: string, b: string, c: string, d: string)
    ensures a + b + c + d == a + (b + (c + d)) && a + (b + c) + d == a + (b + (c + d))
  {
  }

  /* ----- lists of names ----- */

  datatype NameList = NameList(names: seq<string>, rest: string)

  // Names with ", " between them, up to a closing parenthesis.
  function ReadNames(e: Engine, s: string): Option<NameList> {
    if Starts(s, ")") then Some(NameList([], s[1..])) else ReadSome(e, s)
  }

  function ReadSome(e: Engine, s: string): Option<NameList>
    decreases |s|
  {
    var first :- ReadName(e, s);
    if Starts(first.rest, ")") then Some(NameList([first.name], first.rest[1..]))
    else if Starts(first.rest, ", ") then
      var more :- ReadSome(e, first.rest[2..]);
      Some(NameList([first.name] + more.names, more.rest))
    else None
  }

  lemma SeparatedText(first: seq<Token>, separator: string, more: seq<Token>)
    ensures Text(first + [Plain(separator)] + more) == Text(first) + (separator + Text(more))
  {
    TextConcat(first + [Plain(separator)], more);
    TextConcat(first, [Plain(separator)]);
    PlainText(separator);
    Assoc(Text(first), separator, Text(more));
  }

  function NamesText(e: Engine, names: seq<string>): string {
    Text(Joined(Idents(e, names), ", "))
  }

  lemma JoinedTextIs(parts: seq<seq<Token>>, separator: string, first: seq<Token>, more: seq<seq<Token>>)
    requires parts == [first] + more
    ensures Text(Joined(parts, separator)) == Text(first) + (if more == [] then "" else separator + Text(Joined(more, separator)))
  {
    if more != [] {
      assert parts[1..] == more;
      SeparatedText(first, separator, Joined(more, separator));
    }
  }

  lemma NamesTextIs(e: Engine, names: seq<string>)
    requires |names| > 0
    ensures NamesText(e, names) == QuoteIdent(e, names[0]) + (if |names| == 1 then "" else ", " + NamesText(e, names[1..]))
  {
    PlainText(QuoteIdent(e, names[0]));
    JoinedTextIs(Idents(e, names), ", ", Ident(e, names[0]), Idents(e, names[1..]));
  }

  lemma StartsAt(s: string, mark: string, i: nat)
    requires Starts(s, mark) && i < |mark|
    ensures s[i] == mark[i]
  {
    assert s[..|mark|][i] == s[i];
  }

  lemma NameAhead(e: Engine, s: string, first: Name, more: NameList)
    requires ReadName(e, s) == Some(first) && Starts(first.rest, ", ") && ReadSome(e, first.rest[2..]) == Some(more)
    ensures ReadSome(e, s) == Some(NameList([first.name] + more.names, more.rest))
  {
    StartsAt(first.rest, ", ", 0);
    if Starts(first.rest, ")") { StartsAt(first.rest, ")", 0); }
  }

  lemma LastName(e: Engine, s: string, first: Name, rest: string)
    requires ReadName(e, s) == Some(first) && first.rest == ")" + rest
    ensures ReadSome(e, s) == Some(NameList([first.name], rest))
  {
    assert first.rest[1..] == rest;
  }

  lemma {:induction false} SomeReadBack(e: Engine, names: seq<string>, rest: string)
    requires |names| > 0
    ensures ReadSome(e, NamesText(e, names) + (")" + rest)) == Some(NameList(names, rest))
    decreases |names|
  {
    var first := QuoteIdent(e, names[0]);
    NamesTextIs(e, names);
    if |names| == 1 {
      NothingBehind(first);
      NameReadsBack(e, names[0], ")" + rest);
      LastName(e, first + (")" + rest), Name(names[0], ")" + rest), rest);
    } else {
      var more := NamesText(e, names[1..]) + (")" + rest);
      FourTexts(first, ", ", NamesText(e, names[1..]), ")" + rest);
      NameReadsBack(e, names[0], ", " + more);
      SomeReadBack(e, names[1..], rest);
      MarkBehind(", ", more);
      NameAhead(e, first + (", " + more), Name(names[0], ", " + more), NameList(names[1..], rest));
    }
    FirstAndRest(names);
  }

  lemma NothingBehind<T>(s: seq<T>)
    ensures s + [] == s
  {
  }

  lemma MarkBehind(mark: string, rest: string)
    ensures Starts(mark + rest, mark) && (mark + rest)[|mark|..] == rest
  {
  }

  lemma FirstAndRest<T>(s: seq<T>)
    requires |s| > 0
    ensures [s[0]] + s[1..] == s && (|s| == 1 ==> s == [s[0]])
  {
  }

  lemma NamesReadBack(e: Engine, names: seq<string>, rest: string)
    ensures ReadNames(e, NamesText(e, names) + (")" + rest)) == Some(NameList(names, rest))
  {
    var s := NamesText(e, names) + (")" + rest);
    if |names| == 0 {
      assert s == ")" + rest && s[1..] == rest;
    } else {
      NamesTextIs(e, names);
      assert s[0] == QuoteIdent(e, names[0])[0] == NameQuote(e);
      assert Starts(s, [NameQuote(e)]);
      OtherMark(s, NameQuote(e), ')');
      assert [')'] == ")";
      SomeReadBack(e, names, rest);
    }
  }

  /* ----- INSERT ----- */

  // The cells up to the parenthesis that ends the statement.
  function ReadCells(e: Engine, s: string, n: nat): (r: Option<seq<Cell>>)
    ensures r.Some? ==> |r.value| == n
    decreases n
  {
    if n == 0 then if s == ")" then Some([]) else None
    else
      match ReadCell(e, s)
      case Malformed => None
      case CellRead(cell, rest) =>
        if n == 1 then if rest == ")" then Some([cell]) else None
        else
          var next :- Behind(rest, ", ");
          var more :- ReadCells(e, next, n - 1);
          Some([cell] + more)
  }

  lemma RowSplits(e: Engine, s: string, cells: seq<Cell>) returns (rest: string)
    requires ReadsRow(e, s, cells) && |cells| > 0
    ensures ReadCell(e, s) == CellRead(cells[0], rest)
    ensures if |cells| == 1 then rest == ")" else Starts(rest, ", ") && ReadsRow(e, rest[2..], cells[1..])
  {
    rest := ReadCell(e, s).rest;
  }

  lemma {:induction false} CellsAreRead(e: Engine, s: string, cells: seq<Cell>)
    requires ReadsRow(e, s, cells)
    ensures ReadCells(e, s, |cells|) == Some(cells)
    decreases |cells|
  {
    if |cells| > 0 {
      var rest := RowSplits(e, s, cells);
      FirstAndRest(cells);
      if |cells| == 1 {
        LastCell(e, s, cells[0]);
      } else {
        CellsAreRead(e, rest[2..], cells[1..]);
        CellAhead(e, s, cells[0], rest, cells[1..]);
      }
    }
  }

  lemma LastCell(e: Engine, s: string, cell: Cell)
    requires ReadCell(e, s) == CellRead(cell, ")")
    ensures ReadCells(e, s, 1) == Some([cell])
  {
  }

  lemma CellAhead(e: Engine, s: string, cell: Cell, rest: string, more: seq<Cell>)
    requires ReadCell(e, s) == CellRead(cell, rest) && Starts(rest, ", ") && |more| > 0
    requires ReadCells(e, rest[2..], |more|) == Some(more)
    ensures ReadCells(e, s, |more| + 1) == Some([cell] + more)
  {
  }

  type Cells = map<string, Cell>

  datatype Inserted = Inserted(schema: string, table: string, row: Cells)

  // Each name with the cell in its place.
  function Zip(names: seq<string>, cells: seq<Cell>): (r: Cells)
    requires |names| == |cells|
    ensures forall n :: n in r <==> n in names
  {
    if |names| == 0 then map[] else Zip(names[1..], cells[1..])[names[0] := cells[0]]
  }

  function ReadInsert(e: Engine, s: string): Option<Inserted> {
    var a :- Behind(s, "INSERT INTO ");
    var target :- ReadTarget(e, a);
    var b :- Behind(target.rest, " (");
    var list :- ReadNames(e, b);
    var c :- Behind(list.rest, " VALUES (");
    var cells :- ReadCells(e, c, |list.names|);
    Some(Inserted(target.schema, target.table, Zip(list.names, cells)))
  }

  // The engine's cells of a row: one for every column, NULL where the row has none.
  ghost predicate RowStored(e: Engine, columns: seq<Column>, row: Record, stored: Cells) {
    && (forall n :: n in stored <==> exists i :: 0 <= i < |columns| && columns[i].name == n)
    && (forall i :: 0 <= i < |columns| ==>
          var n := columns[i].name; n in stored && stored[n] == CellOf(e, if n in row then row[n] else Null))
  }

  function ValueAt(row: Record, name: string): Value {
    if name in row then row[name] else Null
  }

  lemma {:induction false} ZipAt(e: Engine, names: seq<string>, cells: seq<Cell>, row: Record)
    requires |names| == |cells| && forall i :: 0 <= i < |names| ==> cells[i] == CellOf(e, ValueAt(row, names[i]))
    ensures forall n :: n in names ==> Zip(names, cells)[n] == CellOf(e, ValueAt(row, n))
  {
    if |names| > 0 {
      ZipAt(e, names[1..], cells[1..], row);
      assert names == [names[0]] + names[1..];
    }
  }

  lemma ZipIsRow(e: Engine, t: Table, row: Record)
    ensures RowStored(e, t.columns, row, Zip(Names(t.columns), CellsOf(e, RowValues(t, row))))
  {
    var names, cells := Names(t.columns), CellsOf(e, RowValues(t, row));
    ZipAt(e, names, cells, row);
    forall i | 0 <= i < |t.columns| ensures t.columns[i].name in names {
      assert names[i] in names;
    }
  }

  lemma FlatFive(a: seq<Token>, b: seq<Token>, c: seq<Token>, d: seq<Token>, f: seq<Token>)
    ensures Flat([a, b, c, d, f]) == a + (b + (c + (d + f)))
  {
    FlatThree(c, d, f);
    assert [b, c, d, f][1..] == [c, d, f] && [a, b, c, d, f][1..] == [b, c, d, f];
    assert Flat([b, c, d, f]) == b + (c + (d + f));
  }

  // <word> <target> <open> <list> <close>
  lemma FiveText(word: string, target: seq<Token>, open: string, list: seq<Token>, close: string)
    ensures Text(Flat([[Plain(word)], target, [Plain(open)], list, [Plain(close)]])) ==
              word + (Text(target) + (open + (Text(list) + close)))
  {
    FlatFive([Plain(word)], target, [Plain(open)], list, [Plain(close)]);
    TextConcat([Plain(word)], target + ([Plain(open)] + (list + [Plain(close)])));
    TextConcat(target, [Plain(open)] + (list + [Plain(close)]));
    TextConcat([Plain(open)], list + [Plain(close)]);
    TextConcat(list, [Plain(close)]);
    PlainText(word);
    PlainText(open);
    PlainText(close);
  }

  lemma HeadText(target: string, names: string, values: string)
    ensures "INSERT INTO " + (target + (" (" + (names + ") VALUES ("))) + values ==
              "INSERT INTO " + (target + (" (" + (names + (")" + (" VALUES (" + values)))))
  {
  }

  /** An INSERT of the backup reads back as its row: into its own table, each column
      with the value the row has for it, and NULL where it has none. */
  lemma InsertReadsBack(e: Engine, t: Table, row: Record)
    requires CleanTable(t) && row in t.rows
    ensures var r := ReadInsert(e, Text(Insert(e, t, row)));
            && r.Some? && r.value.schema == t.schema && r.value.table == t.name
            && RowStored(e, t.columns, row, r.value.row)
  {
    var cells := CellsOf(e, RowValues(t, row));
    var target, names, values := Text(Qualify(e, t)), NamesText(e, Names(t.columns)), RowText(LiteralsOf(e, RowValues(t, row)));
    InsertHoldsRow(e, t, row);
    CellsAreRead(e, values, cells);
    FiveText("INSERT INTO ", Qualify(e, t), " (", Joined(Idents(e, Names(t.columns)), ", "), ") VALUES (");
    HeadText(target, names, values);
    ReadInsertIs(e, t, target, Names(t.columns), values, cells);
    ZipIsRow(e, t, row);
  }

  lemma ReadInsertIs(e: Engine, t: Table, target: string, names: seq<string>, values: string, cells: seq<Cell>)
    requires target == Text(Qualify(e, t)) && |names| == |cells| && ReadCells(e, values, |cells|) == Some(cells)
    ensures ReadInsert(e, "INSERT INTO " + (target + (" (" + (NamesText(e, names) + (")" + (" VALUES (" + values)))))) ==
              Some(Inserted(t.schema, t.name, Zip(names, cells)))
  {
    var d := " VALUES (" + values;
    var c := NamesText(e, names) + (")" + d);
    var b := " (" + c;
    BehindMark("INSERT INTO ", target + b, "INSERT INTO " + (target + b));
    TargetReadsBack(e, t, b);
    BehindMark(" (", c, b);
    NamesReadBack(e, names, d);
    BehindMark(" VALUES (", values, d);
  }

  /* ----- CREATE TABLE ----- */

  datatype ColumnRead = ColumnRead(name: string, dataType: string, notNull: bool, default: Option<string>)

  datatype Items = Items(columns: seq<ColumnRead>, primaryKey: seq<string>)

  datatype Created = Created(schema: string, table: string, items: Items)

  // The newline that ends an item, outside quotes.
  function ItemEnd(s: string, quoted: bool): (n: nat)
    ensures n <= |s|
  {
    if |s| == 0 || (s[0] == '\n' && !quoted) then 0 else 1 + ItemEnd(s[1..], quoted != (s[0] == '\''))
  }

  predicate At(s: string, k: nat, mark: string) {
    k + |mark| <= |s| && s[k..k + |mark|] == mark
  }

  predicate Lacks(s: string, mark: string) {
    forall k :: 0 <= k <= |s| ==> !At(s, k, mark)
  }

  // The first place of the mark from k on.
  function Find(s: string, mark: string, k: nat): (r: Option<nat>)
    ensures r.Some? ==> At(s, r.value, mark)
    decreases |s| - k
  {
    if k > |s| then None else if At(s, k, mark) then Some(k) else Find(s, mark, k + 1)
  }

  predicate Ends(s: string, mark: string) {
    |mark| <= |s| && s[|s| - |mark|..] == mark
  }

  // Type, constraint and default of a column.
  function ReadType(name: string, s: string): ColumnRead {
    var d := Find(s, " DEFAULT ", 0);
    var head, default := if d.Some? then s[..d.value] else s, if d.Some? then Some(s[d.value + 9..]) else None;
    if Ends(head, " NOT NULL") then ColumnRead(name, head[..|head| - 9], true, default)
    else ColumnRead(name, head, false, default)
  }

  // The columns and the primary key, up to the end of the statement.
  function ReadItems(e: Engine, s: string): Option<Items>
    decreases |s|
  {
    if s == "\n)" then Some(Items([], []))
    else if Starts(s, "  PRIMARY KEY (") then
      var list :- ReadNames(e, s[15..]);
      if list.rest == "\n)" then Some(Items([], list.names)) else None
    else
      var a :- Behind(s, "  ");
      var name :- ReadName(e, a);
      var b :- Behind(name.rest, " ");
      var n := ItemEnd(b, false);
      if b[n..] == "\n)" then Some(Items([ReadType(name.name, b[..n])], []))
      else if 0 < n < |b| && b[n - 1] == ',' then
        var more :- ReadItems(e, b[n + 1..]);
        Some(Items([ReadType(name.name, b[..n - 1])] + more.columns, more.primaryKey))
      else None
  }

  function ReadCreate(e: Engine, s: string): Option<Created> {
    var a :- Behind(s, "CREATE TABLE IF NOT EXISTS ");
    var target :- ReadTarget(e, a);
    var b :- Behind(target.rest, " (\n");
    var items :- ReadItems(e, b);
    Some(Created(target.schema, target.table, items))
  }

  /* ----- which columns read back ----- */

  // Quotes are closed, and no newline stands outside them.
  predicate Sealed(s: string, quoted: bool) {
    if |s| == 0 then !quoted
    else (s[0] == '\n' ==> quoted) && Sealed(s[1..], quoted != (s[0] == '\''))
  }

  predicate HasDefault(c: Column) {
    c.defaultValue != [] && !c.fromSequence
  }

  // The type does not read as a constraint or a default, and no line breaks.
  predicate Readable(c: Column) {
    && Sealed(c.dataType, false) && Lacks(c.dataType + " ", " DEFAULT ")
    && (c.nullable ==> !Ends(c.dataType, " NOT NULL"))
    && (HasDefault(c) ==> Sealed(Text(c.defaultValue), false))
  }

  lemma {:induction false} SealedConcat(a: string, b: string, quoted: bool)
    requires Sealed(a, quoted) && Sealed(b, false)
    ensures Sealed(a + b, quoted)
  {
    if |a| == 0 {
      assert a + b == b;
    } else {
      assert (a + b)[1..] == a[1..] + b;
      SealedConcat(a[1..], b, quoted != (a[0] == '\''));
    }
  }

  lemma {:induction false} ItemEndIs(s: string, rest: string, quoted: bool)
    requires Sealed(s, quoted) && (|rest| > 0 ==> rest[0] == '\n')
    ensures ItemEnd(s + rest, quoted) == |s|
  {
    if |s| == 0 {
      assert s + rest == rest;
    } else {
      assert (s + rest)[1..] == s[1..] + rest;
      ItemEndIs(s[1..], rest, quoted != (s[0] == '\''));
    }
  }

  // What Definition prints behind the name and its space.
  function Head(c: Column): string {
    c.dataType + (if c.nullable then "" else " NOT NULL")
  }

  function Body(c: Column): string {
    Head(c) + (if HasDefault(c) then " DEFAULT " + Text(c.defaultValue) else "")
  }

  lemma {:induction false} WordSealed(word: string)
    requires forall i :: 0 <= i < |word| ==> word[i] != '\'' && word[i] != '\n'
    ensures Sealed(word, false)
  {
    if |word| > 0 { WordSealed(word[1..]); }
  }

  lemma HeadSealed(c: Column)
    requires Readable(c)
    ensures Sealed(Head(c), false)
  {
    WordSealed("");
    WordSealed(" NOT NULL");
    SealedConcat(c.dataType, if c.nullable then "" else " NOT NULL", false);
  }

  lemma BodySealed(c: Column)
    requires Readable(c)
    ensures Sealed(Body(c), false) && Sealed(Body(c) + ",", false)
  {
    HeadSealed(c);
    if HasDefault(c) {
      WordSealed(" DEFAULT ");
      SealedConcat(" DEFAULT ", Text(c.defaultValue), false);
      SealedConcat(Head(c), " DEFAULT " + Text(c.defaultValue), false);
    } else {
      NothingBehind(Head(c));
    }
    WordSealed(",");
    SealedConcat(Body(c), ",", false);
  }

  lemma {:induction false} FindFirst(s: string, mark: string, k: nat, n: nat)
    requires k <= n <= |s| && At(s, n, mark) && forall j :: k <= j < n ==> !At(s, j, mark)
    ensures Find(s, mark, k) == Some(n)
    decreases n - k
  {
    if k < n { FindFirst(s, mark, k + 1, n); }
  }

  lemma {:induction false} FindNone(s: string, mark: string, k: nat)
    requires Lacks(s, mark)
    ensures Find(s, mark, k) == None
    decreases |s| - k
  {
    if k <= |s| { FindNone(s, mark, k + 1); }
  }

  lemma AtChar(s: string, k: nat, mark: string, i: nat)
    requires At(s, k, mark) && i < |mark|
    ensures s[k + i] == mark[i]
  {
    assert s[k..k + |mark|][i] == mark[i];
  }

  // An occurrence in a longer text that ends inside the shorter is one of the shorter.
  lemma AtPrefix(s: string, t: string, k: nat, mark: string)
    requires At(s + t, k, mark) && k + |mark| <= |s|
    ensures At(s, k, mark)
  {
    assert (s + t)[k..k + |mark|] == s[k..k + |mark|];
  }

  // A space behind a text cannot stand inside the mark, so it starts or ends it.
  lemma NoDefaultAcross(s: string, t: string, k: nat)
    requires Lacks(s + " ", " DEFAULT ") && k < |s| && Starts(t, " ")
    ensures !At(s + t, k, " DEFAULT ")
  {
    assert (s + t)[|s|] == t[0] == t[..1][0];
    if At(s + t, k, " DEFAULT ") {
      if k + 9 <= |s| + 1 {
        assert s + t == s + " " + t[1..];
        AtPrefix(s + " ", t[1..], k, " DEFAULT ");
      } else {
        AtChar(s + t, k, " DEFAULT ", |s| - k);
      }
    }
  }

  lemma HeadLacks(c: Column)
    requires Readable(c)
    ensures Lacks(Head(c) + " ", " DEFAULT ")
  {
    var s, t := c.dataType, " NOT NULL ";
    if !c.nullable {
      assert Head(c) + " " == s + t;
      forall k | 0 <= k <= |s + t| ensures !At(s + t, k, " DEFAULT ") {
        if k < |s| {
          NoDefaultAcross(s, t, k);
        } else if k + 1 < |s + t| {
          assert (s + t)[k + 1] == t[k + 1 - |s|];
          if At(s + t, k, " DEFAULT ") { AtChar(s + t, k, " DEFAULT ", 1); }
        }
      }
    } else {
      NothingBehind(s);
    }
  }

  lemma AtBehind(a: string, mark: string, b: string, s: string)
    requires s == a + (mark + b)
    ensures At(s, |a|, mark) && s[..|a|] == a && s[|a| + |mark|..] == b
  {
  }

  lemma DefaultFound(head: string, t: string, s: string)
    requires Lacks(head + " ", " DEFAULT ") && Starts(t, " ") && s == head + t && At(s, |head|, " DEFAULT ")
    ensures Find(s, " DEFAULT ", 0) == Some(|head|)
  {
    forall j | 0 <= j < |head| ensures !At(s, j, " DEFAULT ") {
      NoDefaultAcross(head, t, j);
    }
    FindFirst(s, " DEFAULT ", 0, |head|);
  }

  lemma NoDefaultFound(head: string)
    requires Lacks(head + " ", " DEFAULT ")
    ensures Find(head, " DEFAULT ", 0) == None
  {
    forall k | 0 <= k <= |head| ensures !At(head, k, " DEFAULT ") {
      if At(head, k, " DEFAULT ") {
        assert (head + " ")[k..k + 9] == head[k..k + 9];
        assert At(head + " ", k, " DEFAULT ");
      }
    }
    FindNone(head, " DEFAULT ", 0);
  }

  // What the engine makes of a column.
  ghost predicate ColumnIs(r: ColumnRead, c: Column) {
    && r.name == c.name && r.dataType == c.dataType && (r.notNull <==> !c.nullable)
    && r.default == if HasDefault(c) then Some(Text(c.defaultValue)) else None
  }

  lemma BodyReads(c: Column)
    requires Readable(c)
    ensures ColumnIs(ReadType(c.name, Body(c)), c)
  {
    var head := Head(c);
    HeadLacks(c);
    if HasDefault(c) {
      var t := " DEFAULT " + Text(c.defaultValue);
      assert t[..1] == " ";
      AtBehind(head, " DEFAULT ", Text(c.defaultValue), Body(c));
      DefaultFound(head, t, Body(c));
    } else {
      NothingBehind(head);
      NoDefaultFound(head);
    }
    HeadReads(c);
  }

  lemma HeadReads(c: Column)
    requires Readable(c)
    ensures Ends(Head(c), " NOT NULL") <==> !c.nullable
    ensures !c.nullable ==> Head(c)[..|Head(c)| - 9] == c.dataType
  {
    if c.nullable {
      NothingBehind(c.dataType);
    } else {
      assert Head(c)[|Head(c)| - 9..] == " NOT NULL";
    }
  }

  /* ----- the statement reads back ----- */

  lemma FlatOne(a: seq<Token>)
    ensures Flat([a]) == a
  {
    assert Flat([a]) == a + Flat([a][1..]);
  }

  lemma FlatTwo(a: seq<Token>, b: seq<Token>)
    ensures Flat([a, b]) == a + b
  {
    FlatOne(b);
    assert [a, b][1..] == [b];
  }

  lemma OptionsText(required: bool, plain: bool, value: seq<Token>)
    ensures Text(Flat(if required then [[Plain(" NOT NULL")]] else [])) == if required then " NOT NULL" else ""
    ensures Text(Flat(if plain then [] else [[Plain(" DEFAULT ")], value])) == if plain then "" else " DEFAULT " + Text(value)
  {
    PlainText(" NOT NULL");
    PlainText(" DEFAULT ");
    FlatOne([Plain(" NOT NULL")]);
    FlatTwo([Plain(" DEFAULT ")], value);
    TextConcat([Plain(" DEFAULT ")], value);
  }

  // A column's definition is its name and its body.
  lemma DefinitionText(e: Engine, c: Column)
    ensures Text(Definition(e, c)) == "  " + (QuoteIdent(e, c.name) + (" " + Body(c)))
  {
    var required := if c.nullable then [] else [[Plain(" NOT NULL")]];
    var default := if c.defaultValue == [] || c.fromSequence then [] else [[Plain(" DEFAULT ")], c.defaultValue];
    var ahead := [[Plain("  ")], Ident(e, c.name), [Plain(" ")], [Plain(c.dataType)]];
    OptionsText(!c.nullable, !HasDefault(c), c.defaultValue);
    FlatConcat(ahead + required, default);
    FlatConcat(ahead, required);
    TextConcat(Flat(ahead) + Flat(required), Flat(default));
    TextConcat(Flat(ahead), Flat(required));
    FourText("  ", QuoteIdent(e, c.name), " ", c.dataType);
    BodyAhead("  ", QuoteIdent(e, c.name), " ", c.dataType, Text(Flat(required)), Text(Flat(default)));
    assert Definition(e, c) == Flat(ahead) + Flat(required) + Flat(default);
    assert Text(Flat(ahead)) == "  " + (QuoteIdent(e, c.name) + (" " + c.dataType));
    assert Text(Flat(required)) == if c.nullable then "" else " NOT NULL";
    assert Text(Flat(default)) == if HasDefault(c) then " DEFAULT " + Text(c.defaultValue) else "";
    assert Body(c) == c.dataType + Text(Flat(required)) + Text(Flat(default));
  }

  lemma BodyAhead(a: string, b: string, c: string, d: string, f: string, g: string)
    ensures a + (b + (c + d)) + f + g == a + (b + (c + (d + f + g)))
  {
  }

  lemma FourText(a: string, b: string, c: string, d: string)
    ensures Text(Flat([[Plain(a)], [Plain(b)], [Plain(c)], [Plain(d)]])) == a + (b + (c + d))
  {
    FlatThree([Plain(b)], [Plain(c)], [Plain(d)]);
    assert [[Plain(a)], [Plain(b)], [Plain(c)], [Plain(d)]][1..] == [[Plain(b)], [Plain(c)], [Plain(d)]];
    TextConcat([Plain(a)], [Plain(b)] + ([Plain(c)] + [Plain(d)]));
    TextConcat([Plain(b)], [Plain(c)] + [Plain(d)]);
    TextConcat([Plain(c)], [Plain(d)]);
    PlainText(a);
    PlainText(b);
    PlainText(c);
    PlainText(d);
  }

  // What CreateTable prints behind its opening parenthesis.
  function ListText(e: Engine, columns: seq<Column>, key: seq<seq<Token>>): string {
    Text(Joined(Definitions(e, columns) + key, ",\n")) + "\n)"
  }

  lemma ListTextIs(e: Engine, columns: seq<Column>, key: seq<seq<Token>>)
    requires |columns| > 0
    ensures ListText(e, columns, key) == Text(Definition(e, columns[0])) +
              if |columns| == 1 && key == [] then "\n)" else ",\n" + ListText(e, columns[1..], key)
  {
    var first, more := Definition(e, columns[0]), Definitions(e, columns[1..]) + key;
    assert Definitions(e, columns) + key == [first] + more;
    JoinedTextIs(Definitions(e, columns) + key, ",\n", first, more);
    FourTexts(Text(first), ",\n", Text(Joined(more, ",\n")), "\n)");
  }

  // The columns as the engine takes them, one for each.
  ghost predicate ColumnsAre(read: seq<ColumnRead>, columns: seq<Column>) {
    |read| == |columns| && forall i :: 0 <= i < |read| ==> ColumnIs(read[i], columns[i])
  }

  predicate ColumnAhead(s: string, rest: string) {
    s != "\n)" && !Starts(s, "  PRIMARY KEY (") && Behind(s, "  ") == Some(rest)
  }

  // The item of a column is neither the end nor the key.
  lemma NotKey(e: Engine, name: string, rest: string)
    ensures ColumnAhead("  " + (QuoteIdent(e, name) + rest), QuoteIdent(e, name) + rest)
  {
    var s := "  " + (QuoteIdent(e, name) + rest);
    assert s[0] == ' ' && s[2] == NameQuote(e);
    if Starts(s, "  PRIMARY KEY (") { StartsAt(s, "  PRIMARY KEY (", 2); }
    BehindMark("  ", QuoteIdent(e, name) + rest, s);
  }

  lemma ItemStep(e: Engine, s: string, name: string, b: string, n: nat, more: Items)
    requires ColumnAhead(s, QuoteIdent(e, name) + (" " + b)) && n == ItemEnd(b, false)
    requires 0 < n < |b| && b[n - 1] == ',' && b[n..] != "\n)" && ReadItems(e, b[n + 1..]) == Some(more)
    ensures ReadItems(e, s) == Some(Items([ReadType(name, b[..n - 1])] + more.columns, more.primaryKey))
  {
    NameReadsBack(e, name, " " + b);
    BehindMark(" ", b, " " + b);
  }

  lemma LastItem(e: Engine, name: string, body: string)
    requires Sealed(body, false)
    ensures ReadItems(e, "  " + (QuoteIdent(e, name) + (" " + (body + "\n)")))) == Some(Items([ReadType(name, body)], []))
  {
    var b := body + "\n)";
    ItemEndIs(body, "\n)", false);
    NotKey(e, name, " " + b);
    NameReadsBack(e, name, " " + b);
    BehindMark(" ", b, " " + b);
    MarkBehind(body, "\n)");
  }

  lemma CommaLine(body: string, rest: string, b: string)
    requires b == body + (",\n" + rest) && rest != ""
    ensures b == body + "," + ("\n" + rest)
    ensures var n := |body| + 1; n < |b| && b[n - 1] == ',' && b[..n - 1] == body && b[n + 1..] == rest
    ensures rest != ")" ==> b[|body| + 1..] != "\n)"
  {
    assert b[|body| + 1..] == "\n" + rest;
    assert ("\n" + rest)[1..] == rest && "\n)"[1..] == ")";
  }

  lemma LineEnd(body: string, rest: string, b: string)
    requires Sealed(body + ",", false) && b == body + "," + ("\n" + rest)
    ensures ItemEnd(b, false) == |body| + 1
  {
    ItemEndIs(body + ",", "\n" + rest, false);
  }

  lemma ItemAhead(e: Engine, name: string, body: string, b: string, rest: string, more: Items)
    requires Sealed(body + ",", false) && b == body + (",\n" + rest) && rest != "" && ReadItems(e, rest) == Some(more)
    ensures ReadItems(e, "  " + (QuoteIdent(e, name) + (" " + b))) ==
              Some(Items([ReadType(name, body)] + more.columns, more.primaryKey))
  {
    CommaLine(body, rest, b);
    LineEnd(body, rest, b);
    NotAlone(e, rest);
    NotKey(e, name, " " + b);
    ItemStep(e, "  " + (QuoteIdent(e, name) + (" " + b)), name, b, |body| + 1, more);
  }

  lemma NotAlone(e: Engine, s: string)
    requires ReadItems(e, s).Some?
    ensures s != ")" && s != ""
  {
  }

  lemma KeyReads(e: Engine, names: seq<string>)
    ensures ReadItems(e, "  PRIMARY KEY (" + (NamesText(e, names) + (")" + "\n)"))) == Some(Items([], names))
  {
    var rest := NamesText(e, names) + (")" + "\n)");
    MarkBehind("  PRIMARY KEY (", rest);
    NamesReadBack(e, names, "\n)");
  }

  lemma KeyText(e: Engine, t: Table)
    ensures ListText(e, [], PrimaryKey(e, t)) ==
              if t.primaryKey == [] then "\n)" else "  PRIMARY KEY (" + (NamesText(e, t.primaryKey) + (")" + "\n)"))
  {
    if t.primaryKey != [] {
      var names := Joined(Idents(e, t.primaryKey), ", ");
      NothingAhead(PrimaryKey(e, t));
      FlatThree([Plain("  PRIMARY KEY (")], names, [Plain(")")]);
      TextConcat([Plain("  PRIMARY KEY (")], names + [Plain(")")]);
      TextConcat(names, [Plain(")")]);
      PlainText("  PRIMARY KEY (");
      PlainText(")");
      FourTexts("  PRIMARY KEY (", NamesText(e, t.primaryKey), ")", "\n)");
    }
  }

  // How a column's definition stands before what follows it.
  lemma DefinitionAhead(e: Engine, c: Column, rest: string)
    ensures Text(Definition(e, c)) + rest == "  " + (QuoteIdent(e, c.name) + (" " + (Body(c) + rest)))
  {
    DefinitionText(e, c);
    FourTexts("  ", QuoteIdent(e, c.name), " " + Body(c), rest);
    Assoc(" ", Body(c), rest);
    Assoc("  ", QuoteIdent(e, c.name) + (" " + Body(c)), rest);
    Assoc(QuoteIdent(e, c.name), " " + Body(c), rest);
  }

  lemma LastColumn(e: Engine, c: Column)
    requires Readable(c)
    ensures var r := ReadType(c.name, Body(c));
            ColumnIs(r, c) && ReadItems(e, Text(Definition(e, c)) + "\n)") == Some(Items([r], []))
  {
    BodySealed(c);
    BodyReads(c);
    DefinitionAhead(e, c, "\n)");
    LastItem(e, c.name, Body(c));
  }

  lemma ColumnReads(e: Engine, c: Column, rest: string, more: Items)
    requires Readable(c) && ReadItems(e, rest) == Some(more)
    ensures var r := ReadType(c.name, Body(c));
            && ColumnIs(r, c)
            && ReadItems(e, Text(Definition(e, c)) + (",\n" + rest)) == Some(Items([r] + more.columns, more.primaryKey))
  {
    BodySealed(c);
    BodyReads(c);
    NotAlone(e, rest);
    DefinitionAhead(e, c, ",\n" + rest);
    ItemAhead(e, c.name, Body(c), Body(c) + (",\n" + rest), rest, more);
  }

  lemma {:induction false} ItemsReadBack(e: Engine, t: Table, columns: seq<Column>)
    requires forall i :: 0 <= i < |columns| ==> Readable(columns[i])
    ensures var r := ReadItems(e, ListText(e, columns, PrimaryKey(e, t)));
            r.Some? && ColumnsAre(r.value.columns, columns) && r.value.primaryKey == t.primaryKey
    decreases |columns|
  {
    if |columns| == 0 {
      KeyText(e, t);
      KeyReads(e, t.primaryKey);
    } else {
      var key := PrimaryKey(e, t);
      ListTextIs(e, columns, key);
      if |columns| == 1 && key == [] {
        LastColumn(e, columns[0]);
      } else {
        var rest := ListText(e, columns[1..], key);
        ItemsReadBack(e, t, columns[1..]);
        ColumnReads(e, columns[0], rest, ReadItems(e, rest).value);
      }
    }
  }

  /** A CREATE TABLE of the backup reads back as the table: its name and schema, and
      in order each column with its type, NOT NULL exactly where it is not nullable,
      and its own default, and the primary key. */
  lemma CreateReadsBack(e: Engine, t: Table)
    requires forall i :: 0 <= i < |t.columns| ==> Readable(t.columns[i])
    ensures var r := ReadCreate(e, Text(CreateTable(e, t)));
            && r.Some? && r.value.schema == t.schema && r.value.table == t.name
            && ColumnsAre(r.value.items.columns, t.columns) && r.value.items.primaryKey == t.primaryKey
  {
    var list := ListText(e, t.columns, PrimaryKey(e, t));
    ItemsReadBack(e, t, t.columns);
    FiveText("CREATE TABLE IF NOT EXISTS ", Qualify(e, t), " (\n", Joined(Definitions(e, t.columns) + PrimaryKey(e, t), ",\n"), "\n)");
    ReadCreateIs(e, t, Text(Qualify(e, t)), list, " (\n" + list);
  }

  lemma ReadCreateIs(e: Engine, t: Table, target: string, list: string, b: string)
    requires target == Text(Qualify(e, t)) && b == " (\n" + list && ReadItems(e, list).Some?
    ensures ReadCreate(e, "CREATE TABLE IF NOT EXISTS " + (target + b)) == Some(Created(t.schema, t.name, ReadItems(e, list).value))
  {
    BehindMark("CREATE TABLE IF NOT EXISTS ", target + b, "CREATE TABLE IF NOT EXISTS " + (target + b));
    assert b[..1] == " ";
    TargetReadsBack(e, t, b);
    BehindMark(" (\n", list, b);
  }
}
