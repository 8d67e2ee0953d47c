/** The board's line-oriented text format: one header line per top-level
    location, `<location> <category name>`, followed by one line per item of
    that category, `><location> <text>`. The constructor of `AACMappings`
    reads it line by line; `writeToFile` writes it. Only the pure line
    sequences are modelled here, not the files. */
module BoardFormat {
  import opened Results
  import opened AssocArrays
  import opened OrderLogs
  import opened Tokens
  import Categories
  import Mappings

  type Category = Categories.Category
  type Board = Mappings.Board

  /** Why a line stops the load: the line has fewer than two tokens (reading
      `lineRead[1]` throws), or it is an item line while the most recent
      header is not in the table (`table.get` throws), which only happens
      before the first header. */
  datatype LineError = TooFewTokens | NoHeader

  /** The loader between two lines: the board so far and the location of the
      most recent header line (`topicPlaceholder`). */
  datatype Cursor = Cursor(board: Board, header: string)

  /** While loading, the board is valid and at the top level, and the most
      recent header is in the table unless no header has been read yet (the
      header is still `""` and nothing is logged). */
  predicate Loading(st: Cursor)
  {
    && Mappings.Valid(st.board)
    && st.board.level == Mappings.TopLevel
    && (st.header in st.board.table || (st.header == "" && st.board.topOrder == []))
  }

  /** The loader before the first line. */
  function Start(): (st: Cursor)
    ensures Loading(st) && st.board == Mappings.Empty()
  {
    Cursor(Mappings.Empty(), "")
  }

  /** The body of the constructor's loop for one line. The text is every
      token after the first, joined by single spaces. A first token not
      starting with `>` is a header: it is bound to a new category named by
      the text, logged as a top-level location, and becomes the current
      header. Otherwise the token without its `>` and the text are added to
      the category of the most recent header, looked up in the table. */
  function ParseLine(st: Cursor, line: string): (r: Result<Cursor, LineError>)
    ensures r.Failure? <==>
      (|Tokenize(line)| < 2 || (Tokenize(line)[0][0] == '>' && st.header !in st.board.table))
    ensures r.Failure? ==> (r.error == TooFewTokens <==> |Tokenize(line)| < 2)
    ensures r.Success? ==>
      && st.board.topOrder <= r.value.board.topOrder
      && st.board.table.Keys <= r.value.board.table.Keys
      && r.value.board.level == st.board.level && r.value.board.current == st.board.current
  {
    var words := Tokenize(line);
    if |words| < 2 then Failure(TooFewTokens)
    else
      var text := Join(words[1..]);
      if words[0][0] != '>' then
        var key := words[0];
        Success(Cursor(st.board.(table := st.board.table[key := Categories.New(text)],
                                 topOrder := st.board.topOrder + [key]), key))
      else
        match Get(st.board.table, st.header)
        case Failure(_) => Failure(NoHeader)
        case Success(category) =>
          var updated := Categories.AddItem(category, Some(words[0][1..]), text);
          Success(Cursor(st.board.(table := st.board.table[st.header := updated]), st.header))
  }

  /** A line is rejected exactly when it has fewer than two tokens or is an
      item line with no header before it. */
  lemma ParseLineFails(st: Cursor, line: string)
    requires Loading(st)
    ensures var words := Tokenize(line);
      ParseLine(st, line).Failure? <==> (|words| < 2 || (words[0][0] == '>' && st.board.topOrder == []))
  {
    if st.header in st.board.table {
      assert st.header in Elems(st.board.topOrder);
    }
  }

  /** A header line is the board's top-level `addItem`, and its location
      becomes the current header. */
  lemma ParseHeaderOutcome(st: Cursor, line: string)
    requires Loading(st)
    ensures var words, r := Tokenize(line), ParseLine(st, line);
      r.Success? && words[0][0] != '>' ==>
        && r.value.header == words[0]
        && r.value.board == Mappings.AddItem(st.board, Some(words[0]), Join(words[1..]))
  {
  }

  /** An item line adds its pair to the current header's category and changes
      nothing else. */
  lemma ParseItemOutcome(st: Cursor, line: string)
    requires Loading(st)
    ensures var words, r := Tokenize(line), ParseLine(st, line);
      r.Success? && words[0][0] == '>' ==>
        && r.value.header == st.header
        && r.value.board.level == st.board.level && r.value.board.current == st.board.current
        && r.value.board.topOrder == st.board.topOrder
        && r.value.board.table.Keys == st.board.table.Keys
        && r.value.board.table[st.header] ==
             Categories.AddItem(st.board.table[st.header], Some(words[0][1..]), Join(words[1..]))
        && (forall k :: k in st.board.table && k != st.header ==> r.value.board.table[k] == st.board.table[k])
  {
  }

  /** The constructor's loop: lines are read in order until one fails; the
      exception ends the loop, and whatever was loaded before stays. */
  function Feed(st: Cursor, lines: seq<string>): (r: Cursor)
    ensures st.board.topOrder <= r.board.topOrder
    ensures st.board.table.Keys <= r.board.table.Keys
    ensures r.board.level == st.board.level && r.board.current == st.board.current
    decreases |lines|
  {
    if lines == [] then st
    else
      match ParseLine(st, lines[0])
      case Failure(_) => st
      case Success(next) => Feed(next, lines[1..])
  }

  /** The loader after `lines` when every one of them is accepted. */
  function FeedAll(st: Cursor, lines: seq<string>): (r: Option<Cursor>)
    decreases |lines|
  {
    if lines == [] then Some(st)
    else
      match ParseLine(st, lines[0])
      case Failure(_) => None
      case Success(next) => FeedAll(next, lines[1..])
  }

  /** The constructor `AACMappings(filename)`, given the file's lines. */
  function Load(lines: seq<string>): (b: Board)
    ensures Mappings.Valid(b)
    ensures b.level == Mappings.TopLevel && b.current == None
  {
    FeedLoading(Start(), lines);
    Feed(Start(), lines).board
  }

  /** Reading a line keeps the board valid and at the top level. */
  lemma ParseLineLoading(st: Cursor, line: string)
    requires Loading(st)
    ensures ParseLine(st, line).Success? ==> Loading(ParseLine(st, line).value)
  {
    var words := Tokenize(line);
    if |words| >= 2 && words[0][0] != '>' {
      var key := words[0];
      var b := st.board.(table := st.board.table[key := Categories.New(Join(words[1..]))],
                         topOrder := st.board.topOrder + [key]);
      assert Mappings.Valid(b);
    }
  }

  /** So does reading any number of lines. */
  lemma {:induction false} FeedLoading(st: Cursor, lines: seq<string>)
    requires Loading(st)
    ensures Loading(Feed(st, lines))
    decreases |lines|
  {
    if lines != [] {
      ParseLineLoading(st, lines[0]);
      if ParseLine(st, lines[0]).Success? {
        FeedLoading(ParseLine(st, lines[0]).value, lines[1..]);
      }
    }
  }

  /** Lines that are all accepted can be read first and the rest after. */
  lemma {:induction false} FeedAppend(st: Cursor, first: seq<string>, rest: seq<string>)
    requires FeedAll(st, first).Some?
    ensures Feed(st, first + rest) == Feed(FeedAll(st, first).value, rest)
    ensures FeedAll(st, first + rest) == FeedAll(FeedAll(st, first).value, rest)
    decreases |first|
  {
    if first != [] {
      var next := ParseLine(st, first[0]).value;
      FeedCons(st, first, rest);
      FeedAppend(next, first[1..], rest);
    } else {
      assert first + rest == rest;
    }
  }

  /** The first line of a run of accepted lines is read first. */
  lemma FeedCons(st: Cursor, first: seq<string>, rest: seq<string>)
    requires first != [] && ParseLine(st, first[0]).Success?
    ensures Feed(st, first + rest) == Feed(ParseLine(st, first[0]).value, first[1..] + rest)
    ensures FeedAll(st, first + rest) == FeedAll(ParseLine(st, first[0]).value, first[1..] + rest)
    ensures FeedAll(st, first) == FeedAll(ParseLine(st, first[0]).value, first[1..])
  {
    assert (first + rest)[0] == first[0];
    assert (first + rest)[1..] == first[1..] + rest;
  }

  /** A failing line ends the load: the board is the one loaded from the
      lines before it, whatever follows. */
  lemma LoadStopsAtFailure(lines: seq<string>, i: nat)
    requires i < |lines|
    requires FeedAll(Start(), lines[..i]).Some?
    requires ParseLine(FeedAll(Start(), lines[..i]).value, lines[i]).Failure?
    ensures Load(lines) == Load(lines[..i])
    ensures Load(lines) == FeedAll(Start(), lines[..i]).value.board
  {
    assert lines == lines[..i] + lines[i..];
    FeedAppend(Start(), lines[..i], lines[i..]);
    FeedAppend(Start(), lines[..i], []);
    assert lines[..i] + [] == lines[..i];
  }

  // ----- writing -----

  /** The header line of a top-level location. */
  function HeaderLine(imageLoc: string, name: string): string
  {
    imageLoc + " " + name
  }

  /** The line of one item. */
  function ItemLine(imageLoc: string, text: string): string
  {
    ">" + imageLoc + " " + text
  }

  /** The item lines for the locations `locs` of category `c`. */
  function ItemLines(c: Category, locs: seq<string>): (r: seq<string>)
    requires Elems(locs) <= c.storage.Keys
    ensures |r| == |locs|
    decreases |locs|
  {
    if locs == [] then []
    else [ItemLine(locs[0], c.storage[locs[0]])] + ItemLines(c, locs[1..])
  }

  /** The lines written for one top-level location: its header, then one
      line per location that the category's `getImageLocs` lists. */
  function BlockLines(table: map<string, Category>, imageLoc: string): seq<string>
    requires imageLoc in table && Categories.Valid(table[imageLoc])
  {
    var c := table[imageLoc];
    [HeaderLine(imageLoc, c.name)] + ItemLines(c, Categories.ImageLocs(c))
  }

  /** The blocks of the top-level locations `locs`, in order. */
  function BlocksLines(table: map<string, Category>, locs: seq<string>): (r: seq<string>)
    requires Elems(locs) <= table.Keys
    requires forall k :: k in table ==> Categories.Valid(table[k])
    ensures |r| >= |locs|
    decreases |locs|
  {
    if locs == [] then []
    else BlockLines(table, locs[0]) + BlocksLines(table, locs[1..])
  }

  /** What `writeToFile` writes at the top level: a block for every location
      the board's `getImageLocs` lists. */
  function Serialise(b: Board): (r: seq<string>)
    requires Mappings.Valid(b) && b.level == Mappings.TopLevel
    ensures |r| >= |b.table|
    ensures r == [] <==> b.table == map[]
    ensures b.table != map[] ==> r[0] == HeaderLine(b.topOrder[0], b.table[b.topOrder[0]].name)
  {
    BlocksLines(b.table, Mappings.ImageLocs(b))
  }

  /** Adding one more location at the end adds its item line at the end. */
  lemma {:induction false} ItemLinesSnoc(c: Category, locs: seq<string>, x: string)
    requires Elems(locs) <= c.storage.Keys && x in c.storage
    ensures Elems(locs + [x]) <= c.storage.Keys
    ensures ItemLines(c, locs + [x]) == ItemLines(c, locs) + [ItemLine(x, c.storage[x])]
    decreases |locs|
  {
    assert Elems(locs + [x]) == Elems(locs) + {x};
    if locs != [] {
      assert (locs + [x])[1..] == locs[1..] + [x];
      assert Elems(locs[1..]) <= Elems(locs);
      ItemLinesSnoc(c, locs[1..], x);
    }
  }

  /** Adding one more top-level location at the end adds its block at the
      end. */
  lemma {:induction false} BlocksLinesSnoc(table: map<string, Category>, locs: seq<string>, x: string)
    requires Elems(locs) <= table.Keys && x in table
    requires forall k :: k in table ==> Categories.Valid(table[k])
    ensures Elems(locs + [x]) <= table.Keys
    ensures BlocksLines(table, locs + [x]) == BlocksLines(table, locs) + BlockLines(table, x)
    decreases |locs|
  {
    assert Elems(locs + [x]) == Elems(locs) + {x};
    if locs != [] {
      var k := locs[0];
      assert (locs + [x])[0] == k;
      assert (locs + [x])[1..] == locs[1..] + [x];
      assert Elems(locs[1..]) <= Elems(locs);
      BlocksLinesSnoc(table, locs[1..], x);
      var head := BlockLines(table, k);
      BlocksLinesCons(table, locs + [x]);
      BlocksLinesCons(table, locs);
      AppendAssoc(head, BlocksLines(table, locs[1..]), BlockLines(table, x));
    } else {
      assert BlocksLines(table, [x]) == BlockLines(table, x) + BlocksLines(table, []);
      assert locs + [x] == [x];
    }
  }

  /** The blocks of a non-empty run of locations: the first block, then the
      others. */
  lemma BlocksLinesCons(table: map<string, Category>, locs: seq<string>)
    requires |locs| > 0 && Elems(locs) <= table.Keys
    requires forall k :: k in table ==> Categories.Valid(table[k])
    ensures Elems(locs[1..]) <= table.Keys
    ensures BlocksLines(table, locs) == BlockLines(table, locs[0]) + BlocksLines(table, locs[1..])
  {
    assert Elems(locs[1..]) <= Elems(locs);
  }

  /** The inner loop of `writeToFile`: one line per location the category's
      `getImageLocs` lists, with the text `select` returns for it. */
  method WriteItems(c: Category) returns (lines: seq<string>)
    requires Categories.Valid(c)
    ensures lines == ItemLines(c, Categories.ImageLocs(c))
  {
    var items := Categories.GetImageLocs(c);
    lines := [];
    var j := 0;
    while j < |items|
      invariant 0 <= j <= |items|
      invariant Elems(items[..j]) <= c.storage.Keys
      invariant lines == ItemLines(c, items[..j])
    {
      assert items[j] == c.order[j] && items[j] in Elems(c.order);
      var text := Categories.Select(c, items[j]);
      ItemLinesSnoc(c, items[..j], items[j]);
      TakeNext(items, j);
      lines := lines + [ItemLine(items[j], text.value)];
      j := j + 1;
    }
    assert items[..j] == items;
  }

  /** One turn of the outer loop of `writeToFile` appends one block. */
  lemma WriteBlockStep(table: map<string, Category>, done: seq<string>, key: string,
                       lines: seq<string>, items: seq<string>)
    requires Elems(done) <= table.Keys && key in table
    requires forall k :: k in table ==> Categories.Valid(table[k])
    requires lines == BlocksLines(table, done)
    requires items == ItemLines(table[key], Categories.ImageLocs(table[key]))
    ensures Elems(done + [key]) <= table.Keys
    ensures lines + ([HeaderLine(key, table[key].name)] + items) == BlocksLines(table, done + [key])
  {
    BlocksLinesSnoc(table, done, key);
  }

  /** `writeToFile` at the top level: for every location the board lists, the
      header line of its category, then that category's item lines. */
  method WriteLines(b: Board) returns (lines: seq<string>)
    requires Mappings.Valid(b) && b.level == Mappings.TopLevel
    ensures lines == Serialise(b)
  {
    var tops := Mappings.GetImageLocs(b);
    ListedKeys(b);
    lines := [];
    var i := 0;
    while i < |tops|
      invariant 0 <= i <= |tops|
      invariant Elems(tops[..i]) <= b.table.Keys
      invariant lines == BlocksLines(b.table, tops[..i])
    {
      var key := tops[i];
      PrefixElems(tops, i);
      var category := b.table[key];
      var items := WriteItems(category);
      WriteBlockStep(b.table, tops[..i], key, lines, items);
      TakeNext(tops, i);
      lines := lines + ([HeaderLine(key, Categories.GetCategory(category))] + items);
      i := i + 1;
    }
    assert tops[..i] == tops;
  }

  /** Every location the top level lists has a category. */
  lemma ListedKeys(b: Board)
    requires Mappings.Valid(b) && b.level == Mappings.TopLevel
    ensures Elems(Mappings.ImageLocs(b)) <= b.table.Keys
  {
    var r := Mappings.ImageLocs(b);
    forall k | k in Elems(r) ensures k in b.table {
      var i :| 0 <= i < |r| && r[i] == k;
      assert b.topOrder[i] in Elems(b.topOrder);
    }
  }

  // ----- round trip -----

  /** A top-level location that reads back as a header token. */
  predicate HeaderKey(imageLoc: string)
  {
    IsWord(imageLoc) && imageLoc[0] != '>'
  }

  /** A category whose lines read back as itself. */
  predicate Writable(c: Category)
  {
    && Categories.Valid(c)
    && NoDup(c.order)
    && Canonical(c.name)
    && forall k :: k in c.storage ==> Solid(k) && Canonical(c.storage[k])
  }

  /** A board whose lines read back as itself: at the top level, no location
      logged twice, locations that are tokens (a header's not starting with
      `>`), and names and texts that are canonical. */
  predicate WellFormed(b: Board)
  {
    && Mappings.Valid(b)
    && b.level == Mappings.TopLevel
    && NoDup(b.topOrder)
    && WritableTable(b.table)
  }

  /** An item line is read as an item of the current header's category. */
  lemma ParseItemLine(st: Cursor, imageLoc: string, text: string)
    requires st.header in st.board.table
    requires Solid(imageLoc) && Canonical(text)
    ensures var r := ParseLine(st, ItemLine(imageLoc, text));
      && r.Success?
      && r.value == Cursor(st.board.(table := st.board.table[st.header :=
           Categories.AddItem(st.board.table[st.header], Some(imageLoc), text)]), st.header)
  {
    var w := ">" + imageLoc;
    assert IsWord(w) by {
      forall i | 0 <= i < |w| ensures !IsSpace(w[i]) {
        if i > 0 { assert w[i] == imageLoc[i - 1]; }
      }
    }
    WordThenSpace(w, text);
    assert w[1..] == imageLoc;
  }

  /** The loader after a header line, or a whole block, that binds `imageLoc`
      to `c`: the location is logged and becomes the current header. */
  function AfterBlock(st: Cursor, imageLoc: string, c: Category): Cursor
  {
    Cursor(st.board.(table := st.board.table[imageLoc := c], topOrder := st.board.topOrder + [imageLoc]), imageLoc)
  }

  /** A header line binds its location to a new category with its name. */
  lemma ParseHeaderLine(st: Cursor, imageLoc: string, name: string)
    requires HeaderKey(imageLoc) && Canonical(name)
    ensures ParseLine(st, HeaderLine(imageLoc, name)) == Success(AfterBlock(st, imageLoc, Categories.New(name)))
  {
    WordThenSpace(imageLoc, name);
  }

  /** Reading a header line and then more lines. */
  lemma FeedHeaderStep(st: Cursor, imageLoc: string, name: string, rest: seq<string>)
    requires HeaderKey(imageLoc) && Canonical(name)
    ensures FeedAll(st, [HeaderLine(imageLoc, name)] + rest) == FeedAll(AfterBlock(st, imageLoc, Categories.New(name)), rest)
  {
    ParseHeaderLine(st, imageLoc, name);
    var lines := [HeaderLine(imageLoc, name)] + rest;
    assert lines[0] == HeaderLine(imageLoc, name);
    assert lines[1..] == rest;
  }

  /** The board with the category of top-level location `h` replaced. */
  function SetEntry(b: Board, h: string, c: Category): Board
  {
    b.(table := b.table[h := c])
  }

  /** The loader after reading the item line of `imageLoc`. */
  function AfterItem(st: Cursor, imageLoc: string, text: string): Cursor
    requires st.header in st.board.table
  {
    var added := Categories.AddItem(st.board.table[st.header], Some(imageLoc), text);
    Cursor(SetEntry(st.board, st.header, added), st.header)
  }

  /** Reading an item line and then more lines. */
  lemma FeedItemStep(st: Cursor, imageLoc: string, text: string, rest: seq<string>)
    requires st.header in st.board.table
    requires Solid(imageLoc) && Canonical(text)
    ensures FeedAll(st, [ItemLine(imageLoc, text)] + rest) == FeedAll(AfterItem(st, imageLoc, text), rest)
  {
    ParseItemLine(st, imageLoc, text);
    var lines := [ItemLine(imageLoc, text)] + rest;
    assert lines[0] == ItemLine(imageLoc, text);
    assert lines[1..] == rest;
  }

  /** The first item line of a run of item lines. */
  lemma FeedItemsHead(st: Cursor, c: Category, locs: seq<string>)
    requires st.header in st.board.table
    requires |locs| > 0 && Elems(locs) <= c.storage.Keys
    requires Solid(locs[0]) && Canonical(c.storage[locs[0]])
    ensures Elems(locs[1..]) <= c.storage.Keys
    ensures FeedAll(st, ItemLines(c, locs)) ==
      FeedAll(AfterItem(st, locs[0], c.storage[locs[0]]), ItemLines(c, locs[1..]))
  {
    assert Elems(locs[1..]) <= Elems(locs);
    var x := locs[0];
    assert ItemLines(c, locs) == [ItemLine(x, c.storage[x])] + ItemLines(c, locs[1..]);
    FeedItemStep(st, x, c.storage[x], ItemLines(c, locs[1..]));
  }

  /** Adding the first item and then the rest to the header's entry is
      adding them all. */
  lemma AfterItemEntry(st: Cursor, c: Category, locs: seq<string>)
    requires st.header in st.board.table
    requires |locs| > 0 && Elems(locs) <= c.storage.Keys
    ensures Elems(locs[1..]) <= c.storage.Keys
    ensures var next := AfterItem(st, locs[0], c.storage[locs[0]]);
      Cursor(SetEntry(next.board, next.header, Categories.AddAll(next.board.table[next.header], locs[1..], c.storage)), next.header)
      == Cursor(SetEntry(st.board, st.header, Categories.AddAll(st.board.table[st.header], locs, c.storage)), st.header)
  {
    assert Elems(locs[1..]) <= Elems(locs);
    var h := st.header;
    var added := Categories.AddItem(st.board.table[h], Some(locs[0]), c.storage[locs[0]]);
    var all := Categories.AddAll(added, locs[1..], c.storage);
    assert Categories.AddAll(st.board.table[h], locs, c.storage) == all;
    SetEntryTwice(st.board, h, added, all);
  }

  /** Replacing an entry twice keeps the second replacement. */
  lemma SetEntryTwice(b: Board, h: string, first: Category, second: Category)
    ensures SetEntry(b, h, first).table[h] == first
    ensures SetEntry(SetEntry(b, h, first), h, second) == SetEntry(b, h, second)
  {
    assert b.table[h := first][h := second] == b.table[h := second];
  }

  /** Reading a category's item lines under its header adds the items to the
      header's table entry in order. */
  lemma {:induction false} FeedItems(st: Cursor, c: Category, locs: seq<string>)
    requires st.header in st.board.table
    requires Elems(locs) <= c.storage.Keys
    requires forall k :: k in c.storage ==> Solid(k) && Canonical(c.storage[k])
    ensures FeedAll(st, ItemLines(c, locs)) ==
      Some(Cursor(SetEntry(st.board, st.header, Categories.AddAll(st.board.table[st.header], locs, c.storage)), st.header))
    decreases |locs|
  {
    if locs != [] {
      FeedItemsHead(st, c, locs);
      FeedItems(AfterItem(st, locs[0], c.storage[locs[0]]), c, locs[1..]);
      AfterItemEntry(st, c, locs);
    } else {
      assert st.board.table[st.header := st.board.table[st.header]] == st.board.table;
    }
  }

  /** Reading one block binds its location to a category equal to the
      written one and logs the location. */
  lemma FeedBlock(st: Cursor, table: map<string, Category>, k: string)
    requires k in table && HeaderKey(k) && Writable(table[k])
    ensures FeedAll(st, BlockLines(table, k)) == Some(AfterBlock(st, k, table[k]))
  {
    var c := table[k];
    var items := ItemLines(c, Categories.ImageLocs(c));
    assert BlockLines(table, k) == [HeaderLine(k, c.name)] + items;
    FeedHeaderStep(st, k, c.name, items);
    var header := AfterBlock(st, k, Categories.New(c.name));
    FeedItems(header, c, Categories.ImageLocs(c));
    Categories.RebuildFromListing(c);
    SetEntryTwice(st.board.(topOrder := st.board.topOrder + [k]), k, Categories.New(c.name), c);
  }

  /** The board after the blocks of `locs`. */
  function AfterBlocks(b: Board, table: map<string, Category>, locs: seq<string>): Board
  {
    b.(table := b.table + Pick(table, locs), topOrder := b.topOrder + locs)
  }

  /** Every location of `table` is a header token and every category reads
      back as itself. */
  predicate WritableTable(table: map<string, Category>)
  {
    forall k :: k in table ==> HeaderKey(k) && Writable(table[k])
  }

  /** Reading the blocks of `locs` binds each location to its written
      category and logs the locations in order. */
  lemma {:induction false} FeedBlocks(st: Cursor, table: map<string, Category>, locs: seq<string>)
    requires Elems(locs) <= table.Keys
    requires WritableTable(table)
    ensures FeedAll(st, BlocksLines(table, locs)).Some?
    ensures FeedAll(st, BlocksLines(table, locs)).value.board == AfterBlocks(st.board, table, locs)
    decreases |locs|
  {
    if locs == [] {
      assert Pick(table, locs) == map[];
      assert st.board.table + map[] == st.board.table;
    } else {
      var k := locs[0];
      var rest := BlocksLines(table, locs[1..]);
      assert Elems(locs[1..]) <= Elems(locs);
      assert BlocksLines(table, locs) == BlockLines(table, k) + rest;
      FeedBlock(st, table, k);
      FeedAppend(st, BlockLines(table, k), rest);
      FeedBlocks(AfterBlock(st, k, table[k]), table, locs[1..]);
      AfterBlocksStep(st, table, locs);
    }
  }

  /** Binding the first location and then the rest is binding them all. */
  lemma AfterBlocksStep(st: Cursor, table: map<string, Category>, locs: seq<string>)
    requires |locs| > 0 && Elems(locs) <= table.Keys
    ensures AfterBlocks(AfterBlock(st, locs[0], table[locs[0]]).board, table, locs[1..]) == AfterBlocks(st.board, table, locs)
  {
    var base := st.board.table;
    var lhs := base[locs[0] := table[locs[0]]] + Pick(table, locs[1..]);
    var rhs := base + Pick(table, locs);
    assert Elems(locs) == {locs[0]} + Elems(locs[1..]);
    assert lhs.Keys == rhs.Keys;
    assert lhs == rhs;
    assert st.board.topOrder + [locs[0]] + locs[1..] == st.board.topOrder + locs;
  }

  /** Writing a well-formed board and loading the lines gives back the same
      board. */
  lemma LoadSerialise(b: Board)
    requires WellFormed(b)
    ensures Load(Serialise(b)) == b
  {
    var lines := Serialise(b);
    assert lines == BlocksLines(b.table, b.topOrder);
    FeedBlocks(Start(), b.table, b.topOrder);
    FeedAllIsFeed(Start(), lines);
    PickWhole(b.table, b.topOrder);
    assert [] + b.topOrder == b.topOrder;
  }

  /** When every line is accepted, the loop reads them all. */
  lemma FeedAllIsFeed(st: Cursor, lines: seq<string>)
    requires FeedAll(st, lines).Some?
    ensures Feed(st, lines) == FeedAll(st, lines).value
  {
    FeedAppend(st, lines, []);
    assert lines + [] == lines;
  }
}
