/** The board file seen as a document: a run of blocks, each a header (a
    top-level location and a category name) followed by the category's items
    (a location and a text). This gives the file format a definition of its
    own, independent of the loader and the writer, and both are related to
    it: a well-formed document loads as the board its blocks describe, and
    writing that board gives the document back. */
module Documents {
  import opened Results
  import opened OrderLogs
  import opened Tokens
  import Categories
  import Mappings
  import BoardFormat

  type Category = Categories.Category
  type Board = Mappings.Board

  /** One item line: `><imageLoc> <text>`. */
  datatype Item = Item(imageLoc: string, text: string)

  /** One block: the header line `<imageLoc> <name>` and the item lines. */
  datatype Block = Block(imageLoc: string, name: string, items: seq<Item>)

  // ----- records to maps -----

  /** The keys of a run of records, in order. */
  function KeysOf<T, K>(xs: seq<T>, key: T -> K): (r: seq<K>)
    ensures |r| == |xs|
    ensures forall i :: 0 <= i < |xs| ==> r[i] == key(xs[i])
  {
    seq(|xs|, i requires 0 <= i < |xs| => key(xs[i]))
  }

  /** The map from each record's key to its value; an earlier record wins
      over a later one with the same key. */
  function Bind<T, K, V>(xs: seq<T>, key: T -> K, val: T -> V): map<K, V>
    decreases |xs|
  {
    if xs == [] then map[] else Bind(xs[1..], key, val)[key(xs[0]) := val(xs[0])]
  }

  /** The keys of the rest of a run are the rest of its keys. */
  lemma KeysOfTail<T, K>(xs: seq<T>, key: T -> K)
    requires |xs| > 0
    ensures KeysOf(xs[1..], key) == KeysOf(xs, key)[1..]
    ensures KeysOf(xs, key) == [key(xs[0])] + KeysOf(xs[1..], key)
  {
  }

  /** The bound keys are exactly the keys of the run. */
  lemma {:induction false} BindKeys<T, K, V>(xs: seq<T>, key: T -> K, val: T -> V)
    ensures Bind(xs, key, val).Keys == Elems(KeysOf(xs, key))
    decreases |xs|
  {
    if xs != [] {
      BindKeys(xs[1..], key, val);
      KeysOfTail(xs, key);
      assert Elems(KeysOf(xs, key)) == {key(xs[0])} + Elems(KeysOf(xs[1..], key));
    }
  }

  /** With no key repeated, every record's key is bound to its own value. */
  lemma {:induction false} BindAt<T, K, V>(xs: seq<T>, key: T -> K, val: T -> V, i: nat)
    requires NoDup(KeysOf(xs, key)) && i < |xs|
    ensures key(xs[i]) in Bind(xs, key, val)
    ensures Bind(xs, key, val)[key(xs[i])] == val(xs[i])
    decreases i
  {
    if i > 0 {
      var ks := KeysOf(xs, key);
      assert ks[0] != ks[i];
      KeysOfTail(xs, key);
      assert NoDup(KeysOf(xs[1..], key)) by {
        forall a, b | 0 <= a < b < |xs| - 1 ensures ks[1..][a] != ks[1..][b] {
          assert ks[1..][a] == ks[a + 1] && ks[1..][b] == ks[b + 1];
        }
      }
      BindAt(xs[1..], key, val, i - 1);
      assert xs[1..][i - 1] == xs[i];
    }
  }

  /** Every bound key comes from some record. */
  lemma BindFrom<T, K, V>(xs: seq<T>, key: T -> K, val: T -> V, k: K) returns (i: nat)
    requires k in Bind(xs, key, val)
    ensures i < |xs| && key(xs[i]) == k
  {
    BindKeys(xs, key, val);
    var ks := KeysOf(xs, key);
    assert k in Elems(ks);
    i :| 0 <= i < |ks| && ks[i] == k;
  }

  // ----- the document -----

  /** The fields as function values, the keys and values of the maps below. */
  function ItemLoc(it: Item): string { it.imageLoc }
  function ItemText(it: Item): string { it.text }
  function BlockLoc(bl: Block): string { bl.imageLoc }

  /** The category a block describes: its name, its items' texts by
      location, and its item locations in order as the log. */
  function CategoryOf(bl: Block): Category
  {
    Categories.Category(bl.name, Bind(bl.items, ItemLoc, ItemText), KeysOf(bl.items, ItemLoc))
  }

  /** The board a document describes: each block's location bound to its
      category, the locations logged in order, at the top level. */
  function BoardOf(doc: seq<Block>): Board
  {
    Mappings.Board(Bind(doc, BlockLoc, CategoryOf), KeysOf(doc, BlockLoc), Mappings.TopLevel, None)
  }

  /** The item lines of a block. */
  function ItemsText(items: seq<Item>): (r: seq<string>)
    decreases |items|
  {
    if items == [] then []
    else [BoardFormat.ItemLine(items[0].imageLoc, items[0].text)] + ItemsText(items[1..])
  }

  /** The lines of a document: per block, its header line, then its item
      lines. */
  function DocLines(doc: seq<Block>): (r: seq<string>)
    decreases |doc|
  {
    if doc == [] then []
    else [BoardFormat.HeaderLine(doc[0].imageLoc, doc[0].name)] + ItemsText(doc[0].items) + DocLines(doc[1..])
  }

  /** A block that reads back as itself: its location is a header token, its
      name and texts are canonical, and its item locations have no
      whitespace and are not repeated. */
  predicate WellFormedBlock(bl: Block)
  {
    && BoardFormat.HeaderKey(bl.imageLoc)
    && Canonical(bl.name)
    && NoDup(KeysOf(bl.items, ItemLoc))
    && forall i :: 0 <= i < |bl.items| ==> Solid(bl.items[i].imageLoc) && Canonical(bl.items[i].text)
  }

  /** A document that reads back as itself: well-formed blocks with distinct
      locations. */
  predicate WellFormedDoc(doc: seq<Block>)
  {
    && NoDup(KeysOf(doc, BlockLoc))
    && forall i :: 0 <= i < |doc| ==> WellFormedBlock(doc[i])
  }

  // ----- blocks -----

  /** The category of a well-formed block can be written and read back, and
      it lists the block's item locations in order. */
  lemma CategoryOfWritable(bl: Block)
    requires WellFormedBlock(bl)
    ensures BoardFormat.Writable(CategoryOf(bl))
    ensures Categories.ImageLocs(CategoryOf(bl)) == KeysOf(bl.items, ItemLoc)
  {
    var c := CategoryOf(bl);
    BindKeys(bl.items, ItemLoc, ItemText);
    forall k | k in c.storage ensures Solid(k) && Canonical(c.storage[k]) {
      var i := BindFrom(bl.items, ItemLoc, ItemText, k);
      BindAt(bl.items, ItemLoc, ItemText, i);
    }
  }

  /** Writing the listed items of a category that speaks each item's text
      gives the item lines. */
  lemma {:induction false} ItemLinesOf(c: Category, items: seq<Item>)
    requires Elems(KeysOf(items, ItemLoc)) <= c.storage.Keys
    requires forall i :: 0 <= i < |items| ==> items[i].imageLoc in c.storage && c.storage[items[i].imageLoc] == items[i].text
    ensures BoardFormat.ItemLines(c, KeysOf(items, ItemLoc)) == ItemsText(items)
    decreases |items|
  {
    if items != [] {
      var locs := KeysOf(items, ItemLoc);
      KeysOfTail(items, ItemLoc);
      assert Elems(locs[1..]) <= Elems(locs);
      forall i | 0 <= i < |items| - 1
        ensures items[1..][i].imageLoc in c.storage && c.storage[items[1..][i].imageLoc] == items[1..][i].text
      {
        assert items[1..][i] == items[i + 1];
      }
      ItemLinesOf(c, items[1..]);
    }
  }

  /** The block written for a location bound to a block's category is that
      block's lines. */
  lemma BlockLinesOf(table: map<string, Category>, bl: Block)
    requires WellFormedBlock(bl)
    requires bl.imageLoc in table && table[bl.imageLoc] == CategoryOf(bl)
    ensures Categories.Valid(table[bl.imageLoc])
    ensures BoardFormat.BlockLines(table, bl.imageLoc) ==
      [BoardFormat.HeaderLine(bl.imageLoc, bl.name)] + ItemsText(bl.items)
  {
    var c := CategoryOf(bl);
    CategoryOfWritable(bl);
    forall i | 0 <= i < |bl.items|
      ensures bl.items[i].imageLoc in c.storage && c.storage[bl.items[i].imageLoc] == bl.items[i].text
    {
      BindAt(bl.items, ItemLoc, ItemText, i);
    }
    BindKeys(bl.items, ItemLoc, ItemText);
    ItemLinesOf(c, bl.items);
  }

  // ----- documents -----

  /** Writing the blocks of a run of locations, each bound to its block's
      category, gives the document's lines. */
  lemma {:induction false} BlocksLinesOf(table: map<string, Category>, doc: seq<Block>)
    requires forall k :: k in table ==> Categories.Valid(table[k])
    requires forall i :: 0 <= i < |doc| ==>
      WellFormedBlock(doc[i]) && doc[i].imageLoc in table && table[doc[i].imageLoc] == CategoryOf(doc[i])
    ensures Elems(KeysOf(doc, BlockLoc)) <= table.Keys
    ensures BoardFormat.BlocksLines(table, KeysOf(doc, BlockLoc)) == DocLines(doc)
    decreases |doc|
  {
    if doc != [] {
      var locs := KeysOf(doc, BlockLoc);
      KeysOfTail(doc, BlockLoc);
      assert forall i :: 0 <= i < |doc| - 1 ==> doc[1..][i] == doc[i + 1];
      BlocksLinesOf(table, doc[1..]);
      BlockLinesOf(table, doc[0]);
      BoardFormat.BlocksLinesCons(table, locs);
      AppendAssoc([BoardFormat.HeaderLine(doc[0].imageLoc, doc[0].name)], ItemsText(doc[0].items), DocLines(doc[1..]));
    }
  }

  /** In a well-formed document every block's location is bound to its
      category. */
  lemma BoardOfEntries(doc: seq<Block>)
    requires WellFormedDoc(doc)
    ensures forall i :: 0 <= i < |doc| ==>
      doc[i].imageLoc in BoardOf(doc).table && BoardOf(doc).table[doc[i].imageLoc] == CategoryOf(doc[i])
  {
    forall i | 0 <= i < |doc|
      ensures doc[i].imageLoc in BoardOf(doc).table && BoardOf(doc).table[doc[i].imageLoc] == CategoryOf(doc[i])
    {
      BindAt(doc, BlockLoc, CategoryOf, i);
    }
  }

  /** The board a well-formed document describes is well-formed. */
  lemma BoardOfWellFormed(doc: seq<Block>)
    requires WellFormedDoc(doc)
    ensures BoardFormat.WellFormed(BoardOf(doc))
  {
    var b := BoardOf(doc);
    BindKeys(doc, BlockLoc, CategoryOf);
    forall k | k in b.table ensures BoardFormat.HeaderKey(k) && BoardFormat.Writable(b.table[k]) {
      var i := BindFrom(doc, BlockLoc, CategoryOf, k);
      BindAt(doc, BlockLoc, CategoryOf, i);
      CategoryOfWritable(doc[i]);
    }
  }

  /** Writing the board a well-formed document describes gives the
      document's lines. */
  lemma SerialiseBoardOf(doc: seq<Block>)
    requires WellFormedDoc(doc)
    ensures BoardFormat.WellFormed(BoardOf(doc))
    ensures BoardFormat.Serialise(BoardOf(doc)) == DocLines(doc)
  {
    var b := BoardOf(doc);
    BoardOfWellFormed(doc);
    BoardOfEntries(doc);
    BlocksLinesOf(b.table, doc);
  }

  /** Loading a well-formed document gives the board its blocks describe. */
  lemma LoadDocument(doc: seq<Block>)
    requires WellFormedDoc(doc)
    ensures BoardFormat.Load(DocLines(doc)) == BoardOf(doc)
  {
    SerialiseBoardOf(doc);
    BoardFormat.LoadSerialise(BoardOf(doc));
  }

  /** Loading a well-formed document and writing the board again gives back
      the same lines. */
  lemma SaveLoad(doc: seq<Block>)
    requires WellFormedDoc(doc)
    ensures Mappings.Valid(BoardFormat.Load(DocLines(doc)))
    ensures BoardFormat.Serialise(BoardFormat.Load(DocLines(doc))) == DocLines(doc)
  {
    LoadDocument(doc);
    SerialiseBoardOf(doc);
  }
}
