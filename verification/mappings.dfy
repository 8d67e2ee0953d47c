/** The two-level board (`AACMappings`): a table from top-level image
    locations to categories, the log of top-level locations in the order
    they were added, and a navigation state. The Java field
    `currentCategory` is a reference into the table; it is modelled by the
    top-level location it was selected under, so changes made through it
    are changes to the table entry. */
module Mappings {
  import opened Results
  import opened AssocArrays
  import opened OrderLogs
  import Categories

  type Category = Categories.Category

  /** `TOPLEVEL` (0) and `CATEGORYLEVEL` (1). */
  datatype Level = TopLevel | CategoryLevel

  datatype Board = Board(
    table: map<string, Category>,
    topOrder: seq<string>,
    level: Level,
    current: Option<string>)

  /** The class invariant: the level is `CATEGORYLEVEL` exactly when there
      is a current category, which is an entry of the table; the table's
      keys are exactly the logged top-level locations; every category is
      itself valid. */
  predicate Valid(b: Board)
  {
    && (b.level == CategoryLevel <==> b.current.Some?)
    && (b.current.Some? ==> b.current.value in b.table)
    && b.table.Keys == Elems(b.topOrder)
    && forall k :: k in b.table ==> Categories.Valid(b.table[k])
  }

  /** The fields as the constructor sets them before reading any line. */
  function Empty(): (b: Board)
    ensures Valid(b) && b.level == TopLevel
    ensures GetCategory(b) == ""
    ensures ImageLocs(b) == []
  {
    Board(map[], [], TopLevel, None)
  }

  /** The category `currentCategory` refers to. */
  function Current(b: Board): Category
    requires Valid(b) && b.level == CategoryLevel
  {
    b.table[b.current.value]
  }

  /** `select`. At the top level a known location makes its category current
      and returns the empty string; an unknown one throws before any field
      is assigned. Inside a category it returns the text of the location,
      leaving the state alone. Failures surface as `NoSuchElementException`;
      on failure the caller keeps the board it had. */
  function Select(b: Board, imageLoc: string): (r: Result<(Board, string), Exception>)
    requires Valid(b)
    ensures r.Success? ==> Valid(r.value.0)
    ensures r.Failure? ==> r.error == NoSuchElement
    ensures b.level == TopLevel ==> (r.Success? <==> imageLoc in b.table)
    ensures b.level == TopLevel && r.Success? ==>
      && r.value.1 == ""
      && r.value.0 == b.(level := CategoryLevel, current := Some(imageLoc))
      && GetCategory(r.value.0) == b.table[imageLoc].name
      && ImageLocs(r.value.0) == Categories.ImageLocs(b.table[imageLoc])
    ensures b.level == CategoryLevel ==>
      && (r.Success? <==> HasImage(b, imageLoc) == Success(true))
      && (r.Success? ==> r.value.0 == b && Categories.Select(Current(b), imageLoc) == Success(r.value.1))
  {
    match b.level
    case TopLevel =>
      (match Get(b.table, imageLoc)
       case Success(_) => Success((b.(level := CategoryLevel, current := Some(imageLoc)), ""))
       case Failure(_) => Failure(NoSuchElement))
    case CategoryLevel =>
      (match Categories.Select(Current(b), imageLoc)
       case Success(text) => Success((b, text))
       case Failure(_) => Failure(NoSuchElement))
  }

  /** What `getImageLocs` returns: at the top level an array as long as the
      number of distinct top-level locations, filled from the front of the
      top-level log; inside a category, that category's listing. */
  function ImageLocs(b: Board): (r: seq<string>)
    requires Valid(b)
    ensures b.level == TopLevel ==> |r| == |b.table| <= |b.topOrder|
    ensures b.level == TopLevel ==> forall i :: 0 <= i < |r| ==> r[i] == b.topOrder[i]
    ensures b.level == TopLevel && NoDup(b.topOrder) ==> r == b.topOrder
    ensures b.level == CategoryLevel ==> r == Categories.ImageLocs(Current(b))
  {
    match b.level
    case TopLevel =>
      ElemsCard(b.topOrder);
      b.topOrder[..|b.table|]
    case CategoryLevel => Categories.ImageLocs(Current(b))
  }

  /** `getImageLocs` with its loop. */
  method GetImageLocs(b: Board) returns (r: seq<string>)
    requires Valid(b)
    ensures r == ImageLocs(b)
  {
    if b.level == TopLevel {
      ElemsCard(b.topOrder);
      r := ListLog(b.topOrder, Size(b.table));
    } else {
      r := Categories.GetImageLocs(Current(b));
    }
  }

  /** `reset`: back to the top level with no current category. */
  function Reset(b: Board): (r: Board)
    ensures Valid(b) ==> Valid(r)
    ensures r.level == TopLevel && r.current == None
    ensures r.table == b.table && r.topOrder == b.topOrder
    ensures Valid(b) ==> GetCategory(r) == "" && |ImageLocs(r)| == |b.table|
    ensures Valid(b) && NoDup(b.topOrder) ==> ImageLocs(r) == b.topOrder
  {
    b.(level := TopLevel, current := None)
  }

  /** `addItem`. At the top level it binds the location to a new empty
      category named by the text and logs the location (a re-used location
      loses its old category and is logged again); inside a category it adds
      the pair to the current category, that is, to its table entry. A null
      location is refused by the table and the exception is swallowed. */
  function AddItem(b: Board, imageLoc: Option<string>, text: string): (r: Board)
    requires Valid(b)
    ensures Valid(r)
    ensures r.level == b.level && r.current == b.current
    ensures imageLoc.None? ==> r == b
    ensures b.level == TopLevel && imageLoc.Some? ==>
      && r.topOrder == b.topOrder + [imageLoc.value]
      && r.table.Keys == b.table.Keys + {imageLoc.value}
      && r.table[imageLoc.value] == Categories.New(text)
    ensures b.level == CategoryLevel ==>
      && r.topOrder == b.topOrder
      && r.table.Keys == b.table.Keys
      && Current(r) == Categories.AddItem(Current(b), imageLoc, text)
    ensures b.level == TopLevel ==>
      forall k :: k in b.table && Some(k) != imageLoc ==> r.table[k] == b.table[k]
    ensures b.level == CategoryLevel ==>
      forall k :: k in b.table && Some(k) != b.current ==> r.table[k] == b.table[k]
  {
    match b.level
    case TopLevel =>
      (match Set(b.table, imageLoc, Categories.New(text))
       case Failure(_) => b
       case Success(table) => AddCategory(b, imageLoc.value, table))
    case CategoryLevel => AddToCurrent(b, imageLoc, text)
  }

  /** The top-level branch of `addItem` once the table accepted the new
      binding: log the location. */
  function AddCategory(b: Board, imageLoc: string, table: map<string, Category>): (r: Board)
    requires Valid(b) && b.level == TopLevel
    requires table.Keys == b.table.Keys + {imageLoc}
    requires Categories.Valid(table[imageLoc])
    requires forall k :: k in b.table && k != imageLoc ==> table[k] == b.table[k]
    ensures Valid(r)
    ensures r.level == TopLevel && r.current == None
    ensures r.table == table && r.topOrder == b.topOrder + [imageLoc]
  {
    b.(table := table, topOrder := b.topOrder + [imageLoc])
  }

  /** The category-level branch of `addItem`: the current category's table
      entry takes the pair. */
  function AddToCurrent(b: Board, imageLoc: Option<string>, text: string): (r: Board)
    requires Valid(b) && b.level == CategoryLevel
    ensures Valid(r)
    ensures r.level == b.level && r.current == b.current && r.topOrder == b.topOrder
    ensures r.table.Keys == b.table.Keys
    ensures Current(r) == Categories.AddItem(Current(b), imageLoc, text)
    ensures forall k :: k in b.table && Some(k) != b.current ==> r.table[k] == b.table[k]
  {
    var key := b.current.value;
    b.(table := b.table[key := Categories.AddItem(b.table[key], imageLoc, text)])
  }

  /** `getCategory`: the empty string when there is no current category,
      otherwise its name. */
  function GetCategory(b: Board): (r: string)
    requires Valid(b)
    ensures b.level == TopLevel ==> r == ""
    ensures b.level == CategoryLevel ==> r == Categories.GetCategory(Current(b))
  {
    match b.current
    case None => ""
    case Some(key) => b.table[key].name
  }

  /** `hasImage`. The method calls `currentCategory.equals(null)`, which
      throws a `NullPointerException` when there is no current category, so
      its top-level branch is never taken; inside a category it is the
      category's `hasImage`. */
  function HasImage(b: Board, imageLoc: string): (r: Result<bool, Exception>)
    requires Valid(b)
    ensures r.Success? <==> b.level == CategoryLevel
    ensures r.Failure? ==> r.error == NullPointer
    ensures r.Success? ==> (r.value <==> Categories.Select(Current(b), imageLoc).Success?)
  {
    match b.current
    case None => Failure(NullPointer)
    case Some(key) => Success(Categories.HasImage(b.table[key], imageLoc))
  }

  /** A new top-level entry is a category, named by the text, that selecting
      its location enters, and it is empty. */
  lemma AddTopThenSelect(b: Board, imageLoc: string, text: string)
    requires Valid(b) && b.level == TopLevel
    ensures var r := Select(AddItem(b, Some(imageLoc), text), imageLoc);
      && r.Success? && r.value.1 == ""
      && GetCategory(r.value.0) == text
      && ImageLocs(r.value.0) == []
  {
  }

  /** An item added inside a category is stored in the table: after a reset
      and selecting the same category again, selecting the item speaks the
      text. */
  lemma AddInCategoryPersists(b: Board, imageLoc: string, text: string)
    requires Valid(b) && b.level == CategoryLevel
    ensures var top := Reset(AddItem(b, Some(imageLoc), text));
      var back := Select(top, b.current.value);
      && back.Success?
      && Select(back.value.0, imageLoc) == Success((back.value.0, text))
  {
  }

  /** Selecting an unknown location at the top level throws
      `NoSuchElementException`, so the caller keeps its top-level board. */
  lemma SelectMissingAtTop(b: Board, imageLoc: string)
    requires Valid(b) && b.level == TopLevel
    requires imageLoc !in b.table
    ensures Select(b, imageLoc) == Failure(NoSuchElement)
  {
  }

  /** Adding a new top-level location, when no location was added twice,
      appends it to the top-level listing. */
  lemma AddTopExtendsListing(b: Board, imageLoc: string, text: string)
    requires Valid(b) && b.level == TopLevel && NoDup(b.topOrder)
    requires imageLoc !in b.table
    ensures var r := AddItem(b, Some(imageLoc), text);
      NoDup(r.topOrder) && ImageLocs(r) == ImageLocs(b) + [imageLoc]
  {
    AppendFresh(b.topOrder, imageLoc);
  }
}
