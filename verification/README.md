# AAC board: a Dafny model

This project models the core of a two-level AAC (augmentative and
alternative communication) board. On this board, pictures are stored by
image location, and pressing one either opens a category or speaks a text.

It covers two Java classes:

- `AACCategory` is one category. It has a name and a set of image-location
  to text pairs. The pairs are kept twice:
  - in a key/value table (`storage`);
  - in an append-only log of locations (`stringLoc`), which fixes the order
    in which `getImageLocs` lists them.
- `AACMappings` is the board. It holds:
  - a table from top-level locations to categories, plus a log of those
    locations;
  - a two-state navigation machine (`TOPLEVEL`, or `CATEGORYLEVEL` with a
    current category);
  - a line-oriented text format, which the constructor reads and
    `writeToFile` writes.

The associative array both classes rely on is specified abstractly as a Dafny
`map`:

- `set` inserts or replaces, and refuses a null key;
- `get` fails on a missing key;
- `hasKey` is membership;
- `size` is the number of keys.

Modules:

- `Results` holds `Option`, `Result` and the two Java exceptions that
  surface.
- `AssocArrays` is the associative array.
- `OrderLogs` holds the index-to-location logs: their distinct entries, and
  the `getImageLocs` loop shared by both classes.
- `Categories` is `AACCategory`.
- `Mappings` is the navigation part of `AACMappings`.
- `Tokens` covers `Scanner.tokens()` and the joining of the text tokens.
- `BoardFormat` covers the constructor's line loop, `writeToFile`, and the
  round trip between them.
- `Documents` defines the file format on its own, as blocks of a header and
  its items, and relates loading and writing to it.

Modelling choices:

- Java objects become immutable values, and mutators return the new value.
- A thrown exception that the code swallows becomes "value unchanged". A
  thrown exception that escapes becomes a `Failure`.
- `currentCategory` aliases a table entry. It is modelled by the top-level
  location it was selected under, so category-level edits land in the
  table.

The model follows the code as written. Re-adding a location that is already
present appends it to the log a second time, but the table does not grow.
`getImageLocs` sizes its array by the table and fills it from the front of
the log, swallowing the out-of-bounds stores. A re-add on its own only
lengthens the log. Once new locations follow it, the listing repeats the
re-added location and drops the last location added.
`Categories.ReAddHidesLaterItem` states this effect. The top-level log
behaves the same way.

## Model

| member | source | states |
|---|---|---|
| AssocArrays.Set | src/AACCategory.java:46 | a null key fails; otherwise the key is bound to the value, the key set grows by exactly that key, and every other binding is kept |
| AssocArrays.Get | src/AACCategory.java:91 | succeeds exactly when the key is present, with its bound value |
| OrderLogs.ElemsCard | src/AACCategory.java:60-62 | a log has at most as many distinct entries as entries, and exactly as many iff it has no repeats |
| OrderLogs.AppendFresh | src/AACCategory.java:47 | logging a location not yet logged keeps the log free of repeats and adds exactly that location to its entries |
| OrderLogs.ListLog | src/AACCategory.java:60-70 | the loop that fills an array of `size` slots from the whole log, ignoring stores past the end, returns exactly the first `size` log entries |
| Categories.GetCategory | src/AACCategory.java:77-79 | returns the category's name; that this is the name it was created with is carried by `Categories.New`, which sets it, and `Categories.AddItem`, which keeps it |
| Categories.New | src/AACCategory.java:33-37 | a new category is consistent, reports its name, lists nothing and has no image |
| Categories.AddItem | src/AACCategory.java:44-51 | a null location changes nothing; otherwise `select` of that location gives the text, every other location's `select` is unchanged, the name is kept, the location is appended to the log, and consistency is preserved |
| Categories.Select | src/AACCategory.java:88-95 | succeeds exactly when the category has the image; otherwise it is a `NoSuchElementException` |
| Categories.HasImage | src/AACCategory.java:102-104 | in a consistent category, a location is present exactly when it has been logged |
| Categories.ImageLocs | src/AACCategory.java:58-71 | the listing is as long as the number of distinct locations and is a prefix of the log; with no repeats in the log it is the whole log |
| Categories.GetImageLocs | src/AACCategory.java:58-71 | the array loop returns the listing |
| Categories.AddFreshExtendsListing | src/AACCategory.java:44-47 | adding a new location to a category with no repeats appends it to the listing |
| Categories.ReAddReplaces | src/AACCategory.java:46-47 | re-adding a present location replaces its text and keeps the number of distinct locations and the listing, but the log grows by one |
| Categories.ReAddHidesLaterItem | src/AACCategory.java:58-70 | after a re-add and then a new location, the listing holds the re-added location twice, and the new location is missing although `hasImage` reports it |
| Categories.AddAllStorage | src/AACCategory.java:44-47 | adding a run of locations one by one leaves the table equal to the old table overridden by those locations' texts |
| Categories.InsertionOrder | src/AACCategory.java:58-70 | a new category filled with distinct locations lists exactly those locations in the order they were added |
| Categories.RebuildFromListing | src/AACCategory.java:44-70 | adding a category's listed locations with their texts to a new category of the same name rebuilds the category exactly, when its log has no repeats |
| Mappings.Empty | src/AACMappings.java:73-76 | the initial board satisfies the invariant, is at the top level, has the empty label and lists nothing |
| Mappings.Select | src/AACMappings.java:144-158 | at the top level it succeeds iff the location is in the table, and then enters that category, returns "", and reports the category's name and listing; inside a category it succeeds iff `hasImage` is true, leaves the board unchanged and returns the category's text; failures are `NoSuchElementException`; the invariant is preserved |
| Mappings.ImageLocs | src/AACMappings.java:165-187 | at the top level the listing is as long as the number of distinct top-level locations and is a prefix of the top-level log, or the whole log when there are no repeats; inside a category it is that category's listing |
| Mappings.GetImageLocs | src/AACMappings.java:165-187 | the array loop returns the listing |
| Mappings.Reset | src/AACMappings.java:193-196 | goes back to the top level with no current category and the empty label, keeping the table and the log, and preserving the invariant; the top-level listing then has as many entries as the table has keys, and is the whole log when the log has no repeats |
| Mappings.AddItem | src/AACMappings.java:250-261 | keeps the invariant, the level and the current category; a null location changes nothing; at the top level it binds the location to a new empty category named by the text and appends the location to the log; inside a category the current category's table entry takes the item; every other entry is unchanged (at the top level every entry but the added location's, inside a category every entry but the current category's) |
| Mappings.AddCategory | src/AACMappings.java:253-254 | once the table has accepted the new category, logging its location re-establishes the invariant |
| Mappings.AddToCurrent | src/AACMappings.java:256 | the current category's table entry becomes that category with the item added, and nothing else changes |
| Mappings.GetCategory | src/AACMappings.java:269-274 | "" at the top level, otherwise the current category's name |
| Mappings.HasImage | src/AACMappings.java:284-290 | throws `NullPointerException` exactly at the top level; inside a category it is true iff the current category's `select` of the location succeeds |
| Mappings.AddTopThenSelect | src/AACMappings.java:252-254 | selecting a location just added at the top level enters an empty category named by the text and returns "" |
| Mappings.AddInCategoryPersists | src/AACMappings.java:255-256 | an item added inside a category can still be selected after `reset` and re-selecting the category |
| Mappings.SelectMissingAtTop | src/AACMappings.java:147-155 | at the top level, selecting an unknown location throws `NoSuchElementException` |
| Mappings.AddTopExtendsListing | src/AACMappings.java:169-179 | adding a new top-level location to a board with no repeated top-level locations appends it to the top-level listing |
| Tokens.Split | src/AACMappings.java:103 | every token produced is non-empty and has no whitespace |
| Tokens.Tokenize | src/AACMappings.java:103 | every token of a line is non-empty and has no whitespace; an empty line has no tokens, and a line that is a single token is that token |
| Tokens.SplitAtSpace | src/AACMappings.java:103 | a whitespace character ends the token being read: the tokens of the whole input are those before the character followed by those after it |
| Tokens.TokenizeAtSpace | src/AACMappings.java:103 | the tokens of a line split at any whitespace character are the tokens of the part before it followed by the tokens of the part after it |
| Tokens.WordThenSpace | src/AACMappings.java:103 | a token followed by a space is split off as the first token of the line |
| Tokens.TokenizeJoin | src/AACMappings.java:106-110 | splitting tokens that were joined with single spaces gives the same tokens back |
| Tokens.JoinIsCanonical | src/AACMappings.java:106-110 | one or more tokens joined with single spaces form a text that reads back as itself |
| BoardFormat.Start | src/AACMappings.java:73-86 | the loader starts from the empty board, at the top level, with the invariant |
| BoardFormat.ParseLine | src/AACMappings.java:100-121 | a line fails exactly when it has fewer than two tokens (`lineRead[1]` is out of bounds) or when it is an item line and the current header is not in the table (`get` throws); on success the top-level log only grows, the table only gains keys, and the level and current category are unchanged |
| BoardFormat.Feed | src/AACMappings.java:97-127 | reading lines until the first failure only extends the top-level log and the table's keys, and leaves the level and current category unchanged |
| BoardFormat.ParseLineFails | src/AACMappings.java:103-120 | while loading, a line is rejected exactly when it has fewer than two tokens, or when it is an item line and the top-level log is still empty (no header has been read yet) |
| BoardFormat.ParseHeaderOutcome | src/AACMappings.java:112-117 | a header line acts as the board's top-level `addItem` with the joined text, and its location becomes the current header |
| BoardFormat.ParseItemOutcome | src/AACMappings.java:119-120 | an accepted item line replaces the current header's category by that category's `addItem` of the location without `>` and the joined text; the header, the level, the top-level log, the table's keys and every other category are unchanged |
| BoardFormat.ParseLineLoading | src/AACMappings.java:100-121 | reading one line keeps the board valid and at the top level |
| BoardFormat.FeedLoading | src/AACMappings.java:97-122 | reading any number of lines keeps the board valid and at the top level |
| BoardFormat.FeedAppend | src/AACMappings.java:97-122 | lines that are all accepted can be read first, and the remaining lines read from where they left off |
| BoardFormat.Load | src/AACMappings.java:72-128 | the loaded board satisfies the invariant and is at the top level with no current category |
| BoardFormat.LoadStopsAtFailure | src/AACMappings.java:94-127 | the first rejected line ends the load: the result is the board read from the lines before it, whatever follows |
| BoardFormat.Serialise | src/AACMappings.java:223-236 | the written lines number at least the top-level locations; nothing is written exactly when the table is empty, and otherwise the first line is the header of the first listed location with its category's name |
| BoardFormat.WriteItems | src/AACMappings.java:230-235 | the inner loop writes `>location text` for each location of the category's listing, in order |
| BoardFormat.WriteLines | src/AACMappings.java:219-242 | at the top level the nested loops write each listed location's header line followed by its item lines |
| BoardFormat.ParseItemLine | src/AACMappings.java:119-120 | a written item line, read back under a header, adds that item to the header's category |
| BoardFormat.ParseHeaderLine | src/AACMappings.java:112-117 | a written header line, read back, binds its location to a new category with the written name, logs it, and makes it the header |
| BoardFormat.FeedItems | src/AACMappings.java:233-235 | reading back a category's written item lines adds those items, in order, to the header's category |
| BoardFormat.FeedBlock | src/AACMappings.java:227-235 | reading back one written block binds its location to a category equal to the written one |
| BoardFormat.FeedBlocks | src/AACMappings.java:227-236 | reading back the written blocks is accepted, binds each location to its written category and logs the locations in order |
| BoardFormat.LoadSerialise | src/AACMappings.java:199-218 | loading what `writeToFile` writes from a well-formed board gives back the same board |
| Documents.BlocksLinesOf | src/AACMappings.java:227-236 | when each block's location is bound to the category the block describes, the writer's lines for those locations are the document's lines |
| Documents.SerialiseBoardOf | src/AACMappings.java:223-236 | the board a well-formed document describes is well-formed, and writing it gives exactly the document's lines |
| Documents.LoadDocument | src/AACMappings.java:53-71 | loading a well-formed document gives the board its blocks describe: each header location bound to a category with the header's name and the block's items, and the headers logged in order |
| Documents.SaveLoad | src/AACMappings.java:199-242 | loading a well-formed document and then writing the board gives back the same lines |

## Left out

- File I/O. `File`, `Scanner` and `FileWriter`, and the constructor's and `writeToFile`'s handling of a missing file, are not modelled. The loader takes the file's lines, and the writer returns the lines it would write.
- The closing of the scanners at the end of the constructor. This happens after the last line, so it cannot change the board.
- The unused FreeTTS import and the `AACPage` interface, which is not part of this model.
- The associative array's growable-array representation. Only its map behaviour is modelled.
- Java `null` strings. Only `addItem`'s location may be null, as `Option.None`; the table refuses it and the exception is swallowed. Null arguments to `select` and `hasImage`, and null texts, are not modelled.
- The unreachable `return null` at the end of `AACMappings.select`. Exactly one of the two levels always holds.
- The `table.hasKey` branch of `AACMappings.hasImage`. It is never taken, because `currentCategory.equals(null)` already throws at the top level.
- BoardFormat.WriteLines: requires the board to be at the top level. Elsewhere `getImageLocs` returns the current category's locations, the table lookups may fail, and then `writeToFile` swallows the exception after a partial write. When the current category is empty, there are no lookups and an empty file is written.
- Mappings.Select: requires the board invariant (`Mappings.Valid`). So do the other board operations. The constructor establishes the invariant and every operation preserves it, so no reachable board lacks it.
- Categories.ImageLocs: requires the category invariant (both stores agree), which every reachable category satisfies. Without it the array could hold null entries.
- OrderLogs.ListLog: requires at most as many slots as log entries. This always holds under the invariant, so null slots are not modelled.
- BoardFormat.LoadSerialise: proved only for well-formed boards. Such a board is at the top level and has no repeated log entries. Its locations have no whitespace, and top-level locations do not start with `>`. Names and texts are single-space-separated tokens. Other boards do not read back as themselves; a re-added location, for example, loses later items. Splitting the file into lines is not modelled either: the loader takes the lines as given. `Scanner.nextLine` also ends a line at U+0085 (NEL), which is not Java whitespace, so a location, name or text holding that character would be read back as two lines.
- Documents.SaveLoad: proved only for well-formed documents. In such a document, header locations are distinct tokens not starting with `>`, and item locations within a block are distinct. Names and texts are single-space-separated tokens. The same caveat about U+0085 and line splitting applies. Other files are changed by a load and a write. Spacing collapses, and a load stops at its first bad line. A repeated location, at either level, is written with its last binding, and once a later location follows it, it is written twice and pushes the last location out. For example, the lines `h n`, `>a x`, `>a y`, `>b z` are written back as `h n`, `>a y`, `>a y`.
