/** One category of the board (`AACCategory`): a name and a set of
    image-location to spoken-text pairs. The pairs are kept twice, in a
    key/value table (`storage`) and in an append-only log of the locations in
    the order they were added (`stringLoc`), which fixes the enumeration
    order. */
module Categories {
  import opened Results
  import opened AssocArrays
  import opened OrderLogs

  datatype Category = Category(name: string, storage: map<string, string>, order: seq<string>)

  /** The two stores agree: a location is in the table exactly when it was
      logged at least once. */
  predicate Valid(c: Category)
  {
    c.storage.Keys == Elems(c.order)
  }

  /** The constructor: an empty category with the given name. */
  function New(name: string): (c: Category)
    ensures Valid(c)
    ensures GetCategory(c) == name
    ensures ImageLocs(c) == []
    ensures forall k :: !HasImage(c, k)
  {
    Category(name, map[], [])
  }

  /** `getCategory`: the name of the category. */
  function GetCategory(c: Category): (r: string)
    ensures r == c.name
  {
    c.name
  }

  /** `addItem`: binds the location to the text in the table and then logs
      the location. A null location makes the table throw before anything
      is logged; the exception is swallowed, so the category is unchanged. */
  function AddItem(c: Category, imageLoc: Option<string>, text: string): (r: Category)
    ensures imageLoc.None? ==> r == c
    ensures imageLoc.Some? ==> Select(r, imageLoc.value) == Success(text)
    ensures forall k :: Some(k) != imageLoc ==> Select(r, k) == Select(c, k)
    ensures r.name == c.name
    ensures imageLoc.Some? ==> r.order == c.order + [imageLoc.value]
    ensures Valid(c) ==> Valid(r)
  {
    match Set(c.storage, imageLoc, text)
    case Failure(_) => c
    case Success(storage) => c.(storage := storage, order := c.order + [imageLoc.value])
  }

  /** `select`: the text spoken for a location of this category; a missing
      location is a `NoSuchElementException`. */
  function Select(c: Category, imageLoc: string): (r: Result<string, Exception>)
    ensures r.Success? <==> HasImage(c, imageLoc)
    ensures r.Failure? ==> r.error == NoSuchElement
  {
    match Get(c.storage, imageLoc)
    case Success(text) => Success(text)
    case Failure(_) => Failure(NoSuchElement)
  }

  /** `hasImage`: total; in a valid category a location is present exactly
      when it has been logged. */
  predicate HasImage(c: Category, imageLoc: string)
    ensures Valid(c) ==> (HasImage(c, imageLoc) <==> imageLoc in c.order)
  {
    HasKey(c.storage, imageLoc)
  }

  /** What `getImageLocs` returns: an array as long as the number of distinct
      locations, filled from the front of the log. When no location was
      added twice this is the whole log, i.e. first-addition order. */
  function ImageLocs(c: Category): (r: seq<string>)
    requires Valid(c)
    ensures |r| == |c.storage| <= |c.order|
    ensures forall i :: 0 <= i < |r| ==> r[i] == c.order[i]
    ensures NoDup(c.order) ==> r == c.order
  {
    ElemsCard(c.order);
    c.order[..|c.storage|]
  }

  /** `getImageLocs` with its loop. */
  method GetImageLocs(c: Category) returns (r: seq<string>)
    requires Valid(c)
    ensures r == ImageLocs(c)
  {
    ElemsCard(c.order);
    r := ListLog(c.order, Size(c.storage));
  }

  /** Adding a location that is not yet present extends the listing by that
      location at the end. */
  lemma AddFreshExtendsListing(c: Category, imageLoc: string, text: string)
    requires Valid(c) && NoDup(c.order)
    requires !HasImage(c, imageLoc)
    ensures NoDup(AddItem(c, Some(imageLoc), text).order)
    ensures ImageLocs(AddItem(c, Some(imageLoc), text)) == ImageLocs(c) + [imageLoc]
  {
    AppendFresh(c.order, imageLoc);
  }

  /** Re-adding a present location replaces its text and keeps the number of
      distinct locations and the listing, but logs the location again. */
  lemma ReAddReplaces(c: Category, imageLoc: string, text: string)
    requires Valid(c)
    requires HasImage(c, imageLoc)
    ensures var r := AddItem(c, Some(imageLoc), text);
      && Select(r, imageLoc) == Success(text)
      && |r.storage| == |c.storage|
      && |r.order| == |c.order| + 1
      && ImageLocs(r) == ImageLocs(c)
  {
    var r := AddItem(c, Some(imageLoc), text);
    assert r.storage.Keys == c.storage.Keys;
    ElemsCard(c.order);
    assert r.order[..|r.storage|] == c.order[..|c.storage|];
  }

  /** Because the listing is cut at the number of distinct locations, a
      location added after a re-add is missing from it while the re-added
      one appears twice. */
  lemma ReAddHidesLaterItem(c: Category, again: string, t1: string, later: string, t2: string)
    requires Valid(c) && NoDup(c.order)
    requires HasImage(c, again) && !HasImage(c, later)
    ensures var r := AddItem(AddItem(c, Some(again), t1), Some(later), t2);
      && HasImage(r, later)
      && ImageLocs(r) == c.order + [again]
      && later !in ImageLocs(r)
  {
    var r1 := AddItem(c, Some(again), t1);
    var r := AddItem(r1, Some(later), t2);
    SizeAfterReAdd(c, again, t1, later, t2);
    assert r.order[..|c.order| + 1] == c.order + [again];
  }

  /** The sizes behind the lemma above: the log grows by two entries, the
      table by one. */
  lemma SizeAfterReAdd(c: Category, again: string, t1: string, later: string, t2: string)
    requires Valid(c) && NoDup(c.order)
    requires again in c.storage && later !in c.storage
    ensures var r := AddItem(AddItem(c, Some(again), t1), Some(later), t2);
      && |r.storage| == |c.order| + 1
      && r.order == c.order + [again, later]
  {
    ElemsCard(c.order);
    var r := AddItem(AddItem(c, Some(again), t1), Some(later), t2);
    assert r.storage.Keys == c.storage.Keys + {later};
  }

  /** Adds the locations `keys`, in order, each with its text from `texts`. */
  function AddAll(c: Category, keys: seq<string>, texts: map<string, string>): (r: Category)
    requires Elems(keys) <= texts.Keys
    ensures r.name == c.name
    ensures r.order == c.order + keys
    ensures Valid(c) ==> Valid(r)
    decreases |keys|
  {
    if keys == [] then c
    else AddAll(AddItem(c, Some(keys[0]), texts[keys[0]]), keys[1..], texts)
  }

  /** After adding `keys` one by one, each added location speaks its text and
      every other location keeps what it had. */
  lemma {:induction false} AddAllStorage(c: Category, keys: seq<string>, texts: map<string, string>)
    requires Elems(keys) <= texts.Keys
    ensures AddAll(c, keys, texts).storage == c.storage + Pick(texts, keys)
    decreases |keys|
  {
    if keys != [] {
      var k0 := keys[0];
      var c' := AddItem(c, Some(k0), texts[k0]);
      assert Elems(keys[1..]) <= Elems(keys);
      AddAllStorage(c', keys[1..], texts);
      assert c'.storage == c.storage[k0 := texts[k0]];
      UpdateThenMerge(c.storage, k0, texts, keys);
    }
  }

  /** Binding the first key and then merging the rest is merging them all. */
  lemma UpdateThenMerge(base: map<string, string>, k0: string, texts: map<string, string>, keys: seq<string>)
    requires |keys| > 0 && keys[0] == k0 && k0 in texts
    ensures base[k0 := texts[k0]] + Pick(texts, keys[1..]) == base + Pick(texts, keys)
  {
    var lhs := base[k0 := texts[k0]] + Pick(texts, keys[1..]);
    var rhs := base + Pick(texts, keys);
    assert Elems(keys) == {k0} + Elems(keys[1..]);
    assert lhs.Keys == rhs.Keys;
  }

  /** Insertion order: a new category filled with distinct locations lists
      exactly those locations, in the order they were added. */
  lemma InsertionOrder(name: string, keys: seq<string>, texts: map<string, string>)
    requires Elems(keys) <= texts.Keys
    requires NoDup(keys)
    ensures ImageLocs(AddAll(New(name), keys, texts)) == keys
  {
  }

  /** A valid category without repeated log entries is rebuilt exactly by
      adding its listed locations, with their texts, to a new category of
      the same name. */
  lemma RebuildFromListing(c: Category)
    requires Valid(c) && NoDup(c.order)
    ensures AddAll(New(c.name), ImageLocs(c), c.storage) == c
  {
    var r := AddAll(New(c.name), c.order, c.storage);
    AddAllStorage(New(c.name), c.order, c.storage);
    PickWhole(c.storage, c.order);
    assert r.storage == c.storage;
  }
}
