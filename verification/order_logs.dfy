/** An order log is the `AssociativeArray<Integer, String>` that both the
    category and the board keep beside their main table: it is only ever
    extended with `set(size(), key)`, so its keys are always 0 .. size-1 and
    it is modelled as a sequence. */
module OrderLogs {

  /** The distinct entries of a log. */
  function Elems<T(==)>(s: seq<T>): set<T>
  {
    set x | x in s
  }

  /** No entry of the log occurs twice. */
  predicate NoDup<T(==)>(s: seq<T>)
  {
    forall i, j :: 0 <= i < j < |s| ==> s[i] != s[j]
  }

  /** A log holds at most as many distinct entries as it is long, and exactly
      as many precisely when no entry is repeated. */
  lemma {:induction false} ElemsCard<T>(s: seq<T>)
    ensures |Elems(s)| <= |s|
    ensures NoDup(s) <==> |Elems(s)| == |s|
    decreases |s|
  {
    if s == [] {
      assert Elems(s) == {};
    } else {
      var t := s[..|s| - 1];
      var x := s[|s| - 1];
      ElemsCard(t);
      assert s == t + [x];
      assert Elems(s) == Elems(t) + {x};
      if x in Elems(t) {
        assert Elems(s) == Elems(t);
        var j :| 0 <= j < |t| && t[j] == x;
        assert s[j] == s[|s| - 1];
        assert !NoDup(s);
      } else {
        assert |Elems(s)| == |Elems(t)| + 1;
        if NoDup(s) {
          assert NoDup(t) by {
            forall i, j | 0 <= i < j < |t| ensures t[i] != t[j] {
              assert s[i] == t[i] && s[j] == t[j];
            }
          }
        } else {
          var i, j :| 0 <= i < j < |s| && s[i] == s[j];
          assert s[i] in Elems(t);
          assert j < |s| - 1;
          assert t[i] == t[j];
        }
      }
    }
  }

  /** Appending an entry not yet in a duplicate-free log keeps it
      duplicate-free. */
  lemma AppendFresh<T>(s: seq<T>, x: T)
    requires NoDup(s) && x !in s
    ensures NoDup(s + [x])
    ensures Elems(s + [x]) == Elems(s) + {x}
  {
  }

  /** A prefix and the next element of a sequence are drawn from it. */
  lemma PrefixElems<T>(s: seq<T>, i: nat)
    requires i < |s|
    ensures Elems(s[..i]) <= Elems(s) && s[i] in Elems(s)
  {
  }

  /** The prefix one longer is the prefix and the next element. */
  lemma TakeNext<T>(s: seq<T>, i: nat)
    requires i < |s|
    ensures s[..i + 1] == s[..i] + [s[i]]
  {
  }

  /** Concatenation regroups freely. Stated once so that proofs about
      assembled logs and token lists can regroup without asserting a
      sequence equality in a large context. */
  lemma AppendAssoc<T>(a: seq<T>, b: seq<T>, c: seq<T>)
    ensures a + (b + c) == (a + b) + c
  {
  }

  /** The entries of `m` whose keys occur in the log `keys`. */
  function Pick<K, V>(m: map<K, V>, keys: seq<K>): (r: map<K, V>)
    ensures r.Keys == m.Keys * Elems(keys)
    ensures forall k :: k in r ==> r[k] == m[k]
  {
    map k | k in m && k in keys :: m[k]
  }

  /** When a log records exactly the keys of `m`, looking every logged key up
      gives back the whole of `m`. */
  lemma PickWhole<K, V>(m: map<K, V>, keys: seq<K>)
    requires m.Keys == Elems(keys)
    ensures map[] + Pick(m, keys) == m
  {
    var p := Pick(m, keys);
    assert p.Keys == m.Keys;
    assert map[] + p == p;
  }

  /** The enumeration loop shared by `AACCategory.getImageLocs` and the top
      level of `AACMappings.getImageLocs`: an array of `size` slots is filled
      from the log, index by index, for as long as the LOG lasts; a store past
      the end of the array raises an index error that the loop body catches
      and ignores. So the result is the first `size` log entries. */
  method ListLog(log: seq<string>, size: nat) returns (r: seq<string>)
    requires size <= |log|
    ensures |r| == size
    ensures forall i :: 0 <= i < size ==> r[i] == log[i]
  {
    var arr := new string[size];
    var i := 0;
    while i < |log|
      invariant 0 <= i <= |log|
      invariant forall j :: 0 <= j < size && j < i ==> arr[j] == log[j]
    {
      if i < arr.Length {
        arr[i] := log[i];
      }
      // otherwise the store is out of bounds; the exception is swallowed
      i := i + 1;
    }
    r := arr[..];
  }
}
