/** Splitting a line into tokens the way `Scanner.tokens()` does with its
    default delimiter (runs of Java whitespace), and joining tokens back
    with single spaces the way the board loader rebuilds a text. */
module Tokens {
  import OrderLogs

  /** `Character.isWhitespace`: the Unicode space, line and paragraph
      separators other than the non-breaking spaces, plus the ASCII
      controls tab, line feed, vertical tab, form feed, carriage return and
      the four information separators. */
  predicate IsSpace(ch: char)
  {
    || ch == ' ' || ch == '\t' || ch == '\n' || ch == '\r'
    || ch == '\U{000B}' || ch == '\U{000C}'
    || ('\U{001C}' <= ch <= '\U{001F}')
    || ch == '\U{1680}'
    || ('\U{2000}' <= ch <= '\U{2006}')
    || ('\U{2008}' <= ch <= '\U{200A}')
    || ch == '\U{2028}' || ch == '\U{2029}' || ch == '\U{205F}' || ch == '\U{3000}'
  }

  /** A string with no whitespace in it (possibly empty). */
  predicate Solid(s: string)
  {
    forall i :: 0 <= i < |s| ==> !IsSpace(s[i])
  }

  /** A token: a non-empty string with no whitespace. */
  predicate IsWord(s: string)
  {
    |s| > 0 && Solid(s)
  }

  /** Scans `s` with `partial` the characters of the token being read so far. */
  function Split(s: string, partial: string): (r: seq<string>)
    requires Solid(partial)
    ensures forall i :: 0 <= i < |r| ==> IsWord(r[i])
    decreases |s|
  {
    if s == [] then
      if partial == [] then [] else [partial]
    else if IsSpace(s[0]) then
      if partial == [] then Split(s[1..], []) else [partial] + Split(s[1..], [])
    else
      Split(s[1..], partial + [s[0]])
  }

  /** The tokens of a line: maximal runs of non-whitespace characters, in
      order, with empty tokens dropped. An empty line has no tokens and a
      line with no whitespace is one token; `TokenizeAtSpace` below splits
      every other line at its whitespace. */
  function Tokenize(line: string): (r: seq<string>)
    ensures forall i :: 0 <= i < |r| ==> IsWord(r[i])
    ensures line == [] ==> r == []
    ensures IsWord(line) ==> r == [line]
  {
    SplitWord(line);
    Split(line, [])
  }

  /** The tokens separated by single spaces. */
  function Join(words: seq<string>): string
    decreases |words|
  {
    if words == [] then []
    else if |words| == 1 then words[0]
    else words[0] + " " + Join(words[1..])
  }

  /** A text that reads back as itself: it has at least one token and
      joining its tokens with single spaces gives it back (non-empty, no
      leading, trailing or doubled spaces, no other whitespace). */
  predicate Canonical(text: string)
  {
    var words := Tokenize(text);
    |words| >= 1 && Join(words) == text
  }

  /** Characters with no whitespace simply extend the token being read. */
  lemma {:induction false} SplitSolid(w: string, rest: string, partial: string)
    requires Solid(w) && Solid(partial)
    ensures Split(w + rest, partial) == Split(rest, partial + w)
    decreases |w|
  {
    if w == [] {
      assert w + rest == rest;
      assert partial + w == partial;
    } else {
      assert (w + rest)[0] == w[0];
      assert (w + rest)[1..] == w[1..] + rest;
      SplitSolid(w[1..], rest, partial + [w[0]]);
      assert partial + [w[0]] + w[1..] == partial + w;
    }
  }

  /** A whitespace character ends the token being read: what comes before
      it and what comes after it are split separately. */
  lemma {:induction false} SplitAtSpace(a: string, c: char, b: string, partial: string)
    requires Solid(partial) && IsSpace(c)
    ensures Split(a + [c] + b, partial) == Split(a, partial) + Split(b, [])
    decreases |a|
  {
    if a == [] {
      assert a + [c] + b == [c] + b;
      assert ([c] + b)[1..] == b;
    } else {
      var s := a + [c] + b;
      assert s[0] == a[0];
      assert s[1..] == a[1..] + [c] + b;
      if IsSpace(a[0]) {
        SplitAtSpace(a[1..], c, b, []);
        if partial != [] {
          OrderLogs.AppendAssoc([partial], Split(a[1..], []), Split(b, []));
        }
      } else {
        SplitAtSpace(a[1..], c, b, partial + [a[0]]);
      }
    }
  }

  /** A line with no whitespace is a single token. */
  lemma SplitWord(w: string)
    ensures IsWord(w) ==> Split(w, []) == [w]
  {
    if IsWord(w) {
      SplitSolid(w, [], []);
      assert w + [] == w;
      assert [] + w == w;
    }
  }

  /** A whitespace character splits a line: its tokens are the tokens before
      the character followed by the tokens after it. */
  lemma TokenizeAtSpace(a: string, c: char, b: string)
    requires IsSpace(c)
    ensures Tokenize(a + [c] + b) == Tokenize(a) + Tokenize(b)
  {
    SplitAtSpace(a, c, b, []);
  }

  /** A token followed by a space is split off as the first token. */
  lemma WordThenSpace(w: string, rest: string)
    requires IsWord(w)
    ensures Tokenize(w + " " + rest) == [w] + Tokenize(rest)
  {
    assert w + " " + rest == w + [' '] + rest;
    TokenizeAtSpace(w, ' ', rest);
  }

  /** Tokenizing undoes joining: tokens joined with single spaces split back
      into the same tokens. */
  lemma {:induction false} TokenizeJoin(words: seq<string>)
    requires forall i :: 0 <= i < |words| ==> IsWord(words[i])
    ensures Tokenize(Join(words)) == words
    decreases |words|
  {
    if words == [] {
    } else if |words| == 1 {
    } else {
      TokenizeJoin(words[1..]);
      WordThenSpace(words[0], Join(words[1..]));
      assert words == [words[0]] + words[1..];
    }
  }

  /** So a non-empty run of tokens joined with single spaces is canonical. */
  lemma JoinIsCanonical(words: seq<string>)
    requires |words| >= 1
    requires forall i :: 0 <= i < |words| ==> IsWord(words[i])
    ensures Canonical(Join(words))
  {
    TokenizeJoin(words);
  }
}
