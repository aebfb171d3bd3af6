/**
 * The parts of Rust's `str` API that the planner and the style parser rely on:
 * `split` on a set of characters, `split_once`, `trim`, `split_whitespace` and `join`.
 * Strings are sequences of Unicode scalar values, as Rust's `chars()` sees them.
 */
module Text {
  import opened Outcomes

  /** Rust's `char::is_whitespace`: the characters with the Unicode White_Space property. */
  predicate IsSpace(c: char) {
    || '\t' <= c <= '\r'
    || c == ' ' || c == '\U{0085}' || c == '\U{00A0}' || c == '\U{1680}'
    || '\U{2000}' <= c <= '\U{200A}'
    || c == '\U{2028}' || c == '\U{2029}' || c == '\U{202F}' || c == '\U{205F}' || c == '\U{3000}'
  }

  /** `s` contains a white-space character. */
  predicate ContainsSpace(s: string) {
    exists i :: 0 <= i < |s| && IsSpace(s[i])
  }

  /** The separators of a `str::split`: white space, or the characters of a set. */
  datatype Separators = Whitespace | OneOf(chars: set<char>) {
    predicate Has(c: char) {
      match this
      case Whitespace => IsSpace(c)
      case OneOf(cs) => c in cs
    }
  }

  /** The separator characters of `s`, in order. */
  function SeparatorsIn(s: string, seps: Separators): string {
    if s == [] then [] else (if seps.Has(s[0]) then [s[0]] else []) + SeparatorsIn(s[1..], seps)
  }

  /** `s` with its separator characters removed. */
  function WithoutSeparators(s: string, seps: Separators): string {
    if s == [] then [] else (if seps.Has(s[0]) then [] else [s[0]]) + WithoutSeparators(s[1..], seps)
  }

  /** The pieces concatenated, with nothing between them. */
  function Flatten(pieces: seq<string>): string {
    if pieces == [] then [] else pieces[0] + Flatten(pieces[1..])
  }

  /** The pieces with the `i`-th joint character between piece `i` and piece `i + 1`. */
  function Interleave(pieces: seq<string>, joints: string): string
    requires |pieces| == |joints| + 1
  {
    if joints == [] then pieces[0]
    else pieces[0] + [joints[0]] + Interleave(pieces[1..], joints[1..])
  }

  /**
   * `str::split` with a separator predicate given as a set: every separator closes a
   * piece, so the result always has a piece, empty pieces are kept, and no piece holds a
   * separator. `SplitContent` says which pieces they are.
   */
  function Split(s: string, seps: Separators): (r: seq<string>)
    ensures |r| >= 1
    ensures forall i, j :: 0 <= i < |r| && 0 <= j < |r[i]| ==> !seps.Has(r[i][j])
  {
    if s == [] then [""]
    else
      var rest := Split(s[1..], seps);
      if seps.Has(s[0]) then [""] + rest else [[s[0]] + rest[0]] + rest[1..]
  }

  /**
   * The pieces of a split: one more than there are separators; putting each separator back
   * between its two pieces gives the text again, and the pieces concatenated are the text
   * with its separators removed.
   */
  lemma SplitContent(s: string, seps: Separators)
    ensures var r := Split(s, seps);
      && |r| == |SeparatorsIn(s, seps)| + 1
      && Interleave(r, SeparatorsIn(s, seps)) == s
      && Flatten(r) == WithoutSeparators(s, seps)
  {
    SplitInterleave(s, seps);
    SplitFlatten(s, seps);
  }

  /** Putting each separator back between its two pieces gives the split text again. */
  lemma {:induction false} SplitInterleave(s: string, seps: Separators)
    ensures |Split(s, seps)| == |SeparatorsIn(s, seps)| + 1
    ensures Interleave(Split(s, seps), SeparatorsIn(s, seps)) == s
  {
    if s != [] {
      var x, t := s[0], s[1..];
      assert s == [x] + t;
      SplitInterleave(t, seps);
      if seps.Has(x) {
        assert SeparatorsIn(s, seps) == [x] + SeparatorsIn(t, seps);
        SplitConsSeparator(x, t, seps);
        InterleaveConsSeparator(x, Split(t, seps), SeparatorsIn(t, seps));
      } else {
        assert SeparatorsIn(s, seps) == SeparatorsIn(t, seps);
        SplitCons(x, t, seps);
        InterleaveCons(x, Split(t, seps), SeparatorsIn(t, seps));
      }
    }
  }

  /** A leading empty piece and separator put back give the separator, then the rest. */
  lemma InterleaveConsSeparator(x: char, rest: seq<string>, joints: string)
    requires |rest| == |joints| + 1
    ensures Interleave([""] + rest, [x] + joints) == [x] + Interleave(rest, joints)
  {
    assert ([""] + rest)[1..] == rest;
    assert ([x] + joints)[1..] == joints;
  }

  /** Prefixing the first piece prefixes the text put back together. */
  lemma InterleaveCons(x: char, rest: seq<string>, joints: string)
    requires |rest| == |joints| + 1
    ensures Interleave([[x] + rest[0]] + rest[1..], joints) == [x] + Interleave(rest, joints)
  {
    var r := [[x] + rest[0]] + rest[1..];
    assert r[1..] == rest[1..];
  }

  /** The pieces of a split concatenated are the text with its separators removed. */
  lemma {:induction false} SplitFlatten(s: string, seps: Separators)
    ensures Flatten(Split(s, seps)) == WithoutSeparators(s, seps)
  {
    if s != [] {
      var x, t := s[0], s[1..];
      assert s == [x] + t;
      SplitFlatten(t, seps);
      var rest := Split(t, seps);
      if seps.Has(x) {
        SplitConsSeparator(x, t, seps);
        assert ([""] + rest)[1..] == rest;
      } else {
        SplitCons(x, t, seps);
        var r := [[x] + rest[0]] + rest[1..];
        assert r[1..] == rest[1..];
        assert Flatten(rest) == rest[0] + Flatten(rest[1..]);
      }
    }
  }

  /** `pieces.join(sep)` for a one-character separator. */
  function JoinWith(pieces: seq<string>, sep: char): string {
    if pieces == [] then ""
    else if |pieces| == 1 then pieces[0]
    else pieces[0] + [sep] + JoinWith(pieces[1..], sep)
  }

  /** `pieces.join(" ")`. */
  function JoinSpaced(pieces: seq<string>): string {
    JoinWith(pieces, ' ')
  }

  /** Splitting at one separator and joining back with it gives the original string. */
  lemma {:induction false} SplitJoinRoundTrip(s: string, sep: char)
    ensures JoinWith(Split(s, OneOf({sep})), sep) == s
  {
    if s != [] {
      var rest := Split(s[1..], OneOf({sep}));
      SplitJoinRoundTrip(s[1..], sep);
      if s[0] == sep {
        assert Split(s, OneOf({sep})) == [""] + rest;
        assert ([""] + rest)[1..] == rest;
      } else {
        var r := Split(s, OneOf({sep}));
        assert r == [[s[0]] + rest[0]] + rest[1..];
        if |rest| == 1 {
          assert r == [[s[0]] + rest[0]];
        } else {
          assert r[1..] == rest[1..];
          assert JoinWith(rest, sep) == rest[0] + [sep] + JoinWith(rest[1..], sep);
        }
      }
    }
  }

  /** Joining a list with one more piece at the end adds a separator and that piece. */
  lemma {:induction false} JoinWithSnoc(pieces: seq<string>, last: string, sep: char)
    requires pieces != []
    ensures JoinWith(pieces + [last], sep) == JoinWith(pieces, sep) + [sep] + last
  {
    if |pieces| > 1 {
      JoinWithSnoc(pieces[1..], last, sep);
      assert (pieces + [last])[1..] == pieces[1..] + [last];
    }
  }

  /**
   * `str::split_once(sep)`: the text before and after the first `sep`, or None when
   * `sep` does not occur.
   */
  function SplitOnce(s: string, sep: char): (r: Option<(string, string)>)
    ensures r.None? <==> sep !in s
    ensures r.Some? ==> sep !in r.value.0 && s == r.value.0 + [sep] + r.value.1
  {
    if s == [] then None
    else if s[0] == sep then Some(([], s[1..]))
    else match SplitOnce(s[1..], sep)
      case None => None
      case Some((before, after)) => Some(([s[0]] + before, after))
  }

  /** Splitting a string at a separator's first occurrence gives back the text around it. */
  lemma {:induction false} SplitOnceAtFirst(before: string, sep: char, after: string)
    requires sep !in before
    ensures SplitOnce(before + [sep] + after, sep) == Some((before, after))
  {
    var s := before + [sep] + after;
    if before == [] {
      assert s[1..] == after;
    } else {
      SplitOnceAtFirst(before[1..], sep, after);
      assert s[0] == before[0] && before[0] != sep;
      assert s[1..] == before[1..] + [sep] + after;
      assert [s[0]] + before[1..] == before;
    }
  }

  /** `str::trim_start`: drops leading white space. */
  function TrimStart(s: string): (r: string)
    ensures |r| <= |s| && r == s[|s| - |r|..]
    ensures r == [] || !IsSpace(r[0])
    ensures forall i :: 0 <= i < |s| - |r| ==> IsSpace(s[i])
  {
    if s != [] && IsSpace(s[0]) then TrimStart(s[1..]) else s
  }

  /** `str::trim_end`: drops trailing white space. */
  function TrimEnd(s: string): (r: string)
    ensures |r| <= |s| && r == s[..|r|]
    ensures r == [] || !IsSpace(r[|r| - 1])
    ensures forall i :: |r| <= i < |s| ==> IsSpace(s[i])
  {
    if s != [] && IsSpace(s[|s| - 1]) then TrimEnd(s[..|s| - 1]) else s
  }

  /** `str::trim`: drops leading and trailing white space. */
  function Trim(s: string): (r: string)
    ensures r == [] || (!IsSpace(r[0]) && !IsSpace(r[|r| - 1]))
  {
    var t := TrimStart(s);
    var r := TrimEnd(t);
    assert r != [] ==> r[0] == t[0];
    r
  }

  /** Every character of `s` is white space. */
  predicate Blank(s: string) {
    forall i :: 0 <= i < |s| ==> IsSpace(s[i])
  }

  /** Trimming the start of a blank string leaves nothing. */
  lemma {:induction false} TrimStartOfBlank(s: string)
    requires Blank(s)
    ensures TrimStart(s) == []
  {
    if s != [] {
      TrimStartOfBlank(s[1..]);
    }
  }

  /** The trim of a string is empty exactly when the string is blank. */
  lemma TrimIsEmptyIffBlank(s: string)
    ensures Trim(s) == [] <==> Blank(s)
  {
    if Blank(s) {
      TrimStartOfBlank(s);
    } else {
      assert TrimStart(s) != [];
    }
  }

  /** The non-empty pieces of a list of pieces, in order. */
  function NonEmpty(pieces: seq<string>): (r: seq<string>)
    ensures |r| <= |pieces|
    ensures forall i :: 0 <= i < |r| ==> r[i] != []
    ensures forall i :: 0 <= i < |r| ==> r[i] in pieces
  {
    if pieces == [] then []
    else if pieces[0] == [] then NonEmpty(pieces[1..])
    else [pieces[0]] + NonEmpty(pieces[1..])
  }

  /**
   * `str::split_whitespace`: the maximal runs of non-white-space characters, in order.
   * Every word is non-empty and holds no white space.
   */
  function Words(s: string): (r: seq<string>)
    ensures forall i :: 0 <= i < |r| ==> r[i] != [] && !ContainsSpace(r[i])
  {
    var pieces := Split(s, Whitespace);
    var r := NonEmpty(pieces);
    assert forall i :: 0 <= i < |r| ==> exists p :: 0 <= p < |pieces| && r[i] == pieces[p];
    r
  }

  /** A string with a character outside `seps` has a non-empty piece. */
  lemma {:induction false} SplitHasNonEmptyPiece(s: string, seps: Separators, i: nat)
    requires i < |s| && !seps.Has(s[i])
    ensures NonEmpty(Split(s, seps)) != []
  {
    var rest := Split(s[1..], seps);
    if i == 0 {
      assert Split(s, seps)[0] != [];
    } else if seps.Has(s[0]) {
      SplitHasNonEmptyPiece(s[1..], seps, i - 1);
      assert Split(s, seps) == [""] + rest;
      assert ([""] + rest)[1..] == rest;
    } else {
      assert Split(s, seps)[0] != [];
    }
  }

  /** A string holding some non-white-space character has at least one word. */
  lemma WordsOfNonBlank(s: string, i: nat)
    requires i < |s| && !IsSpace(s[i])
    ensures Words(s) != []
  {
    SplitHasNonEmptyPiece(s, Whitespace, i);
  }

  /** A leading character that is not a separator starts the first piece. */
  lemma SplitCons(x: char, t: string, seps: Separators)
    requires !seps.Has(x)
    ensures Split([x] + t, seps) == [[x] + Split(t, seps)[0]] + Split(t, seps)[1..]
  {
    assert ([x] + t)[1..] == t;
  }

  /** A leading separator closes an empty first piece. */
  lemma SplitConsSeparator(x: char, t: string, seps: Separators)
    requires seps.Has(x)
    ensures Split([x] + t, seps) == [""] + Split(t, seps)
  {
    assert ([x] + t)[1..] == t;
  }

  /** Prefixing the first piece of a non-empty list commutes with appending pieces after it. */
  lemma PrefixFirstPiece(x: char, ra: seq<string>, rb: seq<string>)
    requires ra != []
    ensures [[x] + ra[0]] + ra[1..] + rb == [[x] + (ra + rb)[0]] + (ra + rb)[1..]
  {
    assert (ra + rb)[0] == ra[0];
    assert (ra + rb)[1..] == ra[1..] + rb;
  }

  /** One more leading character keeps a split at a separator in two. */
  lemma SplitAtSeparatorCons(x: char, a: string, c: char, b: string, seps: Separators)
    requires seps.Has(c)
    requires Split(a + [c] + b, seps) == Split(a, seps) + Split(b, seps)
    ensures Split([x] + (a + [c] + b), seps) == Split([x] + a, seps) + Split(b, seps)
  {
    if seps.Has(x) {
      SplitConsSeparator(x, a + [c] + b, seps);
      SplitConsSeparator(x, a, seps);
    } else {
      SplitCons(x, a + [c] + b, seps);
      SplitCons(x, a, seps);
      PrefixFirstPiece(x, Split(a, seps), Split(b, seps));
    }
  }

  /** A non-empty text, and the same text followed by more, both start with its first character. */
  lemma SplitHead(a: string, rest: string)
    requires a != []
    ensures a + rest == [a[0]] + (a[1..] + rest)
    ensures a == [a[0]] + a[1..]
  {
  }

  /** Dropping empty pieces does not change the pieces concatenated. */
  lemma {:induction false} NonEmptyFlatten(pieces: seq<string>)
    ensures Flatten(NonEmpty(pieces)) == Flatten(pieces)
  {
    if pieces != [] {
      NonEmptyFlatten(pieces[1..]);
    }
  }

  /** The words concatenated are the text with its white space removed. */
  lemma WordsContent(s: string)
    ensures Flatten(Words(s)) == WithoutSeparators(s, Whitespace)
  {
    SplitContent(s, Whitespace);
    NonEmptyFlatten(Split(s, Whitespace));
  }

  /** Splitting at a separator splits the text into the pieces before it and those after it. */
  lemma {:induction false} SplitAtSeparator(a: string, c: char, b: string, seps: Separators)
    requires seps.Has(c)
    ensures Split(a + [c] + b, seps) == Split(a, seps) + Split(b, seps)
  {
    if a == [] {
      SplitConsSeparator(c, b, seps);
      assert a + [c] + b == [c] + b;
    } else {
      assert a + [c] + b == a + ([c] + b);
      assert a[1..] + [c] + b == a[1..] + ([c] + b);
      SplitAtSeparator(a[1..], c, b, seps);
      SplitAtSeparatorCons(a[0], a[1..], c, b, seps);
      SplitHead(a, [c] + b);
    }
  }

  /** A string without separators is a single piece. */
  lemma {:induction false} SplitOfPiece(s: string, seps: Separators)
    requires forall i :: 0 <= i < |s| ==> !seps.Has(s[i])
    ensures Split(s, seps) == [s]
  {
    if s != [] {
      SplitOfPiece(s[1..], seps);
      SplitCons(s[0], s[1..], seps);
      assert s == [s[0]] + s[1..];
    }
  }

  /** Dropping the empty pieces of two lists is dropping them from each, in order. */
  lemma {:induction false} NonEmptyAppend(a: seq<string>, b: seq<string>)
    ensures NonEmpty(a + b) == NonEmpty(a) + NonEmpty(b)
  {
    if a != [] {
      NonEmptyAppend(a[1..], b);
      assert (a + b)[0] == a[0];
      assert (a + b)[1..] == a[1..] + b;
    } else {
      assert a + b == b;
    }
  }

  /**
   * `split_whitespace` is pinned down by three facts: the empty text has no word, a
   * non-empty text without white space is one word, and a white-space character separates
   * the words before it from the words after it.
   */
  lemma WordsCharacterized(a: string, c: char, b: string)
    requires IsSpace(c)
    ensures Words([]) == []
    ensures a != [] && !ContainsSpace(a) ==> Words(a) == [a]
    ensures Words(a + [c] + b) == Words(a) + Words(b)
  {
    if a != [] && !ContainsSpace(a) {
      SplitOfPiece(a, Whitespace);
    }
    SplitAtSeparator(a, c, b, Whitespace);
    NonEmptyAppend(Split(a, Whitespace), Split(b, Whitespace));
  }

  /** The words of each piece, piece after piece. */
  function AllWords(pieces: seq<string>): seq<string> {
    if pieces == [] then [] else Words(pieces[0]) + AllWords(pieces[1..])
  }

  lemma {:induction false} AllWordsAppend(a: seq<string>, b: seq<string>)
    ensures AllWords(a + b) == AllWords(a) + AllWords(b)
  {
    if a == [] {
      assert a + b == b;
    } else {
      var ab := a + b;
      assert ab[0] == a[0];
      assert ab[1..] == a[1..] + b;
      AllWordsAppend(a[1..], b);
      calc {
        AllWords(ab);
        Words(a[0]) + AllWords(a[1..] + b);
        Words(a[0]) + (AllWords(a[1..]) + AllWords(b));
      }
    }
  }

  /** Joining pieces with spaces neither adds, drops nor merges words. */
  lemma {:induction false} WordsOfJoinSpaced(pieces: seq<string>)
    ensures Words(JoinSpaced(pieces)) == AllWords(pieces)
  {
    WordsCharacterized([], ' ', []);
    if |pieces| == 1 {
      assert AllWords(pieces) == Words(pieces[0]) + AllWords([]);
    } else if |pieces| > 1 {
      WordsOfJoinSpaced(pieces[1..]);
      WordsCharacterized(pieces[0], ' ', JoinSpaced(pieces[1..]));
    }
  }

  /** A list of words, each its own single word, gives back exactly those words. */
  lemma {:induction false} AllWordsOfWords(words: seq<string>)
    requires forall i :: 0 <= i < |words| ==> words[i] != [] && !ContainsSpace(words[i])
    ensures AllWords(words) == words
  {
    if words != [] {
      WordsCharacterized(words[0], ' ', []);
      AllWordsOfWords(words[1..]);
    }
  }
}
