/**
 * The phoneme vocabulary of the Unicode check program: the symbol table of the model
 * (pad, punctuation, Latin letters, IPA letters), inverted into a character-to-index map,
 * and the split of a phoneme string into the characters the vocabulary knows and those
 * it does not.
 */
module Vocab {

  const PAD: string := "$"
  const PUNCTUATION: string := ";:,.!?\U{00A1}\U{00BF}\U{2014}\U{2026}\"\U{00AB}\U{00BB}\"\" "
  const LETTERS: string := "ABCDEFGHIJKLM" + "NOPQRSTUVWXYZ" + "abcdefghijklm" + "nopqrstuvwxyz"
  const IPA_BODY: string :=
    "\U{0251}\U{0250}\U{0252}\U{00E6}\U{0253}\U{0299}\U{03B2}\U{0254}\U{0255}\U{00E7}\U{0257}\U{0256}"
    + "\U{00F0}\U{02A4}\U{0259}\U{0258}\U{025A}\U{025B}\U{025C}\U{025D}\U{025E}\U{025F}\U{0284}\U{0261}"
    + "\U{0260}\U{0262}\U{029B}\U{0266}\U{0267}\U{0127}\U{0265}\U{029C}\U{0268}\U{026A}\U{029D}\U{026D}"
    + "\U{026C}\U{026B}\U{026E}\U{029F}\U{0271}\U{026F}\U{0270}\U{014B}\U{0273}\U{0272}\U{0274}\U{00F8}"
    + "\U{0275}\U{0278}\U{03B8}\U{0153}\U{0276}\U{0298}\U{0279}\U{027A}\U{027E}\U{027B}\U{0280}\U{0281}"
    + "\U{027D}\U{0282}\U{0283}\U{0288}\U{02A7}\U{0289}\U{028A}\U{028B}\U{2C71}\U{028C}\U{0263}\U{0264}"
    + "\U{028D}\U{03C7}\U{028E}\U{028F}\U{0291}\U{0290}\U{0292}\U{0294}\U{02A1}\U{0295}\U{02A2}\U{01C0}"
    + "\U{01C1}\U{01C2}\U{01C3}\U{02C8}\U{02CC}\U{02D0}\U{02D1}\U{02BC}\U{02B4}\U{02B0}\U{02B1}\U{02B2}"
    + "\U{02B7}\U{02E0}\U{02E4}\U{02DE}\U{2193}\U{2191}\U{2192}\U{2197}\U{2198}"
  /** The IPA symbols end with the apostrophe, a combining vertical line below, another apostrophe and U+1D7B. */
  const IPA_TAIL: string := "'\U{0329}'\U{1D7B}"
  const LETTERS_IPA: string := IPA_BODY + IPA_TAIL

  /** The symbol table: the index of a symbol is its token id. */
  const SYMBOLS: string := PAD + PUNCTUATION + LETTERS + LETTERS_IPA

  type Vocabulary = map<char, nat>

  // ---------------------------------------------------------------------------
  // Building the vocabulary
  // ---------------------------------------------------------------------------

  /**
   * An order in which a hash map of the `n` entries `index -> symbol` can hand out its
   * entries: every index below `n` exactly once.
   */
  predicate IsEnumerationOrder(order: seq<nat>, n: nat) {
    && |order| == n
    && (forall i :: 0 <= i < |order| ==> order[i] < n)
    && (forall idx :: 0 <= idx < n ==> idx in order)
  }

  /** Inserting `symbol -> index` for each index in `order`; a later insertion replaces an earlier one. */
  function Invert(symbols: string, order: seq<nat>): (v: Vocabulary)
    requires forall i :: 0 <= i < |order| ==> order[i] < |symbols|
    ensures forall c :: c in v ==> v[c] in order && v[c] < |symbols| && symbols[v[c]] == c
  {
    if order == [] then map[]
    else
      var idx := order[|order| - 1];
      Invert(symbols, order[..|order| - 1])[symbols[idx] := idx]
  }

  /** `get_vocab`: the symbol table inverted, with the entries met in the hash map's order. */
  function GetVocab(order: seq<nat>): (v: Vocabulary)
    requires IsEnumerationOrder(order, |SYMBOLS|)
  {
    Invert(SYMBOLS, order)
  }

  /** The keys of an inversion are exactly the symbols met in the order. */
  lemma {:induction false} InvertKeys(symbols: string, order: seq<nat>, c: char)
    requires forall i :: 0 <= i < |order| ==> order[i] < |symbols|
    ensures c in Invert(symbols, order) <==> exists i :: 0 <= i < |order| && symbols[order[i]] == c
  {
    if order != [] {
      var front := order[..|order| - 1];
      InvertKeys(symbols, front, c);
      if c in Invert(symbols, front) {
        var i :| 0 <= i < |front| && symbols[front[i]] == c;
        assert order[i] == front[i];
      }
      if exists i :: 0 <= i < |order| && symbols[order[i]] == c {
        var i :| 0 <= i < |order| && symbols[order[i]] == c;
        if i < |front| {
          assert front[i] == order[i];
        }
      }
    }
  }

  /** The symbol at the last position of the order that holds it keeps its index. */
  lemma {:induction false} InvertLastWins(symbols: string, order: seq<nat>, k: nat)
    requires forall i :: 0 <= i < |order| ==> order[i] < |symbols|
    requires k < |order|
    requires forall j :: k < j < |order| ==> symbols[order[j]] != symbols[order[k]]
    ensures symbols[order[k]] in Invert(symbols, order)
    ensures Invert(symbols, order)[symbols[order[k]]] == order[k]
  {
    if k < |order| - 1 {
      var front := order[..|order| - 1];
      InvertLastWins(symbols, front, k);
    }
  }

  /** Every character of the symbol table is a key of the vocabulary, and no other character. */
  lemma VocabKeys(order: seq<nat>, c: char)
    requires IsEnumerationOrder(order, |SYMBOLS|)
    ensures c in GetVocab(order) <==> c in SYMBOLS
  {
    InvertKeys(SYMBOLS, order, c);
    if c in SYMBOLS {
      var idx :| 0 <= idx < |SYMBOLS| && SYMBOLS[idx] == c;
      assert idx in order;
      var i :| 0 <= i < |order| && order[i] == idx;
    }
  }

  /** A character the symbol table holds at exactly one position maps to that position. */
  lemma UniqueSymbolIndex(order: seq<nat>, idx: nat)
    requires IsEnumerationOrder(order, |SYMBOLS|)
    requires idx < |SYMBOLS| && forall j :: 0 <= j < |SYMBOLS| && j != idx ==> SYMBOLS[j] != SYMBOLS[idx]
    ensures SYMBOLS[idx] in GetVocab(order) && GetVocab(order)[SYMBOLS[idx]] == idx
  {
    VocabKeys(order, SYMBOLS[idx]);
  }

  // ---------------------------------------------------------------------------
  // Found and missing characters
  // ---------------------------------------------------------------------------

  /** The characters of `s` that are vocabulary keys, in order (the vocabulary filter). */
  function Known(vocab: Vocabulary, s: string): (r: string)
    ensures |r| <= |s|
    ensures forall i :: 0 <= i < |r| ==> r[i] in vocab
  {
    if s == [] then []
    else Known(vocab, s[..|s| - 1]) + (if s[|s| - 1] in vocab then [s[|s| - 1]] else [])
  }

  /** The characters of `s` that are not vocabulary keys, in order. */
  function Unknown(vocab: Vocabulary, s: string): (r: string)
    ensures |r| <= |s|
    ensures forall i :: 0 <= i < |r| ==> r[i] !in vocab
  {
    if s == [] then []
    else Unknown(vocab, s[..|s| - 1]) + (if s[|s| - 1] !in vocab then [s[|s| - 1]] else [])
  }

  /** Found and missing characters together are the phoneme characters, each exactly once. */
  lemma {:induction false} PartitionIsPermutation(vocab: Vocabulary, s: string)
    ensures multiset(Known(vocab, s)) + multiset(Unknown(vocab, s)) == multiset(s)
  {
    if s != [] {
      var front := s[..|s| - 1];
      var c := s[|s| - 1];
      PartitionIsPermutation(vocab, front);
      assert s == front + [c];
      assert multiset(s) == multiset(front) + multiset{c};
      if c in vocab {
        assert Known(vocab, s) == Known(vocab, front) + [c];
        assert Unknown(vocab, s) == Unknown(vocab, front);
      } else {
        assert Known(vocab, s) == Known(vocab, front);
        assert Unknown(vocab, s) == Unknown(vocab, front) + [c];
      }
    }
  }

  /** Every phoneme character is counted once, as found or as missing. */
  lemma PartitionLengths(vocab: Vocabulary, s: string)
    ensures |Known(vocab, s)| + |Unknown(vocab, s)| == |s|
  {
    PartitionIsPermutation(vocab, s);
    assert |multiset(Known(vocab, s))| == |Known(vocab, s)|;
    assert |multiset(Unknown(vocab, s))| == |Unknown(vocab, s)|;
  }

  /** Filtering a concatenation filters each part, keeping the order. */
  lemma {:induction false} KnownAppend(vocab: Vocabulary, a: string, b: string)
    ensures Known(vocab, a + b) == Known(vocab, a) + Known(vocab, b)
  {
    if b != [] {
      var b' := b[..|b| - 1];
      KnownAppend(vocab, a, b');
      assert (a + b)[..|a + b| - 1] == a + b';
      assert (a + b)[|a + b| - 1] == b[|b| - 1];
    } else {
      assert a + b == a;
    }
  }

  /** Missing characters of a concatenation are those of each part, in order. */
  lemma {:induction false} UnknownAppend(vocab: Vocabulary, a: string, b: string)
    ensures Unknown(vocab, a + b) == Unknown(vocab, a) + Unknown(vocab, b)
  {
    if b != [] {
      var b' := b[..|b| - 1];
      UnknownAppend(vocab, a, b');
      assert (a + b)[..|a + b| - 1] == a + b';
      assert (a + b)[|a + b| - 1] == b[|b| - 1];
    } else {
      assert a + b == a;
    }
  }

  /** The filter keeps a string unchanged exactly when every character is known. */
  lemma {:induction false} KnownIsIdentityIff(vocab: Vocabulary, s: string)
    ensures Known(vocab, s) == s <==> forall i :: 0 <= i < |s| ==> s[i] in vocab
  {
    if s != [] {
      var front := s[..|s| - 1];
      KnownIsIdentityIff(vocab, front);
      if forall i :: 0 <= i < |s| ==> s[i] in vocab {
        assert forall i :: 0 <= i < |front| ==> front[i] in vocab by {
          forall i | 0 <= i < |front| ensures front[i] in vocab {
            assert front[i] == s[i];
          }
        }
        assert s == front + [s[|s| - 1]];
      }
    }
  }

  /** Filtering twice is filtering once. */
  lemma KnownIdempotent(vocab: Vocabulary, s: string)
    ensures Known(vocab, Known(vocab, s)) == Known(vocab, s)
  {
    KnownIsIdentityIff(vocab, Known(vocab, s));
  }

  /** The two check loops: each phoneme character goes to `found` or to `missing`, in order. */
  method PartitionByVocab(vocab: Vocabulary, phonemes: string) returns (found: string, missing: string)
    ensures found == Known(vocab, phonemes)
    ensures missing == Unknown(vocab, phonemes)
  {
    found := [];
    missing := [];
    for i := 0 to |phonemes|
      invariant found == Known(vocab, phonemes[..i])
      invariant missing == Unknown(vocab, phonemes[..i])
    {
      var c := phonemes[i];
      assert phonemes[..i + 1][..i] == phonemes[..i];
      if c in vocab {
        found := found + [c];
      } else {
        missing := missing + [c];
      }
    }
    assert phonemes[..|phonemes|] == phonemes;
  }

  // ---------------------------------------------------------------------------
  // The symbol table of the model
  // ---------------------------------------------------------------------------

  /** 178 symbols: 1 pad, 16 punctuation marks, 52 Latin letters and 109 IPA symbols. */
  lemma SymbolCount()
    ensures |PAD| == 1 && |PUNCTUATION| == 16 && |LETTERS| == 52 && |LETTERS_IPA| == 109
    ensures |SYMBOLS| == 178
  {
  }

  /** A character absent from the tail of a concatenation can only occur in its head. */
  lemma AbsentBeyond(head: string, tail: string, x: char)
    requires x !in tail
    ensures forall j :: |head| <= j < |head + tail| ==> (head + tail)[j] != x
  {
    forall j | |head| <= j < |head + tail| ensures (head + tail)[j] != x {
      assert (head + tail)[j] == tail[j - |head|];
    }
  }

  /** A character absent from three of four concatenated parts occurs only in the third. */
  lemma OnlyInThird(a: string, b: string, c: string, d: string, x: char)
    requires x !in a && x !in b && x !in d
    ensures forall j :: 0 <= j < |a + b + c + d| && (a + b + c + d)[j] == x ==>
      |a + b| <= j < |a + b + c| && c[j - |a + b|] == x
  {
  }

  lemma DollarNotInPunctuation() ensures '$' !in PUNCTUATION {}
  lemma DollarNotInLetters() ensures '$' !in LETTERS {}
  lemma DollarNotInIpa() ensures '$' !in LETTERS_IPA {}

  /** The pad symbol occurs only at position 0. */
  lemma DollarOnlyAtZero()
    ensures SYMBOLS[0] == '$'
    ensures forall j :: 0 < j < |SYMBOLS| ==> SYMBOLS[j] != '$'
  {
    DollarNotInPunctuation();
    DollarNotInLetters();
    DollarNotInIpa();
    AbsentBeyond(PAD, PUNCTUATION + LETTERS + LETTERS_IPA, '$');
  }

  /** The pad symbol `$` gets token 0, whatever the hash map's order. */
  lemma DollarIsZero(order: seq<nat>)
    requires IsEnumerationOrder(order, |SYMBOLS|)
    ensures '$' in GetVocab(order) && GetVocab(order)['$'] == 0
  {
    DollarOnlyAtZero();
    UniqueSymbolIndex(order, 0);
  }

  lemma QuoteNotInLetters() ensures '"' !in LETTERS {}
  lemma QuoteNotInIpa() ensures '"' !in LETTERS_IPA {}

  /** The punctuation holds `"` at its positions 10, 13 and 14 only. */
  lemma PunctuationQuotes()
    ensures '"' !in PUNCTUATION[..10]
    ensures forall i :: 0 <= i < |PUNCTUATION[10..]| && PUNCTUATION[10..][i] == '"' ==> i == 0 || i == 3 || i == 4
  {
  }

  /** `"` is the symbol at positions 11, 14 and 15, and nowhere else. */
  lemma QuotePositions()
    ensures SYMBOLS[11] == '"' && SYMBOLS[14] == '"' && SYMBOLS[15] == '"'
    ensures forall j :: 0 <= j < |SYMBOLS| && SYMBOLS[j] == '"' ==> j == 11 || j == 14 || j == 15
  {
    QuoteNotInLetters();
    QuoteNotInIpa();
    PunctuationQuotes();
    assert PUNCTUATION == PUNCTUATION[..10] + PUNCTUATION[10..];
    OnlyInThird(PAD, PUNCTUATION[..10], PUNCTUATION[10..], LETTERS + LETTERS_IPA, '"');
  }

  /** `"` gets one of its three positions as token, which one depending on the hash map's order. */
  lemma QuoteIndex(order: seq<nat>)
    requires IsEnumerationOrder(order, |SYMBOLS|)
    ensures '"' in GetVocab(order)
    ensures GetVocab(order)['"'] in {11, 14, 15}
  {
    QuotePositions();
    VocabKeys(order, '"');
  }

  lemma ApostropheNotInPunctuation() ensures '\'' !in PUNCTUATION {}
  lemma ApostropheNotInLetters() ensures '\'' !in LETTERS {}

  lemma ApostropheNotInIpaBody() ensures '\'' !in IPA_BODY {}

  /** `'` is the symbol at positions 174 and 176, and nowhere else. */
  lemma ApostrophePositions()
    ensures SYMBOLS[174] == '\'' && SYMBOLS[176] == '\''
    ensures forall j :: 0 <= j < |SYMBOLS| && SYMBOLS[j] == '\'' ==> j == 174 || j == 176
  {
    ApostropheNotInPunctuation();
    ApostropheNotInLetters();
    ApostropheNotInIpaBody();
    var front := PAD + PUNCTUATION + LETTERS;
    assert '\'' !in front;
    assert SYMBOLS == front + IPA_BODY + IPA_TAIL + "";
    OnlyInThird(front, IPA_BODY, IPA_TAIL, "", '\'');
  }

  /** `'` gets one of its two positions as token, which one depending on the hash map's order. */
  lemma ApostropheIndex(order: seq<nat>)
    requires IsEnumerationOrder(order, |SYMBOLS|)
    ensures '\'' in GetVocab(order)
    ensures GetVocab(order)['\''] in {174, 176}
  {
    ApostrophePositions();
    VocabKeys(order, '\'');
  }

  lemma CountingUpEnumerates(order: seq<nat>, n: nat)
    requires |order| == n && forall i :: 0 <= i < n ==> order[i] == i
    ensures IsEnumerationOrder(order, n)
  {
    forall idx | 0 <= idx < n ensures idx in order {
      assert order[idx] == idx;
    }
  }

  lemma CountingDownEnumerates(order: seq<nat>, n: nat)
    requires |order| == n && forall i :: 0 <= i < n ==> order[i] == n - 1 - i
    ensures IsEnumerationOrder(order, n)
  {
    forall idx | 0 <= idx < n ensures idx in order {
      var i := n - 1 - idx;
      assert order[i] == idx;
    }
  }

  /** The hash map handing out its entries in index order. */
  function Ascending(n: nat): (order: seq<nat>)
    ensures IsEnumerationOrder(order, n)
  {
    var order := seq(n, i => i);
    CountingUpEnumerates(order, n);
    order
  }

  /** The hash map handing out its entries in reverse index order. */
  function Descending(n: nat): (order: seq<nat>)
    ensures IsEnumerationOrder(order, n)
  {
    var order := seq(n, i requires 0 <= i < n => n - 1 - i);
    CountingDownEnumerates(order, n);
    order
  }

  /**
   * The token of `"` depends on the hash map's order: entries in index order leave it the
   * last position, 15, and entries in reverse order leave it the first, 11.
   */
  lemma QuoteIndexDependsOnOrder()
    ensures '"' in GetVocab(Ascending(|SYMBOLS|)) && GetVocab(Ascending(|SYMBOLS|))['"'] == 15
    ensures '"' in GetVocab(Descending(|SYMBOLS|)) && GetVocab(Descending(|SYMBOLS|))['"'] == 11
  {
    QuotePositions();
    var up := Ascending(|SYMBOLS|);
    InvertLastWins(SYMBOLS, up, 15);
    var down := Descending(|SYMBOLS|);
    assert down[|SYMBOLS| - 1 - 11] == 11;
    InvertLastWins(SYMBOLS, down, |SYMBOLS| - 1 - 11);
  }

  // ---------------------------------------------------------------------------
  // The French and German checks
  // ---------------------------------------------------------------------------

  /** espeak's phonemes for "français". */
  const FRENCH_PHONEMES: string := " f\U{0281}\U{0251}\U{0303}s\U{02C8}\U{025B}"
  /** espeak's phonemes for "Müller". */
  const GERMAN_PHONEMES: string := " m\U{02C8}\U{028F}l\U{025C}"

  /** A string of known characters has no missing character. */
  lemma {:induction false} UnknownOfKnown(vocab: Vocabulary, s: string)
    requires forall i :: 0 <= i < |s| ==> s[i] in vocab
    ensures Unknown(vocab, s) == []
  {
    if s != [] {
      UnknownOfKnown(vocab, s[..|s| - 1]);
    }
  }

  lemma TildeNotInPunctuation() ensures '\U{0303}' !in PUNCTUATION {}
  lemma TildeNotInLetters() ensures '\U{0303}' !in LETTERS {}
  lemma TildeNotInIpa() ensures '\U{0303}' !in LETTERS_IPA {}

  /** The combining tilde U+0303 of the French nasal vowel is not a symbol. */
  lemma TildeNotInSymbols()
    ensures '\U{0303}' !in SYMBOLS
  {
    TildeNotInPunctuation();
    TildeNotInLetters();
    TildeNotInIpa();
  }

  lemma FrenchSymbols()
    ensures SYMBOLS[16] == ' ' && SYMBOLS[48] == 'f' && SYMBOLS[128] == '\U{0281}' && SYMBOLS[69] == '\U{0251}'
    ensures SYMBOLS[61] == 's' && SYMBOLS[156] == '\U{02C8}' && SYMBOLS[86] == '\U{025B}'
  {
  }

  lemma FrenchMembership(order: seq<nat>)
    requires IsEnumerationOrder(order, |SYMBOLS|)
    ensures var v := GetVocab(order);
      && ' ' in v && 'f' in v && '\U{0281}' in v && '\U{0251}' in v && '\U{0303}' !in v
      && 's' in v && '\U{02C8}' in v && '\U{025B}' in v
  {
    FrenchSymbols();
    TildeNotInSymbols();
    VocabKeys(order, ' ');
    VocabKeys(order, 'f');
    VocabKeys(order, '\U{0281}');
    VocabKeys(order, '\U{0251}');
    VocabKeys(order, '\U{0303}');
    VocabKeys(order, 's');
    VocabKeys(order, '\U{02C8}');
    VocabKeys(order, '\U{025B}');
  }

  /** With those memberships, only the combining tilde of the French phonemes is missing. */
  lemma FrenchSplit(v: Vocabulary)
    requires ' ' in v && 'f' in v && '\U{0281}' in v && '\U{0251}' in v && '\U{0303}' !in v
    requires 's' in v && '\U{02C8}' in v && '\U{025B}' in v
    ensures Known(v, FRENCH_PHONEMES) == " f\U{0281}\U{0251}s\U{02C8}\U{025B}"
    ensures Unknown(v, FRENCH_PHONEMES) == "\U{0303}"
  {
    var head := " f\U{0281}\U{0251}";
    var tilde := "\U{0303}";
    var tail := "s\U{02C8}\U{025B}";
    assert FRENCH_PHONEMES == head + tilde + tail;
    KnownIsIdentityIff(v, head);
    KnownIsIdentityIff(v, tail);
    UnknownOfKnown(v, head);
    UnknownOfKnown(v, tail);
    assert tilde[..0] == [];
    KnownAppend(v, head, tilde);
    KnownAppend(v, head + tilde, tail);
    UnknownAppend(v, head, tilde);
    UnknownAppend(v, head + tilde, tail);
    assert head + tail == " f\U{0281}\U{0251}s\U{02C8}\U{025B}";
  }

  /**
   * The French check: the combining tilde U+0303 is the one missing character, and the
   * filtered phonemes lose it, whatever the hash map's order.
   */
  lemma FrenchExample(order: seq<nat>)
    requires IsEnumerationOrder(order, |SYMBOLS|)
    ensures Known(GetVocab(order), FRENCH_PHONEMES) == " f\U{0281}\U{0251}s\U{02C8}\U{025B}"
    ensures Unknown(GetVocab(order), FRENCH_PHONEMES) == "\U{0303}"
  {
    FrenchMembership(order);
    FrenchSplit(GetVocab(order));
  }

  lemma GermanSymbols()
    ensures SYMBOLS[16] == ' ' && SYMBOLS[55] == 'm' && SYMBOLS[156] == '\U{02C8}'
    ensures SYMBOLS[144] == '\U{028F}' && SYMBOLS[54] == 'l' && SYMBOLS[87] == '\U{025C}'
  {
  }

  lemma GermanMembership(order: seq<nat>)
    requires IsEnumerationOrder(order, |SYMBOLS|)
    ensures var v := GetVocab(order);
      ' ' in v && 'm' in v && '\U{02C8}' in v && '\U{028F}' in v && 'l' in v && '\U{025C}' in v
  {
    GermanSymbols();
    VocabKeys(order, ' ');
    VocabKeys(order, 'm');
    VocabKeys(order, '\U{02C8}');
    VocabKeys(order, '\U{028F}');
    VocabKeys(order, 'l');
    VocabKeys(order, '\U{025C}');
  }

  /** The German check: every phoneme character is found, and filtering changes nothing. */
  lemma GermanExample(order: seq<nat>)
    requires IsEnumerationOrder(order, |SYMBOLS|)
    ensures Known(GetVocab(order), GERMAN_PHONEMES) == GERMAN_PHONEMES
    ensures Unknown(GetVocab(order), GERMAN_PHONEMES) == []
  {
    var v := GetVocab(order);
    GermanMembership(order);
    assert forall i :: 0 <= i < |GERMAN_PHONEMES| ==> GERMAN_PHONEMES[i] in v;
    KnownIsIdentityIff(v, GERMAN_PHONEMES);
    UnknownOfKnown(v, GERMAN_PHONEMES);
  }
}
