/**
 * The chunk planner of `TTSKoko::split_text_into_chunks`: it cuts a text into sentences,
 * packs sentences greedily into chunks whose token count stays within a budget, and falls
 * back to packing words for a sentence that is over the budget on its own.
 *
 * The phonemizer and the tokenizer are one measuring function `count` (the token count of
 * a text's phonemes); a phonemizer failure counts as the empty phoneme string, so `count`
 * is total.
 */
module Chunking {
  import opened Text

  /** The characters at which the text is cut into sentences. */
  const TERMINATORS: Separators := OneOf({'.', '?', '!', ';'})

  /** The token count of a text, as the planner measures it. */
  type Counter = string -> nat

  /** Where a chunk comes from: the sentence accumulator, or the word-level fallback. */
  datatype Origin = Accumulated | WordFallback

  datatype Chunk = Chunk(text: string, origin: Origin)

  /** The texts of a list of chunks, in order. */
  function Texts(cs: seq<Chunk>): seq<string> {
    seq(|cs|, i requires 0 <= i < |cs| => cs[i].text)
  }

  /** Chunks with the given texts, all of one origin. */
  function Tag(texts: seq<string>, origin: Origin): seq<Chunk> {
    seq(|texts|, i requires 0 <= i < |texts| => Chunk(texts[i], origin))
  }

  lemma TextsAppend(a: seq<Chunk>, b: seq<Chunk>)
    ensures Texts(a + b) == Texts(a) + Texts(b)
  {
    assert forall i :: 0 <= i < |a + b| ==> Texts(a + b)[i] == (Texts(a) + Texts(b))[i];
  }

  lemma TextsOfTag(texts: seq<string>, origin: Origin)
    ensures Texts(Tag(texts, origin)) == texts
  {
  }

  // ---------------------------------------------------------------------------
  // Sentences
  // ---------------------------------------------------------------------------

  /** A sentence as the planner sees it: non-empty, ending in a `.`. */
  predicate IsSentence(s: string) {
    |s| > 0 && s[|s| - 1] == '.'
  }

  /** Raw pieces with the blank ones dropped and the others trimmed and closed with `.`. */
  function FormatSentences(pieces: seq<string>): seq<string> {
    if pieces == [] then []
    else
      var t := Trim(pieces[0]);
      (if t == [] then [] else [t + "."]) + FormatSentences(pieces[1..])
  }

  /** The sentences the planner visits, in text order. */
  function Sentences(text: string): seq<string> {
    FormatSentences(Split(text, TERMINATORS))
  }

  lemma {:induction false} FormatSentencesAreSentences(pieces: seq<string>)
    ensures forall i :: 0 <= i < |FormatSentences(pieces)| ==> IsSentence(FormatSentences(pieces)[i])
  {
    if pieces != [] {
      FormatSentencesAreSentences(pieces[1..]);
      var t := Trim(pieces[0]);
      var head: seq<string> := if t == [] then [] else [t + "."];
      assert forall i :: 0 <= i < |head| ==> IsSentence(head[i]);
      assert FormatSentences(pieces) == head + FormatSentences(pieces[1..]);
    }
  }

  /** Every sentence is non-empty and ends with the `.` the planner appends. */
  lemma SentencesAreSentences(text: string)
    ensures forall i :: 0 <= i < |Sentences(text)| ==> IsSentence(Sentences(text)[i])
  {
    FormatSentencesAreSentences(Split(text, TERMINATORS));
  }

  /** Every piece of the list is blank. */
  predicate AllBlank(pieces: seq<string>) {
    forall i :: 0 <= i < |pieces| ==> Blank(pieces[i])
  }

  lemma {:induction false} FormatSentencesEmptyIffAllBlank(pieces: seq<string>)
    ensures FormatSentences(pieces) == [] <==> AllBlank(pieces)
  {
    if pieces != [] {
      FormatSentencesEmptyIffAllBlank(pieces[1..]);
      TrimIsEmptyIffBlank(pieces[0]);
      if AllBlank(pieces[1..]) && Blank(pieces[0]) {
        assert AllBlank(pieces) by {
          forall i | 0 <= i < |pieces| ensures Blank(pieces[i]) {
            if i > 0 { assert pieces[i] == pieces[1..][i - 1]; }
          }
        }
      }
    }
  }

  lemma BlankCons(c: char, p: string)
    ensures Blank([c] + p) <==> IsSpace(c) && Blank(p)
  {
    var q := [c] + p;
    assert q[0] == c && q[1..] == p;
    if IsSpace(c) && Blank(p) {
      forall j | 0 <= j < |q| ensures IsSpace(q[j]) {
        if j > 0 { assert q[j] == p[j - 1]; }
      }
    }
    if Blank(q) {
      forall j | 0 <= j < |p| ensures IsSpace(p[j]) {
        assert p[j] == q[j + 1];
      }
    }
  }

  lemma AllBlankCons(p: string, ps: seq<string>)
    ensures AllBlank([p] + ps) <==> Blank(p) && AllBlank(ps)
  {
    var q := [p] + ps;
    assert q[0] == p;
    if Blank(p) && AllBlank(ps) {
      forall i | 0 <= i < |q| ensures Blank(q[i]) {
        if i > 0 { assert q[i] == ps[i - 1]; }
      }
    }
    if AllBlank(q) {
      forall i | 0 <= i < |ps| ensures Blank(ps[i]) {
        assert ps[i] == q[i + 1];
      }
    }
  }

  /** Only space and separator characters exactly when every piece of the split is blank. */
  predicate OnlySpaceOr(s: string, seps: Separators) {
    forall i :: 0 <= i < |s| ==> IsSpace(s[i]) || seps.Has(s[i])
  }

  lemma {:induction false} SplitAllBlankIff(s: string, seps: Separators)
    ensures AllBlank(Split(s, seps)) <==> OnlySpaceOr(s, seps)
  {
    if s != [] {
      var rest := Split(s[1..], seps);
      SplitAllBlankIff(s[1..], seps);
      assert OnlySpaceOr(s, seps) <==> (IsSpace(s[0]) || seps.Has(s[0])) && OnlySpaceOr(s[1..], seps) by {
        assert forall i :: 0 < i < |s| ==> s[i] == s[1..][i - 1];
      }
      if seps.Has(s[0]) {
        assert Split(s, seps) == [""] + rest;
        AllBlankCons("", rest);
      } else {
        assert Split(s, seps) == [[s[0]] + rest[0]] + rest[1..];
        assert rest == [rest[0]] + rest[1..];
        AllBlankCons([s[0]] + rest[0], rest[1..]);
        AllBlankCons(rest[0], rest[1..]);
        BlankCons(s[0], rest[0]);
      }
    }
  }

  /** A text has no sentence exactly when it holds nothing but white space and terminators. */
  lemma NoSentenceIffOnlySpaceAndTerminators(text: string)
    ensures Sentences(text) == [] <==> OnlySpaceOr(text, TERMINATORS)
  {
    FormatSentencesEmptyIffAllBlank(Split(text, TERMINATORS));
    SplitAllBlankIff(text, TERMINATORS);
  }

  // ---------------------------------------------------------------------------
  // Word-level fallback for a sentence over the budget
  // ---------------------------------------------------------------------------

  /** The chunks already pushed by the word loop and the word chunk being built. */
  datatype WordPack = WordPack(emitted: seq<string>, pending: string)

  /** One turn of the word loop. */
  function PackWord(count: Counter, maxTokens: nat, st: WordPack, word: string): WordPack {
    var test := if st.pending == [] then word else st.pending + " " + word;
    if count(test) > maxTokens then
      WordPack(if st.pending == [] then st.emitted else st.emitted + [st.pending], word)
    else
      WordPack(st.emitted, test)
  }

  /** The word loop run over `words`, starting with nothing pushed and an empty word chunk. */
  function PackWords(count: Counter, maxTokens: nat, words: seq<string>): WordPack {
    if words == [] then WordPack([], "")
    else PackWord(count, maxTokens, PackWords(count, maxTokens, words[..|words| - 1]), words[|words| - 1])
  }

  /** The chunks the word-level fallback pushes for one sentence, in order. */
  function WordChunks(count: Counter, maxTokens: nat, sentence: string): seq<string> {
    var st := PackWords(count, maxTokens, Words(sentence));
    if st.pending == [] then st.emitted else st.emitted + [st.pending]
  }

  /** A text within the budget, or a single non-empty word with no white space in it. */
  predicate FitsOrWord(count: Counter, maxTokens: nat, s: string) {
    count(s) <= maxTokens || (s != [] && !ContainsSpace(s))
  }

  /** What the word loop keeps true, for words as `split_whitespace` yields them. */
  lemma {:induction false} PackWordsInvariant(count: Counter, maxTokens: nat, words: seq<string>)
    requires forall i :: 0 <= i < |words| ==> words[i] != [] && !ContainsSpace(words[i])
    ensures var st := PackWords(count, maxTokens, words);
      && (st.pending != [] <==> words != [])
      && (st.pending != [] ==> FitsOrWord(count, maxTokens, st.pending))
      && (forall i :: 0 <= i < |st.emitted| ==>
            st.emitted[i] != [] && FitsOrWord(count, maxTokens, st.emitted[i]))
      && (words != [] ==> JoinSpaced(st.emitted + [st.pending]) == JoinSpaced(words))
  {
    if words != [] {
      var ws, w := words[..|words| - 1], words[|words| - 1];
      assert words == ws + [w];
      PackWordsInvariant(count, maxTokens, ws);
      var st0 := PackWords(count, maxTokens, ws);
      var st := PackWords(count, maxTokens, words);
      assert st == PackWord(count, maxTokens, st0, w);
      if ws == [] {
        assert st.emitted == [] && st.pending == w;
      } else {
        var test := st0.pending + " " + w;
        JoinWithSnoc(ws, w, ' ');
        if count(test) > maxTokens {
          assert st == WordPack(st0.emitted + [st0.pending], w);
          JoinWithSnoc(st0.emitted + [st0.pending], w, ' ');
        } else {
          assert st == WordPack(st0.emitted, test);
          if st0.emitted != [] {
            JoinWithSnoc(st0.emitted, test, ' ');
            JoinWithSnoc(st0.emitted, st0.pending, ' ');
          }
        }
      }
    }
  }

  /**
   * The word-level fallback of a sentence with some non-white-space character yields at
   * least one chunk; each is non-empty and within the budget unless it is a single word;
   * joined with spaces they give the sentence's words joined with spaces.
   */
  lemma WordChunksProperties(count: Counter, maxTokens: nat, sentence: string, k: nat)
    requires k < |sentence| && !IsSpace(sentence[k])
    ensures var r := WordChunks(count, maxTokens, sentence);
      && r != []
      && (forall i :: 0 <= i < |r| ==> r[i] != [] && FitsOrWord(count, maxTokens, r[i]))
      && JoinSpaced(r) == JoinSpaced(Words(sentence))
  {
    var words := Words(sentence);
    WordsOfNonBlank(sentence, k);
    PackWordsInvariant(count, maxTokens, words);
  }

  // ---------------------------------------------------------------------------
  // The sentence accumulator
  // ---------------------------------------------------------------------------

  /** The chunks pushed so far and the sentence accumulator (`current_chunk`). */
  datatype PlanState = PlanState(chunks: seq<Chunk>, current: string)

  /** One turn of the sentence loop. */
  function PlanSentence(count: Counter, maxTokens: nat, st: PlanState, sentence: string): PlanState {
    if count(sentence) > maxTokens then
      PlanState(st.chunks + Tag(WordChunks(count, maxTokens, sentence), WordFallback), st.current)
    else if st.current != [] then
      var test := st.current + " " + sentence;
      if count(test) > maxTokens then PlanState(st.chunks + [Chunk(st.current, Accumulated)], sentence)
      else PlanState(st.chunks, test)
    else
      PlanState(st.chunks, sentence)
  }

  /** The sentence loop run over `sentences`, from no chunks and an empty accumulator. */
  function PlanSentences(count: Counter, maxTokens: nat, sentences: seq<string>): PlanState {
    if sentences == [] then PlanState([], "")
    else PlanSentence(count, maxTokens, PlanSentences(count, maxTokens, sentences[..|sentences| - 1]), sentences[|sentences| - 1])
  }

  /** The chunks pushed, then the accumulator when it is not empty. */
  function Flush(st: PlanState): seq<Chunk> {
    if st.current == [] then st.chunks else st.chunks + [Chunk(st.current, Accumulated)]
  }

  /** The chunks of `split_text_into_chunks`, each tagged with where it came from. */
  function Plan(count: Counter, text: string, maxTokens: nat): seq<Chunk> {
    Flush(PlanSentences(count, maxTokens, Sentences(text)))
  }

  /** Every chunk is non-empty; accumulated ones are within budget; fallback ones fit or are one word. */
  ghost predicate WellPlanned(count: Counter, maxTokens: nat, cs: seq<Chunk>) {
    forall i :: 0 <= i < |cs| ==>
      && cs[i].text != []
      && (cs[i].origin == Accumulated ==> count(cs[i].text) <= maxTokens)
      && (cs[i].origin == WordFallback ==> FitsOrWord(count, maxTokens, cs[i].text))
  }

  /** What the sentence loop keeps true. */
  lemma {:induction false} PlanSentencesInvariant(count: Counter, maxTokens: nat, sentences: seq<string>)
    requires forall i :: 0 <= i < |sentences| ==> IsSentence(sentences[i])
    ensures var st := PlanSentences(count, maxTokens, sentences);
      && WellPlanned(count, maxTokens, st.chunks)
      && (st.current != [] ==> count(st.current) <= maxTokens)
      && (sentences != [] ==> st.chunks != [] || st.current != [])
  {
    if sentences != [] {
      var ss, s := sentences[..|sentences| - 1], sentences[|sentences| - 1];
      PlanSentencesInvariant(count, maxTokens, ss);
      var st0 := PlanSentences(count, maxTokens, ss);
      var st := PlanSentences(count, maxTokens, sentences);
      assert st == PlanSentence(count, maxTokens, st0, s);
      if count(s) > maxTokens {
        assert !IsSpace('.');
        WordChunksProperties(count, maxTokens, s, |s| - 1);
        var added := Tag(WordChunks(count, maxTokens, s), WordFallback);
        assert st.chunks == st0.chunks + added;
        assert forall i :: |st0.chunks| <= i < |st.chunks| ==> st.chunks[i] == added[i - |st0.chunks|];
      }
    }
  }

  lemma FlushKeepsWellPlanned(count: Counter, maxTokens: nat, st: PlanState)
    requires WellPlanned(count, maxTokens, st.chunks)
    requires st.current != [] ==> count(st.current) <= maxTokens
    ensures WellPlanned(count, maxTokens, Flush(st))
  {
  }

  /**
   * Planner budget and non-emptiness: every chunk is non-empty, every chunk from the sentence
   * accumulator has a token count within `maxTokens`, and every word-fallback chunk is within
   * `maxTokens` or a single word without white space.
   */
  lemma PlanBudget(count: Counter, text: string, maxTokens: nat)
    ensures var cs := Plan(count, text, maxTokens);
      forall i :: 0 <= i < |cs| ==>
        && cs[i].text != []
        && (cs[i].origin == Accumulated ==> count(cs[i].text) <= maxTokens)
        && (cs[i].origin == WordFallback ==>
              count(cs[i].text) <= maxTokens || !ContainsSpace(cs[i].text))
  {
    SentencesAreSentences(text);
    PlanSentencesInvariant(count, maxTokens, Sentences(text));
    FlushKeepsWellPlanned(count, maxTokens, PlanSentences(count, maxTokens, Sentences(text)));
  }

  /** No chunk at all exactly when the text holds no non-blank sentence. */
  lemma PlanEmptyIffNoSentence(count: Counter, text: string, maxTokens: nat)
    ensures Plan(count, text, maxTokens) == [] <==> OnlySpaceOr(text, TERMINATORS)
  {
    SentencesAreSentences(text);
    PlanSentencesInvariant(count, maxTokens, Sentences(text));
    NoSentenceIffOnlySpaceAndTerminators(text);
  }

  /** Only accumulator chunks, and the accumulator closes the text of the sentences visited. */
  predicate JoinsTo(st: PlanState, sentences: seq<string>) {
    && (forall i :: 0 <= i < |st.chunks| ==> st.chunks[i].origin == Accumulated)
    && st.current != []
    && JoinSpaced(Texts(st.chunks) + [st.current]) == JoinSpaced(sentences)
  }

  /** One turn of the sentence loop with a sentence that fits keeps all the text, in order. */
  lemma FittingSentenceKeepsText(count: Counter, maxTokens: nat, st0: PlanState, ss: seq<string>, s: string)
    requires ss != [] && IsSentence(s) && count(s) <= maxTokens
    requires JoinsTo(st0, ss)
    ensures JoinsTo(PlanSentence(count, maxTokens, st0, s), ss + [s])
  {
    var st := PlanSentence(count, maxTokens, st0, s);
    JoinWithSnoc(ss, s, ' ');
    var test := st0.current + " " + s;
    if count(test) > maxTokens {
      assert st == PlanState(st0.chunks + [Chunk(st0.current, Accumulated)], s);
      TextsAppend(st0.chunks, [Chunk(st0.current, Accumulated)]);
      assert Texts([Chunk(st0.current, Accumulated)]) == [st0.current];
      assert Texts(st.chunks) == Texts(st0.chunks) + [st0.current];
      JoinWithSnoc(Texts(st.chunks), s, ' ');
    } else {
      assert st == PlanState(st0.chunks, test);
      if st0.chunks != [] {
        JoinWithSnoc(Texts(st0.chunks), test, ' ');
        JoinWithSnoc(Texts(st0.chunks), st0.current, ' ');
      } else {
        assert Texts(st0.chunks) == [];
      }
    }
  }

  /** When every sentence fits, the loop only accumulates, and loses or reorders no text. */
  lemma {:induction false} PlanSentencesJoin(count: Counter, maxTokens: nat, sentences: seq<string>)
    requires forall i :: 0 <= i < |sentences| ==> IsSentence(sentences[i]) && count(sentences[i]) <= maxTokens
    ensures var st := PlanSentences(count, maxTokens, sentences);
      && (forall i :: 0 <= i < |st.chunks| ==> st.chunks[i].origin == Accumulated)
      && (sentences != [] ==> st.current != [] && JoinSpaced(Texts(st.chunks) + [st.current]) == JoinSpaced(sentences))
  {
    if sentences != [] {
      var ss, s := sentences[..|sentences| - 1], sentences[|sentences| - 1];
      assert sentences == ss + [s];
      PlanSentencesJoin(count, maxTokens, ss);
      var st0 := PlanSentences(count, maxTokens, ss);
      assert PlanSentences(count, maxTokens, sentences) == PlanSentence(count, maxTokens, st0, s);
      if ss == [] {
        assert st0 == PlanState([], "");
        assert Texts([]) == [];
      } else {
        FittingSentenceKeepsText(count, maxTokens, st0, ss, s);
      }
    }
  }

  /** The flushed plan of sentences that all fit: accumulated chunks that keep all the text. */
  lemma FlushJoinWhenAllFit(count: Counter, maxTokens: nat, sentences: seq<string>)
    requires forall i :: 0 <= i < |sentences| ==> IsSentence(sentences[i]) && count(sentences[i]) <= maxTokens
    ensures var cs := Flush(PlanSentences(count, maxTokens, sentences));
      && (forall i :: 0 <= i < |cs| ==> cs[i].origin == Accumulated)
      && JoinSpaced(Texts(cs)) == JoinSpaced(sentences)
  {
    PlanSentencesJoin(count, maxTokens, sentences);
    var st := PlanSentences(count, maxTokens, sentences);
    var last := Chunk(st.current, Accumulated);
    if sentences != [] {
      assert Flush(st) == st.chunks + [last];
      TextsAppend(st.chunks, [last]);
      assert Texts([last]) == [st.current];
    } else {
      assert Texts(Flush(st)) == [];
    }
  }

  /**
   * When no sentence exceeds the budget, every chunk comes from the accumulator, and the
   * chunks joined with spaces are the formatted sentences joined with spaces.
   */
  lemma PlanJoinWhenAllFit(count: Counter, text: string, maxTokens: nat)
    requires forall i :: 0 <= i < |Sentences(text)| ==> count(Sentences(text)[i]) <= maxTokens
    ensures forall i :: 0 <= i < |Plan(count, text, maxTokens)| ==> Plan(count, text, maxTokens)[i].origin == Accumulated
    ensures JoinSpaced(Texts(Plan(count, text, maxTokens))) == JoinSpaced(Sentences(text))
  {
    SentencesAreSentences(text);
    FlushJoinWhenAllFit(count, maxTokens, Sentences(text));
  }

  /**
   * A sentence over the budget pushes its word chunks at once and leaves the accumulator
   * pending, so those chunks come before text of earlier sentences still held in it.
   */
  lemma OversizedSentenceOvertakesAccumulator(count: Counter, maxTokens: nat, st: PlanState, sentence: string)
    requires count(sentence) > maxTokens && IsSentence(sentence)
    ensures var st' := PlanSentence(count, maxTokens, st, sentence);
      && st'.current == st.current
      && |st'.chunks| > |st.chunks|
      && st'.chunks[..|st.chunks|] == st.chunks
      && forall i :: |st.chunks| <= i < |st'.chunks| ==> st'.chunks[i].origin == WordFallback
  {
    assert !IsSpace('.');
    WordChunksProperties(count, maxTokens, sentence, |sentence| - 1);
  }

  /**
   * A sentence that fits followed by one that does not comes out reordered: the second
   * sentence's word chunks are emitted first and the first sentence is spoken last.
   */
  lemma FitThenOversizedIsReordered(count: Counter, maxTokens: nat, first: string, second: string)
    requires first != [] && count(first) <= maxTokens && count(second) > maxTokens
    ensures Flush(PlanSentences(count, maxTokens, [first, second])) ==
      Tag(WordChunks(count, maxTokens, second), WordFallback) + [Chunk(first, Accumulated)]
  {
    assert [first, second][..1] == [first];
    assert [first][..0] == [];
    assert PlanSentences(count, maxTokens, [first]) == PlanState([], first);
  }

  /** The words of a plan state: those of the pushed chunks, then those of the accumulator. */
  function StateWords(st: PlanState): seq<string> {
    AllWords(Texts(st.chunks) + [st.current])
  }

  /** The word fallback gives back exactly the sentence's words, in order. */
  lemma WordChunksKeepWords(count: Counter, maxTokens: nat, sentence: string)
    requires IsSentence(sentence)
    ensures AllWords(WordChunks(count, maxTokens, sentence)) == Words(sentence)
  {
    assert !IsSpace('.');
    WordChunksProperties(count, maxTokens, sentence, |sentence| - 1);
    WordsOfJoinSpaced(WordChunks(count, maxTokens, sentence));
    WordsOfJoinSpaced(Words(sentence));
    AllWordsOfWords(Words(sentence));
  }

  /** An oversized sentence adds its words after those of the chunks already pushed. */
  lemma OversizedStepWords(count: Counter, maxTokens: nat, st0: PlanState, s: string)
    requires IsSentence(s) && count(s) > maxTokens
    ensures multiset(StateWords(PlanSentence(count, maxTokens, st0, s))) ==
      multiset(StateWords(st0)) + multiset(Words(s))
  {
    var added := Tag(WordChunks(count, maxTokens, s), WordFallback);
    var st := PlanSentence(count, maxTokens, st0, s);
    assert st == PlanState(st0.chunks + added, st0.current);
    TextsAppend(st0.chunks, added);
    TextsOfTag(WordChunks(count, maxTokens, s), WordFallback);
    WordChunksKeepWords(count, maxTokens, s);
    var t0, w := Texts(st0.chunks), WordChunks(count, maxTokens, s);
    assert Texts(st.chunks) + [st.current] == t0 + (w + [st0.current]);
    AllWordsAppend(t0, w + [st0.current]);
    AllWordsAppend(w, [st0.current]);
    AllWordsAppend(t0, [st0.current]);
  }

  /** With the accumulator appended, the words of a state are those of its chunks and then its own. */
  lemma StateWordsSplit(st: PlanState)
    ensures StateWords(st) == AllWords(Texts(st.chunks)) + Words(st.current)
  {
    AllWordsAppend(Texts(st.chunks), [st.current]);
    assert AllWords([st.current]) == Words(st.current) + AllWords([]);
  }

  /** Pushing the accumulator and starting a new one with `s` adds the words of `s`. */
  lemma PushAccumulatorWords(st0: PlanState, s: string)
    ensures StateWords(PlanState(st0.chunks + [Chunk(st0.current, Accumulated)], s)) ==
      StateWords(st0) + Words(s)
  {
    var t0 := Texts(st0.chunks);
    TextsAppend(st0.chunks, [Chunk(st0.current, Accumulated)]);
    assert Texts([Chunk(st0.current, Accumulated)]) == [st0.current];
    assert Texts(st0.chunks + [Chunk(st0.current, Accumulated)]) + [s] == (t0 + [st0.current]) + [s];
    AllWordsAppend(t0 + [st0.current], [s]);
    assert AllWords([s]) == Words(s) + AllWords([]);
  }

  /** Extending the accumulator with `" " + s` adds the words of `s`. */
  lemma ExtendAccumulatorWords(st0: PlanState, s: string)
    ensures StateWords(PlanState(st0.chunks, st0.current + " " + s)) == StateWords(st0) + Words(s)
  {
    var joined := st0.current + " " + s;
    assert Words(joined) == Words(st0.current) + Words(s) by {
      assert joined == st0.current + [' '] + s;
      WordsCharacterized(st0.current, ' ', s);
    }
    StateWordsSplit(st0);
    StateWordsSplit(PlanState(st0.chunks, joined));
  }

  /** Starting an empty accumulator with `s` adds the words of `s`. */
  lemma StartAccumulatorWords(st0: PlanState, s: string)
    requires st0.current == []
    ensures StateWords(PlanState(st0.chunks, s)) == StateWords(st0) + Words(s)
  {
    StateWordsSplit(st0);
    StateWordsSplit(PlanState(st0.chunks, s));
    var t := AllWords(Texts(st0.chunks));
    assert Words([]) == [] by {
      WordsCharacterized([], ' ', []);
    }
    assert StateWords(st0) == t;
  }

  /** A sentence that fits adds its words after those of the accumulator. */
  lemma FittingStepWords(count: Counter, maxTokens: nat, st0: PlanState, s: string)
    requires count(s) <= maxTokens
    ensures StateWords(PlanSentence(count, maxTokens, st0, s)) == StateWords(st0) + Words(s)
  {
    if st0.current == [] {
      StartAccumulatorWords(st0, s);
    } else if count(st0.current + " " + s) > maxTokens {
      PushAccumulatorWords(st0, s);
    } else {
      ExtendAccumulatorWords(st0, s);
    }
  }

  /** The sentence loop keeps every word of the sentences it visited, each as often as it occurs. */
  lemma {:induction false} PlanSentencesKeepWords(count: Counter, maxTokens: nat, sentences: seq<string>)
    requires forall i :: 0 <= i < |sentences| ==> IsSentence(sentences[i])
    ensures multiset(StateWords(PlanSentences(count, maxTokens, sentences))) == multiset(AllWords(sentences))
  {
    if sentences == [] {
      WordsCharacterized([], ' ', []);
      StateWordsSplit(PlanState([], ""));
      assert Texts([]) == [];
    } else {
      var ss, s := sentences[..|sentences| - 1], sentences[|sentences| - 1];
      assert sentences == ss + [s];
      PlanSentencesKeepWords(count, maxTokens, ss);
      var st0 := PlanSentences(count, maxTokens, ss);
      assert PlanSentences(count, maxTokens, sentences) == PlanSentence(count, maxTokens, st0, s);
      AllWordsAppend(ss, [s]);
      assert AllWords([s]) == Words(s) + AllWords([]);
      if count(s) > maxTokens {
        OversizedStepWords(count, maxTokens, st0, s);
      } else {
        FittingStepWords(count, maxTokens, st0, s);
      }
    }
  }

  /** The final push keeps the words of the state. */
  lemma FlushKeepsWords(st: PlanState)
    ensures AllWords(Texts(Flush(st))) == StateWords(st)
  {
    var t := Texts(st.chunks);
    WordsCharacterized([], ' ', []);
    AllWordsAppend(t, [st.current]);
    assert AllWords([st.current]) == Words(st.current) + AllWords([]);
    if st.current != [] {
      TextsAppend(st.chunks, [Chunk(st.current, Accumulated)]);
      assert Texts([Chunk(st.current, Accumulated)]) == [st.current];
    }
  }

  /**
   * The planner loses and duplicates no word: the words of the chunks are those of the
   * formatted sentences, each as often as it occurs, whichever sentences are over the budget.
   * (Their order is not kept; see `FitThenOversizedIsReordered`.)
   */
  lemma PlanKeepsWords(count: Counter, text: string, maxTokens: nat)
    ensures multiset(Words(JoinSpaced(Texts(Plan(count, text, maxTokens))))) ==
      multiset(Words(JoinSpaced(Sentences(text))))
  {
    SentencesAreSentences(text);
    PlanSentencesKeepWords(count, maxTokens, Sentences(text));
    FlushKeepsWords(PlanSentences(count, maxTokens, Sentences(text)));
    WordsOfJoinSpaced(Texts(Plan(count, text, maxTokens)));
    WordsOfJoinSpaced(Sentences(text));
  }

  // ---------------------------------------------------------------------------
  // The planner itself
  // ---------------------------------------------------------------------------

  /**
   * The word-level fallback of `split_text_into_chunks` for one sentence over the budget:
   * pushes the sentence's word chunks onto `chunks`.
   */
  method PushWordChunks(count: Counter, maxTokens: nat, chunks: seq<string>, sentence: string)
    returns (pushed: seq<string>)
    ensures pushed == chunks + WordChunks(count, maxTokens, sentence)
  {
    pushed := chunks;
    var words := Words(sentence);
    var wordChunk := "";
    ghost var packed: seq<string> := [];
    for w := 0 to |words|
      invariant PackWords(count, maxTokens, words[..w]) == WordPack(packed, wordChunk)
      invariant pushed == chunks + packed
    {
      var word := words[w];
      assert words[..w + 1][..w] == words[..w];
      var testChunk := if wordChunk == "" then word else wordChunk + " " + word;
      var testTokens := count(testChunk);
      if testTokens > maxTokens {
        if wordChunk != "" {
          pushed := pushed + [wordChunk];
          packed := packed + [wordChunk];
        }
        wordChunk := word;
      } else {
        wordChunk := testChunk;
      }
    }
    assert words[..|words|] == words;
    if wordChunk != "" {
      pushed := pushed + [wordChunk];
      packed := packed + [wordChunk];
    }
  }

  /** `split_text_into_chunks(text, max_tokens)`: the sentences of the text, then the loop over them. */
  method SplitTextIntoChunks(count: Counter, text: string, maxTokens: nat) returns (chunks: seq<string>)
    ensures chunks == Texts(Plan(count, text, maxTokens))
  {
    var sentences := Sentences(text);
    chunks := PackSentences(count, maxTokens, sentences);
  }

  /** The loop of `split_text_into_chunks` over the formatted sentences, and the final flush. */
  method PackSentences(count: Counter, maxTokens: nat, sentences: seq<string>) returns (chunks: seq<string>)
    ensures chunks == Texts(Flush(PlanSentences(count, maxTokens, sentences)))
  {
    chunks := [];
    var current := "";
    ghost var tagged: seq<Chunk> := [];
    for i := 0 to |sentences|
      invariant PlanSentences(count, maxTokens, sentences[..i]) == PlanState(tagged, current)
      invariant chunks == Texts(tagged)
    {
      var sentence := sentences[i];
      assert sentences[..i + 1][..i] == sentences[..i];
      var tokenCount := count(sentence);
      if tokenCount > maxTokens {
        chunks := PushWordChunks(count, maxTokens, chunks, sentence);
        ghost var added := Tag(WordChunks(count, maxTokens, sentence), WordFallback);
        TextsAppend(tagged, added);
        TextsOfTag(WordChunks(count, maxTokens, sentence), WordFallback);
        tagged := tagged + added;
      } else if current != "" {
        var testText := current + " " + sentence;
        var testTokens := count(testText);
        if testTokens > maxTokens {
          TextsAppend(tagged, [Chunk(current, Accumulated)]);
          chunks := chunks + [current];
          tagged := tagged + [Chunk(current, Accumulated)];
          current := sentence;
        } else {
          current := testText;
        }
      } else {
        current := sentence;
      }
    }
    assert sentences[..|sentences|] == sentences;
    if current != "" {
      TextsAppend(tagged, [Chunk(current, Accumulated)]);
      chunks := chunks + [current];
      tagged := tagged + [Chunk(current, Accumulated)];
    }
  }
}
