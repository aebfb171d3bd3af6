/**
 * `TTSKoko::tts_raw_audio`: plan the text into chunks, resolve the style once, then for
 * every chunk phonemize it, tokenize the phonemes, put the requested number of silence
 * tokens in front and run the model, concatenating the audio of all chunks in order and
 * stopping at the first failure.
 *
 * The phonemizer, the tokenizer and the model are functions given to the model: they
 * stand for the espeak phonemizer, the vocabulary lookup and the ONNX session.
 */
module Synthesis {
  import opened Outcomes
  import opened Text
  import opened Chunking
  import opened Styles

  /** The token budget the planner is given. */
  const MAX_CHUNK_TOKENS: nat := 500
  /** The token that stands for a pause. */
  const SILENCE_TOKEN: int := 30

  /** Text and language to the joined phoneme string, or the phonemizer's error. */
  type Phonemizer = (string, string) -> Result<string, string>
  /** Phonemes to token ids. */
  type Tokenizer = string -> seq<int>

  /** One call of the model: token ids (a batch of one), style matrix and speed. */
  datatype Request = Request(tokens: seq<int>, style: StyleMatrix, speed: real)

  /** The model: a request to its audio, or the model's error. */
  type Inference = Request -> Result<seq<real>, string>

  /** The three collaborators of the synthesizer. */
  datatype Engine = Engine(phonemize: Phonemizer, tokenize: Tokenizer, infer: Inference)

  /** What is fixed for every chunk of one call: language, style, speed and silence length. */
  datatype Settings = Settings(lan: string, style: StyleMatrix, speed: real, silence: nat)

  datatype TtsError =
    | StyleFailed(styleError: StyleError)
    | PhonemizeFailed(cause: string)
    | ChunkFailed(cause: string)
  {
    /** The text of a failed model call; the other errors are passed on as they are. */
    function Message(): string {
      match this
      case StyleFailed(e) => e.Message()
      case PhonemizeFailed(c) => c
      case ChunkFailed(c) => "Chunk processing failed: " + c
    }
  }

  /** The planner's token count: the phonemizer always runs with "en", a failure counts as "". */
  function PlannerCount(engine: Engine): Counter {
    s => |engine.tokenize(engine.phonemize(s, "en").GetOr(""))|
  }

  /** `n` silence tokens. */
  function Silence(n: nat): seq<int> {
    seq(n, _ => SILENCE_TOKEN)
  }

  /** The model request for a chunk whose phonemes are `phonemes`. */
  function ChunkRequest(engine: Engine, settings: Settings, phonemes: string): Request {
    Request(Silence(settings.silence) + engine.tokenize(phonemes), settings.style, settings.speed)
  }

  /** The audio of one chunk, or the first error in phonemizing it or running the model. */
  function ChunkAudio(engine: Engine, settings: Settings, chunk: string): Result<seq<real>, TtsError> {
    match engine.phonemize(chunk, settings.lan)
    case Err(c) => Err(PhonemizeFailed(c))
    case Ok(phonemes) =>
      match engine.infer(ChunkRequest(engine, settings, phonemes))
      case Err(c) => Err(ChunkFailed(c))
      case Ok(audio) => Ok(audio)
  }

  /** The audio of all chunks in order, or the error of the first chunk that fails. */
  function Synthesize(engine: Engine, settings: Settings, chunks: seq<string>): Result<seq<real>, TtsError> {
    if chunks == [] then Ok([])
    else
      match ChunkAudio(engine, settings, chunks[0])
      case Err(e) => Err(e)
      case Ok(audio) =>
        match Synthesize(engine, settings, chunks[1..])
        case Err(e) => Err(e)
        case Ok(rest) => Ok(audio + rest)
  }

  /** The model calls made for the chunks, in order, up to and including a failing one. */
  function Requests(engine: Engine, settings: Settings, chunks: seq<string>): seq<Request> {
    if chunks == [] then []
    else
      match engine.phonemize(chunks[0], settings.lan)
      case Err(_) => []
      case Ok(phonemes) =>
        var request := ChunkRequest(engine, settings, phonemes);
        [request] + if engine.infer(request).Ok? then Requests(engine, settings, chunks[1..]) else []
  }

  /** The chunks `tts_raw_audio` synthesizes for a text. */
  function PlannedChunks(engine: Engine, txt: string): seq<string> {
    Texts(Plan(PlannerCount(engine), txt, MAX_CHUNK_TOKENS))
  }

  /** What `tts_raw_audio` returns. */
  function TtsRaw(engine: Engine, table: StyleTable, txt: string, lan: string, styleName: string,
                  speed: real, initialSilence: Option<nat>): Result<seq<real>, TtsError> {
    match Mix(table, styleName)
    case Err(e) => Err(StyleFailed(e))
    case Ok(style) =>
      Synthesize(engine, Settings(lan, style, speed, initialSilence.GetOr(0)), PlannedChunks(engine, txt))
  }

  /** The model calls `tts_raw_audio` makes. */
  function TtsRequests(engine: Engine, table: StyleTable, txt: string, lan: string, styleName: string,
                       speed: real, initialSilence: Option<nat>): seq<Request> {
    match Mix(table, styleName)
    case Err(_) => []
    case Ok(style) =>
      Requests(engine, Settings(lan, style, speed, initialSilence.GetOr(0)), PlannedChunks(engine, txt))
  }

  // ---------------------------------------------------------------------------
  // Properties
  // ---------------------------------------------------------------------------

  /** The concatenation of a list of audio buffers. */
  function Concat(parts: seq<seq<real>>): seq<real> {
    if parts == [] then [] else parts[0] + Concat(parts[1..])
  }

  /**
   * Synthesis succeeds exactly when every chunk succeeds, and then its audio is the
   * concatenation of the chunks' audio in order.
   */
  lemma {:induction false} SynthesizeOkIff(engine: Engine, settings: Settings, chunks: seq<string>)
    ensures Synthesize(engine, settings, chunks).Ok? <==>
      forall i :: 0 <= i < |chunks| ==> ChunkAudio(engine, settings, chunks[i]).Ok?
    ensures Synthesize(engine, settings, chunks).Ok? ==>
      Synthesize(engine, settings, chunks).value ==
        Concat(seq(|chunks|, i requires 0 <= i < |chunks| && ChunkAudio(engine, settings, chunks[i]).Ok? =>
          ChunkAudio(engine, settings, chunks[i]).value))
  {
    if chunks != [] {
      SynthesizeOkIff(engine, settings, chunks[1..]);
      var all := Synthesize(engine, settings, chunks);
      if all.Ok? {
        assert forall i :: 1 <= i < |chunks| ==> chunks[1..][i - 1] == chunks[i];
        var outs := seq(|chunks|, i requires 0 <= i < |chunks| && ChunkAudio(engine, settings, chunks[i]).Ok? =>
          ChunkAudio(engine, settings, chunks[i]).value);
        var restOuts := seq(|chunks| - 1, i requires 0 <= i < |chunks| - 1 && ChunkAudio(engine, settings, chunks[1..][i]).Ok? =>
          ChunkAudio(engine, settings, chunks[1..][i]).value);
        assert outs[1..] == restOuts;
      } else if ChunkAudio(engine, settings, chunks[0]).Ok? {
        var i :| 0 <= i < |chunks[1..]| && !ChunkAudio(engine, settings, chunks[1..][i]).Ok?;
        assert chunks[1..][i] == chunks[i + 1];
      }
    }
  }

  /** When chunk `i` is the first to fail, synthesis fails with that chunk's error. */
  lemma {:induction false} FirstFailureWins(engine: Engine, settings: Settings, chunks: seq<string>, i: nat)
    requires i < |chunks| && ChunkAudio(engine, settings, chunks[i]).Err?
    requires forall j :: 0 <= j < i ==> ChunkAudio(engine, settings, chunks[j]).Ok?
    ensures Synthesize(engine, settings, chunks) == Err(ChunkAudio(engine, settings, chunks[i]).error)
  {
    if i > 0 {
      assert forall j :: 0 <= j < i - 1 ==> chunks[1..][j] == chunks[j + 1];
      FirstFailureWins(engine, settings, chunks[1..], i - 1);
      assert ChunkAudio(engine, settings, chunks[0]).Ok?;
    }
  }

  /**
   * Every model call is for one chunk, in order: its tokens are the silence followed by
   * the tokens of that chunk's phonemes, with the resolved style and the requested speed.
   */
  lemma {:induction false} RequestsAreChunkRequests(engine: Engine, settings: Settings, chunks: seq<string>)
    ensures var rs := Requests(engine, settings, chunks);
      && |rs| <= |chunks|
      && forall j :: 0 <= j < |rs| ==>
        && engine.phonemize(chunks[j], settings.lan).Ok?
        && rs[j] == ChunkRequest(engine, settings, engine.phonemize(chunks[j], settings.lan).value)
        && rs[j].tokens[..settings.silence] == Silence(settings.silence)
        && rs[j].style == settings.style && rs[j].speed == settings.speed
  {
    if chunks != [] {
      RequestsAreChunkRequests(engine, settings, chunks[1..]);
      assert forall j :: 1 <= j < |chunks| ==> chunks[1..][j - 1] == chunks[j];
      var rs := Requests(engine, settings, chunks);
      forall j | 0 <= j < |rs|
        ensures rs[j].tokens[..settings.silence] == Silence(settings.silence)
      {
        assert rs[j].tokens == Silence(settings.silence) + engine.tokenize(engine.phonemize(chunks[j], settings.lan).value);
      }
    }
  }

  /** When every chunk succeeds, the model is called once per chunk. */
  lemma {:induction false} OneRequestPerChunk(engine: Engine, settings: Settings, chunks: seq<string>)
    requires Synthesize(engine, settings, chunks).Ok?
    ensures |Requests(engine, settings, chunks)| == |chunks|
  {
    if chunks != [] {
      OneRequestPerChunk(engine, settings, chunks[1..]);
    }
  }

  /**
   * When chunk `i` is the first to fail, no later chunk reaches the model: the model is
   * called once for each earlier chunk, and once more for chunk `i` exactly when its
   * phonemes were found and the model itself failed on them.
   */
  lemma {:induction false} NoCallAfterFirstFailure(engine: Engine, settings: Settings, chunks: seq<string>, i: nat)
    requires i < |chunks| && ChunkAudio(engine, settings, chunks[i]).Err?
    requires forall j :: 0 <= j < i ==> ChunkAudio(engine, settings, chunks[j]).Ok?
    ensures |Requests(engine, settings, chunks)| ==
      i + (if engine.phonemize(chunks[i], settings.lan).Ok? then 1 else 0)
    ensures |Requests(engine, settings, chunks)| <= i + 1
  {
    if i > 0 {
      assert forall j :: 0 <= j < i - 1 ==> chunks[1..][j] == chunks[j + 1];
      NoCallAfterFirstFailure(engine, settings, chunks[1..], i - 1);
      assert ChunkAudio(engine, settings, chunks[0]).Ok?;
    }
  }

  /** An unknown single style name fails before the model is ever called. */
  lemma UnknownStyleCallsNothing(engine: Engine, table: StyleTable, txt: string, lan: string,
                                 styleName: string, speed: real, initialSilence: Option<nat>)
    requires '+' !in styleName && styleName !in table
    ensures TtsRaw(engine, table, txt, lan, styleName, speed, initialSilence) == Err(StyleFailed(UnknownStyle(styleName)))
    ensures TtsRaw(engine, table, txt, lan, styleName, speed, initialSilence).error.Message() ==
      "can not found from styles_map: " + styleName
    ensures TtsRequests(engine, table, txt, lan, styleName, speed, initialSilence) == []
  {
  }

  /**
   * When chunk `i` is the first to fail and the model is what failed on it, the error text
   * is `Chunk processing failed: ` followed by the model's error.
   */
  lemma ModelFailureMessage(engine: Engine, settings: Settings, chunks: seq<string>, i: nat)
    requires i < |chunks| && engine.phonemize(chunks[i], settings.lan).Ok?
    requires engine.infer(ChunkRequest(engine, settings, engine.phonemize(chunks[i], settings.lan).value)).Err?
    requires forall j :: 0 <= j < i ==> ChunkAudio(engine, settings, chunks[j]).Ok?
    ensures Synthesize(engine, settings, chunks).Err?
    ensures Synthesize(engine, settings, chunks).error.Message() == "Chunk processing failed: " +
      engine.infer(ChunkRequest(engine, settings, engine.phonemize(chunks[i], settings.lan).value)).error
  {
    FirstFailureWins(engine, settings, chunks, i);
  }

  // ---------------------------------------------------------------------------
  // The synthesizer
  // ---------------------------------------------------------------------------

  /** `tokens.insert(0, 30)`, `n` times. */
  method PrependSilence(tokens: seq<int>, n: nat) returns (padded: seq<int>)
    ensures padded == Silence(n) + tokens
  {
    padded := tokens;
    for k := 0 to n
      invariant padded == Silence(k) + tokens
    {
      assert [SILENCE_TOKEN] + Silence(k) == Silence(k + 1);
      padded := [SILENCE_TOKEN] + padded;
    }
  }

  /**
   * `tts_raw_audio`: the audio of the whole text, or the first error, together with the
   * model calls it made in order.
   */
  method TtsRawAudio(engine: Engine, table: StyleTable, txt: string, lan: string, styleName: string,
                     speed: real, initialSilence: Option<nat>)
    returns (r: Result<seq<real>, TtsError>, requests: seq<Request>)
    ensures r == TtsRaw(engine, table, txt, lan, styleName, speed, initialSilence)
    ensures requests == TtsRequests(engine, table, txt, lan, styleName, speed, initialSilence)
    ensures Mix(table, styleName).Err? ==> r == Err(StyleFailed(Mix(table, styleName).error)) && requests == []
  {
    var chunks := SplitTextIntoChunks(PlannerCount(engine), txt, MAX_CHUNK_TOKENS);
    var styles := MixStyles(table, styleName);
    if styles.Err? {
      return Err(StyleFailed(styles.error)), [];
    }
    var settings := Settings(lan, styles.value, speed, initialSilence.GetOr(0));
    r, requests := SynthesizeChunks(engine, settings, chunks);
  }

  /** The chunk loop of `tts_raw_audio`. */
  method SynthesizeChunks(engine: Engine, settings: Settings, chunks: seq<string>)
    returns (r: Result<seq<real>, TtsError>, requests: seq<Request>)
    ensures r == Synthesize(engine, settings, chunks)
    ensures requests == Requests(engine, settings, chunks)
  {
    var finalAudio: seq<real> := [];
    requests := [];
    assert chunks[0..] == chunks;
    ghost var whole := Synthesize(engine, settings, chunks);
    assert whole.Ok? ==> [] + whole.value == whole.value;
    for i := 0 to |chunks|
      invariant Synthesize(engine, settings, chunks) == Then(finalAudio, Synthesize(engine, settings, chunks[i..]))
      invariant Requests(engine, settings, chunks) == requests + Requests(engine, settings, chunks[i..])
    {
      var chunk := chunks[i];
      assert chunks[i..][0] == chunk && chunks[i..][1..] == chunks[i + 1..];
      var phonemes := engine.phonemize(chunk, settings.lan);
      if phonemes.Err? {
        return Err(PhonemizeFailed(phonemes.error)), requests;
      }
      var tokens := engine.tokenize(phonemes.value);
      tokens := PrependSilence(tokens, settings.silence);
      var request := Request(tokens, settings.style, settings.speed);
      requests := requests + [request];
      var chunkAudio := engine.infer(request);
      if chunkAudio.Err? {
        return Err(ChunkFailed(chunkAudio.error)), requests;
      }
      ThenAssociates(finalAudio, chunkAudio.value, Synthesize(engine, settings, chunks[i + 1..]));
      finalAudio := finalAudio + chunkAudio.value;
    }
    assert chunks[|chunks|..] == [];
    assert finalAudio + [] == finalAudio;
    r := Ok(finalAudio);
  }

  /** Audio produced so far, followed by the outcome of the rest. */
  function Then(done: seq<real>, rest: Result<seq<real>, TtsError>): Result<seq<real>, TtsError> {
    match rest
    case Err(e) => Err(e)
    case Ok(audio) => Ok(done + audio)
  }

  lemma ThenAssociates(a: seq<real>, b: seq<real>, rest: Result<seq<real>, TtsError>)
    ensures Then(a, Then(b, rest)) == Then(a + b, rest)
  {
    if rest.Ok? {
      assert a + (b + rest.value) == (a + b) + rest.value;
    }
  }
}
