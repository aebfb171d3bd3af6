# Kokoros text-to-speech core, modelled in Dafny

Kokoros is a Rust front end to the Kokoro text-to-speech model. This project models, and proves
properties of, the parts of it that decide what is synthesized and how:

- **The chunk planner** (`split_text_into_chunks`) cuts a text into sentences at `.`, `?`, `!` and `;`.
  It packs the sentences greedily into chunks within a token budget, and falls back to packing words
  for a sentence that is over the budget on its own.
- **The style resolver** (`mix_styles`) looks up one voice, or blends several voices `name.w+name.w`,
  each voice weighted by `w * 0.1`.
- **The synthesizer** (`tts_raw_audio`) plans the text and resolves the style once. Then, for every
  chunk, it phonemizes, tokenizes and puts silence tokens in front, calls the model, and concatenates
  the audio. It stops at the first failure.
- **The audio layout** of `tts`: mono, duplicated stereo, or stereo whose right channel goes through
  `apply_phase_shift`.
- **The ONNX Runtime loader** (`OrtBase`): the per-instance thread budget, the CPU and GPU builder
  settings, the chain of builder calls with its error messages, and storing the session.
- **The Unicode check program** (`test_unicode.rs`): the phoneme vocabulary built from the symbol
  table, the found/missing partition of a phoneme string, and the vocabulary filter.

Modules:

- `Outcomes` (results.dfy) holds Option and Result.
- `Text` (text.dfy) holds the Rust `str` operations the code relies on: `split`, `split_once`, `trim`,
  `split_whitespace` and `join`.
- `Chunking` (chunking.dfy), `Styles` (styles.dfy), `Synthesis` (synthesis.dfy) and `Audio`
  (audio.dfy) cover kokoros/src/tts/koko.rs.
- `OrtBase` (ort_base.dfy) covers kokoros/src/onn/ort_base.rs.
- `Vocab` (vocab.dfy) covers test_unicode.rs.

Each loop of the source is a method, proved against a specification function. The properties are
lemmas about those functions.

Calls into code the model cannot see are parameters of the model:

- The espeak phonemizer, the tokenizer and the ONNX `infer` call are the functions of an `Engine`.
- The planner's token count is a `Counter`. In `tts_raw_audio` it is the length of the tokens of the
  English phonemes, and a phonemizer failure counts as the empty string, as `unwrap_or_default` does.
- The CPU core count, the `cuda` build feature and the outcome of every builder call, success or an
  error message, make up a `Platform`.
- The order in which the `HashMap` inside `get_vocab` hands out its entries is a parameter `order`.

Three behaviours of the code are worth knowing:

- The recurrence of `apply_phase_shift` telescopes. With both delayed samples starting at 0, over the
  real numbers (f32 rounding aside) every output sample is `k * x[n]` (`Audio.AllPassIsGain`). Up to
  the rounding of the `f32` arithmetic, the "phase shift" is a gain of `k` and shifts no phase.
- At coefficient 0 the filter outputs silence of the input's length (`Audio.AllPassZero`). The filter
  and the code that calls it therefore disagree at 0. `tts` avoids this case: it calls the filter only
  when `stereo_phase_shift != 0.0` (kokoros/src/tts/koko.rs:263), and otherwise writes the audio to
  both channels (`Audio.WriteSamples`).
- A sentence over the budget pushes its word chunks at once, while text of earlier sentences still
  waits in the accumulator. Those chunks are therefore spoken before the earlier text
  (`Chunking.FitThenOversizedIsReordered`). The model follows the code here.

## Model

| member | source | states |
|---|---|---|
| Text.Split | kokoros/src/tts/koko.rs:111-112 | splitting at a set of characters always yields a piece, and no piece holds a separator |
| Text.SplitContent | kokoros/src/tts/koko.rs:111-112 | the split has one piece more than there are separators; putting each separator back between its two pieces gives the text again; the pieces concatenated are the text with its separators removed |
| Text.SplitJoinRoundTrip | kokoros/src/tts/koko.rs:296 | `split('+')` followed by `join("+")` gives back the style name |
| Text.SplitOnce | kokoros/src/tts/koko.rs:302 | `split_once` finds nothing exactly when the separator is absent; otherwise the text is the part before (which has no separator), the separator, and the rest |
| Text.Trim | kokoros/src/tts/koko.rs:113 | a trimmed string is empty or neither starts nor ends with white space |
| Text.TrimIsEmptyIffBlank | kokoros/src/tts/koko.rs:113 | `s.trim().is_empty()` holds exactly when every character of `s` is white space |
| Text.Words | kokoros/src/tts/koko.rs:130 | every word of `split_whitespace` is non-empty and holds no white space |
| Text.WordsContent | kokoros/src/tts/koko.rs:130 | the words concatenated are the text with its white space removed |
| Text.WordsOfJoinSpaced | kokoros/src/tts/koko.rs:130 | joining pieces with spaces and splitting at white space gives the words of each piece, piece after piece |
| Text.WordsCharacterized | kokoros/src/tts/koko.rs:130 | the empty text has no word, a non-empty text without white space is one word, and a white-space character separates the words before it from the words after it |
| Chunking.SentencesAreSentences | kokoros/src/tts/koko.rs:111-120 | every sentence the planner visits is non-empty and ends with the `.` it appends |
| Chunking.NoSentenceIffOnlySpaceAndTerminators | kokoros/src/tts/koko.rs:111-114 | there is no sentence exactly when the text holds only white space and `.?!;` |
| Chunking.PackWordsInvariant | kokoros/src/tts/koko.rs:130-153 | word loop invariant: the pending word chunk is empty only before the first word; every chunk is non-empty and fits or is one word; joining pushed chunks and pending chunk with spaces gives the words joined with spaces |
| Chunking.WordChunksProperties | kokoros/src/tts/koko.rs:128-157 | a sentence with a visible character yields at least one word chunk; each is non-empty and within budget or a single word; together they keep every word in order |
| Chunking.PushWordChunks | kokoros/src/tts/koko.rs:128-157 | the word loop appends exactly the sentence's word chunks to the chunk list |
| Chunking.PlanSentencesInvariant | kokoros/src/tts/koko.rs:118-176 | sentence loop invariant: pushed chunks are non-empty, accumulated ones within budget, fallback ones within budget or one word; the accumulator is within budget; a visited sentence leaves some chunk or text behind |
| Chunking.PlanBudget | kokoros/src/tts/koko.rs:107-184 | every chunk is non-empty; every accumulator chunk has a token count within `max_tokens`; every word-fallback chunk is within `max_tokens` or has no white space |
| Chunking.PlanEmptyIffNoSentence | kokoros/src/tts/koko.rs:107-184 | there are no chunks exactly when the text has no non-blank sentence |
| Chunking.PlanSentencesJoin | kokoros/src/tts/koko.rs:158-175 | when every sentence fits, the loop only accumulates, and joining its chunks with spaces gives the sentences joined with spaces |
| Chunking.FittingSentenceKeepsText | kokoros/src/tts/koko.rs:158-172 | a sentence within budget either extends the accumulator or pushes it and starts a new one; either way no text is lost or reordered |
| Chunking.FlushJoinWhenAllFit | kokoros/src/tts/koko.rs:158-181 | after the final push, sentences that all fit give only accumulator chunks, which joined with spaces are the sentences joined with spaces |
| Chunking.WordChunksKeepWords | kokoros/src/tts/koko.rs:128-157 | the word fallback's chunks hold exactly the sentence's words, in order |
| Chunking.PlanSentencesKeepWords | kokoros/src/tts/koko.rs:116-176 | after any sentences, fitting or oversized, the pushed chunks and the accumulator together hold the words of the sentences visited, each as often as it occurs |
| Chunking.PlanKeepsWords | kokoros/src/tts/koko.rs:107-184 | for every text and budget, the chunks hold the words of the formatted sentences, each as often as it occurs: no word is lost or duplicated (their order is not kept) |
| Chunking.PlanJoinWhenAllFit | kokoros/src/tts/koko.rs:158-181 | when no sentence exceeds the budget, every chunk comes from the accumulator, and joining the chunks with `" "` equals joining the formatted sentences with `" "` |
| Chunking.OversizedSentenceOvertakesAccumulator | kokoros/src/tts/koko.rs:128-157 | an oversized sentence leaves the accumulator untouched and appends at least one word-fallback chunk behind the chunks already pushed |
| Chunking.FitThenOversizedIsReordered | kokoros/src/tts/koko.rs:128-181 | a fitting sentence followed by an oversized one gives the second sentence's word chunks first and the first sentence last |
| Chunking.SplitTextIntoChunks | kokoros/src/tts/koko.rs:107-184 | the chunks are the texts of the plan of the text under the budget |
| Chunking.PackSentences | kokoros/src/tts/koko.rs:116-183 | the sentence loop and the final push produce exactly the planned chunks |
| Styles.ParseWeight | kokoros/src/tts/koko.rs:303 | a weight is read exactly when the portion is a non-empty string of decimal digits |
| Styles.ParseDecimal | kokoros/src/tts/koko.rs:303 | reading back the decimal digits of `n` gives `n` |
| Styles.SegmentWithWeight | kokoros/src/tts/koko.rs:302-306 | a segment `name.digits`, with no `.` in the name and digits reading as `n`, contributes that name with portion `n * 0.1` |
| Styles.PortionsAppend | kokoros/src/tts/koko.rs:301-308 | the portions of two lists of segments are those of each list, in order |
| Styles.BlendAppend | kokoros/src/tts/koko.rs:313-321 | the blend of two lists of portions is the sum of their blends |
| Styles.BlendCommutes | kokoros/src/tts/koko.rs:313-321 | the order of the portions does not change the blend |
| Styles.IgnoredSegment | kokoros/src/tts/koko.rs:301-321 | a segment without `.`, with an unparsable portion or with an unknown name adds nothing to the blend and causes no error |
| Styles.KnownSegment | kokoros/src/tts/koko.rs:313-320 | a segment that reads as a known voice with portion `w` adds `style[0][0][j] * w` to entry `j`; with SegmentWithWeight, `name.digits` adds `style[0][0][j] * digits * 0.1` |
| Styles.BlendedRow | kokoros/src/tts/koko.rs:311-322 | the blended row has 256 entries |
| Styles.MixStyles | kokoros/src/tts/koko.rs:283-324 | without `+`: a known name gives that style's `[0][0]` row and an unknown one the "can not found" error; with `+`: always Ok and 1×256, each entry the sum of the known portions |
| Styles.BlendRows | kokoros/src/tts/koko.rs:311-321 | the buffer ends as 256 entries, each the sum of `portion * style[0][0][j]` over the known names |
| Styles.AddScaled | kokoros/src/tts/koko.rs:317-319 | every entry `j` grows by `style_slice[j] * portion` and nothing else changes |
| Styles.CollectPortions | kokoros/src/tts/koko.rs:298-308 | the name/portion pairs are those of the segments with a `.` and a parsable portion, in order |
| Audio.Filter | kokoros/src/tts/koko.rs:47-54 | the recurrence outputs one sample per input sample |
| Audio.FilterIsGainPlusOffset | kokoros/src/tts/koko.rs:63-68 | each output of the recurrence is `k * x[n]` plus the constant offset `y1 - k * x1` |
| Audio.AllPassRecurrence | kokoros/src/tts/koko.rs:47-54 | every output sample satisfies `y[n] = k*x[n] + y[n-1] - k*x[n-1]`, with `y[-1] = x[-1] = 0` |
| Audio.AllPassIsGain | kokoros/src/tts/koko.rs:55-71 | the output of the phase shift is the input scaled by `k`, sample by sample |
| Audio.AllPassUnity | kokoros/src/tts/koko.rs:55-71 | coefficient 1 passes the audio through unchanged |
| Audio.AllPassZero | kokoros/src/tts/koko.rs:55-71 | coefficient 0 outputs silence of the same length |
| Audio.ApplyPhaseShift | kokoros/src/tts/koko.rs:55-71 | the output has the input's length and is the recurrence run from `x1 = y1 = 0` |
| Audio.WriteSamples | kokoros/src/tts/koko.rs:258-276 | mono writes exactly the audio; stereo writes `2 * len` samples, even positions the audio, odd positions the audio when the shift is 0 and the phase-shifted audio otherwise |
| Synthesis.SynthesizeOkIff | kokoros/src/tts/koko.rs:201-229 | synthesis succeeds exactly when every chunk succeeds, and then its audio is the concatenation of the chunk outputs in order |
| Synthesis.FirstFailureWins | kokoros/src/tts/koko.rs:201-227 | when chunk `i` is the first to fail, the result is that chunk's error and no audio |
| Synthesis.RequestsAreChunkRequests | kokoros/src/tts/koko.rs:201-213 | the model calls are at most one per chunk, in order; each call carries `n` tokens 30 followed by the tokens of that chunk's phonemes, the resolved style and the speed |
| Synthesis.NoCallAfterFirstFailure | kokoros/src/tts/koko.rs:201-224 | when chunk `i` is the first to fail, no later chunk is sent to the model: there are `i` model calls, plus one for chunk `i` exactly when its phonemes were found and the model failed on them |
| Synthesis.OneRequestPerChunk | kokoros/src/tts/koko.rs:201-227 | when every chunk succeeds, the model is called once per chunk |
| Synthesis.UnknownStyleCallsNothing | kokoros/src/tts/koko.rs:195-199 | an unknown single style name returns its error, whose text is `can not found from styles_map: ` followed by the name, before any model call |
| Synthesis.ModelFailureMessage | kokoros/src/tts/koko.rs:213-224 | when the model fails on the first failing chunk, synthesis fails with the text `Chunk processing failed: ` followed by the model's error |
| Synthesis.PrependSilence | kokoros/src/tts/koko.rs:207-210 | inserting 30 at the front `n` times gives `n` tokens 30 followed by the tokens |
| Synthesis.SynthesizeChunks | kokoros/src/tts/koko.rs:196-229 | the chunk loop returns the in-order concatenation or the first error, and makes exactly the model calls of the specification |
| Synthesis.TtsRawAudio | kokoros/src/tts/koko.rs:186-230 | the result and the model calls are those of the specification over the planned chunks with budget 500; a style error returns at once with no model call |
| OrtBase.CalculateOptimalThreads | kokoros/src/onn/ort_base.rs:24-29 | the budget is at least 2; it is exactly 2 when there are fewer than 3 cores per instance; above 2 it is the largest `r` with `r * instances <= cores` |
| OrtBase.ThreadsWithinCores | kokoros/src/onn/ort_base.rs:24-29 | above the minimum, the instances never get more threads than there are cores |
| OrtBase.ThreadsAreQuotient | kokoros/src/onn/ort_base.rs:26-28 | from two cores per instance on, the budget is `cores / instances`, remainder dropped |
| OrtBase.FewCoresGiveMinimum | kokoros/src/onn/ort_base.rs:24-29 | one core per instance or fewer gives the minimum of 2 |
| OrtBase.FirstFailureIsFirst | kokoros/src/onn/ort_base.rs:56-75 | a failing builder call is reported exactly when some call fails; the reported call is the first that fails, with its message, and every call before it succeeded |
| OrtBase.LoadSucceedsIffNoStepFails | kokoros/src/onn/ort_base.rs:36-81 | loading succeeds exactly when no builder call of the build fails; otherwise the error is the context text of the first failing call followed by its message, and every call before that one succeeded |
| OrtBase.CreateBuilderFailure | kokoros/src/onn/ort_base.rs:79 | a failing builder creation gives "Failed to create session builder: " and the runtime's message |
| OrtBase.CpuSettings | kokoros/src/onn/ort_base.rs:47-60 | the CPU build enables mimalloc, sets the intra-op threads to the computed budget, leaves the inter-op threads, and uses the CPU provider and log level Warning |
| OrtBase.GpuSettings | kokoros/src/onn/ort_base.rs:61-75 | the GPU build sets only one inter-op thread, computes no budget, and uses the CUDA provider and log level Warning |
| OrtBase.OrtModel.constructor | kokoros/src/onn/ort_base.rs:104-105 | the starting state of the class: no session is stored, which is the `None` that `sess()` may return before `set_sess` is called (the trait itself has no constructor) |
| OrtBase.OrtModel.LoadModelWithInstances | kokoros/src/onn/ort_base.rs:36-81 | Ok exactly when the specified session is built, and then that session is stored; on Err the error is the first failing call's message and the stored session is unchanged |
| OrtBase.OrtModel.LoadModel | kokoros/src/onn/ort_base.rs:32-34 | behaves exactly as loading with one instance |
| Vocab.Invert | test_unicode.rs:11-17 | every key maps to an index where the symbol table holds that key |
| Vocab.InvertKeys | test_unicode.rs:11-17 | the keys are exactly the symbols met along the order |
| Vocab.InvertLastWins | test_unicode.rs:14-17 | a symbol keeps the index of its last occurrence in the hash map's order |
| Vocab.VocabKeys | test_unicode.rs:3-18 | a character is a key exactly when it occurs in `pad ++ punctuation ++ letters ++ letters_ipa` |
| Vocab.UniqueSymbolIndex | test_unicode.rs:9-17 | a character occurring once maps to its unique position |
| Vocab.SymbolCount | test_unicode.rs:4-9 | the symbol table has 178 symbols: 1 pad, 16 punctuation marks, 52 letters and 109 IPA symbols |
| Vocab.DollarOnlyAtZero | test_unicode.rs:4-9 | `$` occurs only at position 0 |
| Vocab.DollarIsZero | test_unicode.rs:4-17 | `$` maps to 0, whatever the hash map's order |
| Vocab.QuotePositions | test_unicode.rs:5-9 | `"` occurs at positions 11, 14 and 15 only |
| Vocab.QuoteIndex | test_unicode.rs:5-17 | `"` maps to one of 11, 14 and 15 |
| Vocab.QuoteIndexDependsOnOrder | test_unicode.rs:11-17 | `"` maps to 15 when the entries come in index order and to 11 when they come in reverse |
| Vocab.ApostrophePositions | test_unicode.rs:7-9 | `'` occurs at positions 174 and 176 only |
| Vocab.ApostropheIndex | test_unicode.rs:7-17 | `'` maps to 174 or 176 |
| Vocab.Known | test_unicode.rs:70-71 | the filter keeps at most the input's characters, and only vocabulary keys |
| Vocab.Unknown | test_unicode.rs:38-40 | the missing characters are at most the input's characters, and none is a key |
| Vocab.PartitionIsPermutation | test_unicode.rs:32-41 | found and missing characters together are the phoneme characters, each used once |
| Vocab.PartitionLengths | test_unicode.rs:32-41 | found plus missing count is the phoneme count |
| Vocab.KnownAppend | test_unicode.rs:70-71 | filtering a concatenation filters each part, in order |
| Vocab.UnknownAppend | test_unicode.rs:38-40 | the missing characters of a concatenation are those of each part, in order |
| Vocab.KnownIsIdentityIff | test_unicode.rs:70-71 | the filter leaves a string unchanged exactly when every character is a key |
| Vocab.KnownIdempotent | test_unicode.rs:70-71 | filtering twice is filtering once |
| Vocab.UnknownOfKnown | test_unicode.rs:38-40 | a string of keys has no missing character |
| Vocab.PartitionByVocab | test_unicode.rs:32-62 | each of the two check loops (French and German) pushes every key to `found_chars` and every other character to `missing_chars`, each in input order |
| Vocab.TildeNotInSymbols | test_unicode.rs:7-9 | the combining tilde U+0303 is not in the symbol table |
| Vocab.FrenchSplit | test_unicode.rs:35-41 | with those memberships, the French phonemes lose only their combining tilde |
| Vocab.FrenchExample | test_unicode.rs:26-41 | for " fʁɑ̃sˈɛ" the one missing character is U+0303, and the filtered string is " fʁɑsˈɛ", whatever the hash map's order |
| Vocab.GermanExample | test_unicode.rs:47-71 | for " mˈʏlɜ" every character is found, and the filter changes nothing |

## Left out

- Console output, tracing and `eprintln!` diagnostics are not modelled. They do not change any result.
- The WAV writer (`hound`) is not modelled, and neither are its write errors. `Audio.WriteSamples` gives the sequence of samples handed to it.
- The espeak phonemizer, the tokenizer (`crates::tts::tokenize`) and ONNX `infer` are not modelled. They are foreign code and enter as the functions of an `Engine`.
- The real core count (`num_cpus`) and the `cuda` compile-time feature are not modelled. They enter as a `Platform`.
- `TTSKoko::new`, the model download and `load_voices` are not modelled. They are file, network and JSON input. The style table is a parameter.
- `print_info` is not modelled. It only prints the session's input and output names.
- `set_sess`/`sess` are the field `OrtModel.sess`, since the trait is implemented elsewhere.
- The server's pool of TTS instances and its concurrency are not modelled. They live in koko/src/main.rs (lines 363-375 build one `TTSKoko` per instance), outside kokoros/src/tts/koko.rs and kokoros/src/onn/ort_base.rs. The model describes one instance, and the instance count enters only as the `totalInstances` of the thread budget.
- Synthesis.ModelFailureMessage: the model's error enters as the text that the source's `{:?}` renders. The Debug formatting itself is not modelled.
- `f32` arithmetic is not modelled: samples, weights and style entries are real numbers, so rounding is absent.
- The iteration order of Rust's `HashMap` is not modelled. It is a parameter `order` of `Vocab.GetVocab`, and every property holds for all orders.
- Styles.ParseWeight: accepts only non-empty strings of decimal digits. Rust's `parse::<f32>` also reads signs, fractions such as `0.5`, exponents, `inf` and `NaN`. Such portions are ignored by the model, but weighted by the source.
- A voice is the `Voice` type: 511 matrices of one 256-wide row each. Only row `[0][0]` is ever read, and the other rows are not modelled beyond their shape.
- OrtBase.OrtModel.LoadModelWithInstances: requires at least one instance when the CPU thread budget is computed, because the source divides by `total_instances` there and panics on zero. The GPU build accepts zero.
- OrtBase.OrtModel.LoadModel: the session builder's own behaviour is not modelled. Each builder call either succeeds, recording its setting, or fails with a message given by the `Platform`.
- Synthesis.TtsRawAudio: the planner's phonemizer calls are not recorded among the model calls. It only measures token counts and never calls the model.
- Text.Words: white space is the Unicode White_Space set as Rust's `char::is_whitespace` defines it. No normalisation is applied.
- The `tts` method of src/tts/koko.rs and koko/src/main.rs are not part of this model. They are an older copy and a command-line front end.
