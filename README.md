# LocalWhisper: verified model of the transcription bookkeeping

This project models, in Dafny, the exact integer, sequence and string
bookkeeping of LocalWhisper's speech-to-text path and proves what it promises.

- The Qwen3-ASR model server, `scripts/transcribe.py`:
  - the audio encoder's output-length formula;
  - its chunk layout, chunk slicing, padding and post-convolution trim;
  - the cumulative attention-window boundaries (`cu_seqlens`);
  - the block-diagonal and causal attention masks;
  - the prompt with its audio placeholders, and the language lookup;
  - the splice of audio features into the placeholder embeddings;
  - the end-of-sequence stop rule;
  - the loading of `config.json`, the weight-key sanitising and the
    quantisation predicate;
  - the WAV header checks and the JSON-lines request loop.
- The legacy menu-bar app, `legacy/python/main.py`:
  - the whisper-cli output parser;
  - the whisper-cli command line and the model-path resolution;
  - the configuration defaults;
  - the push-to-talk state: the key callbacks, the timer dispatch, the
    recording guards and the transcription lock.
- The reference mel pipeline, `scripts/compare_mel.py`:
  - reflect padding, the frame count and the frame slicing;
  - the triangular filterbank built from integer FFT bin points;
  - the global clamp-and-rescale normalisation.

Tensors are sequences. Embeddings, decoded tokens and samples are opaque
values or `real`s. Code that loops or changes state is written as methods
(`ComputeChunkLayout`, `SliceFeatureChunks`, `PadChunks`, `BuildCuSeqlens`,
`CreateBlockAttentionMask` on an `array2`, `Sanitize`, `CollectTranscript`,
`Serve`, `ParseWhisperOutput`, `CreateMelFilterbank` on an `array2`,
`MelFrames`, `ComputeMelManual`, and the
`PushToTalk.Dictation` class). Each method is proved against a specification
function, and lemmas prove the properties of that function.

Files, one module each:
- `basics.dfy`: `Option`, `Result`, sums, concatenation, maxima.
- `text.dfy`: the Python `str` operations used.
- `json.dfy`: parsed JSON values.
- `feat_lengths.dfy`, `chunking.dfy`, `windows.dfy`, `masks.dfy`, `encoder.dfy`: the audio encoder.
- `session.dfy`: the prompt, the splice and the stop rule.
- `loader.dfy`: configuration and weights.
- `server.dfy`: the request loop.
- `whisper_cli.dfy`, `push_to_talk.dfy`: the legacy app.
- `mel.dfy`: the reference mel pipeline.

Where the code and its comments disagree, the model follows the code.
- `ModelConfig` keeps only the keys found in the sub-config constructor's
  `co_varnames`. For a `**kwargs` constructor these are only `self` and
  `kwargs`. So every encoder and text hyperparameter in `config.json` is
  discarded, and the defaults are always used (`n_window` 50, so the chunk
  size is 100, and `n_window_infer` 800). A `self` key makes the
  construction raise. The model reproduces both, and the encoder plan builds
  on the defaults.
- `sanitize` drops `lm_head.weight` even when the embeddings are not tied.
- The quantisation predicate tests `% 64`, not the configured group size.
- A request line that is valid JSON but not an object raises outside the
  `try`, so the server loop ends. The model's `Crashed` outcome is that case.

## Model

| member | source | states |
|---|---|---|
| FeatLengths.FloorDiv | scripts/transcribe.py:135-136 | the result is the floor of `a / b`: `q*b <= a < q*b + b` |
| FeatLengths.OutputLengths | scripts/transcribe.py:139-147 | element-wise output length of every input length, as naturals |
| FeatLengths.HalvingIsCeil | scripts/transcribe.py:141 | `(x-1)//2 + 1` is the ceiling of `x/2` for every `x >= 0`, including 0 |
| FeatLengths.ThreeHalvings | scripts/transcribe.py:141-145 | three ceiling halvings are one ceiling division by 8 |
| FeatLengths.OutputLength | scripts/transcribe.py:139-147 | the source formula on the remainder mod 100 through three floor halvings, plus 13 per full 100 frames; its contract is in the lemmas below |
| FeatLengths.OutputLengthClosedForm | scripts/transcribe.py:139-147 | output length is `13*(n div 100) + ceil((n mod 100)/8)` |
| FeatLengths.OutputLengthPerHundred | scripts/transcribe.py:139-147 | 100 more frames add exactly 13 outputs |
| FeatLengths.OutputLengthOfHundreds | scripts/transcribe.py:139-147 | `100k` frames give exactly `13k` outputs |
| FeatLengths.OutputLengthBounds | scripts/transcribe.py:139-147 | output length lies in `0..n` and is 0 exactly when `n` is 0 |
| FeatLengths.OutputLengthMonotone | scripts/transcribe.py:139-147 | output length is non-decreasing in the input length |
| FeatLengths.OutputLengthBelowHundred | scripts/transcribe.py:139-147 | for at most 100 frames the length is `ceil(n/8)` |
| Chunking.ChunkCounts | scripts/transcribe.py:270 | one chunk count per input, each `ceil(len/cs)` |
| Chunking.ChunkLengthsOf | scripts/transcribe.py:272-280 | one input has exactly its chunk count of chunk lengths |
| Chunking.LayoutSpec | scripts/transcribe.py:269-281 | the chunk lengths of a batch: each input's full chunks of `cs` and a last chunk of the remainder (or `cs`), input after input; its contract is in `LayoutSpecProperties` |
| Chunking.ComputeChunkLayout | scripts/transcribe.py:269-281 | the counts and the flattened chunk lengths equal the layout specification |
| Chunking.LastChunkArithmetic | scripts/transcribe.py:275-277 | the last chunk's length is what remains after the full chunks |
| Chunking.ChunkLayoutOfOne | scripts/transcribe.py:269-281 | `ceil(len/cs)` chunks; all but the last are `cs`; each is in `1..cs`; they sum to `len` |
| Chunking.LayoutSpecProperties | scripts/transcribe.py:269-281 | over a batch the chunk lengths sum to the total length and each lies in `1..cs` |
| Chunking.ChunkLengthsMatchPeel | scripts/transcribe.py:272-280 | the layout equals peeling off full chunks one by one |
| Chunking.PySlice | scripts/transcribe.py:298 | Python slicing agrees with the exact slice when the bounds are in range |
| Chunking.SliceOne | scripts/transcribe.py:290-299 | one input yields as many chunks as its count |
| Chunking.SliceRecording | scripts/transcribe.py:290-299 | the inner loop over one recording yields exactly its slicing specification |
| Chunking.SliceCuts | scripts/transcribe.py:290-299 | chunk `j` of a recording is frames `[j*cs, cut_{j+1})`, the cuts running from 0 to the length |
| Chunking.SliceFeatureChunks | scripts/transcribe.py:283-300 | the chunks produced equal the slicing specification, input by input |
| Chunking.ChunkAt | scripts/transcribe.py:294-299 | chunk `j` is frames `[j*cs, end_j)`, and `end_j` is `(j+1)*cs`, or `len` for the last |
| Chunking.SlicePrefix | scripts/transcribe.py:290-299 | the first `k` chunks concatenate to frames `[0, k*cs)` |
| Chunking.SliceCoversFrames | scripts/transcribe.py:283-300 | the chunk widths are the layout, and the chunks concatenate to exactly frames `[0, len)` |
| Chunking.PadChunks | scripts/transcribe.py:302-310 | an empty batch is an error; otherwise every chunk is right-padded with zeros to the longest length |
| Chunking.PadChunksSucceeds | scripts/transcribe.py:302-310 | when every chunk is as wide as its recorded length, all padded chunks have the maximum width, so padding succeeds |
| Chunking.PadChunksShape | scripts/transcribe.py:302-310 | a padded chunk has the maximum width, keeps its prefix and appends only zeros |
| Chunking.Trim | scripts/transcribe.py:358-361 | concatenates the first `keep[i]` vectors of every chunk output, with Python slice clamping; its contract is in `TrimKeepsPrefixes` |
| Chunking.TrimKeepsPrefixes | scripts/transcribe.py:358-361 | the trim keeps the first `keep[i]` vectors of every chunk, `Sum(keep)` in all |
| Windows.CumSum | scripts/transcribe.py:322 | the running sum has one entry per input |
| Windows.BuildCuSeqlens | scripts/transcribe.py:312-322 | result is the running sum of `[0]` and every length's full windows and remainder |
| Windows.AppendWindows | scripts/transcribe.py:315-321 | one pass appends the chunk's full windows and then its non-zero remainder, nothing else |
| Windows.WindowLengthsCover | scripts/transcribe.py:315-321 | one length's windows sum to it, and each lies in `1..window` |
| Windows.AllWindowLengthsCover | scripts/transcribe.py:314-321 | all windows sum to the total length, and each lies in `1..window` |
| Windows.CumSumLast | scripts/transcribe.py:322 | the last running sum is the total |
| Windows.CuSeqlensProperties | scripts/transcribe.py:312-322 | `cu_seqlens` starts at 0, increases strictly, gaps are at most the window, and ends at the sum of the lengths |
| Masks.Arange | scripts/transcribe.py:129-130 | `arange(lo, hi)` is `lo, lo+1, …, hi-1` |
| Masks.CausalMask | scripts/transcribe.py:128-132 | shape `N x (offset+N)`; entry `(i,j)` is masked iff `offset+i < j` |
| Masks.CausalMaskIncremental | scripts/transcribe.py:128-132 | the mask at an offset is the trailing rows of the full causal mask |
| Masks.CausalRow | scripts/transcribe.py:128-132 | row `i` is `offset+i+1` unmasked entries, then masked entries |
| Masks.CreateBlockAttentionMask | scripts/transcribe.py:262-267 | fresh `seq_len x seq_len` array; `(i,j)` is masked iff no block `[cu[k], cu[k+1])` holds both |
| Masks.BlockMaskSymmetric | scripts/transcribe.py:262-267 | the block mask is symmetric |
| Masks.NoAttentionAcrossBoundary | scripts/transcribe.py:262-267 | two positions on either side of a boundary never see each other |
| Masks.EveryVectorInOneBlock | scripts/transcribe.py:262-267 | with proper boundaries every position sees itself and lies in exactly one block |
| Encoder.FreqAfterConv | scripts/transcribe.py:250 | frequency bins after three stride-2 convolutions are `ceil(mel_bins/8)` |
| Encoder.ConvOutLen | scripts/transcribe.py:233-248 | one stride-2, padding-1, kernel-3 convolution gives `ceil(n/2)` |
| Encoder.ConvStackLen | scripts/transcribe.py:349-351 | the three convolutions give `ceil(n/8)` time steps |
| Encoder.TrimWithinConvOutput | scripts/transcribe.py:358-361 | a chunk's trim length never exceeds the padded chunk's convolution output |
| Encoder.WindowAftercnn | scripts/transcribe.py:364-366 | the window is 8 times the longest chunk output under the default configuration |
| Encoder.ChunkOutputsSumToWhole | scripts/transcribe.py:339-361 | with chunks of 100, the chunks' output lengths sum to the whole input's output length |
| Encoder.LayoutOutputsSum | scripts/transcribe.py:339-367 | over a batch, the chunk output lengths sum to the inputs' output lengths |
| Encoder.LayoutSpecEmpty | scripts/transcribe.py:269-281 | the layout is empty iff every input length is 0 |
| Encoder.TrimKeepsEveryVector | scripts/transcribe.py:358-361 | trimming each padded chunk keeps exactly its own output length, and the kept vectors add up to the recordings' output lengths |
| Encoder.CuCoversHidden | scripts/transcribe.py:364-367 | the window boundaries start at 0, grow by at most the window, end at the number of vectors, and put every vector in a window |
| Encoder.LongestChunkOutput | scripts/transcribe.py:344-346 | a non-empty layout has a longest chunk output of at least 1, so the window is positive |
| Encoder.PlanSpec | scripts/transcribe.py:324-370 | the encoder's bookkeeping on lengths: no chunks is an error; otherwise the chunk layout, each padded chunk's output length, the trimmed vector count, the attention window and `cu_seqlens`; its contract is in `PlanProperties` |
| Encoder.PlanEncoder | scripts/transcribe.py:324-370 | the layout, per-chunk output lengths, trimmed vector count, window and `cu_seqlens` computed step by step equal the plan specification |
| Encoder.PlanProperties | scripts/transcribe.py:324-370 | the plan fails iff every length is 0; otherwise the window is positive, `cu_seqlens` starts at 0, increases strictly by at most the window, ends at the number of hidden vectors, and puts every vector in a block |
| Session.LastMatch | scripts/transcribe.py:690 | the dict comprehension keeps the last language with a given lower-case form |
| Session.ResolveLanguage | scripts/transcribe.py:689-691 | a supported language matched case-insensitively, otherwise the request verbatim |
| Session.ResolveLanguageIdempotent | scripts/transcribe.py:689-691 | resolving twice is resolving once |
| Session.ResolveLanguageCaseInsensitive | scripts/transcribe.py:689-691 | requests differing only in case resolve alike |
| Session.Pads | scripts/transcribe.py:695 | the placeholder run is 13 characters per audio token |
| Session.Prompt | scripts/transcribe.py:693-697 | the prompt's length, its fixed head and its `<asr_text>` tail |
| Session.NumAudioTokens | scripts/transcribe.py:684-686 | the placeholder count is the encoder output length of the first audio length: at most that length, and 0 only for silence-length 0 |
| Session.TranscribePrompt | scripts/transcribe.py:684-697 | the prompt built from the encoder output length and the resolved language; its contract is in `TranscribePromptReadsBack` |
| Session.TranscribePromptReadsBack | scripts/transcribe.py:684-697 | from the transcription prompt, the placeholder count reads back as the encoder output length and the language as the resolved name |
| Session.PlaceholdersMatchFeatures | scripts/transcribe.py:684-686 | the encoder plan for one recording succeeds iff its feature length is nonzero, and then yields exactly as many hidden vectors as the prompt has placeholders |
| Session.PromptInjective | scripts/transcribe.py:684-697 | the prompt determines both the placeholder count and the language |
| Session.PlaceholderIndices | scripts/transcribe.py:709-711 | the placeholder positions, in order and complete |
| Session.Splice | scripts/transcribe.py:704-727 | the first `min(#placeholders, #features)` placeholders get the features in order; every other position keeps its embedding |
| Session.SurplusPlaceholdersKept | scripts/transcribe.py:713-726 | placeholders beyond the features keep their token embedding |
| Session.SpliceComplete | scripts/transcribe.py:704-727 | with as many features as placeholders, every placeholder is replaced |
| Session.TranscribeEmbeds | scripts/transcribe.py:704-727 | the splice in `transcribe_audio` is `Splice` |
| Session.ModelCallEmbeds | scripts/transcribe.py:516-547 | the model call splices only with features and a cache at offset 0 or absent |
| Session.SpliceWithoutEffect | scripts/transcribe.py:708-713 | no placeholder or no feature leaves the embeddings unchanged |
| Session.FirstEos | scripts/transcribe.py:733-742 | index of the first EOS token (151645 or 151643), or the length |
| Session.CollectTranscript | scripts/transcribe.py:733-745 | the text is the stripped concatenation of the tokens decoded before the first EOS |
| Session.TokensAfterEosIgnored | scripts/transcribe.py:740-742 | nothing after the first EOS reaches the transcript |
| Session.FirstEosAfter | scripts/transcribe.py:740-742 | a first EOS after EOS-free tokens stops there |
| ConfigLoader.FilterKwargs | scripts/transcribe.py:95-117 | the filtered dict keeps exactly the keys in `co_varnames`, with their values |
| ConfigLoader.Construct | scripts/transcribe.py:55-82 | a config object has exactly the defaults' attributes |
| ConfigLoader.FileValuesDiscarded | scripts/transcribe.py:92-117 | a dict sub-config gives the defaults, or an error when it has a `self` key |
| ConfigLoader.FlattenThinker | scripts/transcribe.py:605-609 | without `thinker_config` the dict is unchanged; with a non-object one it fails; otherwise `audio_config`, `text_config` and `audio_token_id` are the thinker's values or `{}`, `{}`, 151676; other keys are kept |
| ConfigLoader.LoadModelConfig | scripts/transcribe.py:604-616 | flattens `thinker_config`, then builds the configuration from `audio_config`, `text_config`, `audio_token_id` (default 151676) and `support_languages` (default empty); its contract is in the lemmas below |
| ConfigLoader.SubConfigIsDefaults | scripts/transcribe.py:92-117 | an absent or dict sub-config yields the default attributes |
| ConfigLoader.LoadedEncoderUsesDefaults | scripts/transcribe.py:604-616 | the loaded encoder config is the defaults, whose `n_window`, `n_window_infer` and mel-bin count are the encoder plan's constants 50, 800 and 128 |
| ConfigLoader.ThinkerAudioTokenId | scripts/transcribe.py:609-614 | the audio token id comes from `thinker_config`, defaulting to 151676 |
| ConfigLoader.Transpose0231 | scripts/transcribe.py:581 | the transposed tensor has shape `(d0, d2, d3, d1)` |
| ConfigLoader.StripThinker | scripts/transcribe.py:570-571 | a leading `thinker.` is removed, other keys are unchanged |
| ConfigLoader.Sanitize | scripts/transcribe.py:565-582 | the result is the sanitising specification over the weights in order |
| ConfigLoader.SanitizeDropsLmHead | scripts/transcribe.py:572-573 | `lm_head.weight` is never emitted |
| ConfigLoader.SanitizeKeys | scripts/transcribe.py:565-582 | a key is emitted iff some input key strips to it and it is not `lm_head.weight` |
| ConfigLoader.SanitizeValues | scripts/transcribe.py:565-582 | an emitted value comes from the last input with that stripped key, transposed only for 4-D conv2d weights of unformatted input |
| ConfigLoader.FormattedNeverTransposed | scripts/transcribe.py:568-581 | without `thinker.` keys every value passes through unchanged |
| ConfigLoader.ClassPredicate | scripts/transcribe.py:629-636 | true iff the module is quantisable, its weight size is a multiple of 64, it is not under `audio_tower`, and `<p>.scales` exists |
| ConfigLoader.QuantizedOnlyWithScales | scripts/transcribe.py:629-636 | a quantised module has a `.scales` weight among the inputs and is not in the audio tower |
| Server.CheckWavHeader | scripts/transcribe.py:757-764 | accepted iff mono, 16-bit, 16000 Hz; the first failing check is reported, with bits as `8*width` |
| Server.RequestStep | scripts/transcribe.py:821-853 | a parsed request is never skipped; it crashes the loop iff it is not an object, and stops it iff it is the `quit` command |
| Server.StopAt | scripts/transcribe.py:809-858 | the loop reads every line before the first stop or crash, and stops there |
| Server.StepOf | scripts/transcribe.py:810-853 | a blank line is skipped and only a blank line; a line that is not JSON answers `Invalid JSON` |
| Server.Serve | scripts/transcribe.py:806-858 | output is `ready` then the responses of the lines before the stop; the outcome is end of input, quit or crash |
| Server.HandleLine | scripts/transcribe.py:810-853 | the loop body for one line, called by `Serve`, equals its specified step |
| Server.SkipIffBlank | scripts/transcribe.py:810-812 | a line is skipped iff it is blank once stripped |
| Server.OneResponsePerLine | scripts/transcribe.py:809-858 | before a stop, each non-blank line gets exactly one response, and blank lines get none |
| Server.QuitEndsTheLoop | scripts/transcribe.py:826-828 | nothing after `quit` is read, and `quit` gets no answer |
| Server.WavRequests | scripts/transcribe.py:833-858 | a request without `cmd`: a missing or falsy `wav` answers the missing-wav error, otherwise the transcription's text or its failure message; the loop goes on |
| Server.EndsIff | scripts/transcribe.py:810-853 | a line crashes the loop iff it parses to a non-object, and stops it iff it is the `quit` command |
| Server.AllAnswered | scripts/transcribe.py:809-858 | when no line is a non-object or `quit`, every line is read, each non-blank one gets exactly one response, and the loop ends at end of input |
| Server.Commands | scripts/transcribe.py:821-831 | `ping` answers ready, `quit` stops, any other `cmd` is an error |
| WhisperCli.WhisperText | legacy/python/main.py:312-332 | the transcript: strip, split on newlines, keep timestamp tails and plain lines, join with spaces, strip; its contract is in the lemmas below |
| WhisperCli.ParseWhisperOutput | legacy/python/main.py:312-332 | the result is the specified transcript, with no outer whitespace |
| WhisperCli.MetadataContributesNothing | legacy/python/main.py:319-321 | blank lines and lines starting with `whisper_` or `main:` contribute nothing |
| WhisperCli.TimestampLine | legacy/python/main.py:323-327 | a `[`…`-->` line contributes the stripped text after its first `]`, or nothing without `]` |
| WhisperCli.BracketWithoutArrowKept | legacy/python/main.py:323-330 | a `[` line without `-->` is kept verbatim |
| WhisperCli.PiecesAppend | legacy/python/main.py:317-330 | lines contribute independently and in order |
| WhisperCli.MetadataLineIgnored | legacy/python/main.py:317-330 | removing a line that contributes nothing changes nothing |
| WhisperCli.NothingToSay | legacy/python/main.py:317-332 | output with only metadata and blank lines gives no text |
| WhisperCli.PlainLine | legacy/python/main.py:312-332 | one plain line comes back stripped |
| WhisperCli.Defaults | legacy/python/main.py:73-84 | the default settings: `large-v3-turbo`, `auto`, `cmd+shift+space`, auto-paste on, bundled model path; its contract is in `LoadConfig` |
| WhisperCli.LoadConfig | legacy/python/main.py:44-84 | the defaults without config.json, else the file's object unchanged; the app fails to start iff the file holds no JSON object or its `model` is not a string |
| WhisperCli.NumericModelStopsStartup | legacy/python/main.py:62 | a config.json with a numeric `model` stops the app at startup, a string one does not |
| WhisperCli.ResolveModelPath | legacy/python/main.py:232-234 | an absolute path is kept, a relative one is joined under the app directory; its contract is in `ResolvedPathAbsolute` |
| WhisperCli.ResolvedPathAbsolute | legacy/python/main.py:232-234 | the resolved model path is absolute; a relative path is placed under the app directory |
| WhisperCli.WhisperCommand | legacy/python/main.py:232-250 | `whisper-cli -m <model> -f <wav>` then the fixed flags, and `-l <lang>` appended only for a language other than `auto`; errors for non-string values |
| WhisperCli.LanguageFlagIffNotAuto | legacy/python/main.py:237-250 | `-l` appears iff the language is not `auto` |
| WhisperCli.DefaultCommand | legacy/python/main.py:231-250 | without config.json the bundled model is used with no language flag |
| WhisperCli.MissingKeysFallBack | legacy/python/main.py:232-237 | missing keys give the same command as the defaults |
| PushToTalk.Dictation.constructor | legacy/python/main.py:47-90 | not recording, lock free, no pending action, no keys, no frames |
| PushToTalk.Dictation.OnPress | legacy/python/main.py:92-99 | adds the key; requests a start iff the whole hotkey is held and not recording |
| PushToTalk.Dictation.OnRelease | legacy/python/main.py:101-106 | removes the key; requests a stop iff recording and the key is part of the hotkey |
| PushToTalk.Dictation.StartRecording | legacy/python/main.py:129-167 | no change while recording or while the lock is held; otherwise empty frames, recording iff the stream opens |
| PushToTalk.Dictation.RecordChunk | legacy/python/main.py:169-174 | a buffer is appended only while recording |
| PushToTalk.Dictation.StopRecording | legacy/python/main.py:179-205 | no change when not recording; otherwise stops and starts a transcription |
| PushToTalk.Dictation.ToggleRecording | legacy/python/main.py:122-127 | stops a recording or starts one under the start guards |
| PushToTalk.Dictation.CheckPendingAction | legacy/python/main.py:113-120 | clears the request, then starts or stops as requested |
| PushToTalk.Dictation.AcquireTranscribeLock | legacy/python/main.py:209-212 | succeeds iff the lock was free; the lock is held afterwards |
| PushToTalk.Dictation.ReleaseTranscribeLock | legacy/python/main.py:309-310 | the lock is free afterwards |
| PushToTalk.PushToTalkCycle | legacy/python/main.py:92-205 | hold the hotkey, tick, record, release Space, tick: one recording of exactly those frames, handed to one transcription |
| Mel.Reflect | scripts/compare_mel.py:127-128 | reflect index is in range and is the identity inside the signal |
| Mel.ReflectPad | scripts/compare_mel.py:127-128 | fails iff the signal is empty and the pad is positive; length is `n + 2*pad` |
| Mel.ReflectPadKeepsSignal | scripts/compare_mel.py:127-128 | the signal sits unchanged between the pads |
| Mel.ReflectPadMirrors | scripts/compare_mel.py:127-128 | the pads mirror the signal about its end samples without repeating them |
| Mel.FrameCount | scripts/compare_mel.py:138 | `(len(padded) - n_fft) // hop + 1`, floor division by the positive hop; its contract is in `FramesInBounds` and `FrameCountOfPaddedSignal` |
| Mel.FramesInBounds | scripts/compare_mel.py:138-143 | every frame lies inside the padded signal, and one more frame would not |
| Mel.FrameCountOfPaddedSignal | scripts/compare_mel.py:127-138 | padding by `n_fft//2` gives `n//hop + 1` frames; one second gives 101 |
| Mel.Frames | scripts/compare_mel.py:138-150 | one spectrum per frame, at least zero frames, frame `i` being samples `[i*hop, i*hop+n_fft)` of the padded signal |
| Mel.MelFrames | scripts/compare_mel.py:141-150 | the frame loop computes exactly `Frames`: one spectrum per frame, frame `i` being samples `[i*hop, i*hop+n_fft)` |
| Mel.BinPoints | scripts/compare_mel.py:91 | each bin is `floor((n_fft+1)*hz/sr)` |
| Mel.BinPointBounds | scripts/compare_mel.py:91 | bins are non-decreasing in frequency and lie in `0..(n_fft+1)//2` up to Nyquist |
| Mel.CreateMelFilterbank | scripts/compare_mel.py:79-108 | fresh `n_mels x (n_fft//2+1)` matrix whose entries are the triangle weights |
| Mel.FillFilter | scripts/compare_mel.py:96-106 | one row gets its rising and falling edges; other rows are unchanged |
| Mel.WeightBounds | scripts/compare_mel.py:101-106 | every weight is in `[0, 1]` |
| Mel.WeightSupport | scripts/compare_mel.py:101-106 | a weight is positive iff strictly inside the triangle; it is 1 at the centre |
| Mel.WeightTriangle | scripts/compare_mel.py:101-106 | weights strictly rise before the centre and strictly fall after it |
| Mel.GlobalMax | scripts/compare_mel.py:155 | the global maximum bounds every value and is reached, or is absent for an empty spectrogram |
| Mel.Normalise | scripts/compare_mel.py:154-157 | absent iff there is no value; otherwise same shape |
| Mel.NormaliseRange | scripts/compare_mel.py:154-157 | values lie in `[(max-4)/4, (max+4)/4]`; the top is reached; values 8 below the max collapse to the bottom |
| Mel.NormaliseMonotone | scripts/compare_mel.py:154-157 | normalisation keeps the order of values; values above the clamp floor `max - 8` keep strict order; a strict order in the output comes from one in the input |
| Mel.ComputeMelManual | scripts/compare_mel.py:111-159 | fails iff the signal is empty or every frame's spectrum is empty; otherwise `n//160 + 1` frames, and the result is the normalisation of the frames of the reflect-padded signal |

## Left out

- Tensor arithmetic is not modelled: convolutions, attention, linear layers, GELU, positional embeddings, the text decoder and its KV cache. `generate_step`, the tokenizer and the Whisper feature extractor are also out. Decoding is a parameter, and embeddings and features are opaque values.
- `-1e9` and `0.0` in the masks are the booleans "masked" and "visible". The `float32` and `int32` dtypes and float rounding are not modelled. `_floor_div` goes through `float32` in the source; the model uses exact integer floor division, which agrees for all realistic lengths.
- Session.ResolveLanguage: `str.lower()` is modelled for ASCII letters only, not for full Unicode case mapping.
- File and process I/O are parameters of the model: reading `config.json` and `.safetensors`, standard input and output, the WAV file, `subprocess`, clipboard, AppleScript paste, sleeping and timeouts. `json.loads` and the transcription are parameters of `Server.Serve`.
- Server.CheckWavHeader: `load_wav` checks with `assert`, which `python -O` would skip. The model always checks. Converting the samples to float is left out.
- `nn.quantize` itself and the quantisation `group_size`/`bits` are left out; only the predicate is modelled.
- Threads, the 50 ms timer and the keyboard listener's concurrency are not modelled. Each callback is one atomic method of `PushToTalk.Dictation`. Menu titles and status texts are left out.
- PushToTalk.Dictation.StartRecording: opening the microphone stream is a boolean parameter; PyAudio objects are not modelled.
- WhisperCli.ResolvedPathAbsolute: `pathlib` normalisation (doubled slashes, `.` parts) is not modelled. Paths are joined with `/` as strings.
- WhisperCli.LoadConfig: a config.json that is not valid JSON makes `json.load` raise; this is not modelled.
- `_transcribe_and_paste` beyond the command and the lock is left out: writing the WAV, the return-code check, clipboard and paste.
- Mel: `hz_to_mel`, `mel_to_hz`, `linspace`, the Hann window, the FFT, the `1e-10` energy floor and `log10` are not modelled over floats. The Hz points are an input of `Mel.CreateMelFilterbank`, and the per-frame spectrum is a parameter of `Mel.MelFrames`. The HuggingFace comparison and the printing are left out.
- Encoder.PlanEncoder: the plan works on lengths. Slicing and padding the feature tensors are modelled by `Chunking.SliceFeatureChunks` and `Chunking.PadChunks`, with their own contracts, but are not composed into the plan.
- Mel.MelFrames: a zero hop length makes the source divide by zero; the model requires a positive hop.
