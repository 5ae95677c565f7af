/** One transcription request after feature extraction (scripts/transcribe.py,
    `transcribe_audio` and `Qwen3ASRModel.__call__`): resolving the language
    name, writing the prompt with one placeholder per audio vector, splicing
    the audio vectors into the placeholders' embeddings, and collecting
    decoded tokens up to the first end-of-sequence token. Embeddings are
    opaque values `E`; tokenising, decoding and generation are parameters. */
module Session {
  import opened Basics
  import opened Text
  import opened FeatLengths
  import Encoder

  // ---------------------------------------------------------------------------
  // Language name
  // ---------------------------------------------------------------------------

  /** The entry `{lang.lower(): lang for lang in supported}` keeps for `key`:
      later names overwrite earlier ones with the same lower-case form. */
  function LastMatch(supported: seq<string>, key: string): (r: Option<string>)
    ensures r.Some? ==>
              exists i :: (0 <= i < |supported| && supported[i] == r.value && Lower(r.value) == key
                           && forall j :: i < j < |supported| ==> Lower(supported[j]) != key)
    ensures r.None? ==> forall j :: 0 <= j < |supported| ==> Lower(supported[j]) != key
  {
    if supported == [] then None
    else if Lower(supported[|supported| - 1]) == key then Some(supported[|supported| - 1])
    else LastMatch(supported[..|supported| - 1], key)
  }

  /** `supported_lower.get(language.lower(), language)`: the supported spelling
      of a name that matches case-insensitively, otherwise the name verbatim. */
  function ResolveLanguage(supported: seq<string>, language: string): (r: string)
    ensures (exists l :: l in supported && Lower(l) == Lower(language)) ==>
              r in supported && Lower(r) == Lower(language)
    ensures !(exists l :: l in supported && Lower(l) == Lower(language)) ==> r == language
  {
    match LastMatch(supported, Lower(language))
    case Some(name) => name
    case None => language
  }

  /** Resolving an already resolved name changes nothing. */
  lemma ResolveLanguageIdempotent(supported: seq<string>, language: string)
    ensures ResolveLanguage(supported, ResolveLanguage(supported, language))
            == ResolveLanguage(supported, language)
  {
    var r := ResolveLanguage(supported, language);
    assert LastMatch(supported, Lower(r)) == LastMatch(supported, Lower(language)) || r == language;
  }

  /** Names that differ only in ASCII letter case resolve alike. */
  lemma ResolveLanguageCaseInsensitive(supported: seq<string>, a: string, b: string)
    requires Lower(a) == Lower(b)
    requires exists l :: l in supported && Lower(l) == Lower(a)
    ensures ResolveLanguage(supported, a) == ResolveLanguage(supported, b)
  {
  }

  // ---------------------------------------------------------------------------
  // Prompt
  // ---------------------------------------------------------------------------

  const PromptHead: string := "<|im_start|>system\n<|im_end|>\n<|im_start|>user\n<|audio_start|>"
  const AudioPad: string := "<|audio_pad|>"
  const AudioEnd: string := "<|audio_end|>"
  const PromptMid: string := AudioEnd + "<|im_end|>\n<|im_start|>assistant\nlanguage "
  const PromptTail: string := "<asr_text>"

  /** `'<|audio_pad|>' * n`. */
  function Pads(n: nat): (r: string)
    ensures |r| == 13 * n
  {
    RepeatString(AudioPad, n)
  }

  /** `s * n` for a string `s`. */
  function RepeatString(s: string, n: nat): (r: string)
    ensures |r| == |s| * n
  {
    if n == 0 then [] else s + RepeatString(s, n - 1)
  }

  /** The chat prompt with `n` audio placeholders and the language name. */
  function Prompt(n: nat, lang: string): (r: string)
    ensures |r| == |PromptHead| + 13 * n + |PromptMid| + |lang| + |PromptTail|
    ensures r[..|PromptHead|] == PromptHead
    ensures r[|r| - |PromptTail|..] == PromptTail
  {
    var rest := Pads(n) + (PromptMid + (lang + PromptTail));
    assert (PromptHead + rest)[..|PromptHead|] == PromptHead;
    assert (PromptHead + rest)[|PromptHead| + |rest| - |PromptTail|..] == PromptTail;
    PromptHead + rest
  }

  /** The characters that tell a placeholder from the closing marker. */
  lemma MarkerCharacters()
    ensures |AudioPad| == 13 && AudioPad[8] == 'p'
    ensures |PromptMid| > 8 && PromptMid[8] == 'e'
  {
    assert AudioEnd[8] == 'e';
    assert PromptMid[8] == AudioEnd[8];
  }

  /** A run of copies of `pad` followed by a marker `mid` that differs from
      `pad` within `pad`'s length has only one reading. */
  lemma {:induction false} RunDetermined(pad: string, mid: string, d: nat,
                                         n1: nat, n2: nat, rest1: string, rest2: string)
    requires d < |pad| && d < |mid| && pad[d] != mid[d]
    requires RepeatString(pad, n1) + (mid + rest1) == RepeatString(pad, n2) + (mid + rest2)
    ensures n1 == n2 && rest1 == rest2
    decreases n1
  {
    var t1, t2 := mid + rest1, mid + rest2;
    if n1 == 0 && n2 == 0 {
      assert RepeatString(pad, 0) + t1 == t1;
      assert RepeatString(pad, 0) + t2 == t2;
      assert rest1 == t1[|mid|..] && rest2 == t2[|mid|..];
    } else if n1 > 0 && n2 > 0 {
      var u1, u2 := RepeatString(pad, n1 - 1) + t1, RepeatString(pad, n2 - 1) + t2;
      assert RepeatString(pad, n1) + t1 == pad + u1;
      assert RepeatString(pad, n2) + t2 == pad + u2;
      assert u1 == (pad + u1)[|pad|..];
      assert u2 == (pad + u2)[|pad|..];
      RunDetermined(pad, mid, d, n1 - 1, n2 - 1, rest1, rest2);
    } else if n1 == 0 {
      assert RepeatString(pad, 0) + t1 == t1;
      RunAndMarkerDiffer(pad, mid, d, n2, rest2, rest1);
      assert false;
    } else {
      assert RepeatString(pad, 0) + t2 == t2;
      RunAndMarkerDiffer(pad, mid, d, n1, rest1, rest2);
      assert false;
    }
  }

  /** A non-empty run and the marker differ at position `d`. */
  lemma RunAndMarkerDiffer(pad: string, mid: string, d: nat, n: nat, restRun: string, restMid: string)
    requires d < |pad| && d < |mid| && pad[d] != mid[d] && n > 0
    ensures RepeatString(pad, n) + (mid + restRun) != mid + restMid
  {
    var run := RepeatString(pad, n) + (mid + restRun);
    assert run == pad + (RepeatString(pad, n - 1) + (mid + restRun));
    assert run[d] == pad[d];
    assert (mid + restMid)[d] == mid[d];
  }

  /** The prompt determines both the placeholder count and the language name. */
  lemma PromptInjective(n1: nat, l1: string, n2: nat, l2: string)
    requires Prompt(n1, l1) == Prompt(n2, l2)
    ensures n1 == n2 && l1 == l2
  {
    var h, pad, mid, tail := PromptHead, AudioPad, PromptMid, PromptTail;
    MarkerCharacters();
    var x1 := RepeatString(pad, n1) + (mid + (l1 + tail));
    var x2 := RepeatString(pad, n2) + (mid + (l2 + tail));
    PromptShape(n1, l1);
    PromptShape(n2, l2);
    assert x1 == (h + x1)[|h|..];
    assert x2 == (h + x2)[|h|..];
    RunDetermined(pad, mid, 8, n1, n2, l1 + tail, l2 + tail);
    assert l1 == (l1 + tail)[..|l1|];
    assert l2 == (l2 + tail)[..|l2|];
  }

  lemma PromptShape(n: nat, lang: string)
    ensures Prompt(n, lang) == PromptHead + (RepeatString(AudioPad, n) + (PromptMid + (lang + PromptTail)))
  {
  }

  /** `num_audio_tokens = aftercnn_lens[0]`: one placeholder per encoder
      vector of the first recording, none for an empty recording. */
  function NumAudioTokens(audioLens: seq<nat>): (n: nat)
    requires audioLens != []
    ensures n <= audioLens[0] && (n == 0 <==> audioLens[0] == 0)
  {
    OutputLengthBounds(audioLens[0]);
    OutputLength(audioLens[0])
  }

  /** The prompt `transcribe_audio` writes for recordings of `audioLens`
      mel frames and a requested language. */
  function TranscribePrompt(audioLens: seq<nat>, supported: seq<string>, language: string): (r: string)
    requires audioLens != []
  {
    Prompt(NumAudioTokens(audioLens), ResolveLanguage(supported, language))
  }

  /** Reading the prompt back gives the first recording's number of encoder
      vectors and the resolved language name. */
  lemma TranscribePromptReadsBack(audioLens: seq<nat>, supported: seq<string>, language: string,
                                  n: nat, lang: string)
    requires audioLens != []
    requires Prompt(n, lang) == TranscribePrompt(audioLens, supported, language)
    ensures n == OutputLength(audioLens[0]) && lang == ResolveLanguage(supported, language)
  {
    PromptInjective(n, lang, NumAudioTokens(audioLens), ResolveLanguage(supported, language));
  }

  /** For one non-empty recording the encoder produces exactly as many
      vectors as the prompt has placeholders, so the splice replaces every
      placeholder (`SpliceComplete`) rather than truncating; an empty one
      has no plan. */
  lemma PlaceholdersMatchFeatures(len: nat)
    ensures Encoder.PlanSpec([len]).Ok? <==> len > 0
    ensures Encoder.PlanSpec([len]).Ok? ==> Encoder.PlanSpec([len]).value.hiddenLen == NumAudioTokens([len])
  {
    Encoder.PlanProperties([len]);
    if len == 0 {
      return;
    }
    assert OutputLengths([len]) == [OutputLength(len)];
    assert OutputLengths([len])[..0] == [];
  }

  // ---------------------------------------------------------------------------
  // Splicing audio vectors into the placeholders
  // ---------------------------------------------------------------------------

  /** `np.nonzero(input_ids == audio_token_id)[0]`: the placeholder positions,
      in increasing order, all of them. */
  function PlaceholderIndices(ids: seq<int>, tok: int): (r: seq<nat>)
    ensures forall k :: 0 <= k < |r| ==> r[k] < |ids| && ids[r[k]] == tok
    ensures forall k, l :: 0 <= k < l < |r| ==> r[k] < r[l]
    ensures forall p :: 0 <= p < |ids| && ids[p] == tok ==> p in r
  {
    if ids == [] then []
    else
      var init := ids[..|ids| - 1];
      var r0 := PlaceholderIndices(init, tok);
      assert forall p :: 0 <= p < |init| ==> init[p] == ids[p];
      r0 + (if ids[|ids| - 1] == tok then [|ids| - 1] else [])
  }

  /** Where `p` occurs in `idx`, if it does. */
  function Position(idx: seq<nat>, p: nat): (r: Option<nat>)
    ensures r.Some? ==> r.value < |idx| && idx[r.value] == p
    ensures r.None? <==> p !in idx
  {
    if idx == [] then None
    else if idx[|idx| - 1] == p then Some(|idx| - 1)
    else Position(idx[..|idx| - 1], p)
  }

  /** The scatter-and-select of the splice: the first `min(#placeholders,
      #features)` placeholder positions receive the audio vectors in order;
      every other position, surplus placeholders included, keeps its token
      embedding. */
  function Splice<E>(ids: seq<int>, embeds: seq<E>, feats: seq<E>, tok: int): (r: seq<E>)
    requires |embeds| == |ids|
    ensures |r| == |ids|
    ensures var idx := PlaceholderIndices(ids, tok);
            var num := Min(|idx|, |feats|);
            && (forall m :: 0 <= m < num ==> r[idx[m]] == feats[m])
            && (forall p :: 0 <= p < |ids| && p !in idx[..num] ==> r[p] == embeds[p])
  {
    var idx := PlaceholderIndices(ids, tok);
    var num := Min(|idx|, |feats|);
    var r := seq(|ids|, p requires 0 <= p < |ids| =>
      match Position(idx[..num], p)
      case Some(m) => feats[m]
      case None => embeds[p]);
    assert forall m :: 0 <= m < num ==> r[idx[m]] == feats[m] by {
      forall m | 0 <= m < num ensures r[idx[m]] == feats[m] {
        PositionInPrefix(idx, num, m);
      }
    }
    assert forall p :: 0 <= p < |ids| && p !in idx[..num] ==> r[p] == embeds[p] by {
      forall p | 0 <= p < |ids| && p !in idx[..num] ensures r[p] == embeds[p] {
        assert Position(idx[..num], p).None?;
      }
    }
    r
  }

  /** In a strictly increasing sequence every element of a prefix is found
      at its own place in that prefix. */
  lemma PositionInPrefix(idx: seq<nat>, num: nat, m: nat)
    requires m < num <= |idx|
    requires forall k, l :: 0 <= k < l < |idx| ==> idx[k] < idx[l]
    ensures Position(idx[..num], idx[m]) == Some(m)
  {
    var front := idx[..num];
    assert front[m] == idx[m];
    assert forall k :: 0 <= k < num && k != m ==> front[k] != idx[m];
  }

  /** Placeholders beyond the number of audio vectors keep their embedding. */
  lemma SurplusPlaceholdersKept<E>(ids: seq<int>, embeds: seq<E>, feats: seq<E>, tok: int, m: nat)
    requires |embeds| == |ids|
    requires |feats| <= m < |PlaceholderIndices(ids, tok)|
    ensures var p := PlaceholderIndices(ids, tok)[m];
            Splice(ids, embeds, feats, tok)[p] == embeds[p]
  {
    var idx := PlaceholderIndices(ids, tok);
    var num := Min(|idx|, |feats|);
    assert idx[m] !in idx[..num];
  }

  /** With as many audio vectors as placeholders, every placeholder is
      replaced and every audio vector is used. */
  lemma SpliceComplete<E>(ids: seq<int>, embeds: seq<E>, feats: seq<E>, tok: int)
    requires |embeds| == |ids|
    requires |feats| == |PlaceholderIndices(ids, tok)|
    ensures forall p :: 0 <= p < |ids| && ids[p] == tok ==>
              exists m :: 0 <= m < |feats| && Splice(ids, embeds, feats, tok)[p] == feats[m]
  {
    var idx := PlaceholderIndices(ids, tok);
    forall p | 0 <= p < |ids| && ids[p] == tok
      ensures exists m :: 0 <= m < |feats| && Splice(ids, embeds, feats, tok)[p] == feats[m]
    {
      var m := Position(idx, p).value;
      assert Splice(ids, embeds, feats, tok)[idx[m]] == feats[m];
    }
  }

  /** The splice in `transcribe_audio`: done only when some placeholder exists. */
  function TranscribeEmbeds<E>(ids: seq<int>, embeds: seq<E>, feats: seq<E>, tok: int): (r: seq<E>)
    requires |embeds| == |ids|
    ensures r == Splice(ids, embeds, feats, tok)
  {
    var idx := PlaceholderIndices(ids, tok);
    if idx != [] then Splice(ids, embeds, feats, tok)
    else
      SpliceWithoutEffect(ids, embeds, feats, tok);
      embeds
  }

  /** The splice inside the model call: only when audio features are passed
      and the cache is absent or at offset 0, and only when there are
      placeholders and at least one audio vector. It agrees with the splice
      of `transcribe_audio` on the first step and leaves every later,
      incremental step alone. */
  function ModelCallEmbeds<E>(ids: seq<int>, embeds: seq<E>, feats: Option<seq<E>>,
                              cacheOffset: Option<nat>, tok: int): (r: seq<E>)
    requires |embeds| == |ids|
    ensures feats.Some? && (cacheOffset.None? || cacheOffset.value == 0) ==>
              r == TranscribeEmbeds(ids, embeds, feats.value, tok)
    ensures cacheOffset.Some? && cacheOffset.value != 0 ==> r == embeds
    ensures feats.None? ==> r == embeds
  {
    if feats.Some? && (cacheOffset.None? || cacheOffset.value == 0) then
      var idx := PlaceholderIndices(ids, tok);
      if idx != [] && feats.value != [] then Splice(ids, embeds, feats.value, tok)
      else
        SpliceWithoutEffect(ids, embeds, feats.value, tok);
        embeds
    else embeds
  }

  /** With no placeholder or no audio vector, the splice changes nothing. */
  lemma SpliceWithoutEffect<E>(ids: seq<int>, embeds: seq<E>, feats: seq<E>, tok: int)
    requires |embeds| == |ids|
    requires PlaceholderIndices(ids, tok) == [] || feats == []
    ensures Splice(ids, embeds, feats, tok) == embeds
  {
    var idx := PlaceholderIndices(ids, tok);
    assert idx[..Min(|idx|, |feats|)] == [];
  }

  // ---------------------------------------------------------------------------
  // Stop rule
  // ---------------------------------------------------------------------------

  /** `eos_token_ids`. */
  const EosTokenIds: seq<int> := [151645, 151643]

  /** The number of tokens before the first end-of-sequence token. */
  function FirstEos(tokens: seq<int>): (k: nat)
    ensures k <= |tokens|
    ensures forall i :: 0 <= i < k ==> tokens[i] !in EosTokenIds
    ensures k < |tokens| ==> tokens[k] in EosTokenIds
  {
    if tokens == [] then 0
    else if tokens[0] in EosTokenIds then 0
    else 1 + FirstEos(tokens[1..])
  }

  /** Each token decoded on its own. */
  function Decoded(tokens: seq<int>, decode: int -> string): (r: seq<string>)
    ensures |r| == |tokens|
    ensures forall i :: 0 <= i < |tokens| ==> r[i] == decode(tokens[i])
  {
    seq(|tokens|, i requires 0 <= i < |tokens| => decode(tokens[i]))
  }

  /** The text of a generation: the decoded tokens before the first
      end-of-sequence token, joined and stripped. */
  function TranscriptOf(tokens: seq<int>, decode: int -> string): (r: string)
  {
    Strip(Concat(Decoded(tokens[..FirstEos(tokens)], decode)))
  }

  /** The generation loop of `transcribe_audio` over the tokens the generator
      yields: stop at the first end-of-sequence token, decode the others one
      by one, join and strip. */
  method CollectTranscript(generated: seq<int>, decode: int -> string) returns (text: string)
    ensures text == TranscriptOf(generated, decode)
    ensures text != [] ==> !IsSpace(text[0]) && !IsSpace(text[|text| - 1])
  {
    var parts: seq<string> := [];
    var i := 0;
    while i < |generated|
      invariant i <= FirstEos(generated)
      invariant parts == Decoded(generated[..i], decode)
    {
      var token := generated[i];
      if token in EosTokenIds {
        break;
      }
      assert Decoded(generated[..i + 1], decode) == Decoded(generated[..i], decode) + [decode(token)];
      parts := parts + [decode(token)];
      i := i + 1;
    }
    assert i == FirstEos(generated);
    text := Strip(Concat(parts));
  }

  /** Whatever the generator yields after an end-of-sequence token does not
      reach the text. */
  lemma {:induction false} TokensAfterEosIgnored(a: seq<int>, e: int, b: seq<int>, decode: int -> string)
    requires e in EosTokenIds
    requires forall i :: 0 <= i < |a| ==> a[i] !in EosTokenIds
    ensures TranscriptOf(a + [e] + b, decode) == TranscriptOf(a, decode)
  {
    var s := a + [e] + b;
    FirstEosAfter(a, e, b);
    assert s[..|a|] == a;
    assert a[..|a|] == a;
    assert s[..FirstEos(s)] == a[..FirstEos(a)];
  }

  lemma {:induction false} FirstEosAfter(a: seq<int>, e: int, b: seq<int>)
    requires e in EosTokenIds
    requires forall i :: 0 <= i < |a| ==> a[i] !in EosTokenIds
    ensures FirstEos(a + [e] + b) == |a|
  {
    var s := a + [e] + b;
    assert s[|a|] == e;
    assert forall i :: 0 <= i < |a| ==> s[i] == a[i];
  }
}
