/** Model loading, without the tensors (scripts/transcribe.py, `ModelConfig`,
    `load_model` and `Qwen3ASRModel.sanitize`): how the configuration file
    becomes the model configuration, how checkpoint keys are rewritten, and
    which modules are quantised. */
module ConfigLoader {
  import opened Basics
  import opened Text
  import opened JsonValues
  import Encoder

  // ---------------------------------------------------------------------------
  // Configuration
  // ---------------------------------------------------------------------------

  /** `AudioEncoderConfig.__init__.__code__.co_varnames` (and the same for
      `TextConfig`): a `**kwargs` constructor with no locals names only these. */
  const CoVarnames: set<string> := {"self", "kwargs"}

  /** The comprehension `{k: v for k, v in d.items() if k in co_varnames}`. */
  function FilterKwargs(d: map<string, Json>): (r: map<string, Json>)
    ensures r.Keys == d.Keys * CoVarnames
    ensures forall k :: k in r ==> r[k] == d[k]
  {
    map k | k in d && k in CoVarnames :: d[k]
  }

  /** The attributes `AudioEncoderConfig.__init__` sets, with their defaults. */
  const AudioDefaults: map<string, Json> := map[
    "encoder_layers" := Int(24), "encoder_attention_heads" := Int(16),
    "encoder_ffn_dim" := Int(4096), "d_model" := Int(1024),
    "scale_embedding" := Bool(false), "max_source_positions" := Int(1500),
    "output_dim" := Int(2048), "conv_chunksize" := Int(500),
    "downsample_hidden_size" := Int(480), "num_mel_bins" := Int(128),
    "n_window" := Int(50), "n_window_infer" := Int(800)]

  /** The attributes `TextConfig.__init__` sets, with their defaults. */
  const TextDefaults: map<string, Json> := map[
    "vocab_size" := Int(151936), "hidden_size" := Int(2048),
    "intermediate_size" := Int(6144), "num_hidden_layers" := Int(28),
    "num_attention_heads" := Int(16), "num_key_value_heads" := Int(8),
    "head_dim" := Int(128), "rms_norm_eps" := Real(0.000001),
    "tie_word_embeddings" := Bool(true), "rope_theta" := Real(1000000.0)]

  const DefaultAudioTokenId: int := 151676

  /** A configuration object built from keyword arguments: every attribute is
      `kwargs.get(name, default)`. */
  function Construct(defaults: map<string, Json>, kwargs: map<string, Json>): (r: map<string, Json>)
    ensures r.Keys == defaults.Keys
  {
    map name | name in defaults :: Get(kwargs, name, defaults[name])
  }

  /** A sub-configuration as `ModelConfig` stores it: a built configuration
      object, or the value itself when it is neither `None` nor a dict. */
  datatype SubConfig = Attrs(attrs: map<string, Json>) | Passthrough(value: Json)

  datatype ConfigError =
    | DuplicateSelf     // `Config(**{"self": ...})`: multiple values for argument 'self'
    | ThinkerNotObject  // `thinker.get(...)` on a value that is not a dict

  /** The `audio_config` / `text_config` branch of `ModelConfig.__init__`. */
  function BuildSubConfig(value: Json, defaults: map<string, Json>): (r: Result<SubConfig, ConfigError>)
  {
    match value
    case Null => Ok(Attrs(Construct(defaults, map[])))
    case Obj(d) =>
      var kwargs := FilterKwargs(d);
      if "self" in kwargs then Err(DuplicateSelf) else Ok(Attrs(Construct(defaults, kwargs)))
    case _ => Ok(Passthrough(value))
  }

  /** Whatever dict the file supplies, its values never reach the
      configuration: the result is the defaults, or the error for a key named
      `self`. */
  lemma FileValuesDiscarded(d: map<string, Json>, defaults: map<string, Json>)
    requires "self" !in defaults && "kwargs" !in defaults
    ensures BuildSubConfig(Obj(d), defaults)
            == if "self" in d then Err(DuplicateSelf) else Ok(Attrs(defaults))
  {
    var kwargs := FilterKwargs(d);
    if "self" !in d {
      var c := Construct(defaults, kwargs);
      forall name | name in defaults ensures c[name] == defaults[name] {
        assert name !in kwargs;
      }
      assert c == defaults;
    }
  }

  /** The dict `json.load` returns, after the `thinker_config` flattening of
      `load_model`: its audio and text sections and its audio token id
      replace the top-level ones. */
  function FlattenThinker(cfg: map<string, Json>): (r: Result<map<string, Json>, ConfigError>)
    ensures "thinker_config" !in cfg ==> r == Ok(cfg)
    ensures r.Ok? ==> forall k :: k in cfg && k !in {"audio_config", "text_config", "audio_token_id"} ==>
                        k in r.value && r.value[k] == cfg[k]
    ensures r.Err? <==> "thinker_config" in cfg && !cfg["thinker_config"].Obj?
    ensures "thinker_config" in cfg && cfg["thinker_config"].Obj? ==>
              var thinker := cfg["thinker_config"].fields;
              && r.Ok? && "audio_config" in r.value && "text_config" in r.value && "audio_token_id" in r.value
              && r.value["audio_config"] == Get(thinker, "audio_config", Obj(map[]))
              && r.value["text_config"] == Get(thinker, "text_config", Obj(map[]))
              && r.value["audio_token_id"] == Get(thinker, "audio_token_id", Int(DefaultAudioTokenId))
  {
    if "thinker_config" in cfg then
      match cfg["thinker_config"]
      case Obj(thinker) =>
        Ok(cfg["audio_config" := Get(thinker, "audio_config", Obj(map[]))]
              ["text_config" := Get(thinker, "text_config", Obj(map[]))]
              ["audio_token_id" := Get(thinker, "audio_token_id", Int(DefaultAudioTokenId))])
      case _ => Err(ThinkerNotObject)
    else Ok(cfg)
  }

  datatype ModelConfig = ModelConfig(
    audio: SubConfig,
    text: SubConfig,
    audioTokenId: Json,
    supportLanguages: Json)

  /** `load_model`'s configuration steps: flatten, then `ModelConfig(...)` with
      `config_dict.get(...)` for each argument and `support_languages or []`. */
  function LoadModelConfig(cfg: map<string, Json>): (r: Result<ModelConfig, ConfigError>)
  {
    match FlattenThinker(cfg)
    case Err(e) => Err(e)
    case Ok(flat) =>
      match BuildSubConfig(Get(flat, "audio_config", Null), AudioDefaults)
      case Err(e) => Err(e)
      case Ok(audio) =>
        match BuildSubConfig(Get(flat, "text_config", Null), TextDefaults)
        case Err(e) => Err(e)
        case Ok(text) =>
          var languages := Get(flat, "support_languages", Arr([]));
          Ok(ModelConfig(audio, text,
                         Get(flat, "audio_token_id", Int(DefaultAudioTokenId)),
                         if Truthy(languages) then languages else Arr([])))
  }

  /** A sub-configuration given as a dict or not at all is the defaults, or
      the error for a key named `self`. */
  lemma SubConfigIsDefaults(value: Json, defaults: map<string, Json>)
    requires value.Null? || value.Obj?
    requires "self" !in defaults && "kwargs" !in defaults
    ensures BuildSubConfig(value, defaults).Ok? ==> BuildSubConfig(value, defaults) == Ok(Attrs(defaults))
  {
    if value.Obj? {
      FileValuesDiscarded(value.fields, defaults);
    } else {
      assert Construct(defaults, map[]) == defaults;
    }
  }

  /** The audio encoder always runs with its default hyperparameters (in
      particular `n_window` 50, `n_window_infer` 800 and 128 mel bins) when the
      file gives its audio section as a dict or not at all, directly or under
      `thinker_config`. */
  lemma LoadedEncoderUsesDefaults(cfg: map<string, Json>)
    requires LoadModelConfig(cfg).Ok?
    requires var a := Get(FlattenThinker(cfg).value, "audio_config", Null); a.Null? || a.Obj?
    ensures LoadModelConfig(cfg).value.audio == Attrs(AudioDefaults)
    ensures AudioDefaults["n_window"] == Int(Encoder.NWindow) && AudioDefaults["n_window_infer"] == Int(Encoder.NWindowInfer)
    ensures AudioDefaults["num_mel_bins"] == Int(Encoder.NumMelBins)
  {
    var flat := FlattenThinker(cfg).value;
    AudioDefaultsKeys();
    SubConfigIsDefaults(Get(flat, "audio_config", Null), AudioDefaults);
    AudioWindowDefaults();
  }

  lemma AudioDefaultsKeys()
    ensures "self" !in AudioDefaults && "kwargs" !in AudioDefaults
  {
  }

  /** The defaults the loaded encoder configuration holds are the constants
      the encoder plan is built on (50, 800 and 128). */
  lemma AudioWindowDefaults()
    ensures AudioDefaults["n_window"] == Int(Encoder.NWindow) && AudioDefaults["n_window_infer"] == Int(Encoder.NWindowInfer)
    ensures AudioDefaults["num_mel_bins"] == Int(Encoder.NumMelBins)
  {
  }

  /** Under `thinker_config` the audio token id is the thinker's (151676 when it
      has none); a top-level `audio_token_id` is ignored. */
  lemma ThinkerAudioTokenId(cfg: map<string, Json>)
    requires "thinker_config" in cfg && cfg["thinker_config"].Obj?
    requires LoadModelConfig(cfg).Ok?
    ensures LoadModelConfig(cfg).value.audioTokenId
            == Get(cfg["thinker_config"].fields, "audio_token_id", Int(DefaultAudioTokenId))
  {
  }

  // ---------------------------------------------------------------------------
  // Checkpoint keys
  // ---------------------------------------------------------------------------

  /** A checkpoint tensor: its shape, the order of the stored axes it shows
      (`perm`), and an opaque identity of its stored data. */
  datatype Tensor = Tensor(shape: seq<nat>, perm: seq<nat>, data: nat)

  predicate WellFormed(t: Tensor)
  {
    |t.perm| == |t.shape|
  }

  /** `v.transpose(0, 2, 3, 1)` of a 4-D tensor. */
  function Transpose0231(t: Tensor): (r: Tensor)
    requires |t.shape| == 4 && WellFormed(t)
    ensures WellFormed(r) && r.data == t.data
    ensures r.shape == [t.shape[0], t.shape[2], t.shape[3], t.shape[1]]
  {
    var p := [0, 2, 3, 1];
    Tensor(seq(4, i requires 0 <= i < 4 => t.shape[p[i]]),
           seq(4, i requires 0 <= i < 4 => t.perm[p[i]]),
           t.data)
  }

  const ThinkerPrefix: string := "thinker."

  /** `k[len("thinker."):]` when `k` starts with it. */
  function StripThinker(k: string): (r: string)
    ensures StartsWith(k, ThinkerPrefix) ==> k == ThinkerPrefix + r
    ensures !StartsWith(k, ThinkerPrefix) ==> r == k
  {
    if StartsWith(k, ThinkerPrefix) then
      assert k == k[..|ThinkerPrefix|] + k[|ThinkerPrefix|..];
      k[|ThinkerPrefix|..]
    else k
  }

  /** `any(k.startswith("thinker.") for k in weights.keys())`. */
  predicate HasThinkerKey(ws: seq<(string, Tensor)>)
  {
    exists i :: 0 <= i < |ws| && StartsWith(ws[i].0, ThinkerPrefix)
  }

  /** Whether `sanitize` transposes the value stored under (stripped) key `k`. */
  predicate NeedsTranspose(isFormatted: bool, k: string, t: Tensor)
  {
    !isFormatted && Contains(k, "conv2d") && Contains(k, "weight") && |t.shape| == 4
  }

  function Converted(isFormatted: bool, k: string, t: Tensor): (r: Tensor)
    requires WellFormed(t)
    ensures WellFormed(r)
  {
    if NeedsTranspose(isFormatted, k, t) then Transpose0231(t) else t
  }

  /** The dict `sanitize` builds from the first `|ws|` items: later items
      overwrite earlier ones with the same stripped key. */
  function SanitizeSpec(ws: seq<(string, Tensor)>, isFormatted: bool): (r: map<string, Tensor>)
    requires forall i :: 0 <= i < |ws| ==> WellFormed(ws[i].1)
  {
    if ws == [] then map[]
    else
      var prev := SanitizeSpec(ws[..|ws| - 1], isFormatted);
      var k := StripThinker(ws[|ws| - 1].0);
      if k == "lm_head.weight" then prev
      else prev[k := Converted(isFormatted, k, ws[|ws| - 1].1)]
  }

  /** `Qwen3ASRModel.sanitize` over the checkpoint's items in file order. */
  method Sanitize(weights: seq<(string, Tensor)>) returns (sanitized: map<string, Tensor>)
    requires forall i :: 0 <= i < |weights| ==> WellFormed(weights[i].1)
    ensures sanitized == SanitizeSpec(weights, !HasThinkerKey(weights))
  {
    sanitized := map[];
    var isFormatted := !HasThinkerKey(weights);
    var i := 0;
    while i < |weights|
      invariant 0 <= i <= |weights|
      invariant sanitized == SanitizeSpec(weights[..i], isFormatted)
    {
      var (k, v) := weights[i];
      if StartsWith(k, ThinkerPrefix) {
        k := k[|ThinkerPrefix|..];
      }
      assert weights[..i + 1][..i] == weights[..i];
      if k != "lm_head.weight" {
        if !isFormatted && Contains(k, "conv2d") && Contains(k, "weight") && |v.shape| == 4 {
          v := Transpose0231(v);
        }
        sanitized := sanitized[k := v];
      }
      i := i + 1;
    }
    assert weights[..i] == weights;
  }

  /** `lm_head.weight` never survives, whether or not the checkpoint ties the
      output projection to the embeddings. */
  lemma {:induction false} SanitizeDropsLmHead(ws: seq<(string, Tensor)>, isFormatted: bool)
    requires forall i :: 0 <= i < |ws| ==> WellFormed(ws[i].1)
    ensures "lm_head.weight" !in SanitizeSpec(ws, isFormatted)
  {
    if ws != [] {
      SanitizeDropsLmHead(ws[..|ws| - 1], isFormatted);
    }
  }

  /** The output keys are exactly the stripped input keys other than
      `lm_head.weight`. */
  lemma {:induction false} SanitizeKeys(ws: seq<(string, Tensor)>, isFormatted: bool, key: string)
    requires forall i :: 0 <= i < |ws| ==> WellFormed(ws[i].1)
    ensures key in SanitizeSpec(ws, isFormatted) <==>
              key != "lm_head.weight" && exists i :: 0 <= i < |ws| && StripThinker(ws[i].0) == key
  {
    if ws != [] {
      var init := ws[..|ws| - 1];
      SanitizeKeys(init, isFormatted, key);
      SanitizeDropsLmHead(ws, isFormatted);
      if exists i :: 0 <= i < |ws| && StripThinker(ws[i].0) == key {
        var i :| 0 <= i < |ws| && StripThinker(ws[i].0) == key;
        if i < |ws| - 1 {
          assert init[i] == ws[i];
        }
      }
      if exists i :: 0 <= i < |init| && StripThinker(init[i].0) == key {
        var i :| 0 <= i < |init| && StripThinker(init[i].0) == key;
        assert ws[i] == init[i];
      }
    }
  }

  /** Each output value is the value of the last input item with that stripped
      key (returned as `i`), transposed exactly when `NeedsTranspose` holds for
      it. */
  lemma {:induction false} SanitizeValues(ws: seq<(string, Tensor)>, isFormatted: bool, key: string)
    returns (i: nat)
    requires forall i :: 0 <= i < |ws| ==> WellFormed(ws[i].1)
    requires key in SanitizeSpec(ws, isFormatted)
    ensures i < |ws| && StripThinker(ws[i].0) == key
    ensures SanitizeSpec(ws, isFormatted)[key] == Converted(isFormatted, key, ws[i].1)
    ensures forall j :: i < j < |ws| ==> StripThinker(ws[j].0) != key
  {
    var init := ws[..|ws| - 1];
    var last := ws[|ws| - 1];
    if StripThinker(last.0) == key && key != "lm_head.weight" {
      i := |ws| - 1;
    } else {
      SanitizeDropsLmHead(ws, isFormatted);
      i := SanitizeValues(init, isFormatted, key);
      assert ws[i] == init[i];
      forall j | i < j < |ws| ensures StripThinker(ws[j].0) != key {
        if j < |ws| - 1 { assert ws[j] == init[j]; }
      }
    }
  }

  /** A checkpoint already in this project's layout (no `thinker.` keys) is
      never transposed. */
  lemma FormattedNeverTransposed(ws: seq<(string, Tensor)>, key: string)
    requires forall i :: 0 <= i < |ws| ==> WellFormed(ws[i].1)
    requires !HasThinkerKey(ws)
    requires key in SanitizeSpec(ws, !HasThinkerKey(ws))
    ensures exists i :: 0 <= i < |ws| && ws[i].0 == key && SanitizeSpec(ws, true)[key] == ws[i].1
  {
    var i := SanitizeValues(ws, true, key);
    assert !StartsWith(ws[i].0, ThinkerPrefix);
  }

  // ---------------------------------------------------------------------------
  // Quantisation predicate
  // ---------------------------------------------------------------------------

  /** `class_predicate(p, m)` in `load_model`: `m` is described by whether it
      can be quantised and the element count of its weight (if it has one);
      `weightKeys` are the keys of the sanitised checkpoint. */
  function ClassPredicate(p: string, quantizable: bool, weightSize: Option<nat>,
                          weightKeys: set<string>): (r: bool)
    ensures r <==> quantizable
                   && (weightSize.Some? ==> weightSize.value % 64 == 0)
                   && !StartsWith(p, "audio_tower")
                   && p + ".scales" in weightKeys
  {
    if !quantizable then false
    else if weightSize.Some? && weightSize.value % 64 != 0 then false
    else if StartsWith(p, "audio_tower") then false
    else p + ".scales" in weightKeys
  }

  /** A module is quantised only when the checkpoint itself carries its
      scales: some input key, after stripping `thinker.`, is `p.scales`. */
  lemma QuantizedOnlyWithScales(ws: seq<(string, Tensor)>, p: string, quantizable: bool,
                                weightSize: Option<nat>)
    requires forall i :: 0 <= i < |ws| ==> WellFormed(ws[i].1)
    requires ClassPredicate(p, quantizable, weightSize, SanitizeSpec(ws, !HasThinkerKey(ws)).Keys)
    ensures exists i :: 0 <= i < |ws| && StripThinker(ws[i].0) == p + ".scales"
    ensures !StartsWith(p, "audio_tower")
  {
    SanitizeKeys(ws, !HasThinkerKey(ws), p + ".scales");
  }
}
