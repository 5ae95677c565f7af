/** The legacy menu-bar app's shell logic around whisper-cli
    (legacy/python/main.py): its configuration defaults, the model-path
    resolution, the whisper-cli argument list and the parser that pulls the
    transcript out of whisper-cli's standard output. Paths are strings; the
    app directory is a parameter. */
module WhisperCli {
  import opened Basics
  import opened Text
  import opened JsonValues

  // ---------------------------------------------------------------------------
  // Output parser
  // ---------------------------------------------------------------------------

  /** What one stripped output line adds to the transcript: a line starting
      with `[` and holding `-->` gives the stripped text after its first `]`
      (nothing when it has no `]`); metadata lines starting with `whisper_` or
      `main:` and blank lines give nothing; any other line is kept whole. */
  function PieceOf(line: string): (r: Option<string>)
  {
    if line == [] then None
    else if StartsWith(line, "[") && Contains(line, "-->") then
      var parts := SplitOnce(line, ']');
      if |parts| > 1 then Some(Strip(parts[1])) else None
    else if !StartsWith(line, "whisper_") && !StartsWith(line, "main:") then Some(line)
    else None
  }

  /** What one raw output line contributes: its piece, if any. */
  function LinePiece(line: string): (r: seq<string>)
  {
    match PieceOf(Strip(line))
    case Some(p) => [p]
    case None => []
  }

  /** The pieces the lines contribute, in order. */
  function Pieces(lines: seq<string>): (r: seq<string>)
  {
    FlatMap(LinePiece, lines)
  }

  /** The transcript whisper-cli's output stands for. */
  function WhisperText(output: string): (r: string)
  {
    Strip(Join(" ", Pieces(Split(Strip(output), '\n'))))
  }

  /** `_parse_whisper_output`. */
  method ParseWhisperOutput(output: string) returns (text: string)
    ensures text == WhisperText(output)
    ensures text != [] ==> !IsSpace(text[0]) && !IsSpace(text[|text| - 1])
  {
    var lines := Split(Strip(output), '\n');
    var textLines: seq<string> := [];
    for i := 0 to |lines|
      invariant textLines == Pieces(lines[..i])
    {
      assert Pieces(lines[..i + 1]) == Pieces(lines[..i]) + LinePiece(lines[i]) by {
        assert lines[..i + 1][..i] == lines[..i];
      }
      var line := Strip(lines[i]);
      if line == [] {
        continue;
      }
      if StartsWith(line, "[") && Contains(line, "-->") {
        var parts := SplitOnce(line, ']');
        if |parts| > 1 {
          textLines := textLines + [Strip(parts[1])];
        }
      } else if !StartsWith(line, "whisper_") && !StartsWith(line, "main:") {
        textLines := textLines + [line];
      }
    }
    assert lines[..|lines|] == lines;
    text := Strip(Join(" ", textLines));
  }

  /** Blank lines and whisper-cli's metadata lines contribute nothing. */
  lemma MetadataContributesNothing(line: string)
    requires line == [] || StartsWith(line, "whisper_") || StartsWith(line, "main:")
    ensures PieceOf(line).None?
  {
    if line != [] {
      assert line[0] == line[..|"main:"|][0];
      assert !StartsWith(line, "[") by { assert line[0] != '['; }
    }
  }

  /** A timestamped line contributes the stripped text after its first `]`,
      or nothing when it has none. */
  lemma TimestampLine(line: string)
    requires StartsWith(line, "[") && Contains(line, "-->")
    ensures ']' in line ==> PieceOf(line) == Some(Strip(line[IndexOf(line, ']') + 1..]))
    ensures ']' !in line ==> PieceOf(line).None?
  {
    if ']' in line {
      assert SplitOnce(line, ']')[1] == line[IndexOf(line, ']') + 1..];
    }
  }

  /** A line starting with `[` but without an arrow is kept verbatim. */
  lemma BracketWithoutArrowKept(line: string)
    requires StartsWith(line, "[") && !Contains(line, "-->")
    ensures PieceOf(line) == Some(line)
  {
    assert line[0] == '[';
  }

  /** Lines contribute independently of each other, in order. */
  lemma PiecesAppend(a: seq<string>, b: seq<string>)
    ensures Pieces(a + b) == Pieces(a) + Pieces(b)
  {
    FlatMapAppend(LinePiece, a, b);
  }

  /** Removing a line that contributes nothing does not change the pieces,
      wherever it stands. */
  lemma MetadataLineIgnored(before: seq<string>, line: string, after: seq<string>)
    requires PieceOf(Strip(line)).None?
    ensures Pieces(before + [line] + after) == Pieces(before + after)
  {
    PiecesAppend(before + [line], after);
    PiecesAppend(before, after);
    var withLine := before + [line];
    assert withLine[..|withLine| - 1] == before && withLine[|withLine| - 1] == line;
    assert Pieces(withLine) == Pieces(before);
  }

  /** Output whose every line contributes nothing gives an empty transcript. */
  lemma {:induction false} NothingToSay(lines: seq<string>)
    requires forall k :: 0 <= k < |lines| ==> PieceOf(Strip(lines[k])).None?
    ensures Pieces(lines) == []
  {
    if lines != [] {
      NothingToSay(lines[..|lines| - 1]);
    }
  }

  /** A single line of plain text comes back as the text itself, stripped. */
  lemma PlainLine(line: string)
    requires '\n' !in line
    requires var t := Strip(line);
      t != [] && !StartsWith(t, "[") && !StartsWith(t, "whisper_") && !StartsWith(t, "main:")
    ensures WhisperText(line) == Strip(line)
  {
    var t := Strip(line);
    assert '\n' !in t by {
      var lo := StripInside(line);
      assert t == line[lo..lo + |t|];
    }
    assert Split(t, '\n') == [t];
    StripIdempotent(line);
    assert Pieces([t]) == [t] by {
      assert PieceOf(Strip(t)) == Some(t);
      assert FlatMap(LinePiece, [t]) == FlatMap(LinePiece, [t][..0]) + LinePiece(t);
      assert [t][..0] == [];
    }
    assert Join(" ", [t]) == t;
  }

  // ---------------------------------------------------------------------------
  // Configuration and the whisper-cli command
  // ---------------------------------------------------------------------------

  const DefaultModelFile := "models/ggml-large-v3-turbo.bin"

  /** `APP_DIR / "models" / "ggml-large-v3-turbo.bin"`. */
  function DefaultModelPath(appDir: string): (r: string)
  {
    appDir + "/" + DefaultModelFile
  }

  /** The configuration `load_config` returns when there is no config.json. */
  function Defaults(appDir: string): (r: map<string, Json>)
  {
    map[
      "model" := Str("large-v3-turbo"),
      "language" := Str("auto"),
      "hotkey" := Str("cmd+shift+space"),
      "auto_paste" := Bool(true),
      "model_path" := Str(DefaultModelPath(appDir))
    ]
  }

  /** `load_config` followed by the constructor's menu title
      `"Modelo: " + self.config.get("model", ...)`: the file's contents when
      it exists, the defaults otherwise. The app does not start when the
      contents are not a JSON object (no `get`) or hold a `model` that is not
      a string (the concatenation raises). `file` is `None` when config.json
      does not exist. */
  function LoadConfig(appDir: string, file: Option<Json>): (r: Option<map<string, Json>>)
    ensures r.None? <==> file.Some? && (!file.value.Obj? || ("model" in file.value.fields && !file.value.fields["model"].Str?))
    ensures r.Some? && file.Some? ==> r.value == file.value.fields
    ensures r.Some? ==> ("model_path" in r.value <==> file.None? || "model_path" in file.value.fields)
  {
    match file
    case None => Some(Defaults(appDir))
    case Some(Obj(m)) => if "model" in m && !m["model"].Str? then None else Some(m)
    case Some(_) => None
  }

  /** A config.json whose `model` is a number stops the app at startup. */
  lemma NumericModelStopsStartup(appDir: string)
    ensures LoadConfig(appDir, Some(Obj(map["model" := Int(5)]))) == None
    ensures LoadConfig(appDir, Some(Obj(map["model" := Str("small")]))).Some?
  {
    var bad := map["model" := Int(5)];
    var good := map["model" := Str("small")];
    assert "model" in bad && !bad["model"].Str?;
    assert "model" in good && good["model"].Str?;
  }

  /** `Path(p).is_absolute()` on a POSIX system. */
  predicate IsAbsolute(p: string)
  {
    p != [] && p[0] == '/'
  }

  /** An absolute model path is used as it is; a relative one is taken under
      the app directory. */
  function ResolveModelPath(appDir: string, p: string): (r: string)
  {
    if IsAbsolute(p) then p
    else if p == [] then appDir
    else appDir + "/" + p
  }

  /** Since the app directory is absolute, so is every resolved model path,
      and a relative path stays its tail. */
  lemma ResolvedPathAbsolute(appDir: string, p: string)
    requires IsAbsolute(appDir)
    ensures IsAbsolute(ResolveModelPath(appDir, p))
    ensures !IsAbsolute(p) && p != [] ==> ResolveModelPath(appDir, p)[|appDir| + 1..] == p
    ensures IsAbsolute(p) ==> ResolveModelPath(appDir, p) == p
  {
  }

  datatype CommandError = ModelPathNotString(modelPath: Json) | LanguageNotString(language: Json)

  /** The flags after `-m <model> -f <wav>`: no timestamps, no GPU, 8
      threads, beam size 2, best of 2. */
  const FixedFlags: seq<string> := ["-nt", "-ng", "-t", "8", "-bs", "2", "-bo", "2"]

  /** The argument list `_transcribe_and_paste` runs. A `model_path` that is
      not a string makes `Path` raise, and a `language` that is not a string
      makes the `' '.join` of the command raise; the app reports either as a
      transcription error. */
  function WhisperCommand(config: map<string, Json>, appDir: string, wav: string): (r: Result<seq<string>, CommandError>)
    ensures r.Ok? <==> Get(config, "model_path", Str(DefaultModelPath(appDir))).Str?
                       && Get(config, "language", Str("auto")).Str?
    ensures r.Ok? ==> |r.value| >= 13
    ensures r.Ok? ==>
              var modelPath := Get(config, "model_path", Str(DefaultModelPath(appDir))).s;
              var language := Get(config, "language", Str("auto")).s;
              && r.value[..5] == ["whisper-cli", "-m", ResolveModelPath(appDir, modelPath), "-f", wav]
              && r.value[5..13] == FixedFlags
              && (language == "auto" ==> |r.value| == 13)
              && (language != "auto" ==> r.value[13..] == ["-l", language])
  {
    var modelPath := Get(config, "model_path", Str(DefaultModelPath(appDir)));
    var language := Get(config, "language", Str("auto"));
    if !modelPath.Str? then Err(ModelPathNotString(modelPath))
    else
      var cmd := ["whisper-cli", "-m", ResolveModelPath(appDir, modelPath.s), "-f", wav] + FixedFlags;
      if language == Str("auto") then Ok(cmd)
      else if !language.Str? then Err(LanguageNotString(language))
      else Ok(cmd + ["-l", language.s])
  }

  /** `-l` appears in the command exactly when the language is not `auto`
      (the model path and the WAV path are absolute, so neither is `-l`). */
  lemma LanguageFlagIffNotAuto(config: map<string, Json>, appDir: string, wav: string)
    requires IsAbsolute(appDir) && IsAbsolute(wav)
    requires WhisperCommand(config, appDir, wav).Ok?
    ensures var language := Get(config, "language", Str("auto")).s;
            "-l" in WhisperCommand(config, appDir, wav).value <==> language != "auto"
  {
    var cmd := WhisperCommand(config, appDir, wav).value;
    var modelPath := Get(config, "model_path", Str(DefaultModelPath(appDir))).s;
    var language := Get(config, "language", Str("auto")).s;
    ResolvedPathAbsolute(appDir, modelPath);
    if language == "auto" {
      assert cmd == cmd[..5] + cmd[5..13];
      forall k | 0 <= k < |cmd|
        ensures cmd[k] != "-l"
      {
        if k == 2 || k == 4 {
          assert cmd[k][0] == '/';
        } else if k < 5 {
          assert cmd[k] == cmd[..5][k];
        } else {
          assert cmd[k] == FixedFlags[k - 5];
        }
      }
    } else {
      assert cmd[13] == "-l";
    }
  }

  /** Without config.json the command uses the bundled model and lets
      whisper-cli detect the language. */
  lemma DefaultCommand(appDir: string, wav: string)
    requires IsAbsolute(appDir)
    ensures LoadConfig(appDir, None) == Some(Defaults(appDir))
    ensures WhisperCommand(Defaults(appDir), appDir, wav)
            == Ok(["whisper-cli", "-m", DefaultModelPath(appDir), "-f", wav] + FixedFlags)
  {
    var d := Defaults(appDir);
    assert d["model_path"] == Str(DefaultModelPath(appDir));
    assert d["language"] == Str("auto");
  }

  /** A config.json without `model_path` and `language` gives the same
      command as the defaults. */
  lemma MissingKeysFallBack(m: map<string, Json>, appDir: string, wav: string)
    requires "model_path" !in m && "language" !in m
    ensures WhisperCommand(m, appDir, wav) == WhisperCommand(Defaults(appDir), appDir, wav)
  {
    var d := Defaults(appDir);
    assert d["model_path"] == Str(DefaultModelPath(appDir));
    assert d["language"] == Str("auto");
  }
}
