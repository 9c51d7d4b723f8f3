/** ProcessingSettings: the init-only configuration record of the processing pipeline, its
  * defaults, and the derived lists of Gemini keys and models, the Google Vision key and the
  * output directory. The process environment is a parameter: env(name) is what
  * Environment.GetEnvironmentVariable(name) returns, None for an unset variable. */
module Settings {
  import opened Text
  import opened Wrappers
  import opened Paths

  datatype ProcessingSettings = ProcessingSettings(
    EnableAutoAnswer: bool,
    PromptPrefix: string,
    GeminiModel: string,
    GeminiModels: seq<string>,
    GeminiApiKey: string,
    GeminiApiKeys: seq<string>,
    GeminiApiKeyEnv: string,
    OllamaEndpoint: string,
    OllamaModel: string,
    OcrCommand: string,
    OcrProvider: string,
    PaddlePythonPath: string,
    PaddleScriptPath: string,
    PaddleLang: string,
    PaddleUseAngleCls: bool,
    GoogleVisionApiKey: string,
    GoogleVisionApiKeyEnv: string,
    OutputDirectory: string)

  const DefaultModel := "gemini-2.5-flash"
  const DefaultLiteModel := "gemini-2.5-flash-lite"
  const DefaultOutputDirectory := "Outputs"

  /** new ProcessingSettings(): the property initialisers. */
  const Defaults := ProcessingSettings(
    EnableAutoAnswer := true,
    PromptPrefix := "B\U{1EA1}n l\U{E0} tr\U{1EE3} l\U{FD} tr\U{1EA3} l\U{1EDD}i \U{111}\U{1EC1} ki\U{1EC3}m tra. "
      + "\U{110}\U{1ECD}c k\U{1EF9} n\U{1ED9}i dung OCR, tr\U{ED}ch xu\U{1EA5}t c\U{E2}u h\U{1ECF}i v\U{E0} "
      + "tr\U{1EA3} l\U{1EDD}i ng\U{1EAF}n g\U{1ECD}n, r\U{F5} r\U{E0}ng. ",
    GeminiModel := DefaultModel,
    GeminiModels := [],
    GeminiApiKey := "",
    GeminiApiKeys := [],
    GeminiApiKeyEnv := "GEMINI_API_KEY",
    OllamaEndpoint := "http://localhost:11434/api/generate",
    OllamaModel := "qwen2.5:7b-instruct",
    OcrCommand := "tesseract \"{input}\" stdout",
    OcrProvider := "tesseract",
    PaddlePythonPath := "python",
    PaddleScriptPath := "paddle_ocr_cli.py",
    PaddleLang := "en",
    PaddleUseAngleCls := true,
    GoogleVisionApiKey := "",
    GoogleVisionApiKeyEnv := "GOOGLE_VISION_API_KEY",
    OutputDirectory := DefaultOutputDirectory)

  // ---------------------------------------------------------------------------
  // Order-preserving, case-insensitive removal of duplicates
  // ---------------------------------------------------------------------------

  /** The upper-case forms of the strings: the contents of a HashSet with OrdinalIgnoreCase. */
  function Folded(ks: seq<string>): set<string> {
    set i | 0 <= i < |ks| :: Upper(ks[i])
  }

  /** keys.Where(distinct.Add) with distinct starting as seen: each key is kept when no
    * case-insensitively equal key was added before it. */
  function DedupFrom(ks: seq<string>, seen: set<string>): seq<string>
  {
    if ks == [] then []
    else if Upper(ks[0]) in seen then DedupFrom(ks[1..], seen)
    else [ks[0]] + DedupFrom(ks[1..], seen + {Upper(ks[0])})
  }

  function Dedup(ks: seq<string>): seq<string> { DedupFrom(ks, {}) }

  /** The reference definition: a key stays iff no earlier key equals it ignoring case. */
  function KeepFirst(ks: seq<string>): seq<string>
  {
    if ks == [] then []
    else
      var init := ks[..|ks| - 1];
      KeepFirst(init) + (if Upper(ks[|ks| - 1]) in Folded(init) then [] else [ks[|ks| - 1]])
  }

  lemma {:induction false} DedupFromSnoc(ks: seq<string>, x: string, seen: set<string>)
    ensures DedupFrom(ks + [x], seen)
      == DedupFrom(ks, seen) + (if Upper(x) in seen + Folded(ks) then [] else [x])
    decreases |ks|
  {
    if ks == [] {
      assert [x][1..] == [];
    } else {
      assert (ks + [x])[0] == ks[0];
      assert (ks + [x])[1..] == ks[1..] + [x];
      assert Folded(ks) == {Upper(ks[0])} + Folded(ks[1..]) by {
        assert forall i :: 1 <= i < |ks| ==> ks[i] == ks[1..][i - 1];
        assert forall i :: 0 <= i < |ks[1..]| ==> ks[1..][i] == ks[i + 1];
      }
      if Upper(ks[0]) in seen {
        DedupFromSnoc(ks[1..], x, seen);
      } else {
        DedupFromSnoc(ks[1..], x, seen + {Upper(ks[0])});
      }
    }
  }

  /** The dedup loop keeps exactly the first occurrence of every key. */
  lemma {:induction false} DedupKeepsFirst(ks: seq<string>)
    ensures Dedup(ks) == KeepFirst(ks)
    decreases |ks|
  {
    if ks != [] {
      var init := ks[..|ks| - 1];
      assert ks == init + [ks[|ks| - 1]];
      DedupFromSnoc(init, ks[|ks| - 1], {});
      DedupKeepsFirst(init);
    }
  }

  lemma FoldedCons(ks: seq<string>)
    requires ks != []
    ensures Folded(ks) == {Upper(ks[0])} + Folded(ks[1..])
  {
    assert forall i :: 1 <= i < |ks| ==> ks[i] == ks[1..][i - 1];
    assert forall i :: 0 <= i < |ks[1..]| ==> ks[1..][i] == ks[i + 1];
  }

  /** The kept keys were not seen before and are pairwise different ignoring case. */
  lemma {:induction false} DedupDistinct(ks: seq<string>, seen: set<string>)
    ensures forall j :: 0 <= j < |DedupFrom(ks, seen)| ==>
      Upper(DedupFrom(ks, seen)[j]) !in seen && Upper(DedupFrom(ks, seen)[j]) in Folded(ks)
    ensures forall j, k :: 0 <= j < k < |DedupFrom(ks, seen)| ==>
      Upper(DedupFrom(ks, seen)[j]) != Upper(DedupFrom(ks, seen)[k])
    decreases |ks|
  {
    if ks != [] {
      FoldedCons(ks);
      var r := DedupFrom(ks, seen);
      if Upper(ks[0]) in seen {
        assert r == DedupFrom(ks[1..], seen);
        DedupDistinct(ks[1..], seen);
      } else {
        var seen' := seen + {Upper(ks[0])};
        DedupDistinct(ks[1..], seen');
        var t := DedupFrom(ks[1..], seen');
        assert r == [ks[0]] + t;
        assert forall j :: 1 <= j < |r| ==> r[j] == t[j - 1];
        forall j, k | 0 <= j < k < |r|
          ensures Upper(r[j]) != Upper(r[k])
        {
          if j > 0 {
            assert Upper(t[j - 1]) != Upper(t[k - 1]);
          } else {
            assert Upper(t[k - 1]) !in seen';
          }
        }
      }
    }
  }

  /** Every kept key comes from the input. */
  lemma {:induction false} DedupFromInput(ks: seq<string>, seen: set<string>)
    ensures forall j :: 0 <= j < |DedupFrom(ks, seen)| ==> DedupFrom(ks, seen)[j] in ks
    decreases |ks|
  {
    if ks != [] {
      if Upper(ks[0]) in seen {
        DedupFromInput(ks[1..], seen);
      } else {
        DedupFromInput(ks[1..], seen + {Upper(ks[0])});
      }
    }
  }

  /** Every key of the input is kept or was seen, up to case. */
  lemma {:induction false} DedupCovers(ks: seq<string>, seen: set<string>)
    ensures Folded(ks) <= Folded(DedupFrom(ks, seen)) + seen
    decreases |ks|
  {
    if ks != [] {
      FoldedCons(ks);
      if Upper(ks[0]) in seen {
        DedupCovers(ks[1..], seen);
      } else {
        var seen' := seen + {Upper(ks[0])};
        DedupCovers(ks[1..], seen');
        var t := DedupFrom(ks[1..], seen');
        FoldedCons([ks[0]] + t);
        assert ([ks[0]] + t)[1..] == t;
      }
    }
  }

  // ---------------------------------------------------------------------------
  // Gemini keys and models
  // ---------------------------------------------------------------------------

  /** list.Where(k => !IsNullOrWhiteSpace(k)).Select(k => k.Trim()) */
  function TrimmedNonBlank(ks: seq<string>): (r: seq<string>)
    ensures forall j :: 0 <= j < |r| ==> !IsBlank(r[j]) && Trim(r[j]) == r[j]
  {
    if ks == [] then []
    else
      var last := ks[|ks| - 1];
      TrimmedNonBlank(ks[..|ks| - 1]) + (if IsBlank(last) then [] else [TrimOf(last)])
  }

  /** Trim of a non-blank text: not blank, and its own trim. */
  function TrimOf(s: string): (r: string)
    requires !IsBlank(s)
    ensures r == Trim(s) && !IsBlank(r) && Trim(r) == r
  {
    TrimBlank(s);
    TrimIdempotent(s);
    TrimBlank(Trim(s));
    Trim(s)
  }

  /** [x.Trim()] when x is not blank, else nothing. */
  function TrimmedIfPresent(x: Option<string>): (r: seq<string>)
    ensures forall j :: 0 <= j < |r| ==> !IsBlank(r[j]) && Trim(r[j]) == r[j]
  {
    if x.Some? && !IsBlank(x.value) then [TrimOf(x.value)] else []
  }

  /** A value that IsNullOrWhiteSpace rejects is not present. */
  predicate Present(x: Option<string>) { x.Some? && !IsBlank(x.value) }

  /** The environment variable named by name, unless the name is blank. */
  function EnvValue(name: string, env: string -> Option<string>): Option<string> {
    if IsBlank(name) then None else env(name)
  }

  /** The keys before duplicates are removed: the list, then GeminiApiKey, then the variable. */
  function KeyCandidates(s: ProcessingSettings, env: string -> Option<string>): (r: seq<string>)
    ensures forall j :: 0 <= j < |r| ==> !IsBlank(r[j]) && Trim(r[j]) == r[j]
  {
    TrimmedNonBlank(s.GeminiApiKeys) + TrimmedIfPresent(Some(s.GeminiApiKey))
    + TrimmedIfPresent(EnvValue(s.GeminiApiKeyEnv, env))
  }

  /** The models before duplicates are removed, with the two fallbacks when none is set. */
  function ModelCandidates(s: ProcessingSettings): seq<string> {
    var models := TrimmedNonBlank(s.GeminiModels) + TrimmedIfPresent(Some(s.GeminiModel));
    if models == [] then [DefaultModel, DefaultLiteModel] else models
  }

  /** The loop that builds the trimmed, non-blank part of a configured list. */
  method AddTrimmed(list: seq<string>) returns (out: seq<string>)
    ensures out == TrimmedNonBlank(list)
  {
    out := [];
    for i := 0 to |list|
      invariant out == TrimmedNonBlank(list[..i])
    {
      assert list[..i + 1][..i] == list[..i];
      if !IsBlank(list[i]) {
        out := out + [TrimOf(list[i])];
      }
    }
    assert list[..|list|] == list;
  }

  /** keys.Where(distinct.Add).ToList() */
  method DistinctIgnoringCase(keys: seq<string>) returns (out: seq<string>)
    ensures out == Dedup(keys)
  {
    out := [];
    var distinct: set<string> := {};
    var i := 0;
    while i < |keys|
      invariant i <= |keys|
      invariant out + DedupFrom(keys[i..], distinct) == Dedup(keys)
    {
      assert keys[i..][1..] == keys[i + 1..];
      if Upper(keys[i]) !in distinct {
        distinct := distinct + {Upper(keys[i])};
        out := out + [keys[i]];
      }
      i := i + 1;
    }
  }

  /** GetGeminiApiKeysOrdered() */
  method GetGeminiApiKeysOrdered(s: ProcessingSettings, env: string -> Option<string>)
    returns (keys: seq<string>)
    ensures keys == KeepFirst(KeyCandidates(s, env))
  {
    var list := AddTrimmed(s.GeminiApiKeys);
    if !IsBlank(s.GeminiApiKey) {
      list := list + [TrimOf(s.GeminiApiKey)];
    }
    assert list == TrimmedNonBlank(s.GeminiApiKeys) + TrimmedIfPresent(Some(s.GeminiApiKey));
    var v := None;
    if !IsBlank(s.GeminiApiKeyEnv) {
      v := env(s.GeminiApiKeyEnv);
      if v.Some? && !IsBlank(v.value) {
        list := list + [TrimOf(v.value)];
      }
    }
    assert v == EnvValue(s.GeminiApiKeyEnv, env);
    assert list == TrimmedNonBlank(s.GeminiApiKeys) + TrimmedIfPresent(Some(s.GeminiApiKey)) + TrimmedIfPresent(v);
    keys := DistinctIgnoringCase(list);
    DedupKeepsFirst(list);
  }

  /** GetGeminiModelsOrdered() */
  method GetGeminiModelsOrdered(s: ProcessingSettings) returns (models: seq<string>)
    ensures models == KeepFirst(ModelCandidates(s))
  {
    var list := AddTrimmed(s.GeminiModels);
    if !IsBlank(s.GeminiModel) {
      list := list + [TrimOf(s.GeminiModel)];
    }
    assert list == TrimmedNonBlank(s.GeminiModels) + TrimmedIfPresent(Some(s.GeminiModel));
    if |list| == 0 {
      list := list + [DefaultModel];
      list := list + [DefaultLiteModel];
    }
    assert list == ModelCandidates(s);
    models := DistinctIgnoringCase(list);
    DedupKeepsFirst(list);
  }

  /** The keys kept are keys of the input, pairwise different ignoring case, and every key of
    * the input is among them up to case. */
  lemma KeepFirstShape(ks: seq<string>)
    ensures forall j :: 0 <= j < |KeepFirst(ks)| ==> KeepFirst(ks)[j] in ks
    ensures forall j, k :: 0 <= j < k < |KeepFirst(ks)| ==>
      Upper(KeepFirst(ks)[j]) != Upper(KeepFirst(ks)[k])
    ensures Folded(KeepFirst(ks)) == Folded(ks)
  {
    DedupKeepsFirst(ks);
    DedupDistinct(ks, {});
    DedupCovers(ks, {});
    DedupFromInput(ks, {});
  }

  /** The ordered keys are trimmed and non-blank, pairwise different ignoring case, and every
    * configured key is among them up to case. */
  lemma KeysShape(s: ProcessingSettings, env: string -> Option<string>)
    ensures var r := KeepFirst(KeyCandidates(s, env));
      (forall j :: 0 <= j < |r| ==> !IsBlank(r[j]) && Trim(r[j]) == r[j])
      && (forall j, k :: 0 <= j < k < |r| ==> Upper(r[j]) != Upper(r[k]))
      && Folded(r) == Folded(KeyCandidates(s, env))
  {
    var ks := KeyCandidates(s, env);
    KeepFirstShape(ks);
    var r := KeepFirst(ks);
    forall j | 0 <= j < |r|
      ensures !IsBlank(r[j]) && Trim(r[j]) == r[j]
    {
      var i :| 0 <= i < |ks| && ks[i] == r[j];
    }
  }

  /** The ordered models are never empty; without a configured model they are the two
    * fallback models, in that order. */
  lemma ModelsShape(s: ProcessingSettings)
    ensures |KeepFirst(ModelCandidates(s))| > 0
    ensures (TrimmedNonBlank(s.GeminiModels) == [] && IsBlank(s.GeminiModel))
      ==> KeepFirst(ModelCandidates(s)) == [DefaultModel, DefaultLiteModel]
    ensures forall j, k :: 0 <= j < k < |KeepFirst(ModelCandidates(s))| ==>
      Upper(KeepFirst(ModelCandidates(s))[j]) != Upper(KeepFirst(ModelCandidates(s))[k])
  {
    var ms := ModelCandidates(s);
    KeepFirstShape(ms);
    assert Upper(ms[0]) in Folded(ms);
    if TrimmedNonBlank(s.GeminiModels) == [] && IsBlank(s.GeminiModel) {
      assert ms == [DefaultModel, DefaultLiteModel];
      FallbackModelsKept();
    }
  }

  /** The two fallback models differ ignoring case, so both are kept. */
  lemma FallbackModelsKept()
    ensures KeepFirst([DefaultModel, DefaultLiteModel]) == [DefaultModel, DefaultLiteModel]
  {
    assert Upper(DefaultLiteModel) !in Folded([DefaultModel]) by {
      assert |Upper(DefaultModel)| != |Upper(DefaultLiteModel)|;
      assert [DefaultModel][0] == DefaultModel;
    }
    assert [DefaultModel, DefaultLiteModel][..1] == [DefaultModel];
    assert [DefaultModel][..0] == [];
    assert KeepFirst([DefaultModel]) == [DefaultModel];
  }

  // ---------------------------------------------------------------------------
  // Google Vision key and output directory
  // ---------------------------------------------------------------------------

  /** GetGoogleVisionApiKey(): the trimmed explicit key, else the trimmed variable, else "". */
  function GetGoogleVisionApiKey(s: ProcessingSettings, env: string -> Option<string>): (key: string)
    ensures key == [] || (!IsBlank(key) && Trim(key) == key)
    ensures !IsBlank(s.GoogleVisionApiKey) ==> key == Trim(s.GoogleVisionApiKey)
    ensures key == [] <==>
      IsBlank(s.GoogleVisionApiKey) && !Present(EnvValue(s.GoogleVisionApiKeyEnv, env))
    ensures IsBlank(s.GoogleVisionApiKey) && Present(EnvValue(s.GoogleVisionApiKeyEnv, env))
      ==> key == Trim(EnvValue(s.GoogleVisionApiKeyEnv, env).value)
  {
    if !IsBlank(s.GoogleVisionApiKey) then TrimOf(s.GoogleVisionApiKey)
    else
      var v := EnvValue(s.GoogleVisionApiKeyEnv, env);
      if v.Some? && !IsBlank(v.value) then TrimOf(v.value) else []
  }

  /** GetOutputDirectory() before Path.GetFullPath: the configured directory, or "Outputs"
    * when it is blank, under the project root. */
  function GetOutputDirectory(s: ProcessingSettings, projectRoot: string): string {
    Combine(projectRoot, if IsBlank(s.OutputDirectory) then DefaultOutputDirectory else s.OutputDirectory)
  }

  /** A blank output directory means the default one. */
  lemma BlankOutputIsDefault(s: ProcessingSettings, projectRoot: string)
    requires IsBlank(s.OutputDirectory)
    ensures GetOutputDirectory(s, projectRoot) == GetOutputDirectory(Defaults, projectRoot)
  {
    assert !IsBlank(DefaultOutputDirectory) by {
      assert !IsWhite(DefaultOutputDirectory[0]);
    }
  }

  /** Auto-answer is on and Tesseract is the OCR provider unless configured otherwise; the
    * default settings ask for no Vision key and yield the default model first. */
  lemma DefaultsShape(env: string -> Option<string>)
    ensures Defaults.EnableAutoAnswer && Defaults.OcrProvider == "tesseract"
    ensures KeepFirst(ModelCandidates(Defaults)) == [DefaultModel]
  {
    var m := DefaultModel;
    assert m[0] == 'g' && m[|m| - 1] == 'h';
    SingleModel(Defaults);
  }

  /** Settings with no model list and one model without white space at its ends use that
    * model alone. */
  lemma SingleModel(s: ProcessingSettings)
    requires s.GeminiModels == [] && s.GeminiModel != []
    requires !IsWhite(s.GeminiModel[0]) && !IsWhite(s.GeminiModel[|s.GeminiModel| - 1])
    ensures KeepFirst(ModelCandidates(s)) == [s.GeminiModel]
  {
    var m := s.GeminiModel;
    assert !IsBlank(m) by { assert !IsWhite(m[0]); }
    TrimFixed(m);
    assert TrimmedIfPresent(Some(m)) == [m];
    assert ModelCandidates(s) == [m];
    assert [m][..0] == [];
  }
}
