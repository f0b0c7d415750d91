/**
 * The settings of the API: values come from the process environment, with a
 * `.env` file as a second source for the API key and the mode. The
 * environment is a map from names to values and the file is its list of lines,
 * or `None` when it is missing or cannot be read.
 */
module Config {
  import opened Wrappers
  import opened Text

  // ---------------------------------------------------------------------
  // The .env file
  // ---------------------------------------------------------------------

  /** A stripped line that holds no entry: blank, a comment, or without `=`. */
  predicate Skipped(line: string) {
    line == [] || StartsWith(line, "#") || '=' !in line
  }

  /** The key (stripped) and the raw value of a line, split at its first `=`:
      a stripped line that is blank, a comment or without `=` has none; the key
      holds no `=` and no surrounding whitespace, and the stripped line ends
      with `=` followed by the value. */
  function Entry(raw: string): (r: Option<(string, string)>)
    ensures r.None? <==> Skipped(Strip(raw))
    ensures r.Some? ==> '=' !in r.value.0 && Strip(r.value.0) == r.value.0
    ensures r.Some? ==> EndsWith(Strip(raw), "=" + r.value.1)
  {
    var line := Strip(raw);
    if Skipped(line) then None
    else
      var i := IndexOf(line, '=').value;
      StripAbsent(line[..i], Spaces, '=');
      StripIdempotent(line[..i], Spaces);
      assert line[i..] == "=" + line[i + 1..];
      Some((Strip(line[..i]), line[i + 1..]))
  }

  /** A line that starts with `#` once stripped is a comment: it gives no key. */
  lemma CommentLineSkipped(raw: string, key: string)
    requires StartsWith(Strip(raw), "#")
    ensures Entry(raw).None? && !HasKey(raw, key)
  {
  }

  /** An entry with the key. */
  predicate Keyed(e: Option<(string, string)>, key: string) {
    e.Some? && e.value.0 == key
  }

  /** A line whose entry has the key. */
  predicate HasKey(raw: string, key: string) {
    Keyed(Entry(raw), key)
  }

  /** `.strip().strip('"').strip("'")`, in that order: never longer than the
      value, and never starting or ending with a single quote. */
  function CleanValue(v: string): (r: string)
    ensures |r| <= |v|
    ensures r == [] || (r[0] != '\'' && r[|r| - 1] != '\'')
  {
    StripChar(StripChar(Strip(v), '"'), '\'')
  }

  /** The entry of every line, in order. */
  function Entries(lines: seq<string>): (es: seq<Option<(string, string)>>)
    ensures |es| == |lines|
  {
    seq(|lines|, j requires 0 <= j < |lines| => Entry(lines[j]))
  }

  /** The raw value of the first entry with the key, if any; a value found is
      the value of some entry with the key. */
  function FirstValue(es: seq<Option<(string, string)>>, key: string): (r: Option<string>)
    ensures r.Some? ==> exists i | 0 <= i < |es| :: Keyed(es[i], key) && es[i].value.1 == r.value
  {
    if es == [] then None
    else if Keyed(es[0], key) then Some(es[0].value.1)
    else FirstValue(es[1..], key)
  }

  /** There is no value exactly when no entry has the key. */
  lemma {:induction false} FirstValueNone(es: seq<Option<(string, string)>>, key: string)
    ensures FirstValue(es, key).None? <==> forall i | 0 <= i < |es| :: !Keyed(es[i], key)
  {
    if es != [] {
      FirstValueNone(es[1..], key);
      assert forall i | 1 <= i < |es| :: es[1..][i - 1] == es[i];
    }
  }

  /** The first entry that has the key gives the value. */
  lemma {:induction false} FirstValueAt(es: seq<Option<(string, string)>>, key: string, i: nat)
    requires i < |es| && Keyed(es[i], key)
    requires forall j | 0 <= j < i :: !Keyed(es[j], key)
    ensures FirstValue(es, key) == Some(es[i].value.1)
  {
    if i > 0 {
      assert es[1..][i - 1] == es[i];
      assert forall j | 0 <= j < i - 1 :: es[1..][j] == es[j + 1];
      FirstValueAt(es[1..], key, i - 1);
    }
  }

  /** What `_read_env_file_value` returns. */
  function EnvFileValue(file: Option<seq<string>>, key: string): (r: string)
    ensures file.None? ==> r == ""
    ensures file.Some? && FirstValue(Entries(file.value), key).None? ==> r == ""
    ensures file.Some? && FirstValue(Entries(file.value), key).Some? ==>
              r == CleanValue(FirstValue(Entries(file.value), key).value)
  {
    if file.None? then ""
    else match FirstValue(Entries(file.value), key)
      case None => ""
      case Some(v) => CleanValue(v)
  }

  /** `_read_env_file_value`: scans the lines, skipping those without an
      entry for the key, and returns the cleaned value of the first one that
      has it. */
  method ReadEnvFileValue(file: Option<seq<string>>, key: string) returns (r: string)
    ensures r == EnvFileValue(file, key)
  {
    if file.None? {
      return "";
    }
    var lines := file.value;
    ghost var es := Entries(lines);
    for i := 0 to |lines|
      invariant FirstValue(es[i..], key) == FirstValue(es, key)
    {
      assert es[i] == Entry(lines[i]);
      var value := LineValue(lines[i], key);
      if value.None? {
        FirstValueSkip(es, key, i);
        continue;
      }
      assert es[i..][0] == es[i];
      return CleanValue(value.value);
    }
    assert es[|lines|..] == [];
    return "";
  }

  /** The body of the scan for one line: strip it, skip it when it is blank,
      a comment or has no `=`, split it at the first `=`, and give the raw
      value when the stripped key is the one sought. */
  method LineValue(raw: string, key: string) returns (value: Option<string>)
    ensures value.Some? <==> HasKey(raw, key)
    ensures value.Some? ==> value.value == Entry(raw).value.1
  {
    var line := Strip(raw);
    if line == [] || StartsWith(line, "#") || '=' !in line {
      return None;
    }
    var eq := IndexOf(line, '=').value;
    var currentKey, currentValue := line[..eq], line[eq + 1..];
    if Strip(currentKey) != key {
      return None;
    }
    return Some(currentValue);
  }

  /** A line without the key passes the search on to the next line. */
  lemma FirstValueSkip(es: seq<Option<(string, string)>>, key: string, i: nat)
    requires i < |es| && !Keyed(es[i], key)
    ensures FirstValue(es[i..], key) == FirstValue(es[i + 1..], key)
  {
    assert es[i..][0] == es[i];
    assert es[i..][1..] == es[i + 1..];
  }

  /** The value may itself hold `=`: only the first one splits the line. */
  lemma SplitAtFirstEquals(k: string, v: string)
    requires '=' !in k
    requires k != [] && !IsSpace(k[0]) && k[0] != '#'
    requires v == [] || !IsSpace(v[|v| - 1])
    ensures Entry(k + "=" + v) == Some((Strip(k), v))
  {
    var line := k + "=" + v;
    assert line[0] == k[0] && line[|k|] == '=';
    assert line[|line| - 1] == if v == [] then '=' else v[|v| - 1];
    StripByKeeps(line, Spaces);
    assert !StartsWith(line, "#");
    IndexOfFirst(k, '=', v);
    assert line[..|k|] == k;
    assert line[|k| + 1..] == v;
  }

  /** The first `c` of `k + [c] + v` is the one after `k` when `k` has none. */
  lemma {:induction false} IndexOfFirst(k: string, c: char, v: string)
    requires c !in k
    ensures IndexOf(k + [c] + v, c) == Some(|k|)
  {
    if k != [] {
      assert (k + [c] + v)[1..] == k[1..] + [c] + v;
      IndexOfFirst(k[1..], c, v);
    }
  }

  /** Once a line has the key, whatever follows it changes nothing. */
  lemma FirstMatchWins(lines: seq<string>, extra: seq<string>, key: string, i: nat)
    requires i < |lines| && HasKey(lines[i], key)
    requires forall j | 0 <= j < i :: !HasKey(lines[j], key)
    ensures EnvFileValue(Some(lines + extra), key) == CleanValue(Entry(lines[i]).value.1)
  {
    var es := Entries(lines + extra);
    assert es[i] == Entry(lines[i]);
    assert forall j | 0 <= j < i :: es[j] == Entry(lines[j]);
    FirstValueAt(es, key, i);
  }

  /** `str.strip(c)` drops one `c` at each end of a text whose own ends are not `c`. */
  lemma StripWrapped(v: string, c: char)
    requires v == [] || (v[0] != c && v[|v| - 1] != c)
    ensures StripChar([c] + v + [c], c) == v
  {
    var s := [c] + v + [c];
    var drop := Only(c);
    assert s[1..] == v + [c];
    if v == [] {
      assert TrimStart(s, drop) == [];
    } else {
      assert TrimStart(s, drop) == TrimStart(v + [c], drop) == v + [c];
      assert (v + [c])[..|v|] == v;
      assert TrimEnd(v + [c], drop) == TrimEnd(v, drop) == v;
    }
  }

  /** A text with no space, `"` or `'` at either end, which is what quoting
      wraps in the lemmas below. */
  predicate Bare(v: string) {
    v != [] && !IsSpace(v[0]) && !IsSpace(v[|v| - 1])
    && v[0] != '"' && v[|v| - 1] != '"' && v[0] != '\'' && v[|v| - 1] != '\''
  }

  /** `"v"` yields `v`. */
  lemma CleanDoubleQuoted(v: string)
    requires Bare(v)
    ensures CleanValue("\"" + v + "\"") == v
  {
    var dq := "\"" + v + "\"";
    assert dq == ['"'] + v + ['"'];
    StripByKeeps(dq, Spaces);
    StripWrapped(v, '"');
    StripByKeeps(v, Only('\''));
    calc {
      CleanValue(dq);
      StripChar(StripChar(dq, '"'), '\'');
      StripChar(v, '\'');
      v;
    }
  }

  /** `'v'` yields `v`. */
  lemma CleanSingleQuoted(v: string)
    requires Bare(v)
    ensures CleanValue("'" + v + "'") == v
  {
    var sq := "'" + v + "'";
    assert sq == ['\''] + v + ['\''];
    StripByKeeps(sq, Spaces);
    StripByKeeps(sq, Only('"'));
    StripWrapped(v, '\'');
    calc {
      CleanValue(sq);
      StripChar(StripChar(sq, '"'), '\'');
      StripChar(sq, '\'');
      v;
    }
  }

  /** The double quotes go first, then the single ones: `"'v'"` yields `v`. */
  lemma CleanSingleInsideDouble(v: string)
    requires Bare(v)
    ensures CleanValue("\"'" + v + "'\"") == v
  {
    var w := "'" + v + "'";
    var dsq := "\"" + w + "\"";
    assert dsq == "\"'" + v + "'\"";
    StripByKeeps(dsq, Spaces);
    StripWrapped(w, '"');
    StripWrapped(v, '\'');
  }

  /** ... but `'"v"'` keeps its double quotes. */
  lemma CleanDoubleInsideSingle(v: string)
    requires Bare(v)
    ensures CleanValue("'\"" + v + "\"'") == "\"" + v + "\""
  {
    var d := "\"" + v + "\"";
    var sdq := "'" + d + "'";
    assert sdq == "'\"" + v + "\"'";
    StripByKeeps(sdq, Spaces);
    StripByKeeps(sdq, Only('"'));
    StripWrapped(d, '\'');
  }

  // ---------------------------------------------------------------------
  // Resolution
  // ---------------------------------------------------------------------

  /** `os.getenv(name, fallback)`. */
  function GetEnv(env: map<string, string>, name: string, fallback: string): (r: string)
    ensures name in env ==> r == env[name]
    ensures name !in env ==> r == fallback
  {
    if name in env then env[name] else fallback
  }

  function Max(a: int, b: int): int { if a >= b then a else b }

  /** `_resolve_int`: the default for a blank or unparseable variable, the
      parsed value raised to at least 1 otherwise. */
  function ResolveInt(env: map<string, string>, name: string, default: int): (r: int)
    ensures Strip(GetEnv(env, name, "")) == [] || ParseInt(GetEnv(env, name, "")).None? ==> r == default
    ensures ParseInt(GetEnv(env, name, "")).Some? ==> r == Max(1, ParseInt(GetEnv(env, name, "")).value) && r >= 1
    ensures r == default || r >= 1
  {
    var raw := Strip(GetEnv(env, name, ""));
    StripIdempotent(GetEnv(env, name, ""), Spaces);
    if raw == [] then default
    else match ParseInt(raw)
      case None => default
      case Some(parsed) => Max(1, parsed)
  }

  /** A variable holding the decimal numeral of `n` resolves to `max(1, n)`. */
  lemma ResolveIntOfNumeral(env: map<string, string>, name: string, default: int, n: int)
    requires name in env && env[name] == IntToString(n)
    ensures ResolveInt(env, name, default) == Max(1, n)
  {
    ParseIntOfIntToString(n);
  }

  const ModeKey: string := "LLM_MODE"
  const ApiKeyKey: string := "GEMINI_API_KEY"
  const ModelKey: string := "GEMINI_MODEL"
  const TimeoutKey: string := "LLM_REQUEST_TIMEOUT_SEC"
  const DefaultModel: string := "gemini-2.5-flash"
  const DefaultTimeoutSec: int := 30

  /** The mode as written in the environment, or in the file when the
      environment has none, stripped and lower-cased. */
  function ModeSource(env: map<string, string>, file: Option<seq<string>>): string {
    var direct := Lower(Strip(GetEnv(env, ModeKey, "")));
    if direct != [] then direct else Lower(Strip(EnvFileValue(file, ModeKey)))
  }

  /** `_resolve_llm_mode`: "live" or "stub"; anything else is "live". */
  function ResolveLlmMode(env: map<string, string>, file: Option<seq<string>>): (r: string)
    ensures r == "live" || r == "stub"
    ensures r == "stub" <==> ModeSource(env, file) == "stub"
  {
    var direct := ModeSource(env, file);
    if direct == "live" || direct == "stub" then direct else "live"
  }

  /** A non-blank mode in the environment decides alone: the file is not consulted. */
  lemma ModeEnvWins(env: map<string, string>, f1: Option<seq<string>>, f2: Option<seq<string>>)
    requires Lower(Strip(GetEnv(env, ModeKey, ""))) != []
    ensures ResolveLlmMode(env, f1) == ResolveLlmMode(env, f2)
  {
  }

  /** `_resolve_gemini_api_key`: the stripped environment value when it is not
      blank, the file's value otherwise. */
  function ResolveGeminiApiKey(env: map<string, string>, file: Option<seq<string>>): (r: string)
    ensures Strip(GetEnv(env, ApiKeyKey, "")) != [] ==> r == Strip(GetEnv(env, ApiKeyKey, ""))
    ensures Strip(GetEnv(env, ApiKeyKey, "")) == [] ==> r == EnvFileValue(file, ApiKeyKey)
  {
    var direct := Strip(GetEnv(env, ApiKeyKey, ""));
    if direct != [] then direct else EnvFileValue(file, ApiKeyKey)
  }

  datatype Settings = Settings(geminiApiKey: string, geminiModel: string,
                               llmRequestTimeoutSec: int, llmMode: string)

  /** The model of `get_settings`: the stripped `GEMINI_MODEL`, or the
      default model when it is unset or blank. */
  function ResolveModel(env: map<string, string>): (m: string)
    ensures m != []
    ensures (ModelKey !in env || Strip(env[ModelKey]) == []) ==> m == DefaultModel
    ensures ModelKey in env && Strip(env[ModelKey]) != [] ==> m == Strip(env[ModelKey])
  {
    var stripped := Strip(GetEnv(env, ModelKey, DefaultModel));
    DefaultModelStripped();
    if stripped != [] then stripped else DefaultModel
  }

  lemma DefaultModelStripped()
    ensures Strip(DefaultModel) == DefaultModel
  {
    StripByKeeps(DefaultModel, Spaces);
  }

  /** The request timeout is at least one second, whatever the environment holds. */
  lemma TimeoutAtLeastOne(env: map<string, string>)
    ensures ResolveInt(env, TimeoutKey, DefaultTimeoutSec) >= 1
  {
  }

  /** `get_settings`. */
  function GetSettings(env: map<string, string>, file: Option<seq<string>>): (s: Settings)
    ensures s.llmMode == "live" || s.llmMode == "stub"
    ensures s.llmRequestTimeoutSec >= 1
    ensures s.geminiModel != []
  {
    TimeoutAtLeastOne(env);
    Settings(ResolveGeminiApiKey(env, file), ResolveModel(env),
             ResolveInt(env, TimeoutKey, DefaultTimeoutSec), ResolveLlmMode(env, file))
  }
}
