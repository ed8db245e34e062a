/**
 * The configuration rules of config.py: when a configuration is complete
 * (`ConfigManager.is_valid`), the interactive key loop of
 * `ConfigManager.build_config_file` with its password masking and save gating,
 * the choice of a TrainingPeaks Virtual user folder (`get_fitfiles_path`) and the
 * precedence of the places that folder is looked for (`get_tpv_folder`).
 *
 * The user's answers to prompts, the directory listing, the environment, the
 * platform name and the JSON rendering of the configuration are parameters.
 * Running out of answers stands for the user pressing Ctrl-C.
 */
module Config {
  import opened Common

  /** The configuration keys, in the order they are checked and prompted for. */
  datatype Key = GarminUsername | GarminPassword | FitfilesPath

  const ConfigKeys: seq<Key> := [GarminUsername, GarminPassword, FitfilesPath]

  /** The name of a key, as excluded keys and prompts spell it. */
  function Name(k: Key): string
  {
    match k
    case GarminUsername => "garmin_username"
    case GarminPassword => "garmin_password"
    case FitfilesPath => "fitfiles_path"
  }

  /** What a masked password is shown as. */
  const Hidden: string := "<**hidden**>"

  /** The `Config` dataclass; the folder path is kept as the string the program stores. */
  datatype Config = Config(garminUsername: Option<string>, garminPassword: Option<string>, fitfilesPath: Option<string>)

  /** `getattr(config, k)`. */
  function Get(c: Config, k: Key): Option<string>
  {
    match k
    case GarminUsername => c.garminUsername
    case GarminPassword => c.garminPassword
    case FitfilesPath => c.fitfilesPath
  }

  /** `setattr(config, k, v)`. */
  function Set(c: Config, k: Key, v: Option<string>): (r: Config)
    ensures Get(r, k) == v
    ensures forall other | other != k :: Get(r, other) == Get(c, other)
  {
    match k
    case GarminUsername => c.(garminUsername := v)
    case GarminPassword => c.(garminPassword := v)
    case FitfilesPath => c.(fitfilesPath := v)
  }

  /** Python truthiness of an optional string: `None` and `""` are false. */
  predicate TruthyStr(v: Option<string>)
  {
    v.Some? && v.value != ""
  }

  /** `excluded_keys`, where `None` stands for the empty list. */
  function Excluded(excludedKeys: Option<seq<string>>): seq<string>
  {
    if excludedKeys.None? then [] else excludedKeys.value
  }

  /** A configuration is complete when every key not excluded has a value. */
  predicate Complete(c: Config, excluded: seq<string>)
  {
    forall k: Key | Name(k) !in excluded :: Get(c, k).Some?
  }

  // ---------------------------------------------------------------------------
  // build_config_file

  /** Whether the key loop prompts for key `k`. */
  predicate NeedsPrompt(c: Config, k: Key, overwrite: bool, excluded: seq<string>)
  {
    (Get(c, k).None? || overwrite) && Name(k) !in excluded
  }

  /**
   * The prompt built for key `k`: it offers a set value as the default, and shows
   * a set password masked.
   */
  function PromptMessage(k: Key, existing: Option<string>): string
  {
    var msg := "Enter value to use for \"" + Name(k) + "\"";
    if TruthyStr(existing) then
      var withDefault := msg + "\nor press enter to use existing value of \"" + existing.value + "\"";
      if k == GarminPassword then Replace(withDefault, existing.value, Hidden) else withDefault
    else msg
  }

  /**
   * The prompt for a set password is split at every occurrence of the password
   * and rejoined with the mask in place of each one.
   */
  lemma PasswordPromptMasked(p: string)
    requires p != ""
    ensures var shown := "Enter value to use for \"garmin_password\"" +
        "\nor press enter to use existing value of \"" + p + "\"";
      exists pieces: seq<string> ::
        shown == Join(pieces, p) && PromptMessage(GarminPassword, Some(p)) == Join(pieces, Hidden) &&
        forall piece | piece in pieces :: !Contains(piece, p)
  {
    var shown := "Enter value to use for \"garmin_password\"" +
      "\nor press enter to use existing value of \"" + p + "\"";
    assert "Enter value to use for \"" + Name(GarminPassword) + "\"" == "Enter value to use for \"garmin_password\"";
    ReplaceEveryOccurrence(shown, p, Hidden);
  }

  /** The outcome of prompting for one key: the value it ends with and the index of the next answer. */
  datatype Answer = Answer(value: Option<string>, next: nat)

  /**
   * The accept/re-prompt loop for one key, reading answers from index `pos`: a
   * non-empty answer is taken, an empty one keeps a set value, and otherwise the
   * user is asked again. `None` when the answers run out before one is accepted
   * (the user presses Ctrl-C).
   */
  function Ask(existing: Option<string>, answers: seq<string>, pos: nat): (r: Option<Answer>)
    requires pos <= |answers|
    ensures r.Some? ==> pos < r.value.next <= |answers|
    ensures r.Some? ==> TruthyStr(r.value.value)
    ensures r.Some? ==> r.value.value == Some(answers[r.value.next - 1]) || r.value.value == existing
    ensures r.Some? && answers[r.value.next - 1] != "" ==> r.value.value == Some(answers[r.value.next - 1])
    ensures r.Some? ==> forall i | pos <= i < r.value.next - 1 :: answers[i] == ""
    ensures pos < |answers| && answers[pos] != "" ==> r == Some(Answer(Some(answers[pos]), pos + 1))
    ensures pos < |answers| && answers[pos] == "" && TruthyStr(existing) ==> r == Some(Answer(existing, pos + 1))
    ensures r.None? ==> (pos == |answers| || !TruthyStr(existing)) && forall i | pos <= i < |answers| :: answers[i] == ""
    decreases |answers| - pos
  {
    if pos == |answers| then None
    else if answers[pos] != "" then Some(Answer(Some(answers[pos]), pos + 1))
    else if TruthyStr(existing) then Some(Answer(existing, pos + 1))
    else Ask(existing, answers, pos + 1)
  }

  /** The state of the key loop: the configuration, the answers used, the prompts built. */
  datatype BuildState = BuildState(config: Config, used: nat, prompts: seq<string>, canceled: bool)

  function Repeat(s: string, n: nat): (r: seq<string>)
    ensures |r| == n && forall i | 0 <= i < n :: r[i] == s
  {
    if n == 0 then [] else Repeat(s, n - 1) + [s]
  }

  /** The prompt loop for a key that needs one, and what it leaves behind. */
  function PromptedStep(s: BuildState, k: Key, answers: seq<string>): BuildState
    requires s.used <= |answers|
  {
    var existing := Get(s.config, k);
    var msg := PromptMessage(k, existing);
    match Ask(existing, answers, s.used)
    case None =>
      BuildState(s.config, |answers|, s.prompts + Repeat(msg, |answers| - s.used + 1), true)
    case Some(a) =>
      BuildState(Set(s.config, k, a.value), a.next, s.prompts + Repeat(msg, a.next - s.used), false)
  }

  /** What the key loop does for one key. */
  function KeyStep(s: BuildState, k: Key, overwrite: bool, excluded: seq<string>, answers: seq<string>): BuildState
  {
    if s.canceled || s.used > |answers| || !NeedsPrompt(s.config, k, overwrite, excluded) then s
    else PromptedStep(s, k, answers)
  }

  /** The key loop over the first `n` configuration keys. */
  function Build(c: Config, n: nat, overwrite: bool, excluded: seq<string>, answers: seq<string>): BuildState
    requires n <= |ConfigKeys|
  {
    if n == 0 then BuildState(c, 0, [], false)
    else KeyStep(Build(c, n - 1, overwrite, excluded, answers), ConfigKeys[n - 1], overwrite, excluded, answers)
  }

  /** One key step changes only its own key, and a prompted key that completes gets a non-empty value. */
  lemma KeyStepEffect(s: BuildState, k: Key, overwrite: bool, excluded: seq<string>, answers: seq<string>)
    ensures var t := KeyStep(s, k, overwrite, excluded, answers);
      forall other | other != k :: Get(t.config, other) == Get(s.config, other)
    ensures var t := KeyStep(s, k, overwrite, excluded, answers);
      Get(t.config, k) == Get(s.config, k) || (NeedsPrompt(s.config, k, overwrite, excluded) && TruthyStr(Get(t.config, k)))
    ensures var t := KeyStep(s, k, overwrite, excluded, answers);
      !t.canceled && s.used <= |answers| && NeedsPrompt(s.config, k, overwrite, excluded) ==> TruthyStr(Get(t.config, k))
    ensures var t := KeyStep(s, k, overwrite, excluded, answers);
      (s.canceled ==> t == s) && (s.used <= |answers| ==> t.used <= |answers|)
  {}

  lemma {:induction false} BuildUsedBound(c: Config, n: nat, overwrite: bool, excluded: seq<string>, answers: seq<string>)
    requires n <= |ConfigKeys|
    ensures Build(c, n, overwrite, excluded, answers).used <= |answers|
  {
    if n > 0 {
      BuildUsedBound(c, n - 1, overwrite, excluded, answers);
      KeyStepEffect(Build(c, n - 1, overwrite, excluded, answers), ConfigKeys[n - 1], overwrite, excluded, answers);
    }
  }

  /** Once the user cancels, the remaining keys change nothing. */
  lemma {:induction false} BuildCanceledStays(c: Config, m: nat, n: nat, overwrite: bool, excluded: seq<string>, answers: seq<string>)
    requires m <= n <= |ConfigKeys|
    requires Build(c, m, overwrite, excluded, answers).canceled
    ensures Build(c, n, overwrite, excluded, answers) == Build(c, m, overwrite, excluded, answers)
  {
    if m < n {
      BuildCanceledStays(c, m, n - 1, overwrite, excluded, answers);
    }
  }

  /** Every one of the first `n` keys that is not excluded has a value once the loop completes. */
  lemma {:induction false} BuildCompletes(c: Config, n: nat, overwrite: bool, excluded: seq<string>, answers: seq<string>)
    requires n <= |ConfigKeys|
    ensures var s := Build(c, n, overwrite, excluded, answers);
      !s.canceled ==> forall i | 0 <= i < n && Name(ConfigKeys[i]) !in excluded :: Get(s.config, ConfigKeys[i]).Some?
  {
    if n > 0 {
      BuildCompletes(c, n - 1, overwrite, excluded, answers);
      BuildUsedBound(c, n - 1, overwrite, excluded, answers);
      KeyStepEffect(Build(c, n - 1, overwrite, excluded, answers), ConfigKeys[n - 1], overwrite, excluded, answers);
    }
  }

  /**
   * The loop over the first `n` keys changes only keys among them that needed a
   * prompt, and gives each key it changes a non-empty value.
   */
  lemma {:induction false} BuildKeepsUnprompted(c: Config, n: nat, overwrite: bool, excluded: seq<string>, answers: seq<string>)
    requires n <= |ConfigKeys|
    ensures var s := Build(c, n, overwrite, excluded, answers);
      forall i | 0 <= i < |ConfigKeys| && (n <= i || !NeedsPrompt(c, ConfigKeys[i], overwrite, excluded)) ::
        Get(s.config, ConfigKeys[i]) == Get(c, ConfigKeys[i])
    ensures var s := Build(c, n, overwrite, excluded, answers);
      forall i | 0 <= i < n :: Get(s.config, ConfigKeys[i]) == Get(c, ConfigKeys[i]) || TruthyStr(Get(s.config, ConfigKeys[i]))
  {
    if n > 0 {
      BuildKeepsUnprompted(c, n - 1, overwrite, excluded, answers);
      var prev := Build(c, n - 1, overwrite, excluded, answers);
      var k := ConfigKeys[n - 1];
      var s := Build(c, n, overwrite, excluded, answers);
      assert s == KeyStep(prev, k, overwrite, excluded, answers);
      KeyStepEffect(prev, k, overwrite, excluded, answers);
      assert Get(prev.config, k) == Get(c, k);
      forall i | 0 <= i < |ConfigKeys| && i != n - 1
        ensures Get(s.config, ConfigKeys[i]) == Get(prev.config, ConfigKeys[i])
      {
        assert ConfigKeys[i] != k;
      }
    }
  }

  /**
   * The whole key loop: when it completes, the configuration is complete for the
   * same exclusions; it leaves every key that needed no prompt as it was; and
   * every key it changes gets a non-empty value.
   */
  lemma BuildConfig(c: Config, overwrite: bool, excluded: seq<string>, answers: seq<string>)
    ensures var s := Build(c, |ConfigKeys|, overwrite, excluded, answers);
      !s.canceled ==> Complete(s.config, excluded)
    ensures var s := Build(c, |ConfigKeys|, overwrite, excluded, answers);
      forall k: Key | !NeedsPrompt(c, k, overwrite, excluded) :: Get(s.config, k) == Get(c, k)
    ensures var s := Build(c, |ConfigKeys|, overwrite, excluded, answers);
      forall k: Key :: Get(s.config, k) == Get(c, k) || TruthyStr(Get(s.config, k))
  {
    BuildCompletes(c, |ConfigKeys|, overwrite, excluded, answers);
    BuildKeepsUnprompted(c, |ConfigKeys|, overwrite, excluded, answers);
    var s := Build(c, |ConfigKeys|, overwrite, excluded, answers);
    forall k: Key
      ensures !s.canceled && Name(k) !in excluded ==> Get(s.config, k).Some?
      ensures !NeedsPrompt(c, k, overwrite, excluded) ==> Get(s.config, k) == Get(c, k)
      ensures Get(s.config, k) == Get(c, k) || TruthyStr(Get(s.config, k))
    {
      var i := KeyIndex(k);
      assert ConfigKeys[i] == k;
    }
  }

  /** Where a key stands in the key order. */
  function KeyIndex(k: Key): (i: nat)
    ensures i < |ConfigKeys| && ConfigKeys[i] == k
  {
    match k
    case GarminUsername => 0
    case GarminPassword => 1
    case FitfilesPath => 2
  }

  /**
   * The configuration dump as `build_config_file` logs it: the password is
   * replaced wherever it occurs whenever it is not `None`, even when it is empty.
   */
  function LoggedDumpAsWritten(content: string, password: Option<string>): string
  {
    if password.Some? then Replace(content, password.value, Hidden) else content
  }

  /** With an empty password, the logged dump has the mask between every two characters. */
  lemma EmptyPasswordGarblesDump()
    ensures LoggedDumpAsWritten("{}", Some("")) == Hidden + "{" + Hidden + "}" + Hidden
  {
    assert "{}"[1..] == "}";
  }

  /** The configuration dump with a set password masked, and nothing to mask otherwise. */
  function MaskedDump(content: string, password: Option<string>): string
  {
    if TruthyStr(password) then Replace(content, password.value, Hidden) else content
  }

  /** The dump as logged and as intended differ only for an empty password. */
  lemma LoggedDumpAgrees(content: string, password: Option<string>)
    ensures password != Some("") ==> LoggedDumpAsWritten(content, password) == MaskedDump(content, password)
  {}

  /** Every occurrence of a non-empty password is masked; without one the dump is shown as it is. */
  lemma MaskedDumpMasks(content: string, password: Option<string>)
    ensures !TruthyStr(password) ==> MaskedDump(content, password) == content
    ensures TruthyStr(password) ==> exists pieces: seq<string> ::
      content == Join(pieces, password.value) && MaskedDump(content, password) == Join(pieces, Hidden) &&
      forall piece | piece in pieces :: !Contains(piece, password.value)
  {
    if TruthyStr(password) {
      ReplaceEveryOccurrence(content, password.value, Hidden);
    }
  }

  /**
   * The prompt loop for one key, showing `msg` for each attempt and starting at
   * answer `start`: it ends with the value `Ask` gives and the index of the next
   * answer, or is canceled when the answers run out.
   */
  method PromptFor(msg: string, existing: Option<string>, answers: seq<string>, start: nat)
    returns (value: Option<string>, next: nat, shown: seq<string>, canceled: bool)
    requires start <= |answers|
    ensures canceled <==> Ask(existing, answers, start).None?
    ensures canceled ==> next == |answers| && shown == Repeat(msg, |answers| - start + 1)
    ensures !canceled ==> Ask(existing, answers, start) == Some(Answer(value, next)) && shown == Repeat(msg, next - start)
  {
    var validInput := false;
    value := existing;
    next := start;
    shown := [];
    while !validInput
      invariant start <= next <= |answers|
      invariant shown == Repeat(msg, next - start)
      invariant !validInput ==> value == existing && Ask(existing, answers, start) == Ask(existing, answers, next)
      invariant validInput ==> Ask(existing, answers, start) == Some(Answer(value, next))
      decreases |answers| - next, !validInput
    {
      if next == |answers| {
        // The user interrupts the prompt.
        shown := shown + [msg];
        assert Repeat(msg, next - start + 1) == Repeat(msg, next - start) + [msg];
        return value, next, shown, true;
      }
      shown := shown + [msg];
      assert Repeat(msg, next + 1 - start) == Repeat(msg, next - start) + [msg];
      var val := answers[next];
      next := next + 1;
      if val != "" {
        validInput := true;
        value := Some(val);
      } else if TruthyStr(existing) {
        validInput := true;
      }
    }
    canceled := false;
  }

  /** One pass of the key loop: prompt for the key when it needs it and record what the user gave. */
  method PromptKey(s: BuildState, k: Key, overwrite: bool, excluded: seq<string>, answers: seq<string>)
    returns (t: BuildState)
    requires !s.canceled && s.used <= |answers|
    ensures t == KeyStep(s, k, overwrite, excluded, answers)
    ensures t.used <= |answers|
  {
    t := s;
    if NeedsPrompt(s.config, k, overwrite, excluded) {
      var existing := Get(s.config, k);
      var msg := PromptMessage(k, existing);
      var value, next, shown, canceled := PromptFor(msg, existing, answers, s.used);
      if canceled {
        t := BuildState(s.config, next, s.prompts + shown, true);
      } else {
        t := BuildState(Set(s.config, k, value), next, s.prompts + shown, false);
      }
    }
  }

  /** The outcome of `build_config_file`: done, or exited with status 1 when the user cancels. */
  datatype BuildOutcome = Done | Exited(code: int)

  /** `ConfigManager`: the configuration in memory and the contents of the configuration file. */
  class ConfigManager {
    var config: Config
    var saved: Option<Config>

    constructor (loaded: Config)
      ensures config == loaded && saved == Some(loaded)
    {
      config := loaded;
      saved := Some(loaded);
    }

    /** `is_valid`: every key not excluded has a value; no exclusions behave like an empty list. */
    method IsValid(excludedKeys: Option<seq<string>>) returns (valid: bool)
      ensures valid <==> Complete(config, Excluded(excludedKeys))
    {
      var excluded := if excludedKeys.None? then [] else excludedKeys.value;
      var missingVals: seq<Key> := [];
      for i := 0 to |ConfigKeys|
        invariant forall k | k in missingVals :: Name(k) !in excluded && Get(config, k).None?
        invariant forall j | 0 <= j < i && Name(ConfigKeys[j]) !in excluded && Get(config, ConfigKeys[j]).None? ::
          ConfigKeys[j] in missingVals
      {
        var k := ConfigKeys[i];
        if Get(config, k).None? && Name(k) !in excluded {
          missingVals := missingVals + [k];
        }
      }
      valid := |missingVals| == 0;
      if !valid {
        assert missingVals[0] in missingVals;
      } else {
        forall k: Key | Name(k) !in excluded
          ensures Get(config, k).Some?
        {
          assert ConfigKeys[KeyIndex(k)] == k;
        }
      }
    }

    /**
     * `build_config_file`: prompt for the keys that need it, taking answers in
     * order, save the configuration when asked to, and log it with the password
     * masked. `dumps` renders a configuration as JSON.
     */
    method BuildConfigFile(overwrite: bool, rewrite: bool, excludedKeys: Option<seq<string>>,
                           answers: seq<string>, dumps: Config -> string)
      returns (outcome: BuildOutcome, prompts: seq<string>, logged: Option<string>)
      modifies this
      ensures var s := Build(old(config), |ConfigKeys|, overwrite, Excluded(excludedKeys), answers);
        && (outcome == Exited(1) <==> s.canceled)
        && (outcome == Done <==> !s.canceled)
        && prompts == s.prompts
        && config == s.config
        && (outcome == Done ==> Complete(config, Excluded(excludedKeys)))
        && saved == (if outcome == Done && rewrite then Some(config) else old(saved))
        && logged == (if outcome == Done then Some(LoggedDumpAsWritten(dumps(config), config.garminPassword)) else None)
    {
      var excluded := Excluded(excludedKeys);
      ghost var c0 := config;
      var pos: nat := 0;
      prompts := [];
      for i := 0 to |ConfigKeys|
        invariant pos <= |answers| && saved == old(saved)
        invariant Build(c0, i, overwrite, excluded, answers) == BuildState(config, pos, prompts, false)
      {
        var step := PromptKey(BuildState(config, pos, prompts, false), ConfigKeys[i], overwrite, excluded, answers);
        prompts := step.prompts;
        if step.canceled {
          BuildCanceledStays(c0, i + 1, |ConfigKeys|, overwrite, excluded, answers);
          return Exited(1), prompts, None;
        }
        config := step.config;
        pos := step.used;
      }
      BuildConfig(c0, overwrite, excluded, answers);
      if rewrite {
        saved := Some(config);
      }
      logged := Some(LoggedDumpAsWritten(dumps(config), config.garminPassword));
      outcome := Done;
    }
  }

  // ---------------------------------------------------------------------------
  // get_fitfiles_path and get_tpv_folder

  /** A word character of a regular expression, over ASCII. */
  predicate IsWordChar(c: char)
  {
    ('a' <= c <= 'z') || ('A' <= c <= 'Z') || ('0' <= c <= '9') || c == '_'
  }

  /** A TrainingPeaks Virtual user folder name: exactly sixteen word characters. */
  predicate IsUserFolder(name: string)
  {
    |name| == 16 && forall i | 0 <= i < |name| :: IsWordChar(name[i])
  }

  /** The user folders of a directory listing, in listing order. */
  function UserFolders(listing: seq<string>): (r: seq<string>)
    ensures forall f :: f in r <==> f in listing && IsUserFolder(f)
  {
    Filter(IsUserFolder, listing)
  }

  /** `PurePath / name`, for a relative name. */
  function JoinPath(dir: string, name: string): string
  {
    dir + "/" + name
  }

  /**
   * The result of `get_fitfiles_path`: a folder, an exit status, or the TypeError
   * of `Path / None` when the selection among several folders is canceled.
   */
  datatype FitfilesResult = Found(path: string) | ExitStatus(code: int) | RaisedTypeError

  /**
   * `get_fitfiles_path` after the TrainingPeaks Virtual folder is known: no user
   * folder exits with status 1; a single one must be confirmed (`"no"` exits with
   * status 1, anything else, a canceled prompt included, accepts it); among
   * several, the folder the user selects is used. `confirm` and `selection` are
   * the answers to the two prompts, `None` when canceled.
   */
  function GetFitfilesPath(tpvPath: string, listing: seq<string>, confirm: Option<string>, selection: Option<string>)
    : (r: FitfilesResult)
    ensures |UserFolders(listing)| == 0 ==> r == ExitStatus(1)
    ensures |UserFolders(listing)| == 1 && confirm == Some("no") ==> r == ExitStatus(1)
    ensures |UserFolders(listing)| == 1 && confirm != Some("no") ==>
      r == Found(JoinPath(JoinPath(tpvPath, UserFolders(listing)[0]), "FITFiles"))
    ensures |UserFolders(listing)| > 1 && selection.Some? ==>
      r == Found(JoinPath(JoinPath(tpvPath, selection.value), "FITFiles"))
    ensures |UserFolders(listing)| > 1 && selection.None? ==> r == RaisedTypeError
    ensures r.Found? && (|UserFolders(listing)| > 1 ==> selection.value in UserFolders(listing)) ==>
      exists f | f in listing && IsUserFolder(f) :: r.path == JoinPath(JoinPath(tpvPath, f), "FITFiles")
  {
    var res := UserFolders(listing);
    if |res| == 0 then ExitStatus(1)
    else if |res| == 1 then
      (if confirm == Some("no") then ExitStatus(1)
       else
         assert res[0] in res;
         Found(JoinPath(JoinPath(tpvPath, res[0]), "FITFiles")))
    else if selection.Some? then Found(JoinPath(JoinPath(tpvPath, selection.value), "FITFiles"))
    else RaisedTypeError
  }

  /**
   * `get_tpv_folder`: a non-empty `TPV_DATA_PATH` wins; otherwise the usual
   * folder on macOS and Windows, and the user's answer on any other platform.
   */
  function GetTpvFolder(tpvDataPath: Option<string>, platform: string, home: string, answer: string): (r: string)
    ensures TruthyStr(tpvDataPath) ==> r == tpvDataPath.value
    ensures !TruthyStr(tpvDataPath) && platform == "darwin" ==> r == home + "/TPVirtual"
    ensures !TruthyStr(tpvDataPath) && platform == "win32" ==> r == home + "/Documents/TPVirtual"
    ensures !TruthyStr(tpvDataPath) && platform != "darwin" && platform != "win32" ==> r == answer
  {
    if TruthyStr(tpvDataPath) then tpvDataPath.value
    else if platform == "darwin" then home + "/TPVirtual"
    else if platform == "win32" then home + "/Documents/TPVirtual"
    else answer
  }

  /** The user's answer is used only when the environment and the platform do not decide. */
  lemma TpvFolderAnswerLast(tpvDataPath: Option<string>, platform: string, home: string, a1: string, a2: string)
    ensures GetTpvFolder(tpvDataPath, platform, home, a1) != GetTpvFolder(tpvDataPath, platform, home, a2) ==>
      !TruthyStr(tpvDataPath) && platform != "darwin" && platform != "win32"
  {}
}
