/**
 * Choice of the Gradle distribution URL by the wrapper (WrapperExecutorHook).
 *
 * On a Jenkins agent the URL comes from the "jenkinsDistributionUrl" wrapper property;
 * elsewhere from the "distributionUrl" entry of a config file (JSON or .properties) named
 * by the "configFile" wrapper property and looked up relative to the directory three
 * levels above the wrapper properties file. A candidate is taken only when it looks like
 * a Gradle zip URL; otherwise the original URL stays.
 *
 * Everything the hook asks of its surroundings (the environment variable, file existence,
 * file contents, properties loading and the regular-expression search over the JSON text)
 * is a field of a `Host` value.
 */
module WrapperHook {
  import opened Wrappers

  const ConfigFileKey := "configFile"
  const JenkinsDistributionUrlKey := "jenkinsDistributionUrl"
  const DistributionUrlKey := "distributionUrl"

  /** A properties table. */
  type Properties = map<string, string>

  /** A file path as its sequence of names, the root (if any) first. */
  type File = seq<string>

  datatype Exception = NullPointerException | IOException

  /**
   * The hook's surroundings:
   *  - jenkinsUrl: the JENKINS_URL environment variable;
   *  - fileExists: whether a file exists;
   *  - readAllBytes: a file's text, or None when reading it fails;
   *  - loadProperties: the table a properties file loads into, or the exception that
   *    closing its stream throws;
   *  - findJsonValue: the first capture of the pattern "key":"(\S+)" in a text, if any.
   */
  datatype Host = Host(
    jenkinsUrl: Option<string>,
    fileExists: File -> bool,
    readAllBytes: File -> Option<string>,
    loadProperties: File -> Result<Properties, Exception>,
    findJsonValue: (string, string) -> Option<string>)

  // ---------------------------------------------------------------------------
  // Strings
  // ---------------------------------------------------------------------------

  /** String.trim drops every leading and trailing character at or below the space. */
  predicate IsTrimmed(c: char) {
    c <= ' '
  }

  function TrimLeading(s: string): string {
    if |s| > 0 && IsTrimmed(s[0]) then TrimLeading(s[1..]) else s
  }

  function TrimTrailing(s: string): string {
    if |s| > 0 && IsTrimmed(s[|s| - 1]) then TrimTrailing(s[..|s| - 1]) else s
  }

  function Trim(s: string): string {
    TrimTrailing(TrimLeading(s))
  }

  lemma {:induction false} TrimLeadingEmpty(s: string)
    ensures TrimLeading(s) == [] <==> forall i :: 0 <= i < |s| ==> IsTrimmed(s[i])
  {
    if |s| > 0 && IsTrimmed(s[0]) {
      TrimLeadingEmpty(s[1..]);
      assert forall i :: 1 <= i < |s| ==> s[i] == s[1..][i - 1];
    }
  }

  lemma {:induction false} TrimTrailingEmpty(s: string)
    ensures TrimTrailing(s) == [] <==> forall i :: 0 <= i < |s| ==> IsTrimmed(s[i])
  {
    if |s| > 0 && IsTrimmed(s[|s| - 1]) {
      TrimTrailingEmpty(s[..|s| - 1]);
      assert forall i :: 0 <= i < |s| - 1 ==> s[i] == s[..|s| - 1][i];
    }
  }

  /** Leading trimming keeps every character above the space. */
  lemma {:induction false} TrimLeadingKeeps(s: string, i: nat)
    requires i < |s| && !IsTrimmed(s[i])
    ensures exists j :: 0 <= j < |TrimLeading(s)| && TrimLeading(s)[j] == s[i]
  {
    if IsTrimmed(s[0]) {
      assert s[1..][i - 1] == s[i];
      TrimLeadingKeeps(s[1..], i - 1);
      var j :| 0 <= j < |TrimLeading(s[1..])| && TrimLeading(s[1..])[j] == s[i];
      assert TrimLeading(s)[j] == s[i];
    } else {
      assert TrimLeading(s)[i] == s[i];
    }
  }

  /** A text trims to nothing exactly when every one of its characters is at or below the space. */
  lemma TrimEmpty(s: string)
    ensures |Trim(s)| == 0 <==> forall i :: 0 <= i < |s| ==> IsTrimmed(s[i])
  {
    TrimLeadingEmpty(s);
    var t := TrimLeading(s);
    TrimTrailingEmpty(t);
    if i :| 0 <= i < |s| && !IsTrimmed(s[i]) {
      TrimLeadingKeeps(s, i);
    }
  }

  predicate StartsWith(s: string, prefix: string) {
    prefix <= s
  }

  predicate EndsWith(s: string, suffix: string) {
    |suffix| <= |s| && s[|s| - |suffix|..] == suffix
  }

  /** notEmptyString: present, and not blank once trimmed. */
  predicate NotEmptyString(text: Option<string>) {
    text.Some? && |Trim(text.value)| > 0
  }

  /** isGradleZipUrl: not blank, starting with "http" and ending with ".zip". */
  predicate IsGradleZipUrl(url: Option<string>) {
    NotEmptyString(url) && StartsWith(url.value, "http") && EndsWith(url.value, ".zip")
  }

  /** A text is non-blank exactly when it holds a character above the space. */
  lemma NotEmptyStringMeaning(text: Option<string>)
    ensures NotEmptyString(text) <==> text.Some? && exists i :: 0 <= i < |text.value| && !IsTrimmed(text.value[i])
  {
    if text.Some? {
      TrimEmpty(text.value);
    }
  }

  /** The blankness test inside isGradleZipUrl never decides: a present URL is a Gradle zip
    * URL exactly when it starts with "http" and ends with ".zip". */
  lemma GradleZipUrlMeaning(url: Option<string>)
    ensures IsGradleZipUrl(url) <==> url.Some? && StartsWith(url.value, "http") && EndsWith(url.value, ".zip")
  {
  }

  /** String.replace(" ", ""): the text without its spaces, every other character kept as often. */
  function RemoveSpaces(s: string): (r: string)
    ensures ' ' !in r
    ensures |r| <= |s|
    ensures forall c :: c != ' ' ==> multiset(r)[c] == multiset(s)[c]
    ensures |s| == 1 ==> r == (if s[0] == ' ' then [] else s)
  {
    if |s| == 0 then []
    else
      assert s == [s[0]] + s[1..];
      (if s[0] == ' ' then [] else [s[0]]) + RemoveSpaces(s[1..])
  }

  /** Removing spaces works piecewise, so the kept characters stay in their order. */
  lemma {:induction false} RemoveSpacesAppend(a: string, b: string)
    ensures RemoveSpaces(a + b) == RemoveSpaces(a) + RemoveSpaces(b)
  {
    if |a| > 0 {
      assert (a + b)[1..] == a[1..] + b;
      RemoveSpacesAppend(a[1..], b);
    } else {
      assert a + b == b;
    }
  }

  // ---------------------------------------------------------------------------
  // Properties and files
  // ---------------------------------------------------------------------------

  /** getProperty: the stored value when the key is present, the default otherwise. */
  function GetProperty(properties: Properties, key: string, default: Option<string>): (value: Option<string>)
    ensures key in properties ==> value == Some(properties[key])
    ensures key !in properties ==> value == default
  {
    if key in properties then Some(properties[key]) else default
  }

  /** File.getParentFile: the path without its last name, or none for a single name. */
  function ParentFile(f: File): Option<File> {
    if |f| <= 1 then None else Some(f[..|f| - 1])
  }

  /**
   * rootDir: the parent's parent's parent. The first two steps dereference their result,
   * so a path of fewer than three names throws; the third may give none.
   */
  function RootDir(f: File): (r: Result<Option<File>, Exception>)
    ensures r.Failure? <==> |f| < 3
    ensures r.Failure? ==> r.error == NullPointerException
    ensures |f| == 3 ==> r == Success(None)
    ensures |f| > 3 ==> r == Success(Some(f[..|f| - 3]))
  {
    match ParentFile(f)
    case None => Failure(NullPointerException)
    case Some(first) =>
      match ParentFile(first)
      case None => Failure(NullPointerException)
      case Some(second) =>
        assert second == f[..|f| - 2];
        assert |f| > 3 ==> second[..|second| - 1] == f[..|f| - 3];
        Success(ParentFile(second))
  }

  /** new File(parent, child): the child under the parent, or the child alone without a parent. */
  function ChildFile(parent: Option<File>, child: string): File {
    parent.GetOr([]) + [child]
  }

  /** getContentFromFile: the file's text, or "" when reading it fails. */
  function GetContentFromFile(host: Host, file: File): string {
    host.readAllBytes(file).GetOr("")
  }

  /** getValueInJson: the first capture of "key":"(\S+)" in the text without spaces, or "". */
  function GetValueInJson(host: Host, jsonContent: string, key: string): (value: string)
    ensures host.findJsonValue(RemoveSpaces(jsonContent), key).None? ==> value == ""
    ensures host.findJsonValue(RemoveSpaces(jsonContent), key).Some? ==>
      value == host.findJsonValue(RemoveSpaces(jsonContent), key).value
  {
    match host.findJsonValue(RemoveSpaces(jsonContent), key)
    case Some(v) => v
    case None => ""
  }

  // ---------------------------------------------------------------------------
  // The two sources of a replacement URL
  // ---------------------------------------------------------------------------

  /** getJenkinsDistributionUrl: the "jenkinsDistributionUrl" property when it is a Gradle zip URL. */
  function GetJenkinsDistributionUrl(wrapperProperties: Properties): (url: Option<string>)
    ensures url.Some? <==>
      (JenkinsDistributionUrlKey in wrapperProperties && IsGradleZipUrl(Some(wrapperProperties[JenkinsDistributionUrlKey])))
    ensures url.Some? ==> url.value == wrapperProperties[JenkinsDistributionUrlKey]
  {
    var jenkinsDistributionUrl := GetProperty(wrapperProperties, JenkinsDistributionUrlKey, None);
    if IsGradleZipUrl(jenkinsDistributionUrl) then jenkinsDistributionUrl else None
  }

  /**
   * getModifyDistributionUrl: the "distributionUrl" of the config file named by the
   * "configFile" property, when that name is not blank, the file exists, the name ends in
   * ".json" (and the text is not blank) or ".properties", and the value is a Gradle zip URL.
   * It throws for a non-blank name when the wrapper properties file is too shallow for the
   * root directory, or when loading an existing ".properties" config file throws.
   */
  function GetModifyDistributionUrl(host: Host, wrapperProperties: Properties, wrapperPropertiesFile: File)
    : (r: Result<Option<string>, Exception>)
    ensures r.Success? && r.value.Some? ==> IsGradleZipUrl(r.value)
    ensures !NotEmptyString(GetProperty(wrapperProperties, ConfigFileKey, None)) ==> r == Success(None)
    ensures r.Failure? <==>
      && ConfigFileKey in wrapperProperties && NotEmptyString(Some(wrapperProperties[ConfigFileKey]))
      && (|wrapperPropertiesFile| < 3 ||
          var path := wrapperProperties[ConfigFileKey];
          var file := ConfigFile(wrapperProperties, wrapperPropertiesFile);
          host.fileExists(file) && !EndsWith(path, ".json") && EndsWith(path, ".properties")
          && host.loadProperties(file).Failure?)
    // With a usable config file name, every outcome that does not throw:
    ensures (ConfigFileKey in wrapperProperties && NotEmptyString(Some(wrapperProperties[ConfigFileKey]))
             && |wrapperPropertiesFile| >= 3) ==>
      var path := wrapperProperties[ConfigFileKey];
      var file := ConfigFile(wrapperProperties, wrapperPropertiesFile);
      && (!host.fileExists(file) ==> r == Success(None))
      // a Gradle zip URL found in a non-blank ".json" file is returned, and nothing else
      && (host.fileExists(file) && EndsWith(path, ".json") ==>
            var text := GetContentFromFile(host, file);
            var url := GetValueInJson(host, text, DistributionUrlKey);
            r == if NotEmptyString(Some(text)) && IsGradleZipUrl(Some(url)) then Success(Some(url)) else Success(None))
      // a Gradle zip URL under "distributionUrl" in a loaded ".properties" file is returned
      && (host.fileExists(file) && !EndsWith(path, ".json") && EndsWith(path, ".properties")
          && host.loadProperties(file).Success? ==>
            var url := GetProperty(host.loadProperties(file).value, DistributionUrlKey, None);
            r == if IsGradleZipUrl(url) then Success(url) else Success(None))
      // any other kind of file is ignored
      && (host.fileExists(file) && !EndsWith(path, ".json") && !EndsWith(path, ".properties") ==>
            r == Success(None))
    ensures r.Failure? && |wrapperPropertiesFile| < 3 ==> r.error == NullPointerException
  {
    var configFilePath := GetProperty(wrapperProperties, ConfigFileKey, None);
    if !NotEmptyString(configFilePath) then Success(None)
    else
      match RootDir(wrapperPropertiesFile)
      case Failure(e) => Failure(e)
      case Success(root) =>
        var configFile := ChildFile(root, configFilePath.value);
        if !host.fileExists(configFile) then Success(None)
        else if EndsWith(configFilePath.value, ".json") then
          var jsonContent := GetContentFromFile(host, configFile);
          if NotEmptyString(Some(jsonContent)) then
            var distributionUrl := GetValueInJson(host, jsonContent, DistributionUrlKey);
            if IsGradleZipUrl(Some(distributionUrl)) then Success(Some(distributionUrl)) else Success(None)
          else Success(None)
        else if EndsWith(configFilePath.value, ".properties") then
          match host.loadProperties(configFile)
          case Failure(e) => Failure(e)
          case Success(config) =>
            var distributionUrl := GetProperty(config, DistributionUrlKey, None);
            if IsGradleZipUrl(distributionUrl) then Success(distributionUrl) else Success(None)
        else Success(None)
  }

  /** The config file consulted: the "configFile" name under the wrapper's root directory. */
  function ConfigFile(wrapperProperties: Properties, wrapperPropertiesFile: File): File
    requires ConfigFileKey in wrapperProperties && |wrapperPropertiesFile| >= 3
  {
    ChildFile(RootDir(wrapperPropertiesFile).value, wrapperProperties[ConfigFileKey])
  }

  /**
   * Where a replacement URL found in a config file comes from: a non-blank "configFile"
   * name, a wrapper properties file deep enough for the root directory, an existing file,
   * and either a ".json" name whose non-blank text yields the URL, or a ".properties" name
   * whose loaded table maps "distributionUrl" to it.
   */
  lemma ConfigFileUrlOrigin(host: Host, wrapperProperties: Properties, wrapperPropertiesFile: File)
    requires GetModifyDistributionUrl(host, wrapperProperties, wrapperPropertiesFile).Success?
    requires GetModifyDistributionUrl(host, wrapperProperties, wrapperPropertiesFile).value.Some?
    ensures ConfigFileKey in wrapperProperties && NotEmptyString(Some(wrapperProperties[ConfigFileKey]))
    ensures |wrapperPropertiesFile| >= 3
    ensures var path := wrapperProperties[ConfigFileKey];
      var file := ConfigFile(wrapperProperties, wrapperPropertiesFile);
      var url := GetModifyDistributionUrl(host, wrapperProperties, wrapperPropertiesFile).value.value;
      && host.fileExists(file)
      && (EndsWith(path, ".json") ==>
            NotEmptyString(Some(GetContentFromFile(host, file)))
            && host.findJsonValue(RemoveSpaces(GetContentFromFile(host, file)), DistributionUrlKey) == Some(url))
      && (!EndsWith(path, ".json") ==>
            EndsWith(path, ".properties")
            && host.loadProperties(file).Success?
            && GetProperty(host.loadProperties(file).value, DistributionUrlKey, None) == Some(url))
  {
  }

  // ---------------------------------------------------------------------------
  // modifyDistributionUrlByNeed
  // ---------------------------------------------------------------------------

  /**
   * modifyDistributionUrlByNeed. On Jenkins (JENKINS_URL set): the "jenkinsDistributionUrl"
   * property if it is a Gradle zip URL, else the original URL, without looking at any file.
   * Elsewhere: the config file's URL when the lookup finds one, else the original URL, also
   * when the lookup throws. Either way the result is the original URL or a Gradle zip URL.
   */
  method ModifyDistributionUrlByNeed(host: Host, originDistributionUrl: Option<string>,
                                     wrapperProperties: Properties, wrapperPropertiesFile: File)
    returns (result: Option<string>)
    ensures result == originDistributionUrl || IsGradleZipUrl(result)
    ensures host.jenkinsUrl.Some? ==>
      var property := GetProperty(wrapperProperties, JenkinsDistributionUrlKey, None);
      result == if IsGradleZipUrl(property) then property else originDistributionUrl
    ensures host.jenkinsUrl.None? ==>
      var lookup := GetModifyDistributionUrl(host, wrapperProperties, wrapperPropertiesFile);
      result == if lookup.Success? && lookup.value.Some? then lookup.value else originDistributionUrl
  {
    var isJenkins := host.jenkinsUrl.Some?;
    if isJenkins {
      var jenkinsDistributionUrl := GetJenkinsDistributionUrl(wrapperProperties);
      if IsGradleZipUrl(jenkinsDistributionUrl) {
        return jenkinsDistributionUrl;
      } else {
        return originDistributionUrl;
      }
    }
    result := originDistributionUrl;
    var modifyDistributionUrl := GetModifyDistributionUrl(host, wrapperProperties, wrapperPropertiesFile);
    match modifyDistributionUrl
    case Success(url) =>
      if IsGradleZipUrl(url) {
        result := url;
      }
    case Failure(_) =>
  }
}
