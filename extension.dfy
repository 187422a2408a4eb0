/**
 * The decisions behind the "create job" and "create pool" commands: which
 * parameter file belongs to a template, which parameter values are already
 * known, the temporary parameter file built from known and prompted values,
 * and the `az batch` command line that is run.
 *
 * The host is made of parameters: the file system is a map from the paths
 * that exist to their text, the editor's open documents are a list of file
 * names and texts, `JSON.parse` is a function from text to a parsed document
 * (None for text that is not JSON), the user's answer to the prompt for a
 * parameter is a function of the parameter (None when the prompt is
 * dismissed), and the name of the temporary file is given.
 */
module Extension {
  import opened Text
  import opened Json
  import opened Batch
  import Path

  // ---------------------------------------------------------------------------
  // getParameterFile

  /** The files tried as the template's parameter file, in the order they are tried. */
  function ParameterFileCandidates(templateFileName: string, resourceType: string, cwd: string): seq<string>
  {
    var templateFileRoot := Path.StripExtension(templateFileName);
    var templateFileDir := Path.Directory(templateFileName, cwd);
    [ templateFileRoot + ".parameters.json",
      templateFileDir + "/" + resourceType + "parameters.json",
      templateFileDir + "/parameters." + resourceType + ".json",
      templateFileDir + "/parameters.json" ]
  }

  /** `candidates.find(s => fs.existsSync(s))`: the first candidate that exists. */
  function FirstExisting(candidates: seq<string>, files: map<string, string>): (r: Option<string>)
    ensures r.None? <==> forall i :: 0 <= i < |candidates| ==> candidates[i] !in files
    ensures r.Some? ==>
      exists i :: 0 <= i < |candidates| && candidates[i] == r.value && r.value in files &&
        (forall j :: 0 <= j < i ==> candidates[j] !in files)
  {
    if candidates == [] then None
    else if candidates[0] in files then Some(candidates[0])
    else
      var r := FirstExisting(candidates[1..], files);
      assert r.Some? ==>
        exists i :: 0 <= i < |candidates| && candidates[i] == r.value && r.value in files &&
          (forall j :: 0 <= j < i ==> candidates[j] !in files)
      by {
        if r.Some? {
          var i :| 0 <= i < |candidates[1..]| && candidates[1..][i] == r.value && r.value in files &&
            forall j :: 0 <= j < i ==> candidates[1..][j] !in files;
          assert candidates[i + 1] == r.value;
          forall j | 0 <= j < i + 1 ensures candidates[j] !in files {
            if j > 0 {
              assert candidates[j] == candidates[1..][j - 1];
            }
          }
        }
      }
      r
  }

  /** An open document of the editor. */
  datatype OpenDocument = OpenDocument(fileName: string, text: string)

  /** The first open document that is the file `name` (by `Path.Equal`). */
  function OpenDocumentFor(docs: seq<OpenDocument>, name: string, win32: bool): (r: Option<OpenDocument>)
    ensures r.Some? ==> r.value in docs && Path.Equal(r.value.fileName, name, win32)
    ensures r.Some? ==>
      exists i :: 0 <= i < |docs| && docs[i] == r.value &&
        (forall j :: 0 <= j < i ==> !Path.Equal(docs[j].fileName, name, win32))
    ensures r.None? ==> forall i :: 0 <= i < |docs| ==> !Path.Equal(docs[i].fileName, name, win32)
  {
    if docs == [] then None
    else if Path.Equal(docs[0].fileName, name, win32) then Some(docs[0])
    else
      var r := OpenDocumentFor(docs[1..], name, win32);
      assert r.Some? ==>
        exists i :: 0 <= i < |docs| && docs[i] == r.value &&
          (forall j :: 0 <= j < i ==> !Path.Equal(docs[j].fileName, name, win32))
      by {
        if r.Some? {
          var i :| 0 <= i < |docs[1..]| && docs[1..][i] == r.value &&
            forall j :: 0 <= j < i ==> !Path.Equal(docs[1..][j].fileName, name, win32);
          assert docs[i + 1] == r.value;
          forall j | 0 <= j < i + 1 ensures !Path.Equal(docs[j].fileName, name, win32) {
            if j > 0 {
              assert docs[j] == docs[1..][j - 1];
            }
          }
        }
      }
      r
  }

  /** What `getParameterFile` reports. */
  datatype ParameterFileInfo = ParameterFileInfo(found: bool, path: string, document: Option<OpenDocument>)

  function ParameterFile(templateFileName: string, resourceType: string, cwd: string,
                         files: map<string, string>, docs: seq<OpenDocument>, win32: bool): ParameterFileInfo
  {
    match FirstExisting(ParameterFileCandidates(templateFileName, resourceType, cwd), files)
    case None => ParameterFileInfo(false, "", None)
    case Some(name) => ParameterFileInfo(true, name, OpenDocumentFor(docs, name, win32))
  }

  /** The parameter file is the first candidate that exists, or none with an
      empty path when no candidate does; a document is attached exactly when
      the found file is open in the editor, and then it is the first open
      document for that file. */
  lemma ParameterFileIsFirstCandidate(templateFileName: string, resourceType: string, cwd: string,
                                      files: map<string, string>, docs: seq<OpenDocument>, win32: bool)
    ensures var info := ParameterFile(templateFileName, resourceType, cwd, files, docs, win32);
      var candidates := ParameterFileCandidates(templateFileName, resourceType, cwd);
      (!info.found <==> forall i :: 0 <= i < 4 ==> candidates[i] !in files) &&
      (!info.found ==> info.path == "" && info.document.None?) &&
      (info.found ==>
        (info.path in files &&
         (exists i :: 0 <= i < 4 && candidates[i] == info.path && forall j :: 0 <= j < i ==> candidates[j] !in files) &&
         (info.document.Some? ==> Path.Equal(info.document.value.fileName, info.path, win32)) &&
         (info.document.None? <==> forall i :: 0 <= i < |docs| ==> !Path.Equal(docs[i].fileName, info.path, win32)) &&
         (info.document.Some? ==>
           exists i :: 0 <= i < |docs| && docs[i] == info.document.value &&
             (forall j :: 0 <= j < i ==> !Path.Equal(docs[j].fileName, info.path, win32)))))
  {
  }

  /** For a template `dir/name.json` the candidates are, in order,
      `dir/name.parameters.json`, `dir/<kind>parameters.json`,
      `dir/parameters.<kind>.json` and `dir/parameters.json`. */
  lemma CandidatesOfJsonFile(dir: string, name: string, resourceType: string, cwd: string)
    requires Path.NoSeparator(name) && '.' !in name
    ensures ParameterFileCandidates(dir + "/" + name + ".json", resourceType, cwd) ==
      [ dir + "/" + name + ".parameters.json",
        dir + "/" + resourceType + "parameters.json",
        dir + "/parameters." + resourceType + ".json",
        dir + "/parameters.json" ]
  {
    var t := dir + "/" + name + ".json";
    JsonFileRoot(dir + "/" + name);
    JsonSuffix();
    Path.NoSeparatorAppend(name, ".json");
    AppendAssociative(dir + "/", name, ".json");
    Path.SlashIsLast(dir, name + ".json");
    assert t[..|dir|] == dir;
  }

  lemma JsonSuffix()
    ensures Path.NoSeparator(".json") && '.' !in "json"
  {
  }

  /** Dropping the extension of `base.json` gives `base`. */
  lemma JsonFileRoot(base: string)
    ensures Path.StripExtension(base + ".json") == base
  {
    JsonSuffix();
    LastIndexOfSnoc(base, '.');
    LastIndexOfAppend(base + ".", "json", '.');
    AppendAssociative(base, ".", "json");
    assert "." + "json" == ".json";
    assert (base + ".json")[..|base|] == base;
  }

  // ---------------------------------------------------------------------------
  // getParameterJson

  /** The text of the parameter file: the open document's, else the file's; `{}`
      when there is no parameter file. None is the exception `readFileSync`
      raises for a file that is gone. */
  function ParameterJson(info: ParameterFileInfo, files: map<string, string>): (r: Option<string>)
    ensures !info.found ==> r == Some("{}")
    ensures info.found && info.document.Some? ==> r == Some(info.document.value.text)
    ensures info.found && info.document.None? ==> (r.Some? <==> info.path in files)
    ensures info.found && info.document.None? && info.path in files ==> r == Some(files[info.path])
  {
    if info.found then
      if info.document.Some? then Some(info.document.value.text)
      else if info.path in files then Some(files[info.path])
      else None
    else Some("{}")
  }

  /** Reading the parameter file that was just found never fails. */
  lemma ParameterJsonOfFoundFile(templateFileName: string, resourceType: string, cwd: string,
                                 files: map<string, string>, docs: seq<OpenDocument>, win32: bool)
    ensures ParameterJson(ParameterFile(templateFileName, resourceType, cwd, files, docs, win32), files).Some?
  {
    ParameterFileIsFirstCandidate(templateFileName, resourceType, cwd, files, docs, win32);
  }

  /** No parameter file means no known parameters. */
  lemma NoParameterFileKnowsNothing(info: ParameterFileInfo, files: map<string, string>, parse: string -> Option<Json>)
    requires !info.found && parse("{}") == Some(JObj([]))
    ensures ParametersOf(parse(ParameterJson(info, files).value)) == []
  {
  }

  // ---------------------------------------------------------------------------
  // isKnownParameter / anyUnknownParameters

  /** `known.findIndex(p => p.name == n)`. */
  function KnownIndex(known: seq<ParameterValue>, n: string): (k: int)
    ensures -1 <= k < |known|
    ensures k >= 0 ==> known[k].name == n
    ensures forall j :: 0 <= j < |known| && (k == -1 || j < k) ==> known[j].name != n
  {
    if known == [] then -1
    else if known[0].name == n then 0
    else
      var k := KnownIndex(known[1..], n);
      assert forall j :: 1 <= j < |known| ==> known[j] == known[1..][j - 1];
      if k == -1 then -1 else k + 1
  }

  predicate IsKnownParameter(known: seq<ParameterValue>, n: string)
  {
    KnownIndex(known, n) >= 0
  }

  /** `parameters.findIndex(p => !isKnownParameter(p.name))`. */
  function UnknownIndex(parameters: seq<TemplateParameter>, known: seq<ParameterValue>): (k: int)
    ensures -1 <= k < |parameters|
    ensures k >= 0 ==> !IsKnownParameter(known, parameters[k].name)
    ensures forall j :: 0 <= j < |parameters| && (k == -1 || j < k) ==> IsKnownParameter(known, parameters[j].name)
  {
    if parameters == [] then -1
    else if !IsKnownParameter(known, parameters[0].name) then 0
    else
      var k := UnknownIndex(parameters[1..], known);
      assert forall j :: 1 <= j < |parameters| ==> parameters[j] == parameters[1..][j - 1];
      if k == -1 then -1 else k + 1
  }

  predicate AnyUnknownParameters(parameters: seq<TemplateParameter>, known: seq<ParameterValue>)
  {
    UnknownIndex(parameters, known) >= 0
  }

  function ParameterNames(parameters: seq<TemplateParameter>): set<string>
  {
    set i | 0 <= i < |parameters| :: parameters[i].name
  }

  function KnownNames(known: seq<ParameterValue>): set<string>
  {
    set i | 0 <= i < |known| :: known[i].name
  }

  /** Some parameter is unknown exactly when the template declares a name the
      known values do not have. */
  lemma AnyUnknownIsMissingName(parameters: seq<TemplateParameter>, known: seq<ParameterValue>)
    ensures AnyUnknownParameters(parameters, known) <==> !(ParameterNames(parameters) <= KnownNames(known))
  {
    if AnyUnknownParameters(parameters, known) {
      var k := UnknownIndex(parameters, known);
      var n := parameters[k].name;
      assert n in ParameterNames(parameters);
      forall i | 0 <= i < |known| ensures known[i].name != n { }
    } else {
      forall n | n in ParameterNames(parameters) ensures n in KnownNames(known) {
        var i :| 0 <= i < |parameters| && parameters[i].name == n;
        var j := KnownIndex(known, n);
        assert known[j].name == n;
      }
    }
  }

  // ---------------------------------------------------------------------------
  // createTempParameterFile

  /** The value used for a parameter: the first known value with its name, even
      a falsy one, else the answer to the prompt. */
  function ValueFor(p: TemplateParameter, known: seq<ParameterValue>, prompt: TemplateParameter -> Option<Json>): (r: Option<Json>)
    ensures (forall i :: 0 <= i < |known| ==> known[i].name != p.name) ==> r == prompt(p)
    ensures forall i :: (0 <= i < |known| && known[i].name == p.name &&
                         (forall j :: 0 <= j < i ==> known[j].name != p.name)) ==> r == Some(known[i].value)
  {
    var k := KnownIndex(known, p.name);
    if k >= 0 then Some(known[k].value) else prompt(p)
  }

  /** The loop of `createTempParameterFile` from the object built so far: each
      parameter's value is stored under its name; the first falsy value
      abandons the file (None). */
  function TempParameters(parameters: seq<TemplateParameter>, known: seq<ParameterValue>,
                          prompt: TemplateParameter -> Option<Json>, parameterObject: Members): Option<Members>
    decreases |parameters|
  {
    if parameters == [] then Some(parameterObject)
    else
      var value := ValueFor(parameters[0], known, prompt);
      if TruthyOpt(value) then
        TempParameters(parameters[1..], known, prompt, Put(parameterObject, parameters[0].name, value.value))
      else None
  }

  /** What `createTempParameterFile` reports: the user gave up, or the file at
      `path` was written with the text of `parameters`. */
  datatype TempFileInfo = Abandoned | Written(path: string, parameters: Members)

  function TempParameterFile(parameters: seq<TemplateParameter>, known: seq<ParameterValue>,
                             prompt: TemplateParameter -> Option<Json>, tempPath: string): TempFileInfo
  {
    match TempParameters(parameters, known, prompt, [])
    case None => Abandoned
    case Some(obj) => Written(tempPath, obj)
  }

  method CreateTempParameterFile(template: BatchResource, knownParameters: seq<ParameterValue>,
                                 prompt: TemplateParameter -> Option<Json>, tempPath: string) returns (r: TempFileInfo)
    ensures r == TempParameterFile(template.parameters, knownParameters, prompt, tempPath)
  {
    var parameterObject: Members := [];
    var ps := template.parameters;
    for i := 0 to |ps|
      invariant TempParameters(ps[i..], knownParameters, prompt, parameterObject) ==
                TempParameters(ps, knownParameters, prompt, [])
    {
      assert ps[i..][0] == ps[i] && ps[i..][1..] == ps[i + 1..];
      var p := ps[i];
      var k := KnownIndex(knownParameters, p.name);
      var value := if k >= 0 then Some(knownParameters[k].value) else prompt(p);
      if TruthyOpt(value) {
        parameterObject := Put(parameterObject, p.name, value.value);
      } else {
        return Abandoned;
      }
    }
    return Written(tempPath, parameterObject);
  }

  /** No two parameters of a template share a name (they are the keys of one object). */
  predicate DistinctNames(parameters: seq<TemplateParameter>)
  {
    forall i, j :: 0 <= i < j < |parameters| ==> parameters[i].name != parameters[j].name
  }

  /** The member stored for a parameter whose value is truthy. */
  function Entry(p: TemplateParameter, known: seq<ParameterValue>, prompt: TemplateParameter -> Option<Json>): (string, Json)
  {
    (p.name, match ValueFor(p, known, prompt) case Some(v) => v case None => JNull)
  }

  /** The members for every parameter, in order. */
  function Entries'(parameters: seq<TemplateParameter>, known: seq<ParameterValue>,
                    prompt: TemplateParameter -> Option<Json>): (r: Members)
    ensures |r| == |parameters|
    ensures forall i :: 0 <= i < |parameters| ==> r[i] == Entry(parameters[i], known, prompt)
  {
    if parameters == [] then []
    else
      var r := [Entry(parameters[0], known, prompt)] + Entries'(parameters[1..], known, prompt);
      assert forall i :: 1 <= i < |parameters| ==> parameters[i] == parameters[1..][i - 1];
      r
  }

  /** The loop stops early exactly when the value for some parameter is falsy,
      whatever has been built so far. */
  lemma {:induction false} TempParametersAbandon(parameters: seq<TemplateParameter>, known: seq<ParameterValue>,
                                                 prompt: TemplateParameter -> Option<Json>, obj: Members)
    ensures TempParameters(parameters, known, prompt, obj).None? <==>
      exists i :: 0 <= i < |parameters| && !TruthyOpt(ValueFor(parameters[i], known, prompt))
    decreases |parameters|
  {
    if parameters != [] {
      var p := parameters[0];
      var rest := parameters[1..];
      var value := ValueFor(p, known, prompt);
      if TruthyOpt(value) {
        TempParametersAbandon(rest, known, prompt, Put(obj, p.name, value.value));
        forall i | 0 <= i < |rest| ensures rest[i] == parameters[i + 1] { }
        if exists i :: 0 <= i < |parameters| && !TruthyOpt(ValueFor(parameters[i], known, prompt)) {
          var i :| 0 <= i < |parameters| && !TruthyOpt(ValueFor(parameters[i], known, prompt));
          assert parameters[i] == rest[i - 1];
        }
      }
    }
  }

  lemma FreshTail(parameters: seq<TemplateParameter>, obj: Members, v: Json)
    requires parameters != [] && DistinctNames(parameters)
    requires forall i :: 0 <= i < |parameters| ==> parameters[i].name !in Keys(obj)
    ensures DistinctNames(parameters[1..])
    ensures forall i :: 0 <= i < |parameters| - 1 ==> parameters[1..][i].name !in Keys(obj + [(parameters[0].name, v)])
  {
    var rest := parameters[1..];
    KeysAppend(obj, (parameters[0].name, v));
    forall i | 0 <= i < |rest| ensures rest[i].name !in Keys(obj + [(parameters[0].name, v)]) {
      assert rest[i] == parameters[i + 1];
    }
    forall i, j | 0 <= i < j < |rest| ensures rest[i].name != rest[j].name {
      assert rest[i] == parameters[i + 1] && rest[j] == parameters[j + 1];
    }
  }

  /** The object the loop builds from `obj`: when no value is falsy, the new
      names are appended in order with their values. */
  lemma {:induction false} TempParametersShape(parameters: seq<TemplateParameter>, known: seq<ParameterValue>,
                                               prompt: TemplateParameter -> Option<Json>, obj: Members)
    requires DistinctNames(parameters)
    requires forall i :: 0 <= i < |parameters| ==> parameters[i].name !in Keys(obj)
    requires TempParameters(parameters, known, prompt, obj).Some?
    ensures TempParameters(parameters, known, prompt, obj) == Some(obj + Entries'(parameters, known, prompt))
    decreases |parameters|
  {
    if parameters != [] {
      var p := parameters[0];
      var rest := parameters[1..];
      var value := ValueFor(p, known, prompt);
      var obj' := Put(obj, p.name, value.value);
      assert p.name !in Keys(obj);
      PutShape(obj, p.name, value.value);
      assert obj' == obj + [(p.name, value.value)];
      FreshTail(parameters, obj, value.value);
      TempParametersShape(rest, known, prompt, obj');
      var e := Entry(p, known, prompt);
      assert e == (p.name, value.value);
      assert Entries'(parameters, known, prompt) == [e] + Entries'(rest, known, prompt);
      AppendAssociative(obj, [e], Entries'(rest, known, prompt));
    } else {
      assert obj + [] == obj;
    }
  }

  /** The temporary file is abandoned exactly when the value for some parameter
      is falsy (a dismissed prompt, or `0`, `false`, `""` or `null`); otherwise it
      maps every parameter's name, in order, to its value, a known value taking
      precedence over the prompt. */
  lemma TempParameterFileContents(parameters: seq<TemplateParameter>, known: seq<ParameterValue>,
                                  prompt: TemplateParameter -> Option<Json>, tempPath: string)
    requires DistinctNames(parameters)
    ensures var r := TempParameterFile(parameters, known, prompt, tempPath);
      (r.Abandoned? <==> exists i :: 0 <= i < |parameters| && !TruthyOpt(ValueFor(parameters[i], known, prompt))) &&
      (r.Written? ==>
        (r.path == tempPath && |r.parameters| == |parameters| &&
         forall i :: 0 <= i < |parameters| ==>
           r.parameters[i].0 == parameters[i].name &&
           Some(r.parameters[i].1) == ValueFor(parameters[i], known, prompt)))
  {
    TempParametersAbandon(parameters, known, prompt, []);
    if TempParameters(parameters, known, prompt, []).Some? {
      TempParametersShape(parameters, known, prompt, []);
      assert [] + Entries'(parameters, known, prompt) == Entries'(parameters, known, prompt);
    }
  }

  /** Reading the temporary file back as a parameter file gives every
      parameter's name and value, in order, so no parameter is unknown any more. */
  lemma TempFileKnowsEveryParameter(parameters: seq<TemplateParameter>, known: seq<ParameterValue>,
                                    prompt: TemplateParameter -> Option<Json>, tempPath: string)
    requires DistinctNames(parameters)
    requires TempParameterFile(parameters, known, prompt, tempPath).Written?
    ensures var written := ParametersOf(Some(JObj(TempParameterFile(parameters, known, prompt, tempPath).parameters)));
      |written| == |parameters| &&
      (forall i :: 0 <= i < |parameters| ==>
        written[i].name == parameters[i].name && Some(written[i].value) == ValueFor(parameters[i], known, prompt)) &&
      !AnyUnknownParameters(parameters, written)
  {
    var obj := TempParameterFile(parameters, known, prompt, tempPath).parameters;
    TempParameterFileContents(parameters, known, prompt, tempPath);
    ParameterValuesShape(obj);
    var written := ParametersOf(Some(JObj(obj)));
    forall i | 0 <= i < |parameters| ensures IsKnownParameter(written, parameters[i].name) {
      assert written[i].name == parameters[i].name;
    }
  }

  // ---------------------------------------------------------------------------
  // createResourceImpl

  /** `commandOptions`: a template is run with its parameter file, plain resource
      JSON on its own. */
  function CommandOptions(isTemplate: bool, fileName: string, parameterFilePath: string): string
  {
    if isTemplate then "--template \"" + fileName + "\" --parameters \"" + parameterFilePath + "\""
    else "--json-file \"" + fileName + "\""
  }

  /** The command line run by the create command. */
  function CommandLine(resourceType: string, commandOptions: string): string
  {
    "az batch " + resourceType + " create " + commandOptions
  }

  function NotATemplateMessage(resourceType: string): string
  {
    "Current file is not an Azure Batch " + resourceType + " template."
  }

  /** What the create command does: shows an error, stops because the user gave
      up on a parameter, or runs a command line (with the contents of the
      temporary parameter file it wrote, if any). */
  datatype CreateOutcome =
    | ShowError(message: string)
    | Cancelled
    | Execute(command: string, tempParameters: Option<Members>)

  /** The host the create command runs against. */
  datatype Host = Host(
    cwd: string,
    files: map<string, string>,
    docs: seq<OpenDocument>,
    win32: bool,
    parse: string -> Option<Json>,
    prompt: TemplateParameter -> Option<Json>,
    tempPath: string)

  /** The known parameter values for a template file: those of its parameter file. */
  function KnownParameters(fileName: string, resourceType: string, host: Host): seq<ParameterValue>
  {
    var info := ParameterFile(fileName, resourceType, host.cwd, host.files, host.docs, host.win32);
    ParameterJsonOfFoundFile(fileName, resourceType, host.cwd, host.files, host.docs, host.win32);
    ParametersOf(host.parse(ParameterJson(info, host.files).value))
  }

  /** `createResourceImpl` for the open document `fileName` with text `text`. */
  function CreateResource(fileName: string, text: string, resourceType: string, host: Host): CreateOutcome
  {
    match BatchTemplate(host.parse(text), resourceType)
    case None => ShowError(NotATemplateMessage(resourceType))
    case Some(templateInfo) => CreateFromTemplate(fileName, resourceType, templateInfo, host)
  }

  /** The create command once the document has been read as `templateInfo`. */
  function CreateFromTemplate(fileName: string, resourceType: string, templateInfo: BatchResource, host: Host): CreateOutcome
  {
    var parameterFile := ParameterFile(fileName, resourceType, host.cwd, host.files, host.docs, host.win32);
    var knownParameters := KnownParameters(fileName, resourceType, host);
    var temp := if AnyUnknownParameters(templateInfo.parameters, knownParameters)
      then Some(TempParameterFile(templateInfo.parameters, knownParameters, host.prompt, host.tempPath))
      else None;
    if temp.Some? && temp.value.Abandoned? then Cancelled
    else
      var parameterFilePath := if temp.Some? then temp.value.path else parameterFile.path;
      var commandOptions := CommandOptions(templateInfo.isTemplate, fileName, parameterFilePath);
      Execute(CommandLine(resourceType, commandOptions),
              if temp.Some? then Some(temp.value.parameters) else None)
  }

  method CreateResourceImpl(fileName: string, text: string, resourceType: string, host: Host) returns (r: CreateOutcome)
    ensures r == CreateResource(fileName, text, resourceType, host)
  {
    var templateInfo := ParseBatchTemplate(host.parse(text), resourceType);
    if templateInfo.None? {
      return ShowError(NotATemplateMessage(resourceType));
    }
    r := CreateFromTemplateImpl(fileName, resourceType, templateInfo.value, host);
  }

  /** The part of `createResourceImpl` after the document has been read. */
  method CreateFromTemplateImpl(fileName: string, resourceType: string, templateInfo: BatchResource, host: Host)
    returns (r: CreateOutcome)
    ensures r == CreateFromTemplate(fileName, resourceType, templateInfo, host)
  {
    var parameterFile := ParameterFile(fileName, resourceType, host.cwd, host.files, host.docs, host.win32);
    ParameterJsonOfFoundFile(fileName, resourceType, host.cwd, host.files, host.docs, host.win32);
    var knownParametersText := ParameterJson(parameterFile, host.files).value;
    var knownParameters := ParseParameters(host.parse(knownParametersText));
    var anyUnknownParameters := UnknownIndex(templateInfo.parameters, knownParameters) >= 0;
    var tempParameterInfo: Option<TempFileInfo> := None;
    if anyUnknownParameters {
      var info := CreateTempParameterFile(templateInfo, knownParameters, host.prompt, host.tempPath);
      tempParameterInfo := Some(info);
    }
    if tempParameterInfo.Some? && tempParameterInfo.value.Abandoned? {
      return Cancelled;
    }
    var parameterFilePath := if tempParameterInfo.Some? then tempParameterInfo.value.path else parameterFile.path;
    var commandOptions := CommandOptions(templateInfo.isTemplate, fileName, parameterFilePath);
    return Execute(CommandLine(resourceType, commandOptions),
                   if tempParameterInfo.Some? then Some(tempParameterInfo.value.parameters) else None);
  }

  /** A document that is not a template of the kind (or not JSON) gets an error
      message and no command. */
  lemma NotATemplateShowsError(fileName: string, text: string, resourceType: string, host: Host)
    requires BatchTemplate(host.parse(text), resourceType).None?
    ensures CreateResource(fileName, text, resourceType, host) == ShowError(NotATemplateMessage(resourceType))
  {
  }

  /** Plain resource JSON is created from the file itself, with no parameter file. */
  lemma PlainResourceCommand(fileName: string, text: string, resourceType: string, host: Host)
    requires BatchTemplate(host.parse(text), resourceType) == Some(BatchResource(false, []))
    ensures CreateResource(fileName, text, resourceType, host) ==
      Execute(CommandLine(resourceType, "--json-file \"" + fileName + "\""), None)
  {
  }

  /** A template whose parameters all have known values is run with the parameter
      file that was found, and no temporary file is written. */
  lemma TemplateWithKnownParameters(fileName: string, text: string, resourceType: string, host: Host)
    requires BatchTemplate(host.parse(text), resourceType).Some?
    requires BatchTemplate(host.parse(text), resourceType).value.isTemplate
    requires !AnyUnknownParameters(BatchTemplate(host.parse(text), resourceType).value.parameters,
                                   KnownParameters(fileName, resourceType, host))
    ensures CreateResource(fileName, text, resourceType, host) ==
      Execute(CommandLine(resourceType, "--template \"" + fileName + "\" --parameters \"" +
        ParameterFile(fileName, resourceType, host.cwd, host.files, host.docs, host.win32).path + "\""), None)
  {
  }

  /** A template with a parameter of unknown value writes the temporary file and
      runs with it, unless the user gives a falsy value for some parameter; the
      file then holds a value for every parameter. */
  lemma TemplateWithUnknownParameters(fileName: string, text: string, resourceType: string, host: Host)
    requires BatchTemplate(host.parse(text), resourceType).Some?
    requires var t := BatchTemplate(host.parse(text), resourceType).value;
      t.isTemplate && AnyUnknownParameters(t.parameters, KnownParameters(fileName, resourceType, host))
    requires DistinctNames(BatchTemplate(host.parse(text), resourceType).value.parameters)
    ensures var t := BatchTemplate(host.parse(text), resourceType).value;
      var known := KnownParameters(fileName, resourceType, host);
      var r := CreateResource(fileName, text, resourceType, host);
      (r.Cancelled? <==> exists i :: 0 <= i < |t.parameters| && !TruthyOpt(ValueFor(t.parameters[i], known, host.prompt))) &&
      (!r.Cancelled? ==>
        (r == Execute(CommandLine(resourceType, "--template \"" + fileName + "\" --parameters \"" + host.tempPath + "\""),
                      r.tempParameters) &&
         r.tempParameters.Some? &&
         !AnyUnknownParameters(t.parameters, ParametersOf(Some(JObj(r.tempParameters.value))))))
  {
    var t := BatchTemplate(host.parse(text), resourceType).value;
    assert CreateResource(fileName, text, resourceType, host) == CreateFromTemplate(fileName, resourceType, t, host);
    UnknownParametersOutcome(fileName, resourceType, t, host);
  }

  lemma UnknownParametersOutcome(fileName: string, resourceType: string, t: BatchResource, host: Host)
    requires t.isTemplate && AnyUnknownParameters(t.parameters, KnownParameters(fileName, resourceType, host))
    requires DistinctNames(t.parameters)
    ensures var known := KnownParameters(fileName, resourceType, host);
      var r := CreateFromTemplate(fileName, resourceType, t, host);
      (r.Cancelled? <==> exists i :: 0 <= i < |t.parameters| && !TruthyOpt(ValueFor(t.parameters[i], known, host.prompt))) &&
      (!r.Cancelled? ==>
        (r == Execute(CommandLine(resourceType, "--template \"" + fileName + "\" --parameters \"" + host.tempPath + "\""),
                      r.tempParameters) &&
         r.tempParameters.Some? &&
         !AnyUnknownParameters(t.parameters, ParametersOf(Some(JObj(r.tempParameters.value))))))
  {
    var known := KnownParameters(fileName, resourceType, host);
    var temp := TempParameterFile(t.parameters, known, host.prompt, host.tempPath);
    TempParameterFileContents(t.parameters, known, host.prompt, host.tempPath);
    if temp.Written? {
      TempFileKnowsEveryParameter(t.parameters, known, host.prompt, host.tempPath);
      assert CreateFromTemplate(fileName, resourceType, t, host) ==
        Execute(CommandLine(resourceType, CommandOptions(true, fileName, host.tempPath)), Some(temp.parameters));
    }
  }
}
