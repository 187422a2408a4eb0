/**
 * Reading Azure Batch template documents: deciding whether a parsed JSON
 * document is a job or pool template, extracting its parameter
 * declarations, and extracting the name/value pairs of a parameter file.
 *
 * `JSON.parse` is not modelled: a document is the parsed value, or None
 * when the text is not JSON (the `SyntaxError` the parser throws). Every
 * exception raised while reading the document is caught the same way,
 * because the `catch` clause names no type.
 */
module Batch {
  import opened Text
  import opened Json

  /** A parameter declared in a template's `parameters` section. The fields are
      the declaration's own members, copied as they are (None: absent). */
  datatype TemplateParameter = TemplateParameter(
    name: string,
    dataType: Option<Json>,
    defaultValue: Option<Json>,
    allowedValues: Option<Json>,
    metadata: Option<Json>)

  /** The outcome of reading a document as a job or pool: a template and its
      parameters, or plain resource JSON. */
  datatype BatchResource = BatchResource(isTemplate: bool, parameters: seq<TemplateParameter>)

  /** One entry of a parameter file. */
  datatype ParameterValue = ParameterValue(name: string, value: Json)

  /** The collection name of a resource kind; None is the `throw` for any other kind. */
  function Plural(kind: string): (r: Option<string>)
    ensures r.Some? <==> kind == "job" || kind == "pool"
    ensures r.Some? ==> r.value == kind + "s"
  {
    if kind == "job" then Some("jobs")
    else if kind == "pool" then Some("pools")
    else None
  }

  const ResourceTypePrefix: string := "Microsoft.Batch/batchAccounts/"

  /** The `type` a template of this kind declares for its resource. */
  function ResourceType(plural: string): string
  {
    ResourceTypePrefix + plural
  }

  /** JavaScript's loose `v == t` for a text `t` that contains no comma and does
      not read as a number: a string equal to `t`, or an array whose only element
      is loosely equal to `t` (an array compares by its comma-joined text). */
  predicate LooseEqualsText(v: Json, t: string)
  {
    match v
    case JStr(s) => s == t
    case JArr(items) => |items| == 1 && LooseEqualsText(items[0], t)
    case _ => false
  }

  /** `looksLikeTemplate`: the member named after the kind is truthy and has a
      truthy `type` and a truthy `properties`, and the type names the kind's
      collection. None is the exception an unknown kind raises once the
      comparison is reached. */
  function LooksLikeTemplate(json: Json, kind: string): Option<bool>
  {
    var decl := Get(json, kind);
    if !TruthyOpt(decl) then Some(false)
    else
      var declType := Get(decl.value, "type");
      if TruthyOpt(declType) && TruthyOpt(Get(decl.value, "properties")) then
        match Plural(kind)
        case None => None
        case Some(plural) => Some(LooseEqualsText(declType.value, ResourceType(plural)))
      else Some(false)
  }

  /** The parameter a declaration `pval` under key `name` describes. */
  function ParameterOf(name: string, pval: Json): TemplateParameter
  {
    TemplateParameter(name, Get(pval, "type"), Get(pval, "defaultValue"), Get(pval, "allowedValues"), Get(pval, "metadata"))
  }

  /** The parameters declared by the members `ms`, in order; None when a
      declaration is `null`, whose fields cannot be read. */
  function TemplateParameters(ms: Members): Option<seq<TemplateParameter>>
  {
    if ms == [] then Some([])
    else
      match TemplateParameters(ms[..|ms| - 1])
      case None => None
      case Some(init) =>
        var last := ms[|ms| - 1];
        if last.1 == JNull then None else Some(init + [ParameterOf(last.0, last.1)])
  }

  /** `json.parameters || []`. */
  function ParametersSection(json: Json): Json
  {
    var p := Get(json, "parameters");
    if TruthyOpt(p) then p.value else JArr([])
  }

  /** `parseTemplateCore` as a function of the document. */
  function TemplateCore(json: Json): Option<BatchResource>
  {
    match TemplateParameters(Entries(ParametersSection(json)))
    case None => None
    case Some(ps) => Some(BatchResource(true, ps))
  }

  /** `parseBatchTemplate` as a function of the parsed document: None is `null`. */
  function BatchTemplate(doc: Option<Json>, kind: string): Option<BatchResource>
  {
    if doc.None? || !Truthy(doc.value) then None
    else
      match LooksLikeTemplate(doc.value, kind)
      case None => None
      case Some(looks) => if looks then TemplateCore(doc.value) else Some(BatchResource(false, []))
  }

  /** `parseTemplateCore`: one parameter pushed per member of the parameters section. */
  method ParseTemplateCore(json: Json) returns (r: Option<BatchResource>)
    ensures r == TemplateCore(json)
  {
    var parameters: seq<TemplateParameter> := [];
    var members := Entries(ParametersSection(json));
    for i := 0 to |members|
      invariant TemplateParameters(members[..i]) == Some(parameters)
    {
      var (p, pval) := members[i];
      assert members[..i + 1][..i] == members[..i];
      if pval == JNull {
        TemplateParametersDefined(members);
        return None;
      }
      parameters := parameters + [TemplateParameter(p, Get(pval, "type"), Get(pval, "defaultValue"),
                                                     Get(pval, "allowedValues"), Get(pval, "metadata"))];
    }
    assert members[..|members|] == members;
    return Some(BatchResource(true, parameters));
  }

  /** `parseBatchTemplate`. */
  method ParseBatchTemplate(doc: Option<Json>, kind: string) returns (r: Option<BatchResource>)
    ensures r == BatchTemplate(doc, kind)
  {
    if doc.None? {
      return None;
    }
    var jobject := doc.value;
    if !Truthy(jobject) {
      return None;
    }
    var looks := LooksLikeTemplate(jobject, kind);
    if looks.None? {
      return None;
    }
    if looks.value {
      r := ParseTemplateCore(jobject);
      return;
    }
    return Some(BatchResource(false, []));
  }

  /** The entries of a parameter file, in enumeration order. */
  function ParameterValues(ms: Members): seq<ParameterValue>
  {
    if ms == [] then [] else ParameterValues(ms[..|ms| - 1]) + [ParameterValue(ms[|ms| - 1].0, ms[|ms| - 1].1)]
  }

  /** `parseParameters` as a function of the parsed document. */
  function ParametersOf(doc: Option<Json>): seq<ParameterValue>
  {
    if doc.None? || !Truthy(doc.value) then [] else ParameterValues(Entries(doc.value))
  }

  /** `parseParametersCore`: one entry pushed per member of the document. */
  method ParseParametersCore(json: Json) returns (r: seq<ParameterValue>)
    ensures r == ParameterValues(Entries(json))
  {
    var parameters: seq<ParameterValue> := [];
    var members := Entries(json);
    for i := 0 to |members|
      invariant parameters == ParameterValues(members[..i])
    {
      assert members[..i + 1][..i] == members[..i];
      parameters := parameters + [ParameterValue(members[i].0, members[i].1)];
    }
    assert members[..|members|] == members;
    return parameters;
  }

  /** `parseParameters`: nothing for text that is not JSON or is a falsy value. */
  method ParseParameters(doc: Option<Json>) returns (r: seq<ParameterValue>)
    ensures r == ParametersOf(doc)
  {
    if doc.None? {
      return [];
    }
    var jobject := doc.value;
    if !Truthy(jobject) {
      return [];
    }
    r := ParseParametersCore(jobject);
  }

  // ---------------------------------------------------------------------------
  // Properties

  /** Reading the declarations fails exactly when one of them is `null`; otherwise
      there is one parameter per member, named by its key, in the same order,
      with its fields copied from the declaration. */
  lemma {:induction false} TemplateParametersDefined(ms: Members)
    ensures TemplateParameters(ms).Some? <==> forall i :: 0 <= i < |ms| ==> ms[i].1 != JNull
    ensures TemplateParameters(ms).Some? ==>
      |TemplateParameters(ms).value| == |ms| &&
      forall i :: 0 <= i < |ms| ==> TemplateParameters(ms).value[i] == ParameterOf(ms[i].0, ms[i].1)
    decreases |ms|
  {
    if ms != [] {
      var init := ms[..|ms| - 1];
      TemplateParametersDefined(init);
      assert forall i :: 0 <= i < |init| ==> init[i] == ms[i];
    }
  }

  /** A plain resource document carries no parameters. */
  lemma NotATemplateHasNoParameters(doc: Option<Json>, kind: string)
    requires BatchTemplate(doc, kind).Some? && !BatchTemplate(doc, kind).value.isTemplate
    ensures BatchTemplate(doc, kind).value.parameters == []
  {
  }

  /** For a known kind, a truthy document never makes the template test throw.
      One whose member named after the kind is missing, lacks a truthy `type` or
      `properties`, or declares another type reads as a non-template with no
      parameters; `null` comes only from a template with a `null` declaration. */
  lemma KnownKindOutcome(json: Json, kind: string)
    requires kind == "job" || kind == "pool"
    requires Truthy(json)
    ensures LooksLikeTemplate(json, kind).Some?
    ensures !(TruthyOpt(Get(json, kind)) &&
              TruthyOpt(Get(Get(json, kind).value, "type")) &&
              TruthyOpt(Get(Get(json, kind).value, "properties")) &&
              LooseEqualsText(Get(Get(json, kind).value, "type").value, ResourceType(kind + "s"))) ==>
      BatchTemplate(Some(json), kind) == Some(BatchResource(false, []))
    ensures LooksLikeTemplate(json, kind) == Some(false) ==> BatchTemplate(Some(json), kind) == Some(BatchResource(false, []))
    ensures BatchTemplate(Some(json), kind) == None <==>
      (LooksLikeTemplate(json, kind) == Some(true) &&
       exists i :: 0 <= i < |Entries(ParametersSection(json))| && Entries(ParametersSection(json))[i].1 == JNull)
  {
    TemplateParametersDefined(Entries(ParametersSection(json)));
  }

  /** Text that is not JSON, and JSON whose value is falsy, give `null`. */
  lemma NotJsonIsNull(doc: Option<Json>, kind: string)
    requires doc.None? || !Truthy(doc.value)
    ensures BatchTemplate(doc, kind) == None
  {
  }

  /** A template's parameters are its parameters section's members, in order, one
      per key, each copying the declaration's fields. */
  lemma TemplateParametersAreDeclarations(json: Json, kind: string)
    requires BatchTemplate(Some(json), kind).Some? && BatchTemplate(Some(json), kind).value.isTemplate
    ensures var ms := Entries(ParametersSection(json));
      var ps := BatchTemplate(Some(json), kind).value.parameters;
      |ps| == |ms| && forall i :: 0 <= i < |ms| ==> ps[i] == ParameterOf(ms[i].0, ms[i].1)
  {
    TemplateParametersDefined(Entries(ParametersSection(json)));
  }

  /** For a known kind, a document is read as a template exactly when it is an
      object whose member named after the kind has a truthy `type`, loosely equal
      to the kind's resource type, and a truthy `properties`, and none of its
      parameter declarations is `null`. */
  lemma IsTemplateExactly(json: Json, kind: string)
    requires kind == "job" || kind == "pool"
    ensures (BatchTemplate(Some(json), kind).Some? && BatchTemplate(Some(json), kind).value.isTemplate) <==>
      (json.JObj? && TruthyOpt(Get(json, kind)) &&
       TruthyOpt(Get(Get(json, kind).value, "type")) &&
       TruthyOpt(Get(Get(json, kind).value, "properties")) &&
       LooseEqualsText(Get(Get(json, kind).value, "type").value, ResourceType(kind + "s")) &&
       forall i :: 0 <= i < |Entries(ParametersSection(json))| ==> Entries(ParametersSection(json))[i].1 != JNull)
  {
    TemplateParametersDefined(Entries(ParametersSection(json)));
  }

  /** An unknown kind gives `null` exactly when reading reaches the type comparison. */
  lemma UnknownKind(json: Json, kind: string)
    requires kind != "job" && kind != "pool" && Truthy(json)
    ensures BatchTemplate(Some(json), kind) == None <==>
      (TruthyOpt(Get(json, kind)) &&
       TruthyOpt(Get(Get(json, kind).value, "type")) &&
       TruthyOpt(Get(Get(json, kind).value, "properties")))
    ensures BatchTemplate(Some(json), kind) != None ==> BatchTemplate(Some(json), kind) == Some(BatchResource(false, []))
  {
  }

  /** The template document for a kind: its resource with the kind's type and a
      body, and the parameter declarations `decls`. */
  function TemplateDocument(kind: string, body: Json, decls: Members): Json
    requires kind == "job" || kind == "pool"
  {
    JObj([("parameters", JObj(decls)),
          (kind, JObj([("type", JStr(ResourceType(kind + "s"))), ("properties", body)]))])
  }

  /** A document whose member named after a known kind declares that kind's
      resource type and a truthy body looks like a template. */
  lemma OwnTypeLooksLikeTemplate(json: Json, kind: string, resource: Json)
    requires kind == "job" || kind == "pool"
    requires Get(json, kind) == Some(resource) && resource.JObj?
    requires Get(resource, "type") == Some(JStr(ResourceType(kind + "s")))
    requires TruthyOpt(Get(resource, "properties"))
    ensures LooksLikeTemplate(json, kind) == Some(true)
  {
    assert |ResourceType(kind + "s")| > 0;
  }

  /** A template document looks like a template and its parameters section is `decls`. */
  lemma TemplateDocumentRead(kind: string, body: Json, decls: Members)
    requires kind == "job" || kind == "pool"
    requires Truthy(body)
    ensures BatchTemplate(Some(TemplateDocument(kind, body, decls)), kind) == TemplateCore(TemplateDocument(kind, body, decls))
    ensures Entries(ParametersSection(TemplateDocument(kind, body, decls))) == decls
  {
    var doc := TemplateDocument(kind, body, decls);
    var resource := JObj([("type", JStr(ResourceType(kind + "s"))), ("properties", body)]);
    assert doc == JObj([("parameters", JObj(decls))] + [(kind, resource)]);
    GetSkip("parameters", JObj(decls), [(kind, resource)], kind);
    GetFirst(kind, resource, []);
    GetFirst("type", JStr(ResourceType(kind + "s")), [("properties", body)]);
    GetSkip("type", JStr(ResourceType(kind + "s")), [("properties", body)], "properties");
    GetFirst("properties", body, []);
    OwnTypeLooksLikeTemplate(doc, kind, resource);
    LooksLikeTemplateReadsCore(doc, kind);
    GetFirst("parameters", JObj(decls), [(kind, resource)]);
  }

  /** Reading a template document gives back exactly its declarations. */
  lemma TemplateDocumentRoundTrip(kind: string, body: Json, decls: Members)
    requires kind == "job" || kind == "pool"
    requires Truthy(body)
    requires forall i :: 0 <= i < |decls| ==> decls[i].1 != JNull
    ensures BatchTemplate(Some(TemplateDocument(kind, body, decls)), kind).Some?
    ensures var r := BatchTemplate(Some(TemplateDocument(kind, body, decls)), kind).value;
      r.isTemplate && |r.parameters| == |decls| &&
      forall i :: 0 <= i < |decls| ==> r.parameters[i] == ParameterOf(decls[i].0, decls[i].1)
  {
    TemplateDocumentRead(kind, body, decls);
    TemplateParametersDefined(decls);
  }

  /** A template without a parameters section has no parameters. */
  lemma TemplateWithoutParameters(kind: string, body: Json)
    requires kind == "job" || kind == "pool"
    requires Truthy(body)
    ensures BatchTemplate(Some(JObj([(kind, JObj([("type", JStr(ResourceType(kind + "s"))), ("properties", body)]))])), kind)
         == Some(BatchResource(true, []))
  {
    var resource := JObj([("type", JStr(ResourceType(kind + "s"))), ("properties", body)]);
    var doc := JObj([(kind, resource)]);
    assert Get(doc, kind) == Some(resource);
    assert Get(resource, "type") == Some(JStr(ResourceType(kind + "s")));
    assert Get(resource, "properties") == Some(body);
    assert Get(doc, "parameters") == None;
  }

  /** A plain job document (no `type`/`properties` wrapper) is plain JSON, not `null`. */
  lemma PlainJobIsNotATemplate()
    ensures BatchTemplate(Some(JObj([("id", JStr("wonderjob")),
                                     ("poolInfo", JObj([("poolId", JStr("wonderpool"))]))])), "job")
         == Some(BatchResource(false, []))
  {
  }

  /** One entry per member of a parameter file, in order, named by its key and holding its value. */
  lemma {:induction false} ParameterValuesShape(ms: Members)
    ensures |ParameterValues(ms)| == |ms|
    ensures forall i :: 0 <= i < |ms| ==> ParameterValues(ms)[i] == ParameterValue(ms[i].0, ms[i].1)
    decreases |ms|
  {
    if ms != [] {
      var init := ms[..|ms| - 1];
      ParameterValuesShape(init);
      assert forall i :: 0 <= i < |init| ==> init[i] == ms[i];
    }
  }

  /** Every member of a parameter file is reported under its key with its value,
      and no name is reported twice. */
  lemma ParametersOfObject(ms: Members, k: string)
    requires DistinctKeys(ms) && k in Keys(ms)
    ensures var ps := ParametersOf(Some(JObj(ms)));
      (exists i :: 0 <= i < |ps| && ps[i].name == k && Some(ps[i].value) == Lookup(ms, k)) &&
      forall i, j :: 0 <= i < j < |ps| ==> ps[i].name != ps[j].name
  {
    ParameterFound(ms, k);
    ParameterNamesDistinct(ms);
  }

  lemma ParameterFound(ms: Members, k: string)
    requires DistinctKeys(ms) && k in Keys(ms)
    ensures var ps := ParametersOf(Some(JObj(ms)));
      exists i :: 0 <= i < |ps| && ps[i].name == k && Some(ps[i].value) == Lookup(ms, k)
  {
    var ps := ParametersOf(Some(JObj(ms)));
    assert ps == ParameterValues(ms);
    ParameterValuesShape(ms);
    KeysAt(ms, k);
    var i :| 0 <= i < |ms| && ms[i].0 == k;
    LookupAt(ms, i);
    assert ps[i] == ParameterValue(ms[i].0, ms[i].1);
  }

  lemma ParameterNamesDistinct(ms: Members)
    requires DistinctKeys(ms)
    ensures var ps := ParametersOf(Some(JObj(ms)));
      forall i, j :: 0 <= i < j < |ps| ==> ps[i].name != ps[j].name
  {
    assert ParametersOf(Some(JObj(ms))) == ParameterValues(ms);
    ParameterValuesShape(ms);
  }

  /** The parameter declarations of the job template in the extension's own test suite. */
  function SampleDeclarations(): Members
  {
    [("jobId", JObj([("type", JStr("string")),
                     ("metadata", JObj([("description", JStr("The id of the Batch job"))]))])),
     ("poolId", JObj([("type", JStr("string")),
                      ("metadata", JObj([("description", JStr("The id of the Batch pool on which to run the job"))]))])),
     ("testDefaulted", JObj([("type", JStr("string")), ("defaultValue", JStr("mydef"))])),
     ("testAllowed", JObj([("type", JStr("string")),
                           ("allowedValues", JArr([JStr("alpha"), JStr("bravo"), JStr("charlie")]))]))]
  }

  /** The job of that template. */
  function SampleJob(): Json
  {
    JObj([("type", JStr("Microsoft.Batch/batchAccounts/jobs")),
          ("apiVersion", JStr("2016-12-01")),
          ("properties", JObj([("id", JStr("[parameters('jobId')]")),
                               ("poolInfo", JObj([("poolId", JStr("wonderpool"))]))]))])
  }

  /** The job template of the extension's own test suite, as parsed. */
  function SampleJobTemplate(): Json
  {
    JObj([("parameters", JObj(SampleDeclarations())), ("job", SampleJob())])
  }

  lemma SampleJobType()
    ensures ResourceType("jobs") == "Microsoft.Batch/batchAccounts/jobs"
  {
  }

  /** A template shaped like the samples, with the resource's type, API version
      and properties in that order, looks like a template. */
  lemma ResourceShapeLooksLikeTemplate(kind: string, decls: Members, ty: string, api: Json, props: Json)
    requires kind == "job" || kind == "pool"
    requires ty == ResourceType(kind + "s") && Truthy(props)
    ensures LooksLikeTemplate(JObj([("parameters", JObj(decls)),
                                    (kind, JObj([("type", JStr(ty)), ("apiVersion", api), ("properties", props)]))]), kind)
         == Some(true)
  {
    var resource := JObj([("type", JStr(ty)), ("apiVersion", api), ("properties", props)]);
    var doc := JObj([("parameters", JObj(decls)), (kind, resource)]);
    assert "parameters" != kind by { assert |"parameters"| != |kind|; }
    assert doc.members == [("parameters", JObj(decls))] + [(kind, resource)];
    GetSkip("parameters", JObj(decls), [(kind, resource)], kind);
    GetFirst(kind, resource, []);
    assert Get(resource, "type") == Some(JStr(ty));
    var tail := [("properties", props)];
    assert "apiVersion" != "properties" by { assert "apiVersion"[0] != "properties"[0]; }
    assert resource.members == [("type", JStr(ty))] + ([("apiVersion", api)] + tail);
    GetSkip("type", JStr(ty), [("apiVersion", api)] + tail, "properties");
    GetSkip("apiVersion", api, tail, "properties");
    assert tail == tail + [];
    GetFirst("properties", props, []);
    OwnTypeLooksLikeTemplate(doc, kind, resource);
  }

  lemma SampleLooksLikeTemplate()
    ensures LooksLikeTemplate(SampleJobTemplate(), "job") == Some(true)
  {
    SampleJobType();
    assert "job" + "s" == "jobs";
    ResourceShapeLooksLikeTemplate("job", SampleDeclarations(), "Microsoft.Batch/batchAccounts/jobs", JStr("2016-12-01"),
      JObj([("id", JStr("[parameters('jobId')]")), ("poolInfo", JObj([("poolId", JStr("wonderpool"))]))]));
  }

  lemma SampleSection()
    ensures Entries(ParametersSection(SampleJobTemplate())) == SampleDeclarations()
  {
  }

  /** A truthy document that looks like a template is read by `parseTemplateCore`. */
  lemma LooksLikeTemplateReadsCore(doc: Json, kind: string)
    requires Truthy(doc) && LooksLikeTemplate(doc, kind) == Some(true)
    ensures BatchTemplate(Some(doc), kind) == TemplateCore(doc)
  {
  }

  lemma SampleDeclarationsRead()
    ensures TemplateParameters(SampleDeclarations()).Some?
  {
    var ms := SampleDeclarations();
    assert |ms| == 4 && ms[0].1.JObj? && ms[1].1.JObj? && ms[2].1.JObj? && ms[3].1.JObj?;
    TemplateParametersDefined(ms);
  }

  lemma SampleIsTemplate(doc: Json)
    requires doc == SampleJobTemplate()
    ensures TemplateParameters(SampleDeclarations()).Some?
    ensures BatchTemplate(Some(doc), "job") == Some(BatchResource(true, TemplateParameters(SampleDeclarations()).value))
  {
    SampleDeclarationsRead();
    SampleLooksLikeTemplate();
    LooksLikeTemplateReadsCore(doc, "job");
    SampleSection();
  }

  /** The sample reads as a template with its four parameters, in order, their
      types, the metadata description, the default value and the allowed values. */
  lemma SampleJobTemplateParameters(doc: Json)
    requires doc == SampleJobTemplate()
    ensures BatchTemplate(Some(doc), "job").Some?
    ensures var r := BatchTemplate(Some(doc), "job").value;
      r.isTemplate && |r.parameters| == 4 &&
      r.parameters[0].name == "jobId" && r.parameters[0].dataType == Some(JStr("string")) &&
      r.parameters[0].metadata.Some? &&
      Get(r.parameters[0].metadata.value, "description") == Some(JStr("The id of the Batch job")) &&
      r.parameters[2].name == "testDefaulted" && r.parameters[2].defaultValue == Some(JStr("mydef")) &&
      r.parameters[3].name == "testAllowed" &&
      r.parameters[3].allowedValues == Some(JArr([JStr("alpha"), JStr("bravo"), JStr("charlie")]))
  {
    var ms := SampleDeclarations();
    SampleIsTemplate(doc);
    TemplateParametersDefined(ms);
    var ps := TemplateParameters(ms).value;
    assert ps[0] == ParameterOf(ms[0].0, ms[0].1);
    assert ps[2] == ParameterOf(ms[2].0, ms[2].1);
    assert ps[3] == ParameterOf(ms[3].0, ms[3].1);
  }

  /** The parameter declarations of the pool template in the extension's own test suite. */
  function SamplePoolDeclarations(): Members
  {
    [("vmSize", JObj([("type", JStr("string")),
                      ("allowedValues", JArr([JStr("STANDARD_A3"), JStr("STANDARD_A4")])),
                      ("metadata", JObj([("description", JStr("The size of virtual machine to use"))]))]))]
  }

  /** The pool of that template. */
  function SamplePoolProperties(): Json
  {
    JObj([("id", JStr("superduperpool")),
          ("vmSize", JStr("[parameters('vmSize')]")),
          ("targetDedicated", JNum(4.0)),
          ("cloudServiceConfiguration", JObj([("osFamily", JNum(4.0))]))])
  }

  /** The pool template of the extension's own test suite, as parsed. */
  function SamplePoolTemplate(): Json
  {
    JObj([("parameters", JObj(SamplePoolDeclarations())),
          ("pool", JObj([("type", JStr("Microsoft.Batch/batchAccounts/pools")),
                         ("apiVersion", JStr("2016-12-01")),
                         ("properties", SamplePoolProperties())]))])
  }

  lemma SamplePoolType()
    ensures ResourceType("pool" + "s") == "Microsoft.Batch/batchAccounts/pools"
  {
    assert "pool" + "s" == "pools";
  }

  lemma SamplePoolLooksLikeTemplate()
    ensures LooksLikeTemplate(SamplePoolTemplate(), "pool") == Some(true)
  {
    SamplePoolType();
    ResourceShapeLooksLikeTemplate("pool", SamplePoolDeclarations(), "Microsoft.Batch/batchAccounts/pools",
      JStr("2016-12-01"), SamplePoolProperties());
  }

  lemma SamplePoolSection()
    ensures Entries(ParametersSection(SamplePoolTemplate())) == SamplePoolDeclarations()
  {
  }

  lemma SamplePoolDeclarationsRead()
    ensures TemplateParameters(SamplePoolDeclarations()).Some?
  {
    var ms := SamplePoolDeclarations();
    assert |ms| == 1 && ms[0].1.JObj?;
    TemplateParametersDefined(ms);
  }

  lemma SamplePoolIsTemplate(doc: Json)
    requires doc == SamplePoolTemplate()
    ensures TemplateParameters(SamplePoolDeclarations()).Some?
    ensures BatchTemplate(Some(doc), "pool") == Some(BatchResource(true, TemplateParameters(SamplePoolDeclarations()).value))
  {
    SamplePoolDeclarationsRead();
    SamplePoolLooksLikeTemplate();
    LooksLikeTemplateReadsCore(doc, "pool");
    SamplePoolSection();
  }

  /** The pool sample reads as a template with the one parameter `vmSize`, its
      type and its allowed values. */
  lemma SamplePoolTemplateParameters(doc: Json)
    requires doc == SamplePoolTemplate()
    ensures BatchTemplate(Some(doc), "pool").Some?
    ensures var r := BatchTemplate(Some(doc), "pool").value;
      r.isTemplate && |r.parameters| == 1 &&
      r.parameters[0].name == "vmSize" && r.parameters[0].dataType == Some(JStr("string")) &&
      r.parameters[0].allowedValues == Some(JArr([JStr("STANDARD_A3"), JStr("STANDARD_A4")]))
  {
    var ms := SamplePoolDeclarations();
    SamplePoolIsTemplate(doc);
    TemplateParametersDefined(ms);
    var ps := TemplateParameters(ms).value;
    assert ps[0] == ParameterOf(ms[0].0, ms[0].1);
  }
}
