/** The JSON values the analyzer sends to the inference backend: the
    response schema of `expectedResponseFormat` and the two request bodies.
    `Conforms` evaluates the part of JSON Schema this schema uses (`type`,
    and `properties` one level down), so the schema's meaning can be stated
    and not only its shape. */
module Schema {
  import opened Options

  /** A JSON value; an object is a map from keys to values, as in
      `org.json.JSONObject`, which keeps no key order. */
  datatype Json = Null | Bool(b: bool) | Num(n: int) | Str(s: string) | Arr(items: seq<Json>) | Obj(fields: map<string, Json>)

  const EmptyObject: Json := Obj(map[])

  /** `JSONObject.put`: adds or replaces one key of an object. */
  function Put(o: Json, key: string, value: Json): (r: Json)
    requires o.Obj?
    ensures r.Obj? && r.fields.Keys == o.fields.Keys + {key}
    ensures r.fields[key] == value
    ensures forall k :: k in o.fields && k != key ==> r.fields[k] == o.fields[k]
  {
    Obj(o.fields[key := value])
  }

  /** The two verdict fields the model is asked for. */
  const ResponseKeys: set<string> := {"contains_uac", "should_manually_review"}

  const BooleanType: Json := Obj(map["type" := Str("boolean")])

  /** `expectedResponseFormat`: an object schema whose `properties` declare
      exactly the two verdict fields, each of type boolean. */
  function ExpectedResponseFormat(): (format: Json)
    ensures format.Obj? && format.fields.Keys == {"type", "properties"}
    ensures format.fields["type"] == Str("object")
    ensures format.fields["properties"].Obj?
    ensures format.fields["properties"].fields.Keys == ResponseKeys
    ensures forall k :: k in ResponseKeys ==> format.fields["properties"].fields[k] == BooleanType
  {
    var shouldManuallyReview := Put(EmptyObject, "type", Str("boolean"));
    var containsUac := Put(EmptyObject, "type", Str("boolean"));
    var properties := Put(Put(EmptyObject, "contains_uac", containsUac), "should_manually_review", shouldManuallyReview);
    var format := Put(Put(EmptyObject, "type", Str("object")), "properties", properties);
    assert shouldManuallyReview == BooleanType && containsUac == BooleanType;
    format
  }

  /** The JSON Schema `type` keyword. */
  predicate HasType(v: Json, t: string) {
    match t
    case "boolean" => v.Bool?
    case "object" => v.Obj?
    case "string" => v.Str?
    case "array" => v.Arr?
    case "null" => v.Null?
    case "integer" => v.Num?
    case "number" => v.Num?
    case _ => false
  }

  /** A value satisfies the `type` keyword of a schema (vacuously when the
      schema has none). */
  predicate TypeOk(v: Json, schema: Json) {
    !(schema.Obj? && "type" in schema.fields && schema.fields["type"].Str?) || HasType(v, schema.fields["type"].s)
  }

  /** A value satisfies a schema built from `type` and `properties`: its own
      type matches, and each property the schema declares and the value
      carries matches that property's type. As in JSON Schema, without a
      `required` keyword a declared property may be missing. */
  predicate Conforms(v: Json, schema: Json) {
    && TypeOk(v, schema)
    && (schema.Obj? && "properties" in schema.fields && schema.fields["properties"].Obj? && v.Obj? ==>
          forall k :: k in schema.fields["properties"].fields && k in v.fields ==>
            TypeOk(v.fields[k], schema.fields["properties"].fields[k]))
  }

  /** What the schema admits: exactly the objects whose verdict fields, where
      present, are booleans. Other keys are free and both fields may be
      missing, since the schema lists no required keys. */
  lemma ResponseFormatMeaning(v: Json)
    ensures Conforms(v, ExpectedResponseFormat()) <==>
      v.Obj? && forall k :: k in ResponseKeys && k in v.fields ==> v.fields[k].Bool?
  {
    var f := ExpectedResponseFormat();
    if v.Obj? && forall k :: k in ResponseKeys && k in v.fields ==> v.fields[k].Bool? {
      forall k | k in f.fields["properties"].fields && k in v.fields
        ensures TypeOk(v.fields[k], f.fields["properties"].fields[k])
      {
        assert f.fields["properties"].fields[k] == BooleanType;
      }
    }
    if Conforms(v, f) {
      forall k | k in ResponseKeys && k in v.fields ensures v.fields[k].Bool? {
        assert TypeOk(v.fields[k], f.fields["properties"].fields[k]);
      }
    }
  }

  /** The verdict the prompt asks for conforms; so does the empty object;
      a verdict field holding text does not. */
  lemma ResponseFormatSamples(containsUac: bool, shouldReview: bool)
    ensures Conforms(Obj(map["contains_uac" := Bool(containsUac), "should_manually_review" := Bool(shouldReview)]),
                     ExpectedResponseFormat())
    ensures Conforms(EmptyObject, ExpectedResponseFormat())
    ensures !Conforms(Obj(map["contains_uac" := Str("true")]), ExpectedResponseFormat())
    ensures !Conforms(Arr([]), ExpectedResponseFormat())
  {
    ResponseFormatMeaning(Obj(map["contains_uac" := Bool(containsUac), "should_manually_review" := Bool(shouldReview)]));
    ResponseFormatMeaning(EmptyObject);
    ResponseFormatMeaning(Obj(map["contains_uac" := Str("true")]));
    ResponseFormatMeaning(Arr([]));
  }

  /** The body `pullModel` posts to `/api/pull`: the model, streamed. */
  function PullRequest(model: string): (r: Json)
    ensures r.Obj? && r.fields.Keys == {"model", "stream"}
    ensures r.fields["model"] == Str(model) && r.fields["stream"] == Bool(true)
  {
    Put(Put(EmptyObject, "model", Str(model)), "stream", Bool(true))
  }

  /** What a body of `POST /api/generate` holds: the model, no streaming, a
      prompt, and the response schema as the required format. */
  predicate IsGenerateRequest(r: Json, model: string) {
    && r.Obj? && r.fields.Keys == {"model", "stream", "prompt", "format"}
    && r.fields["model"] == Str(model)
    && r.fields["stream"] == Bool(false)
    && r.fields["prompt"].Str?
    && r.fields["format"] == ExpectedResponseFormat()
  }

  /** The body `queryLLM` builds, one `put` at a time. */
  function GenerateRequest(model: string, prompt: string): (r: Json)
    ensures IsGenerateRequest(r, model) && r.fields["prompt"] == Str(prompt)
  {
    var body := Put(Put(Put(EmptyObject, "model", Str(model)), "stream", Bool(false)), "prompt", Str(prompt));
    Put(body, "format", ExpectedResponseFormat())
  }

  /** `ollama.model` with its default. */
  const DefaultModel := "mistral"

  function ModelName(setting: Option<string>): string {
    setting.GetOr(DefaultModel)
  }
}
