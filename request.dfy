/** How QiniuClient turns a request struct into request parameters (pkg/qiniu/type.go):
    `structToMap` flattens a struct's non-zero fields into a key/value map, and `newReq`
    puts that map into the query string of a GET or the struct's JSON into the body of
    any other method, choosing the Content-Type to match. Signing and sending the
    request are not modelled. */
module QiniuRequest {
  import opened Common

  /** A field of a struct value as reflection sees it: its Go name, the value of its
      `json` tag ("" when it has none), the `%v` rendering of its value, and whether the
      value is its type's zero value. */
  datatype Field = Field(name: string, jsonTag: string, text: string, isZero: bool)

  /** The `data any` argument of newReq: a nil interface, a struct value (with the text
      json.Marshal makes of it), or any other value. */
  datatype Data = Nil | Struct(fields: seq<Field>, json: string) | Other

  /** A built request: verb, URL, the query parameters when a `?` was appended, the body
      when there is one, and the Content-Type header. */
  datatype Request = Request(verb: string, url: string, query: Option<map<string, string>>,
                             body: Option<string>, contentType: string)

  const BaseUrl: string := "https://api.qiniu.com"
  const MethodGet: string := "GET"
  const FormContentType: string := "application/x-www-form-urlencoded"
  const JsonContentType: string := "application/json"

  /** The map key of a field: its json tag, or its Go name when the tag is empty. The tag
      is taken whole; options after a comma are not split off. */
  function Key(f: Field): string {
    if f.jsonTag == "" then f.name else f.jsonTag
  }

  /** The map structToMap builds from `fields`, visiting them in declaration order. */
  function FieldsToMap(fields: seq<Field>): map<string, string> {
    if fields == [] then map[]
    else
      var m := FieldsToMap(fields[..|fields| - 1]);
      var f := fields[|fields| - 1];
      if f.isZero then m else m[Key(f) := f.text]
  }

  /** structToMap (pkg/qiniu/type.go:154-183). */
  method StructToMap(data: Data) returns (r: Result<map<string, string>>)
    ensures !data.Struct? ==> r == Err(NotAStruct)
    ensures data.Struct? ==> r == Ok(FieldsToMap(data.fields))
  {
    if !data.Struct? {
      return Err(NotAStruct);
    }
    var fields := data.fields;
    var result: map<string, string> := map[];
    for i := 0 to |fields|
      invariant result == FieldsToMap(fields[..i])
    {
      assert fields[..i + 1][..i] == fields[..i];
      if !fields[i].isZero {
        result := result[Key(fields[i]) := fields[i].text];
      }
    }
    assert fields[..|fields|] == fields;
    r := Ok(result);
  }

  /** A key is present exactly when some non-zero field carries it. */
  lemma {:induction false} FieldsToMapKeys(fields: seq<Field>, k: string)
    ensures k in FieldsToMap(fields)
        <==> exists i :: 0 <= i < |fields| && !fields[i].isZero && Key(fields[i]) == k
    decreases |fields|
  {
    if fields != [] {
      var init := fields[..|fields| - 1];
      FieldsToMapKeys(init, k);
      assert forall i :: 0 <= i < |init| ==> init[i] == fields[i];
    }
  }

  /** The value under a key is the text of the last non-zero field with that key. */
  lemma {:induction false} FieldsToMapLastWins(fields: seq<Field>, i: nat)
    requires i < |fields| && !fields[i].isZero
    requires forall j :: i < j < |fields| ==> fields[j].isZero || Key(fields[j]) != Key(fields[i])
    ensures Key(fields[i]) in FieldsToMap(fields)
    ensures FieldsToMap(fields)[Key(fields[i])] == fields[i].text
    decreases |fields|
  {
    if i < |fields| - 1 {
      var init := fields[..|fields| - 1];
      assert forall j :: 0 <= j < |init| ==> init[j] == fields[j];
      FieldsToMapLastWins(init, i);
    }
  }

  /** The request newReq builds, before signing and sending. */
  function Build(verb: string, path: string, data: Data): Result<Request> {
    var contentType := if verb == MethodGet then FormContentType else JsonContentType;
    match data
    case Nil => Ok(Request(verb, BaseUrl + path, None, None, contentType))
    case Other => Err(NotAStruct)
    case Struct(fields, json) =>
      if verb == MethodGet then Ok(Request(verb, BaseUrl + path, Some(FieldsToMap(fields)), None, contentType))
      else Ok(Request(verb, BaseUrl + path, None, Some(json), contentType))
  }

  /** newReq (pkg/qiniu/type.go:94-132), up to the point where the request is signed. */
  method NewReq(verb: string, path: string, data: Data) returns (r: Result<Request>)
    ensures r == Build(verb, path, data)
  {
    var query: Option<map<string, string>> := None;
    var body: Option<string> := None;
    if data != Nil {
      var values := StructToMap(data);
      if values.Err? {
        return Err(values.error);
      }
      if verb == MethodGet {
        var params: map<string, string> := map[];
        var todo := values.value.Keys;
        while todo != {}
          invariant todo <= values.value.Keys
          invariant params.Keys == values.value.Keys - todo
          invariant forall k :: k in params ==> params[k] == values.value[k]
          decreases todo
        {
          var k :| k in todo;
          params := params[k := values.value[k]];
          todo := todo - {k};
        }
        assert params == values.value;
        query := Some(params);
      } else {
        body := Some(data.json);
      }
    }
    var contentType := if verb == MethodGet then FormContentType else JsonContentType;
    r := Ok(Request(verb, BaseUrl + path, query, body, contentType));
  }

  /** The verb decides where the parameters go: a GET with a struct carries them in the
      query and no body, any other verb carries the struct's JSON as body and no query,
      nil data carries neither, and anything but a struct or nil is refused whatever the
      verb. The Content-Type follows the verb alone. */
  lemma BuildByMethod(verb: string, path: string, data: Data)
    ensures Build(verb, path, data).Err? <==> data.Other?
    ensures Build(verb, path, data).Err? ==> Build(verb, path, data).error == NotAStruct
    ensures Build(verb, path, data).Ok? ==> var q := Build(verb, path, data).value;
      && q.verb == verb && q.url == BaseUrl + path
      && (q.query.Some? <==> data.Struct? && verb == MethodGet)
      && (q.body.Some? <==> data.Struct? && verb != MethodGet)
      && (q.query.Some? ==> forall k :: k in q.query.value <==>
            exists i :: 0 <= i < |data.fields| && !data.fields[i].isZero && Key(data.fields[i]) == k)
      && (q.body.Some? ==> q.body.value == data.json)
      && (q.contentType == FormContentType <==> verb == MethodGet)
  {
    if data.Struct? && verb == MethodGet {
      forall k ensures k in FieldsToMap(data.fields) <==>
          exists i :: 0 <= i < |data.fields| && !data.fields[i].isZero && Key(data.fields[i]) == k {
        FieldsToMapKeys(data.fields, k);
      }
    }
  }

  /** The listing request of GetDomainList (pkg/qiniu/qiniu.go:25): `?limit=1000`. */
  lemma DomainListQuery()
    ensures Build(MethodGet, "/domain", Struct([Field("Limit", "limit", "1000", false)], "{\"limit\":1000}"))
         == Ok(Request(MethodGet, BaseUrl + "/domain", Some(map["limit" := "1000"]), None, FormContentType))
  {
    var fs := [Field("Limit", "limit", "1000", false)];
    assert fs[..0] == [];
  }

  /** The ForceHTTPS request (pkg/qiniu/qiniu.go:94-98) as a query map would hold it: both
      flags are false, the zero value, so only the certificate id survives. */
  lemma ForceHttpsFlagsDropped(certId: string)
    requires certId != ""
    ensures FieldsToMap([Field("CertId", "certid", certId, false),
                         Field("ForceHttps", "forceHttps", "false", true),
                         Field("Http2Enable", "http2Enable", "false", true)])
         == map["certid" := certId]
  {
    var fs := [Field("CertId", "certid", certId, false),
               Field("ForceHttps", "forceHttps", "false", true),
               Field("Http2Enable", "http2Enable", "false", true)];
    assert fs[..1][..0] == [];
    assert FieldsToMap(fs[..1]) == map["certid" := certId];
    assert fs[..2][..1] == fs[..1];
    assert FieldsToMap(fs[..2]) == FieldsToMap(fs[..1]);
  }
}
