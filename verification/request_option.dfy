/** The CDK's `RequestOption`: where a paginator puts a value on a request,
    and the validation its constructor performs. */
module RequestOptions {
  import opened Wrappers

  /** `RequestOptionType`: each member's value equals its name. */
  datatype OptionType = RequestParameter | Header | Path | BodyData | BodyJson

  function Name(t: OptionType): string
  {
    match t
    case RequestParameter => "request_parameter"
    case Header => "header"
    case Path => "path"
    case BodyData => "body_data"
    case BodyJson => "body_json"
  }

  /** `RequestOptionType[name]`: lookup by member name, `None` where the
      enum raises KeyError. */
  function TypeByName(name: string): (r: Option<OptionType>)
    ensures r.Some? ==> Name(r.value) == name
  {
    if name == "request_parameter" then Some(RequestParameter)
    else if name == "header" then Some(Header)
    else if name == "path" then Some(Path)
    else if name == "body_data" then Some(BodyData)
    else if name == "body_json" then Some(BodyJson)
    else None
  }

  /** Resolving a member's own name gives the member back, so a name is
      found exactly when it names a member. */
  lemma NameRoundTrip(t: OptionType, name: string)
    ensures TypeByName(Name(t)) == Some(t)
    ensures TypeByName(name).Some? <==> exists u :: Name(u) == name
  {
    if exists u :: Name(u) == name {
      var u :| Name(u) == name;
      assert TypeByName(Name(u)) == Some(u);
    }
  }

  /** The option type argument: an enum member, or a string naming one. */
  datatype TypeArg = Given(t: OptionType) | Named(name: string)

  datatype ConstructError = KeyError(key: string) | ValueError(message: string)

  /** A constructed option; the accessors `option_type`, `field_name` and
      `path` are the fields. */
  datatype RequestOption = RequestOption(optionType: OptionType, fieldName: Option<string>, path: Option<string>)

  /** The path stored for a `path` option given no path. */
  const DefaultPath := "{{ next_page_token }}"

  /** Python truthiness of an optional string. */
  predicate Truthy(s: Option<string>)
  {
    s.Some? && s.value != ""
  }

  /** `str()` of an enum member, as the error message renders it. */
  function TypeLabel(t: OptionType): string
  {
    "RequestOptionType." + Name(t)
  }

  function Resolve(arg: TypeArg): Option<OptionType>
  {
    match arg
    case Given(t) => Some(t)
    case Named(name) => TypeByName(name)
  }

  /** `RequestOption.__init__`. */
  function New(arg: TypeArg, fieldName: Option<string>, path: Option<string>): (r: Result<RequestOption, ConstructError>)
    ensures Resolve(arg).None? <==> r.Failure? && r.error.KeyError?
    ensures r.Failure? && r.error.KeyError? ==> arg.Named? && r.error.key == arg.name
    ensures Resolve(arg) == Some(Path) ==>
      if fieldName.Some? then r == Failure(ValueError("RequestOption with path cannot have a field name. Get " + fieldName.value))
      else r.Success? && r.value.path == (if Truthy(path) then path else Some(DefaultPath))
    ensures Resolve(arg).Some? && Resolve(arg) != Some(Path) ==>
      if fieldName.None? || Truthy(path) then r == Failure(ValueError("RequestOption expected field name for type " + TypeLabel(Resolve(arg).value)))
      else r.Success? && r.value.path == path
    ensures r.Success? ==> Some(r.value.optionType) == Resolve(arg) && r.value.fieldName == fieldName
  {
    match Resolve(arg)
    case None => Failure(KeyError(arg.name))
    case Some(t) =>
      if t == Path then
        if fieldName.Some? then Failure(ValueError("RequestOption with path cannot have a field name. Get " + fieldName.value))
        else Success(RequestOption(t, fieldName, if Truthy(path) then path else Some(DefaultPath)))
      else if fieldName.None? || Truthy(path) then
        Failure(ValueError("RequestOption expected field name for type " + TypeLabel(t)))
      else Success(RequestOption(t, fieldName, path))
  }

  /** `is_path`: on a valid option it is decided equally by a missing
      field name or by a non-empty path. */
  function IsPath(o: RequestOption): (r: bool)
    ensures Valid(o) ==> (r <==> o.fieldName.None?)
    ensures Valid(o) ==> (r <==> Truthy(o.path))
  {
    o.optionType == Path
  }

  /** What every constructed option satisfies: a path option has no field
      name and a non-empty path; any other option has a field name and no
      path beyond `None` or `""`. */
  predicate Valid(o: RequestOption)
  {
    if o.optionType == Path then o.fieldName.None? && Truthy(o.path)
    else o.fieldName.Some? && !Truthy(o.path)
  }

  /** Every successful construction is valid, `is_path()` holds exactly for
      the `path` type, and a name argument behaves as its member. */
  lemma ConstructedIsValid(arg: TypeArg, fieldName: Option<string>, path: Option<string>)
    ensures New(arg, fieldName, path).Success? ==> Valid(New(arg, fieldName, path).value)
    ensures New(arg, fieldName, path).Success? ==> (IsPath(New(arg, fieldName, path).value) <==> Resolve(arg) == Some(Path))
    ensures Resolve(arg).Some? ==> New(arg, fieldName, path) == New(Given(Resolve(arg).value), fieldName, path)
  {
  }

  /** Rebuilding a valid option from its accessors gives the same option:
      construction keeps what it is given once it is valid. */
  lemma ReconstructValid(o: RequestOption)
    requires Valid(o)
    ensures New(Given(o.optionType), o.fieldName, o.path) == Success(o)
    ensures New(Named(Name(o.optionType)), o.fieldName, o.path) == Success(o)
  {
    NameRoundTrip(o.optionType, Name(o.optionType));
  }
}
