/** KongServiceRequest, the body of a create or update of a Kong service,
    with its bean-validation constraints and builder defaults, and
    KongServiceMapper, the field copy between that request and the Kong
    service record. */
module KongServices {
  import opened Common
  import opened Domain

  /** The request body. Every field is a nullable reference; `tags` is an
      opaque JSON object. */
  datatype KongServiceRequest = KongServiceRequest(
    name: Option<string>,
    url: Option<string>,
    connectTimeout: Option<int>,
    writeTimeout: Option<int>,
    readTimeout: Option<int>,
    retries: Option<int>,
    tags: Option<JsonObject>)

  /** The Kong service record: every field the admin API returns, all
      nullable. */
  datatype KongService = KongService(
    id: Option<string>,
    name: Option<string>,
    url: Option<string>,
    protocol: Option<string>,
    host: Option<string>,
    port: Option<int>,
    path: Option<string>,
    connectTimeout: Option<int>,
    writeTimeout: Option<int>,
    readTimeout: Option<int>,
    retries: Option<int>,
    tags: Option<JsonObject>,
    createdAt: Option<Instant>,
    updatedAt: Option<Instant>)

  const DefaultTimeout: int := 30000
  const DefaultRetries: int := 5
  const MinTimeout: int := 1
  const MaxTimeout: int := 120000
  const MaxRetries: int := 10

  /** One failed constraint of the request. */
  datatype Violation =
    | NameRequired | NamePattern | UrlRequired
    | ConnectTooSmall | ConnectTooLarge
    | WriteTooSmall | WriteTooLarge
    | ReadTooSmall | ReadTooLarge
    | RetriesNegative | RetriesTooLarge

  /** The message each constraint reports. */
  function Message(v: Violation): string {
    match v
    case NameRequired => "Service name is required"
    case NamePattern => "Service name must contain only alphanumeric characters, dots, and hyphens"
    case UrlRequired => "URL is required"
    case ConnectTooSmall => "Connect timeout must be at least 1ms"
    case ConnectTooLarge => "Connect timeout must not exceed 120000ms"
    case WriteTooSmall => "Write timeout must be at least 1ms"
    case WriteTooLarge => "Write timeout must not exceed 120000ms"
    case ReadTooSmall => "Read timeout must be at least 1ms"
    case ReadTooLarge => "Read timeout must not exceed 120000ms"
    case RetriesNegative => "Retries must be non-negative"
    case RetriesTooLarge => "Retries must not exceed 10"
  }

  /** @NotBlank: non-null, and something is left after trimming the
      characters at or below the space. */
  predicate NotBlank(s: Option<string>) {
    s.Some? && exists i :: 0 <= i < |s.value| && s.value[i] > ' '
  }

  /** The character class of the name pattern: letters, digits, dot, hyphen. */
  predicate NameChar(c: char) {
    ('A' <= c <= 'Z') || ('a' <= c <= 'z') || ('0' <= c <= '9') || c == '.' || c == '-'
  }

  /** @Pattern("^[A-Za-z0-9.\\-]+$"): a null value is accepted; otherwise one
      or more characters, all from the class. */
  predicate MatchesNamePattern(s: Option<string>) {
    s.None? || (|s.value| >= 1 && forall i :: 0 <= i < |s.value| ==> NameChar(s.value[i]))
  }

  /** @Min/@Max: a null value is accepted. */
  predicate AtLeast(v: Option<int>, lo: int) { v.None? || v.value >= lo }
  predicate AtMost(v: Option<int>, hi: int) { v.None? || v.value <= hi }

  /** The request as the validator accepts it, one conjunct per annotation. */
  predicate Valid(r: KongServiceRequest): (ok: bool)
    ensures ok ==> r.name.Some? && |r.name.value| >= 1 && r.url.Some? && |r.url.value| >= 1
    ensures ok ==> r.retries.None? || 0 <= r.retries.value <= MaxRetries
  {
    NotBlank(r.name) && MatchesNamePattern(r.name) &&
    NotBlank(r.url) &&
    AtLeast(r.connectTimeout, MinTimeout) && AtMost(r.connectTimeout, MaxTimeout) &&
    AtLeast(r.writeTimeout, MinTimeout) && AtMost(r.writeTimeout, MaxTimeout) &&
    AtLeast(r.readTimeout, MinTimeout) && AtMost(r.readTimeout, MaxTimeout) &&
    AtLeast(r.retries, 0) && AtMost(r.retries, MaxRetries)
  }

  /** Whether the request breaks the constraint `c`. */
  predicate Violates(r: KongServiceRequest, c: Violation) {
    match c
    case NameRequired => !NotBlank(r.name)
    case NamePattern => !MatchesNamePattern(r.name)
    case UrlRequired => !NotBlank(r.url)
    case ConnectTooSmall => !AtLeast(r.connectTimeout, MinTimeout)
    case ConnectTooLarge => !AtMost(r.connectTimeout, MaxTimeout)
    case WriteTooSmall => !AtLeast(r.writeTimeout, MinTimeout)
    case WriteTooLarge => !AtMost(r.writeTimeout, MaxTimeout)
    case ReadTooSmall => !AtLeast(r.readTimeout, MinTimeout)
    case ReadTooLarge => !AtMost(r.readTimeout, MaxTimeout)
    case RetriesNegative => !AtLeast(r.retries, 0)
    case RetriesTooLarge => !AtMost(r.retries, MaxRetries)
  }

  /** The violated constraints, as the validator reports them: none exactly
      when the request is valid. */
  function Violations(r: KongServiceRequest): (v: set<Violation>)
    ensures v == {} <==> Valid(r)
    ensures NameRequired in v <==> !NotBlank(r.name)
    ensures UrlRequired in v <==> !NotBlank(r.url)
    ensures RetriesTooLarge in v <==> r.retries.Some? && r.retries.value > MaxRetries
  {
    var v := set c: Violation | Violates(r, c);
    assert Valid(r) ==> forall c: Violation :: !Violates(r, c);
    assert !Valid(r) ==> exists c: Violation :: Violates(r, c) by {
      if !Valid(r) {
        if !NotBlank(r.name) { assert Violates(r, NameRequired); }
        else if !MatchesNamePattern(r.name) { assert Violates(r, NamePattern); }
        else if !NotBlank(r.url) { assert Violates(r, UrlRequired); }
        else if !AtLeast(r.connectTimeout, MinTimeout) { assert Violates(r, ConnectTooSmall); }
        else if !AtMost(r.connectTimeout, MaxTimeout) { assert Violates(r, ConnectTooLarge); }
        else if !AtLeast(r.writeTimeout, MinTimeout) { assert Violates(r, WriteTooSmall); }
        else if !AtMost(r.writeTimeout, MaxTimeout) { assert Violates(r, WriteTooLarge); }
        else if !AtLeast(r.readTimeout, MinTimeout) { assert Violates(r, ReadTooSmall); }
        else if !AtMost(r.readTimeout, MaxTimeout) { assert Violates(r, ReadTooLarge); }
        else if !AtLeast(r.retries, 0) { assert Violates(r, RetriesNegative); }
        else { assert Violates(r, RetriesTooLarge); }
      }
    }
    assert !Valid(r) ==> v != {} by {
      if !Valid(r) {
        var c: Violation :| Violates(r, c);
        assert c in v;
      }
    }
    v
  }

  /** KongServiceRequest.builder(): the fields the caller sets, and the
      defaults for the numeric ones it leaves out. */
  function BuildRequest(name: Option<string>, url: Option<string>, tags: Option<JsonObject>): (r: KongServiceRequest)
    ensures r.name == name && r.url == url && r.tags == tags
    ensures Valid(r) <==> NotBlank(name) && MatchesNamePattern(name) && NotBlank(url)
  {
    KongServiceRequest(name, url, Some(DefaultTimeout), Some(DefaultTimeout), Some(DefaultTimeout),
                       Some(DefaultRetries), tags)
  }

  /** A name that matches the pattern is never blank: the pattern on its own
      decides a non-null name. */
  lemma PatternImpliesNotBlank(name: string)
    requires MatchesNamePattern(Some(name))
    ensures NotBlank(Some(name))
  {
    assert name[0] > ' ';
  }

  /** A blank name, null aside, violates both name constraints at once. */
  lemma BlankNameReportsBoth(r: KongServiceRequest)
    requires r.name.Some? && !NotBlank(r.name)
    ensures {NameRequired, NamePattern} <= Violations(r)
  {
    if |r.name.value| >= 1 {
      assert !NameChar(r.name.value[0]);
    }
  }

  /** toKongService: name, url, the three timeouts, retries and tags; the
      rest of the record stays null. */
  function ToKongService(r: KongServiceRequest): (s: KongService)
    ensures s.name == r.name && s.url == r.url && s.tags == r.tags
    ensures s.connectTimeout == r.connectTimeout && s.writeTimeout == r.writeTimeout &&
            s.readTimeout == r.readTimeout && s.retries == r.retries
    ensures s.id.None? && s.protocol.None? && s.host.None? && s.port.None? && s.path.None?
    ensures s.createdAt.None? && s.updatedAt.None?
  {
    KongService(None, r.name, r.url, None, None, None, None,
                r.connectTimeout, r.writeTimeout, r.readTimeout, r.retries, r.tags, None, None)
  }

  /** toKongServiceRequest: the same seven fields back. Each is set on the
      builder explicitly, so a null field stays null instead of taking the
      builder default. */
  function ToKongServiceRequest(s: KongService): (r: KongServiceRequest)
    ensures r.name == s.name && r.url == s.url && r.tags == s.tags
    ensures r.connectTimeout == s.connectTimeout && r.writeTimeout == s.writeTimeout &&
            r.readTimeout == s.readTimeout && r.retries == s.retries
  {
    KongServiceRequest(s.name, s.url, s.connectTimeout, s.writeTimeout, s.readTimeout, s.retries, s.tags)
  }

  /** Nothing of a request is lost on the way to the service record and back. */
  lemma RequestRoundTrip(r: KongServiceRequest)
    ensures ToKongServiceRequest(ToKongService(r)) == r
    ensures Valid(ToKongServiceRequest(ToKongService(r))) <==> Valid(r)
  {
  }

  /** The other way round, a service record survives exactly when it carries
      none of the fields the request has no place for. */
  lemma ServiceRoundTrip(s: KongService)
    ensures ToKongService(ToKongServiceRequest(s)) == s <==>
      s.id.None? && s.protocol.None? && s.host.None? && s.port.None? && s.path.None? &&
      s.createdAt.None? && s.updatedAt.None?
  {
  }
}
