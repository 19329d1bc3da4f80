/** Docker-style artifact references (src/artifact_ref.rs). */
module ArtifactRef {
  import opened Basics

  datatype Reference = Reference(host: string, namespace: string, name: string, tag: string)

  datatype RegistryConfig = RegistryConfig(endpoint: string, namespace: string)

  // ---------- Text ----------

  /** Unicode white space, as `trim` removes it. */
  predicate IsSpace(c: char) {
    || '\U{0009}' <= c <= '\U{000D}' || c == ' ' || c == '\U{0085}' || c == '\U{00A0}' || c == '\U{1680}'
    || '\U{2000}' <= c <= '\U{200A}' || c == '\U{2028}' || c == '\U{2029}' || c == '\U{202F}' || c == '\U{205F}' || c == '\U{3000}'
  }

  function TrimStart(s: string): string {
    if s != [] && IsSpace(s[0]) then TrimStart(s[1..]) else s
  }

  function TrimEnd(s: string): string {
    if s != [] && IsSpace(s[|s| - 1]) then TrimEnd(s[..|s| - 1]) else s
  }

  function Trim(s: string): string {
    TrimEnd(TrimStart(s))
  }

  function TrimSlashStart(s: string): string {
    if s != [] && s[0] == '/' then TrimSlashStart(s[1..]) else s
  }

  function TrimSlashEnd(s: string): string {
    if s != [] && s[|s| - 1] == '/' then TrimSlashEnd(s[..|s| - 1]) else s
  }

  /** `rfind` */
  function LastIndex(s: string, c: char): (r: Option<nat>)
    ensures r.Some? ==> r.value < |s| && s[r.value] == c && c !in s[r.value + 1..]
    ensures r.None? ==> c !in s
  {
    if s == [] then None
    else if s[|s| - 1] == c then Some(|s| - 1)
    else
      assert s == s[..|s| - 1] + [s[|s| - 1]];
      var r := LastIndex(s[..|s| - 1], c);
      assert r.Some? ==> s[r.value + 1..] == s[..|s| - 1][r.value + 1..] + [s[|s| - 1]];
      r
  }

  function FirstSlash(s: string): (r: nat)
    ensures r <= |s| && '/' !in s[..r] && (r < |s| ==> s[r] == '/')
  {
    if s == [] || s[0] == '/' then 0
    else
      assert forall n :: 0 <= n <= |s[1..]| ==> s[..n + 1] == [s[0]] + s[1..][..n];
      1 + FirstSlash(s[1..])
  }

  /** `split('/')` */
  function Split(s: string): (r: seq<string>)
    ensures r != []
    decreases |s|
  {
    var n := FirstSlash(s);
    if n == |s| then [s] else [s[..n]] + Split(s[n + 1..])
  }

  function NonEmpty(list: seq<string>): seq<string> {
    if list == [] then [] else (if list[0] == "" then [] else [list[0]]) + NonEmpty(list[1..])
  }

  /** `join("/")` */
  function Join(list: seq<string>): string {
    if list == [] then "" else if |list| == 1 then list[0] else list[0] + "/" + Join(list[1..])
  }

  // ---------- Grammar ----------

  predicate Alphanumeric(c: char) {
    '0' <= c <= '9' || 'a' <= c <= 'z' || 'A' <= c <= 'Z'
  }

  predicate TagChar(c: char) {
    Alphanumeric(c) || c == '.' || c == '_' || c == '-'
  }

  /** `validate_tag` */
  predicate ValidTag(tag: string) {
    0 < |tag| <= 128 && (Alphanumeric(tag[0]) || tag[0] == '_') && forall i :: 1 <= i < |tag| ==> TagChar(tag[i])
  }

  predicate SegmentChar(c: char) {
    'a' <= c <= 'z' || '0' <= c <= '9' || c == '.' || c == '_' || c == '-'
  }

  /** `validate_segment` */
  predicate ValidSegment(segment: string) {
    segment != "" && forall i :: 0 <= i < |segment| ==> SegmentChar(segment[i])
  }

  predicate AllValid(segments: seq<string>) {
    forall i :: 0 <= i < |segments| ==> ValidSegment(segments[i])
  }

  /** `is_host` */
  predicate IsHost(segment: string) {
    ':' in segment || '.' in segment || segment == "localhost"
  }

  function StripPrefix(s: string, prefix: string): Option<string> {
    if prefix <= s then Some(s[|prefix|..]) else None
  }

  function WithoutScheme(endpoint: string): string {
    var secure, plain := StripPrefix(endpoint, "https://"), StripPrefix(endpoint, "http://");
    if secure.Some? then secure.value else if plain.Some? then plain.value else endpoint
  }

  /** `default_host` */
  function DefaultHost(config: RegistryConfig): Result<string> {
    var host := TrimSlashEnd(WithoutScheme(Trim(config.endpoint)));
    if host == "" then Err(Config) else Ok(host)
  }

  // ---------- Parsing and printing ----------

  /** The body and the tag: the last colon counts only past the last slash. */
  function SplitTag(input: string): (string, string) {
    var slash, colon := LastIndex(input, '/'), LastIndex(input, ':');
    if colon.Some? && (slash.None? || colon.value > slash.value) then (input[..colon.value], input[colon.value + 1..])
    else (input, "latest")
  }

  function NamespaceOf(segments: seq<string>, config: RegistryConfig): Result<string> {
    if segments == [] then
      var namespace := TrimSlashEnd(TrimSlashStart(config.namespace));
      if namespace == "" then Err(Protocol) else Ok(namespace)
    else if !AllValid(segments) then Err(Protocol)
    else if Join(segments) == "" then Err(Protocol)
    else Ok(Join(segments))
  }

  /** `ArtifactRef::parse` */
  function Parse(text: string, config: RegistryConfig): Result<Reference> {
    var input := Trim(text);
    if input == "" then Err(Protocol)
    else
      var (body, tag) := SplitTag(input);
      if !ValidTag(tag) then Err(Protocol)
      else
        var segments := NonEmpty(Split(body));
        if segments == [] then Err(Protocol)
        else
          var name, rest := segments[|segments| - 1], segments[..|segments| - 1];
          if !ValidSegment(name) then Err(Protocol)
          else if rest != [] && IsHost(rest[0]) then
            var namespace :- NamespaceOf(rest[1..], config);
            Ok(Reference(rest[0], namespace, name, tag))
          else
            var host :- DefaultHost(config);
            var namespace :- NamespaceOf(rest, config);
            Ok(Reference(host, namespace, name, tag))
  }

  /** `display` */
  function Display(r: Reference): string {
    r.host + "/" + r.namespace + "/" + r.name + ":" + r.tag
  }

  /** `ArtifactRef::parse` as it edits its segment list. */
  method ParseReference(text: string, config: RegistryConfig) returns (r: Result<Reference>)
    ensures r == Parse(text, config)
  {
    hide ValidTag, ValidSegment, Trim, SplitTag, Split, NonEmpty, DefaultHost, Join;
    var input := Trim(text);
    if input == "" {
      return Err(Protocol);
    }
    var (body, tag) := SplitTag(input);
    if !ValidTag(tag) {
      return Err(Protocol);
    }
    var segments := NonEmpty(Split(body));
    if segments == [] {
      return Err(Protocol);
    }
    var name := segments[|segments| - 1];
    segments := segments[..|segments| - 1];
    if !ValidSegment(name) {
      return Err(Protocol);
    }
    var host;
    if segments != [] && IsHost(segments[0]) {
      host := segments[0];
      segments := segments[1..];
    } else {
      host :- DefaultHost(config);
    }
    var namespace: string;
    if segments == [] {
      namespace := TrimSlashEnd(TrimSlashStart(config.namespace));
    } else {
      for i := 0 to |segments|
        invariant forall j :: 0 <= j < i ==> ValidSegment(segments[j])
      {
        if !ValidSegment(segments[i]) {
          return Err(Protocol);
        }
      }
      namespace := Join(segments);
    }
    if namespace == "" {
      return Err(Protocol);
    }
    return Ok(Reference(host, namespace, name, tag));
  }

  // ---------- The condition ----------

  /** A host-like host free of slashes and leading white space, a namespace of valid segments, a valid name and
      a valid tag. */
  predicate Canonical(r: Reference) {
    && IsHost(r.host) && '/' !in r.host && !IsSpace(r.host[0])
    && AllValid(Split(r.namespace))
    && ValidSegment(r.name)
    && ValidTag(r.tag)
  }

  // ---------- Splitting and joining ----------

  lemma {:induction false} FirstSlashIs(s: string, n: nat)
    requires n <= |s| && '/' !in s[..n] && (n < |s| ==> s[n] == '/')
    ensures FirstSlash(s) == n
  {
    hide FirstSlash;
    var m := FirstSlash(s);
    forall i | 0 <= i < n
      ensures s[i] != '/'
    {
      assert s[..n][i] == s[i];
    }
    forall i | 0 <= i < m
      ensures s[i] != '/'
    {
      assert s[..m][i] == s[i];
    }
  }

  lemma {:induction false} SplitOne(a: string)
    requires '/' !in a
    ensures Split(a) == [a]
  {
    assert a[..|a|] == a;
    FirstSlashIs(a, |a|);
  }

  lemma {:induction false} SplitFirst(a: string, b: string)
    requires '/' !in a
    ensures Split(a + "/" + b) == [a] + Split(b)
  {
    var s := a + "/" + b;
    assert s[..|a|] == a && s[|a|] == '/' && s[|a| + 1..] == b;
    FirstSlashIs(s, |a|);
  }

  lemma {:induction false} SplitStep(s: string, n: nat)
    requires n == FirstSlash(s) < |s|
    ensures Split(s) == [s[..n]] + Split(s[n + 1..])
    ensures '/' !in s[..n] && s == s[..n] + "/" + s[n + 1..]
  {
  }

  lemma {:induction false} SplitLast(a: string, b: string)
    requires '/' !in b
    ensures Split(a + "/" + b) == Split(a) + [b]
    decreases |a|
  {
    hide FirstSlash, Split;
    var n := FirstSlash(a);
    if n == |a| {
      assert a[..n] == a;
      SplitFirst(a, b);
      SplitOne(a);
      SplitOne(b);
    } else {
      var head, tail := a[..n], a[n + 1..];
      SplitStep(a, n);
      SplitLast(tail, b);
      Regroup(head, tail, b);
      SplitFirst(head, tail + "/" + b);
    }
  }

  lemma {:induction false} Regroup(a: string, b: string, c: string)
    ensures (a + "/" + b) + "/" + c == a + "/" + (b + "/" + c)
  {
  }

  lemma {:induction false} JoinSplit(s: string)
    ensures Join(Split(s)) == s
    decreases |s|
  {
    hide FirstSlash;
    var n := FirstSlash(s);
    if n < |s| {
      JoinSplit(s[n + 1..]);
      assert s == s[..n] + "/" + s[n + 1..];
      assert ([s[..n]] + Split(s[n + 1..]))[1..] == Split(s[n + 1..]);
    }
  }

  ghost predicate NoSlashes(list: seq<string>) {
    forall i :: 0 <= i < |list| ==> '/' !in list[i]
  }

  lemma {:induction false} SplitJoin(list: seq<string>)
    requires list != [] && NoSlashes(list)
    ensures Split(Join(list)) == list
    decreases |list|
  {
    if |list| == 1 {
      SplitOne(list[0]);
    } else {
      SplitJoin(list[1..]);
      SplitFirst(list[0], Join(list[1..]));
      assert list == [list[0]] + list[1..];
    }
  }

  lemma {:induction false} SplitHasNoSlash(s: string)
    ensures NoSlashes(Split(s))
    decreases |s|
  {
    var n := FirstSlash(s);
    if n == |s| {
      assert s[..n] == s;
    } else {
      SplitHasNoSlash(s[n + 1..]);
    }
  }

  lemma {:induction false} NonEmptyKeeps(list: seq<string>)
    requires forall i :: 0 <= i < |list| ==> list[i] != ""
    ensures NonEmpty(list) == list
    decreases |list|
  {
    if list != [] {
      NonEmptyKeeps(list[1..]);
      assert list == [list[0]] + list[1..];
    }
  }

  lemma {:induction false} NonEmptyFrom(list: seq<string>)
    ensures forall i :: 0 <= i < |NonEmpty(list)| ==> NonEmpty(list)[i] in list && NonEmpty(list)[i] != ""
    decreases |list|
  {
    if list != [] {
      NonEmptyFrom(list[1..]);
    }
  }

  lemma {:induction false} ValidHasNoSlash(segment: string)
    requires ValidSegment(segment)
    ensures '/' !in segment && ':' !in segment
  {
  }

  lemma {:induction false} TagHasNoSlash(tag: string)
    requires ValidTag(tag)
    ensures '/' !in tag && ':' !in tag && !IsSpace(tag[|tag| - 1])
  {
  }

  // ---------- Reading what was printed ----------

  lemma {:induction false} LastIndexIs(s: string, c: char, i: nat)
    requires i < |s| && s[i] == c && c !in s[i + 1..]
    ensures LastIndex(s, c) == Some(i)
  {
    hide LastIndex;
    var r := LastIndex(s, c);
    assert s[i] in s;
    forall j | i < j < |s|
      ensures s[j] != c
    {
      assert s[i + 1..][j - i - 1] == s[j];
    }
    forall j | r.value < j < |s|
      ensures s[j] != c
    {
      assert s[r.value + 1..][j - r.value - 1] == s[j];
    }
  }

  lemma {:induction false} ColonIsLast(body: string, tag: string)
    requires ':' !in tag
    ensures LastIndex(body + ":" + tag, ':') == Some(|body|)
    ensures (body + ":" + tag)[..|body|] == body && (body + ":" + tag)[|body| + 1..] == tag
  {
    hide LastIndex;
    var d := body + ":" + tag;
    assert d[|body|] == ':' && d[|body| + 1..] == tag;
    LastIndexIs(d, ':', |body|);
  }

  lemma {:induction false} SlashIsLast(front: string, rest: string)
    requires '/' !in rest
    ensures LastIndex(front + "/" + rest, '/') == Some(|front|)
  {
    hide LastIndex;
    var d := front + "/" + rest;
    assert d[|front|] == '/' && d[|front| + 1..] == rest;
    LastIndexIs(d, '/', |front|);
  }

  /** The tag is split off exactly where it was printed, whatever the host contains. */
  lemma {:induction false} TagSplits(r: Reference)
    requires ValidSegment(r.name) && ValidTag(r.tag)
    ensures SplitTag(Display(r)) == (r.host + "/" + r.namespace + "/" + r.name, r.tag)
  {
    hide ValidSegment, ValidTag, LastIndex;
    ValidHasNoSlash(r.name);
    TagHasNoSlash(r.tag);
    var front := r.host + "/" + r.namespace;
    var body := front + "/" + r.name;
    assert Display(r) == body + ":" + r.tag;
    ColonIsLast(body, r.tag);
    var rest := r.name + ":" + r.tag;
    assert Display(r) == front + "/" + rest;
    SlashIsLast(front, rest);
  }

  /** The segments of a printed reference. */
  lemma {:induction false} BodySplits(r: Reference)
    requires '/' !in r.host && '/' !in r.name
    ensures Split(r.host + "/" + r.namespace + "/" + r.name) == [r.host] + Split(r.namespace) + [r.name]
  {
    hide Split;
    assert r.host + "/" + r.namespace + "/" + r.name == r.host + "/" + (r.namespace + "/" + r.name);
    SplitFirst(r.host, r.namespace + "/" + r.name);
    SplitLast(r.namespace, r.name);
  }

  lemma {:induction false} DisplayIsTrimmed(r: Reference)
    requires r.host != "" && !IsSpace(r.host[0]) && ValidTag(r.tag)
    ensures Trim(Display(r)) == Display(r)
  {
    hide IsSpace;
    TagHasNoSlash(r.tag);
    var d := Display(r);
    assert d[0] == r.host[0] && d[|d| - 1] == r.tag[|r.tag| - 1];
  }

  lemma {:induction false} ValidAreNonEmpty(list: seq<string>)
    requires AllValid(list)
    ensures forall i :: 0 <= i < |list| ==> list[i] != ""
  {
  }

  /** Parsing the printed form of a canonical reference gives it back under every configuration. */
  lemma {:induction false} CanonicalParses(r: Reference, config: RegistryConfig)
    requires Canonical(r)
    ensures Parse(Display(r), config) == Ok(r)
  {
    hide IsSpace, ValidSegment, ValidTag, Trim, Split, Join, NonEmpty, SplitTag, Display, DefaultHost, AllValid;
    DisplayIsTrimmed(r);
    TagSplits(r);
    ValidHasNoSlash(r.name);
    BodySplits(r);
    var middle := Split(r.namespace);
    var segments := [r.host] + middle + [r.name];
    ValidAreNonEmpty(middle);
    ValidNonEmpty(r.name);
    NonEmptyKeeps(segments);
    JoinSplit(r.namespace);
    assert segments[..|segments| - 1] == [r.host] + middle;
    assert ([r.host] + middle)[1..] == middle;
    DisplayNotEmpty(r);
    NamespaceNotEmpty(r.namespace);
  }

  lemma {:induction false} ValidNonEmpty(segment: string)
    requires ValidSegment(segment)
    ensures segment != ""
  {
  }

  lemma {:induction false} DisplayNotEmpty(r: Reference)
    ensures Display(r) != ""
  {
    assert Display(r)[|r.host|] == '/';
  }

  lemma {:induction false} NamespaceNotEmpty(namespace: string)
    requires AllValid(Split(namespace))
    ensures namespace != ""
  {
    SplitOne("");
    assert !ValidSegment(Split("")[0]);
  }

  // ---------- Nothing else does ----------

  lemma {:induction false} TrimStartOf(a: string, b: string)
    requires TrimStart(a) != ""
    ensures TrimStart(a + b) == TrimStart(a) + b
    decreases |a|
  {
    hide IsSpace;
    if IsSpace(a[0]) {
      assert (a + b)[1..] == a[1..] + b;
      TrimStartOf(a[1..], b);
    }
  }

  lemma {:induction false} TrimStartShrinks(s: string)
    ensures |TrimStart(s)| <= |s|
    ensures s != "" && IsSpace(s[0]) ==> |TrimStart(s)| < |s|
    ensures TrimStart(s) != "" ==> !IsSpace(TrimStart(s)[0])
    ensures forall c :: c in s && !IsSpace(c) ==> c in TrimStart(s)
    ensures forall c :: c in TrimStart(s) ==> c in s
    decreases |s|
  {
    hide IsSpace;
    if s != "" && IsSpace(s[0]) {
      TrimStartShrinks(s[1..]);
    }
  }

  /** A host with leading white space does not survive. */
  lemma {:induction false} LeadingSpaceIsLost(r: Reference, config: RegistryConfig)
    requires IsHost(r.host) && '/' !in r.host && IsSpace(r.host[0]) && ValidSegment(r.name) && ValidTag(r.tag)
    ensures Parse(Display(r), config) != Ok(r)
  {
    hide IsSpace, ValidSegment, ValidTag, TrimStart, Parse, IsHost, Display;
    TrimStartShrinks(r.host);
    HostKeepsMark(r.host);
    var shorter := r.(host := TrimStart(r.host));
    TrimStartsDisplay(r, shorter);
    DisplayIsTrimmed(shorter);
    TrimmedAgain(Display(r), shorter);
    ShorterHost(r, shorter, config);
  }

  lemma {:induction false} HostKeepsMark(host: string)
    requires IsHost(host) && IsSpace(host[0])
    ensures TrimStart(host) != "" && IsHost(TrimStart(host))
  {
    assert !IsSpace('.') && !IsSpace(':') && !IsSpace("localhost"[0]);
    hide IsSpace;
    TrimStartShrinks(host);
  }

  lemma {:induction false} TrimStartsDisplay(r: Reference, shorter: Reference)
    requires shorter == r.(host := TrimStart(r.host)) && shorter.host != ""
    ensures TrimStart(Display(r)) == Display(shorter)
  {
    hide TrimStart;
    var rest := "/" + r.namespace + "/" + r.name + ":" + r.tag;
    assert Display(r) == r.host + rest && Display(shorter) == shorter.host + rest;
    TrimStartOf(r.host, rest);
  }

  lemma {:induction false} TrimmedAgain(d: string, r: Reference)
    requires TrimStart(d) == Display(r) && Trim(Display(r)) == Display(r) && r.host != "" && !IsSpace(r.host[0])
    ensures Trim(d) == Display(r)
  {
    hide IsSpace;
    assert Display(r)[0] == r.host[0];
  }

  lemma {:induction false} ShorterHost(r: Reference, shorter: Reference, config: RegistryConfig)
    requires Trim(Display(r)) == Display(shorter) && shorter.host != "" && |shorter.host| < |r.host|
    requires '/' !in shorter.host && ValidSegment(shorter.name) && ValidTag(shorter.tag)
    requires IsHost(shorter.host)
    ensures Parse(Display(r), config) != Ok(r)
  {
    hide IsSpace, ValidSegment, ValidTag, Trim, Split, Join, SplitTag, Display, DefaultHost, NamespaceOf, IsHost;
    TagSplits(shorter);
    ValidHasNoSlash(shorter.name);
    BodySplits(shorter);
    ValidNonEmpty(shorter.name);
    var segments := NonEmpty([shorter.host] + Split(shorter.namespace) + [shorter.name]);
    EndsKept(shorter.host, Split(shorter.namespace), shorter.name);
    assert segments[..|segments| - 1] == [shorter.host] + NonEmpty(Split(shorter.namespace));
  }

  lemma {:induction false} EndsKept(a: string, middle: seq<string>, b: string)
    requires a != "" && b != ""
    ensures NonEmpty([a] + middle + [b]) == [a] + NonEmpty(middle) + [b]
  {
    assert ([a] + middle + [b])[1..] == middle + [b];
    LastKept(middle, b);
  }

  lemma {:induction false} LastKept(middle: seq<string>, b: string)
    requires b != ""
    ensures NonEmpty(middle + [b]) == NonEmpty(middle) + [b]
    decreases |middle|
  {
    if middle == [] {
      assert middle + [b] == [b];
      assert NonEmpty([b][1..]) == [];
    } else {
      assert (middle + [b])[1..] == middle[1..] + [b];
      LastKept(middle[1..], b);
    }
  }

  lemma {:induction false} DefaultsDiffer(a: RegistryConfig, b: RegistryConfig)
    requires a == RegistryConfig("a", "x") && b == RegistryConfig("b", "y")
    ensures DefaultHost(a) == Ok("a") && DefaultHost(b) == Ok("b")
    ensures NamespaceOf([], a) == Ok("x") && NamespaceOf([], b) == Ok("y")
  {
    assert !("https://" <= "a") && !("http://" <= "a") && !("https://" <= "b") && !("http://" <= "b");
  }

  /** What every parsed reference is, seen from two configurations that share no default. */
  lemma {:induction false} ParsedUnderTwo(text: string, a: RegistryConfig, b: RegistryConfig, r: Reference)
    requires Parse(text, a) == Ok(r) && Parse(text, b) == Ok(r)
    requires a == RegistryConfig("a", "x") && b == RegistryConfig("b", "y")
    ensures ValidTag(r.tag) && ValidSegment(r.name) && IsHost(r.host) && '/' !in r.host && AllValid(Split(r.namespace))
  {
    hide IsSpace, ValidSegment, ValidTag, Trim, Split, Join, SplitTag, DefaultHost, IsHost, NonEmpty, NamespaceOf;
    DefaultsDiffer(a, b);
    assert "a"[0] != "b"[0] && "x"[0] != "y"[0];
    var body := SplitTag(Trim(text)).0;
    var segments := NonEmpty(Split(body));
    var rest := segments[..|segments| - 1];
    SegmentsHaveNoSlash(body);
    assert rest != [] && IsHost(rest[0]) && r.host == rest[0] == segments[0];
    var inner := rest[1..];
    assert NamespaceOf(inner, a) == NamespaceOf(inner, b) == Ok(r.namespace);
    assert inner != [];
    assert forall i :: 0 <= i < |inner| ==> inner[i] == segments[i + 1];
    NamespaceSplits(inner, a, r.namespace);
  }

  lemma {:induction false} SegmentsHaveNoSlash(body: string)
    ensures NoSlashes(NonEmpty(Split(body)))
  {
    hide Split, NonEmpty;
    SplitHasNoSlash(body);
    NonEmptyFrom(Split(body));
  }

  lemma {:induction false} NamespaceSplits(segments: seq<string>, config: RegistryConfig, namespace: string)
    requires segments != [] && NoSlashes(segments) && NamespaceOf(segments, config) == Ok(namespace)
    ensures AllValid(Split(namespace))
  {
    hide Split, Join, ValidSegment;
    SplitJoin(segments);
  }

  /** Parsing what was printed returns the same reference under every configuration exactly when the reference
      is canonical. */
  lemma {:induction false} RoundTripsIffCanonical(r: Reference)
    ensures (forall config :: Parse(Display(r), config) == Ok(r)) <==> Canonical(r)
  {
    hide Parse, Display, IsSpace, ValidSegment, ValidTag, Split, IsHost, AllValid;
    if Canonical(r) {
      forall config
        ensures Parse(Display(r), config) == Ok(r)
      {
        CanonicalParses(r, config);
      }
    }
    if forall config :: Parse(Display(r), config) == Ok(r) {
      var a, b := RegistryConfig("a", "x"), RegistryConfig("b", "y");
      assert Parse(Display(r), a) == Ok(r) && Parse(Display(r), b) == Ok(r);
      ParsedUnderTwo(Display(r), a, b, r);
      HostNotEmpty(r.host);
      if IsSpace(r.host[0]) {
        LeadingSpaceIsLost(r, a);
      }
    }
  }

  lemma {:induction false} HostNotEmpty(host: string)
    requires IsHost(host)
    ensures host != ""
  {
  }

  /** The port of a host is never taken for a tag: without a tag, the printed body still parses to this host. */
  lemma {:induction false} PortIsNotATag(host: string, namespace: string, name: string, config: RegistryConfig)
    requires Canonical(Reference(host, namespace, name, "latest"))
    ensures Parse(host + "/" + namespace + "/" + name, config) == Ok(Reference(host, namespace, name, "latest"))
  {
    hide IsSpace, ValidSegment, Trim, Split, Join, NonEmpty, SplitTag, DefaultHost, AllValid, ValidTag, IsHost, LastIndex;
    var r := Reference(host, namespace, name, "latest");
    var body := host + "/" + namespace + "/" + name;
    HostNotEmpty(host);
    BodyIsTrimmed(r, body);
    BodyHasNoTag(r, body);
    ValidHasNoSlash(name);
    BodySplits(r);
    var middle := Split(namespace);
    var segments := [host] + middle + [name];
    ValidAreNonEmpty(middle);
    ValidNonEmpty(name);
    NonEmptyKeeps(segments);
    JoinSplit(namespace);
    assert segments[..|segments| - 1] == [host] + middle;
    assert ([host] + middle)[1..] == middle;
    NamespaceNotEmpty(namespace);
    assert body[|host|] == '/';
  }

  lemma {:induction false} BodyIsTrimmed(r: Reference, body: string)
    requires body == r.host + "/" + r.namespace + "/" + r.name && r.host != "" && !IsSpace(r.host[0]) && ValidSegment(r.name)
    ensures Trim(body) == body
  {
    assert SegmentChar(r.name[|r.name| - 1]);
    assert !IsSpace(r.name[|r.name| - 1]);
    hide IsSpace, ValidSegment;
    assert body[0] == r.host[0] && body[|body| - 1] == r.name[|r.name| - 1];
  }

  lemma {:induction false} BodyHasNoTag(r: Reference, body: string)
    requires body == r.host + "/" + r.namespace + "/" + r.name && ValidSegment(r.name)
    ensures SplitTag(body) == (body, "latest")
  {
    hide LastIndex, ValidSegment;
    ValidHasNoSlash(r.name);
    var front := r.host + "/" + r.namespace;
    assert body[|front|] == '/' && body[|front| + 1..] == r.name;
    LastIndexIs(body, '/', |front|);
    var colon := LastIndex(body, ':');
    if colon.Some? {
      assert body[colon.value] == ':';
      forall j | |front| < j < |body|
        ensures body[j] != ':'
      {
        assert body[|front| + 1..][j - |front| - 1] == body[j];
      }
    }
  }
}
