/** Exactly which texts are references, and to what, without the parser's own steps (src/artifact_ref.rs:20-150). */
module ArtifactRefGrammar {
  import opened Basics
  import opened ArtifactRef

  // ---------- Characters ----------

  /** The code points of Unicode white space. */
  ghost predicate WhiteSpace(c: char) {
    var n := c as int;
    9 <= n <= 13 || n == 32 || n == 133 || n == 160 || n == 5760 || 8192 <= n <= 8202 || n == 8232 || n == 8233 || n == 8239 || n == 8287 || n == 12288
  }

  lemma {:induction false} SpaceIs(c: char)
    ensures IsSpace(c) <==> WhiteSpace(c)
  {
  }

  /** One of the characters of a name or namespace segment. */
  ghost predicate InSegment(c: char) {
    c in "abcdefghijklmnopqrstuvwxyz" || c in "0123456789" || c in "._-"
  }

  ghost predicate InTag(c: char) {
    InSegment(c) || c in "ABCDEFGHIJKLMNOPQRSTUVWXYZ"
  }

  lemma {:induction false} LowerIs(c: char)
    ensures 'a' <= c <= 'z' <==> c in "abcdefghijklmnopqrstuvwxyz"
  {
    var letters := "abcdefghijklmnopqrstuvwxyz";
    if 'a' <= c <= 'z' {
      assert letters[c as int - 'a' as int] == c;
    }
  }

  lemma {:induction false} UpperIs(c: char)
    ensures 'A' <= c <= 'Z' <==> c in "ABCDEFGHIJKLMNOPQRSTUVWXYZ"
  {
    var letters := "ABCDEFGHIJKLMNOPQRSTUVWXYZ";
    if 'A' <= c <= 'Z' {
      assert letters[c as int - 'A' as int] == c;
    }
  }

  lemma {:induction false} DigitIs(c: char)
    ensures '0' <= c <= '9' <==> c in "0123456789"
  {
    var digits := "0123456789";
    if '0' <= c <= '9' {
      assert digits[c as int - '0' as int] == c;
    }
  }

  lemma {:induction false} MarkIs(c: char)
    ensures c == '.' || c == '_' || c == '-' <==> c in "._-"
  {
    var marks := "._-";
    assert marks[0] == '.' && marks[1] == '_' && marks[2] == '-';
  }

  /** The sets of characters, and the ranges the parser compares with. */
  lemma {:induction false} CharIs(c: char)
    ensures SegmentChar(c) <==> InSegment(c)
    ensures TagChar(c) <==> InTag(c)
  {
    LowerIs(c);
    UpperIs(c);
    DigitIs(c);
    MarkIs(c);
  }

  /** A segment of a name or namespace. */
  ghost predicate Segment(s: string) {
    s != "" && forall i :: 0 <= i < |s| ==> InSegment(s[i])
  }

  /** A tag: at most 128 characters, the first neither a period nor a dash. */
  ghost predicate Tag(s: string) {
    0 < |s| <= 128 && s[0] != '.' && s[0] != '-' && forall i :: 0 <= i < |s| ==> InTag(s[i])
  }

  lemma {:induction false} ValidSegmentIs(s: string)
    ensures ValidSegment(s) <==> Segment(s)
  {
    hide SegmentChar, InSegment;
    forall i | 0 <= i < |s|
      ensures SegmentChar(s[i]) <==> InSegment(s[i])
    {
      CharIs(s[i]);
    }
  }

  lemma {:induction false} ValidTagIs(s: string)
    ensures ValidTag(s) <==> Tag(s)
  {
    hide InTag;
    forall i | 0 <= i < |s|
      ensures TagChar(s[i]) <==> InTag(s[i])
    {
      CharIs(s[i]);
    }
  }

  // ---------- Trimming ----------

  ghost predicate Blank(s: string) {
    forall i :: 0 <= i < |s| ==> IsSpace(s[i])
  }

  ghost predicate InBlanks(s: string, lead: string, t: string, trail: string) {
    s == lead + t + trail && Blank(lead) && Blank(trail)
  }

  /** What is left of a text without the white space around it. */
  ghost predicate Trimmed(s: string, t: string) {
    && (exists lead, trail :: InBlanks(s, lead, t, trail))
    && (t != "" ==> !IsSpace(t[0]) && !IsSpace(t[|t| - 1]))
  }

  lemma {:induction false} TrimStartSplits(s: string)
    ensures |TrimStart(s)| <= |s| && s == s[..|s| - |TrimStart(s)|] + TrimStart(s) && Blank(s[..|s| - |TrimStart(s)|])
    ensures TrimStart(s) != "" ==> !IsSpace(TrimStart(s)[0])
    decreases |s|
  {
    hide IsSpace;
    if s != "" && IsSpace(s[0]) {
      TrimStartSplits(s[1..]);
      var n := |s| - |TrimStart(s)|;
      assert s[..n] == [s[0]] + s[1..][..n - 1];
    }
  }

  lemma {:induction false} TrimEndSplits(s: string)
    ensures TrimEnd(s) <= s && Blank(s[|TrimEnd(s)|..])
    ensures TrimEnd(s) != "" ==> !IsSpace(TrimEnd(s)[|TrimEnd(s)| - 1])
    decreases |s|
  {
    hide IsSpace;
    if s != "" && IsSpace(s[|s| - 1]) {
      var n := |s| - 1;
      TrimEndSplits(s[..n]);
      var t := TrimEnd(s[..n]);
      assert TrimEnd(s) == t && |t| <= n;
      assert s[|t|..] == s[..n][|t|..] + [s[n]];
    }
  }

  lemma {:induction false} TrimStartDrops(lead: string, s: string)
    requires Blank(lead)
    ensures TrimStart(lead + s) == TrimStart(s)
    decreases |lead|
  {
    hide IsSpace;
    if lead == "" {
      assert lead + s == s;
    } else {
      assert (lead + s)[1..] == lead[1..] + s;
      TrimStartDrops(lead[1..], s);
    }
  }

  lemma {:induction false} TrimEndDrops(s: string, trail: string)
    requires Blank(trail)
    ensures TrimEnd(s + trail) == TrimEnd(s)
    decreases |trail|
  {
    hide IsSpace;
    if trail == "" {
      assert s + trail == s;
    } else {
      var n := |trail| - 1;
      assert (s + trail)[..|s + trail| - 1] == s + trail[..n];
      TrimEndDrops(s, trail[..n]);
    }
  }

  lemma {:induction false} Glue(s: string, lead: string, middle: string, t: string, trail: string)
    requires s == lead + middle && t <= middle && trail == middle[|t|..]
    ensures s == lead + t + trail
  {
    assert middle == t + trail;
  }

  lemma {:induction false} TrimTrims(s: string)
    ensures Trimmed(s, Trim(s))
  {
    hide IsSpace, Blank, TrimStart, TrimEnd;
    var middle := TrimStart(s);
    TrimStartSplits(s);
    TrimEndSplits(middle);
    var t := TrimEnd(middle);
    var lead, trail := s[..|s| - |middle|], middle[|t|..];
    Glue(s, lead, middle, t, trail);
    assert InBlanks(s, lead, t, trail);
    assert t != "" ==> t[0] == middle[0];
  }

  lemma {:induction false} TrimIs(s: string, t: string)
    ensures Trim(s) == t <==> Trimmed(s, t)
  {
    TrimTrims(s);
    if Trimmed(s, t) {
      hide IsSpace, Blank, TrimStart, TrimEnd;
      var l, r :| InBlanks(s, l, t, r);
      assert s == l + (t + r);
      TrimStartDrops(l, t + r);
      TrimmedOnce(t, r);
    }
  }

  lemma {:induction false} TrimmedOnce(t: string, trail: string)
    requires Blank(trail) && (t != "" ==> !IsSpace(t[0]) && !IsSpace(t[|t| - 1]))
    ensures TrimEnd(TrimStart(t + trail)) == t
  {
    hide IsSpace, TrimEnd;
    if t == "" {
      assert t + trail == trail && trail == trail + "";
      TrimStartDrops(trail, "");
      TrimEndDrops("", "");
      NothingToTrim();
    } else {
      assert (t + trail)[0] == t[0];
      TrimEndDrops(t, trail);
      EndStays(t);
    }
  }

  lemma {:induction false} NothingToTrim()
    ensures TrimStart("") == "" && TrimEnd("") == ""
  {
  }

  lemma {:induction false} EndStays(t: string)
    requires t != "" && !IsSpace(t[|t| - 1])
    ensures TrimEnd(t) == t
  {
  }

  ghost predicate InSlashes(s: string, lead: string, t: string, trail: string) {
    s == lead + t + trail && Slashes(lead) && Slashes(trail)
  }

  /** What is left without the slashes around a text, or only those behind it. */
  ghost predicate Bare(s: string, t: string, front: bool) {
    && (exists lead, trail :: InSlashes(s, lead, t, trail) && (!front ==> lead == ""))
    && (t != "" ==> (front ==> t[0] != '/') && t[|t| - 1] != '/')
  }

  ghost predicate Slashes(s: string) {
    forall i :: 0 <= i < |s| ==> s[i] == '/'
  }

  lemma {:induction false} SlashStartSplits(s: string)
    ensures |TrimSlashStart(s)| <= |s| && s == s[..|s| - |TrimSlashStart(s)|] + TrimSlashStart(s) && Slashes(s[..|s| - |TrimSlashStart(s)|])
    ensures TrimSlashStart(s) != "" ==> TrimSlashStart(s)[0] != '/'
    decreases |s|
  {
    if s != "" && s[0] == '/' {
      SlashStartSplits(s[1..]);
      var n := |s| - |TrimSlashStart(s)|;
      assert s[..n] == [s[0]] + s[1..][..n - 1];
    }
  }

  lemma {:induction false} SlashEndSplits(s: string)
    ensures TrimSlashEnd(s) <= s && Slashes(s[|TrimSlashEnd(s)|..])
    ensures TrimSlashEnd(s) != "" ==> TrimSlashEnd(s)[|TrimSlashEnd(s)| - 1] != '/'
    decreases |s|
  {
    if s != "" && s[|s| - 1] == '/' {
      var n := |s| - 1;
      SlashEndSplits(s[..n]);
      assert s[|TrimSlashEnd(s)|..] == s[..n][|TrimSlashEnd(s)|..] + [s[n]];
    }
  }

  lemma {:induction false} SlashStartDrops(lead: string, s: string)
    requires Slashes(lead)
    ensures TrimSlashStart(lead + s) == TrimSlashStart(s)
    decreases |lead|
  {
    if lead == "" {
      assert lead + s == s;
    } else {
      assert (lead + s)[1..] == lead[1..] + s;
      SlashStartDrops(lead[1..], s);
    }
  }

  lemma {:induction false} SlashEndDrops(s: string, trail: string)
    requires Slashes(trail)
    ensures TrimSlashEnd(s + trail) == TrimSlashEnd(s)
    decreases |trail|
  {
    if trail == "" {
      assert s + trail == s;
    } else {
      var n := |trail| - 1;
      assert (s + trail)[..|s + trail| - 1] == s + trail[..n];
      SlashEndDrops(s, trail[..n]);
    }
  }

  lemma {:induction false} SlashEndIs(s: string, t: string)
    ensures TrimSlashEnd(s) == t <==> Bare(s, t, false)
  {
    hide Slashes, TrimSlashEnd;
    SlashEndSplits(s);
    NoSlashesAtAll();
    assert InSlashes(s, "", TrimSlashEnd(s), s[|TrimSlashEnd(s)|..]);
    assert Bare(s, TrimSlashEnd(s), false);
    if Bare(s, t, false) {
      var lead, trail :| InSlashes(s, lead, t, trail) && lead == "";
      assert s == t + trail;
      SlashEndDrops(t, trail);
      SlashEndStays(t);
    }
  }

  lemma {:induction false} NoSlashesAtAll()
    ensures Slashes("") && TrimSlashStart("") == "" && TrimSlashEnd("") == ""
  {
  }

  lemma {:induction false} SlashEndStays(t: string)
    requires t == "" || t[|t| - 1] != '/'
    ensures TrimSlashEnd(t) == t
  {
  }

  lemma {:induction false} SlashesTrim(s: string)
    ensures Bare(s, TrimSlashEnd(TrimSlashStart(s)), true)
  {
    hide Slashes, TrimSlashStart, TrimSlashEnd;
    var middle := TrimSlashStart(s);
    var t := TrimSlashEnd(middle);
    SlashStartSplits(s);
    SlashEndSplits(middle);
    var lead, trail := s[..|s| - |middle|], middle[|t|..];
    Glue(s, lead, middle, t, trail);
    assert InSlashes(s, lead, t, trail);
    assert t != "" ==> t[0] == middle[0];
  }

  lemma {:induction false} SlashesIs(s: string, t: string)
    ensures TrimSlashEnd(TrimSlashStart(s)) == t <==> Bare(s, t, true)
  {
    SlashesTrim(s);
    if Bare(s, t, true) {
      hide Slashes, TrimSlashStart, TrimSlashEnd;
      var lead, trail :| InSlashes(s, lead, t, trail);
      assert s == lead + (t + trail);
      SlashStartDrops(lead, t + trail);
      BareOnce(t, trail);
    }
  }

  lemma {:induction false} BareOnce(t: string, trail: string)
    requires Slashes(trail) && (t != "" ==> t[0] != '/' && t[|t| - 1] != '/')
    ensures TrimSlashEnd(TrimSlashStart(t + trail)) == t
  {
    hide TrimSlashEnd;
    NoSlashesAtAll();
    if t == "" {
      assert t + trail == trail && trail == trail + "";
      SlashStartDrops(trail, "");
    } else {
      assert (t + trail)[0] == t[0];
      SlashEndDrops(t, trail);
      SlashEndStays(t);
    }
  }

  // ---------- Segments ----------

  /** The segments of a text: what lies between its slashes, empty pieces left out. */
  ghost predicate SegmentsOf(body: string, segments: seq<string>) {
    exists pieces :: pieces != [] && NoSlashes(pieces) && Join(pieces) == body && Filtered(pieces, segments)
  }

  /** The non-empty pieces, in order. */
  ghost predicate Filtered(pieces: seq<string>, kept: seq<string>) {
    if pieces == [] then kept == []
    else if pieces[0] == "" then Filtered(pieces[1..], kept)
    else kept != [] && kept[0] == pieces[0] && Filtered(pieces[1..], kept[1..])
  }

  lemma {:induction false} FilteredIs(pieces: seq<string>, kept: seq<string>)
    ensures NonEmpty(pieces) == kept <==> Filtered(pieces, kept)
    decreases |pieces|
  {
    if pieces != [] {
      if pieces[0] == "" {
        FilteredIs(pieces[1..], kept);
      } else {
        assert ([pieces[0]] + NonEmpty(pieces[1..]))[1..] == NonEmpty(pieces[1..]);
        if kept != [] {
          FilteredIs(pieces[1..], kept[1..]);
          assert kept == [kept[0]] + kept[1..];
        }
      }
    }
  }

  lemma {:induction false} SegmentsIs(body: string, segments: seq<string>)
    ensures NonEmpty(Split(body)) == segments <==> SegmentsOf(body, segments)
  {
    hide Split, Join, NonEmpty, Filtered;
    JoinSplit(body);
    SplitHasNoSlash(body);
    FilteredIs(Split(body), NonEmpty(Split(body)));
    SplitNotEmpty(body);
    assert SegmentsOf(body, NonEmpty(Split(body)));
    if SegmentsOf(body, segments) {
      var pieces :| pieces != [] && NoSlashes(pieces) && Join(pieces) == body && Filtered(pieces, segments);
      SplitJoin(pieces);
      FilteredIs(pieces, segments);
    }
  }

  lemma {:induction false} SplitNotEmpty(s: string)
    ensures Split(s) != []
  {
  }

  // ---------- Tags ----------

  /** No colon past the last slash. */
  ghost predicate Untagged(body: string) {
    forall i :: 0 <= i < |body| && body[i] == ':' ==> exists j :: i < j < |body| && body[j] == '/'
  }

  /** A body with its tag: written after the last colon, or left out. */
  ghost predicate Tags(input: string, body: string, tag: string) {
    Tag(tag) && (input == body + ":" + tag || (input == body && tag == "latest" && Untagged(body)))
  }

  lemma {:induction false} SplitTagIs(input: string, body: string, tag: string)
    ensures SplitTag(input) == (body, tag) && ValidTag(tag) <==> Tags(input, body, tag)
  {
    hide ValidTag, Tag, LastIndex;
    ValidTagIs(tag);
    var slash, colon := LastIndex(input, '/'), LastIndex(input, ':');
    if ValidTag(tag) {
      TagHasNoSlash(tag);
      if input == body + ":" + tag {
        ColonIsLast(body, tag);
        SlashBefore(body, tag);
      }
    }
    if SplitTag(input) == (body, tag) && input != body {
      assert input == input[..colon.value] + ":" + input[colon.value + 1..];
    }
    UntaggedIs(input);
  }

  /** The last slash of a tagged body comes before the colon. */
  lemma {:induction false} SlashBefore(body: string, tag: string)
    requires '/' !in tag
    ensures var slash := LastIndex(body + ":" + tag, '/'); slash.Some? ==> slash.value < |body|
  {
    hide LastIndex;
    var d := body + ":" + tag;
    var slash := LastIndex(d, '/');
    forall j | |body| <= j < |d|
      ensures d[j] != '/'
    {
      assert j > |body| ==> d[j] == tag[j - |body| - 1];
    }
  }

  lemma {:induction false} UntaggedIs(input: string)
    ensures var slash, colon := LastIndex(input, '/'), LastIndex(input, ':');
      Untagged(input) <==> !(colon.Some? && (slash.None? || colon.value > slash.value))
  {
    hide LastIndex;
    var slash, colon := LastIndex(input, '/'), LastIndex(input, ':');
    if colon.Some? && (slash.None? || colon.value > slash.value) {
      forall j | colon.value < j < |input|
        ensures input[j] != '/'
      {
        if slash.Some? {
          assert input[slash.value + 1..][j - slash.value - 1] == input[j];
        }
      }
    } else {
      if colon.Some? {
        forall i | colon.value < i < |input|
          ensures input[i] != ':'
        {
          assert input[colon.value + 1..][i - colon.value - 1] == input[i];
        }
      }
    }
  }

  // ---------- References ----------

  /** The registry a configuration names: its endpoint without surrounding white space, without its scheme, and
      without slashes at the end. */
  ghost predicate DefaultsTo(config: RegistryConfig, host: string) {
    exists endpoint :: Trimmed(config.endpoint, endpoint) && host != "" &&
      if "https://" <= endpoint then Bare(endpoint[8..], host, false)
      else if "http://" <= endpoint then Bare(endpoint[7..], host, false)
      else Bare(endpoint, host, false)
  }

  lemma {:induction false} DefaultHostIs(config: RegistryConfig, host: string)
    ensures DefaultHost(config) == Ok(host) <==> DefaultsTo(config, host)
    ensures DefaultHost(config).Err? ==> DefaultHost(config).error == Config
  {
    hide Trim, Trimmed, Bare, TrimSlashEnd;
    var endpoint := Trim(config.endpoint);
    assert Trimmed(config.endpoint, endpoint) by {
      TrimIs(config.endpoint, endpoint);
    }
    OneTrim(config.endpoint);
    SlashEndIs(WithoutScheme(endpoint), host);
  }

  lemma {:induction false} OneTrim(s: string)
    ensures forall t :: Trimmed(s, t) ==> t == Trim(s)
  {
    hide Trim, Trimmed;
    forall t | Trimmed(s, t)
      ensures t == Trim(s)
    {
      TrimIs(s, t);
    }
  }

  /** The namespace: the given segments, or the configured one when none are given. */
  ghost predicate Namespace(given: seq<string>, config: RegistryConfig, namespace: string) {
    && namespace != ""
    && if given == [] then Bare(config.namespace, namespace, true)
       else (forall i :: 0 <= i < |given| ==> Segment(given[i])) && namespace == Join(given)
  }

  lemma {:induction false} NamespaceIs(given: seq<string>, config: RegistryConfig, namespace: string)
    ensures NamespaceOf(given, config) == Ok(namespace) <==> Namespace(given, config, namespace)
    ensures NamespaceOf(given, config).Err? ==> NamespaceOf(given, config).error == Protocol
  {
    hide ValidSegment, Segment, Bare, TrimSlashStart, TrimSlashEnd, Join;
    SlashesIs(config.namespace, namespace);
    forall i | 0 <= i < |given|
      ensures ValidSegment(given[i]) <==> Segment(given[i])
    {
      ValidSegmentIs(given[i]);
    }
  }

  /** A first segment that names a registry. */
  ghost predicate HostLike(segment: string) {
    '.' in segment || ':' in segment || segment == "localhost"
  }

  /** The host and namespace of the segments before the name: a first segment that looks like a host is one, and otherwise
      all of them are namespace and the host is the configured one. */
  ghost predicate Places(before: seq<string>, config: RegistryConfig, host: string, namespace: string) {
    if before != [] && HostLike(before[0]) then host == before[0] && Namespace(before[1..], config, namespace)
    else DefaultsTo(config, host) && Namespace(before, config, namespace)
  }

  /** A text that refers to `r`. */
  ghost predicate Refers(text: string, config: RegistryConfig, r: Reference) {
    exists input, body, before :: Trimmed(text, input) && Tags(input, body, r.tag)
      && SegmentsOf(body, before + [r.name]) && Segment(r.name) && Places(before, config, r.host, r.namespace)
  }

  lemma {:induction false} OneBody(input: string)
    ensures forall body, tag :: Tags(input, body, tag) ==> SplitTag(input) == (body, tag)
  {
    hide Tags, SplitTag;
    forall body, tag | Tags(input, body, tag)
      ensures SplitTag(input) == (body, tag)
    {
      SplitTagIs(input, body, tag);
    }
  }

  lemma {:induction false} OneSegments(body: string)
    ensures forall segments :: SegmentsOf(body, segments) ==> NonEmpty(Split(body)) == segments
  {
    hide SegmentsOf, NonEmpty, Split;
    forall segments | SegmentsOf(body, segments)
      ensures NonEmpty(Split(body)) == segments
    {
      SegmentsIs(body, segments);
    }
  }

  /** The segments of an empty text. */
  lemma {:induction false} NoSegments()
    ensures NonEmpty(Split("")) == []
  {
    SplitOne("");
  }

  /** A reference is parsed exactly when the text refers to it; the only other outcomes are a protocol error, and a
      configuration error when the text gives no host and the configuration has none. */
  lemma {:induction false} ParsedIff(text: string, config: RegistryConfig, r: Reference)
    ensures Parse(text, config) == Ok(r) <==> Refers(text, config, r)
    ensures Parse(text, config).Err? ==>
      Parse(text, config).error == Protocol || (Parse(text, config).error == Config && forall host :: !DefaultsTo(config, host))
  {
    hide Trim, Trimmed, SplitTag, Tags, Split, NonEmpty, SegmentsOf, ValidTag, ValidSegment, Segment, DefaultHost, DefaultsTo, NamespaceOf, Namespace;
    if Parse(text, config) == Ok(r) {
      ParsedRefers(text, config, r);
    }
    if Refers(text, config, r) {
      ReferredParses(text, config, r);
    }
    NoDefault(config);
    if Parse(text, config).Err? {
      var segments := NonEmpty(Split(SplitTag(Trim(text)).0));
      if segments != [] {
        var before := segments[..|segments| - 1];
        NamespaceIs(before, config, "");
        NamespaceIs(if before == [] then [] else before[1..], config, "");
      }
    }
  }

  lemma {:induction false} NoDefault(config: RegistryConfig)
    ensures DefaultHost(config).Err? ==> DefaultHost(config).error == Config && forall host :: !DefaultsTo(config, host)
  {
    hide DefaultHost, DefaultsTo;
    DefaultHostIs(config, "");
    if DefaultHost(config).Err? {
      forall host
        ensures !DefaultsTo(config, host)
      {
        DefaultHostIs(config, host);
      }
    }
  }

  lemma {:induction false} PlacesIs(before: seq<string>, config: RegistryConfig, host: string, namespace: string)
    ensures Places(before, config, host, namespace) <==>
      if before != [] && IsHost(before[0]) then host == before[0] && NamespaceOf(before[1..], config) == Ok(namespace)
      else DefaultHost(config) == Ok(host) && NamespaceOf(before, config) == Ok(namespace)
  {
    hide DefaultHost, DefaultsTo, NamespaceOf, Namespace;
    DefaultHostIs(config, host);
    NamespaceIs(before, config, namespace);
    if before != [] {
      NamespaceIs(before[1..], config, namespace);
    }
  }

  lemma {:induction false} ParsedRefers(text: string, config: RegistryConfig, r: Reference)
    requires Parse(text, config) == Ok(r)
    ensures Refers(text, config, r)
  {
    hide Trim, Trimmed, SplitTag, Tags, Split, NonEmpty, SegmentsOf, ValidTag, ValidSegment, Segment, DefaultHost, Places, NamespaceOf, IsHost;
    var input := Trim(text);
    var (body, tag) := SplitTag(input);
    var segments := NonEmpty(Split(body));
    var before := segments[..|segments| - 1];
    TrimIs(text, input);
    SplitTagIs(input, body, tag);
    SegmentsIs(body, segments);
    ValidSegmentIs(segments[|segments| - 1]);
    PlacesIs(before, config, r.host, r.namespace);
    assert segments == before + [r.name];
  }

  lemma {:induction false} ReferredParses(text: string, config: RegistryConfig, r: Reference)
    requires Refers(text, config, r)
    ensures Parse(text, config) == Ok(r)
  {
    hide Trim, Trimmed, SplitTag, Tags, Split, NonEmpty, SegmentsOf, ValidTag, ValidSegment, Segment, DefaultHost, Places, NamespaceOf, IsHost;
    var input, body, before :| Trimmed(text, input) && Tags(input, body, r.tag)
      && SegmentsOf(body, before + [r.name]) && Segment(r.name) && Places(before, config, r.host, r.namespace);
    OneTrim(text);
    OneBody(input);
    SplitTagIs(input, body, r.tag);
    OneSegments(body);
    ValidSegmentIs(r.name);
    PlacesIs(before, config, r.host, r.namespace);
    assert (before + [r.name])[..|before|] == before;
    InputNotEmpty(input, body, r.tag, before + [r.name]);
  }

  lemma {:induction false} InputNotEmpty(input: string, body: string, tag: string, segments: seq<string>)
    requires Tags(input, body, tag) && SegmentsOf(body, segments) && segments != []
    ensures input != ""
  {
    hide Tag, SegmentsOf, NonEmpty, Split;
    NoSegments();
    OneSegments(body);
    assert input == "" ==> body == "";
  }
}
