/** The schema cache: a flat map from composite keys to schema texts, written by one command and loaded by another. */
module SchemaCache {
  import opened Tuples
  import opened Iteration
  import opened Text

  // ---------- type names ----------

  predicate IsSpace(c: char) {
    c == ' ' || '\t' <= c <= '\r'
  }

  function TrimLeft(s: string): string {
    if s != "" && IsSpace(s[0]) then TrimLeft(s[1..]) else s
  }

  function TrimRight(s: string): string {
    if s != "" && IsSpace(s[|s| - 1]) then TrimRight(s[..|s| - 1]) else s
  }

  function Lower(c: char): char {
    if 'A' <= c <= 'Z' then c + 32 as char else c
  }

  function Lowered(s: string, slash: char): (r: string)
    ensures |r| == |s|
  {
    seq(|s|, i requires 0 <= i < |s| => if s[i] == '/' then slash else Lower(s[i]))
  }

  function NewType(s: string, slash: char): Option<string> {
    var t := TrimRight(TrimLeft(s));
    if t == "" then None else Some(Lowered(t, slash))
  }

  function NewResourceType(s: string): Option<string> { NewType(s, '_') }

  function NewReporterType(s: string): Option<string> { NewType(s, '/') }

  lemma LeftEnd(s: string)
    ensures TrimLeft(s) == "" || !IsSpace(TrimLeft(s)[0])
  {
  }

  lemma RightEnd(s: string)
    ensures var t := TrimRight(s); t <= s && (t == "" || !IsSpace(t[|t| - 1]))
  {
  }

  lemma {:induction false} TrimmedEnds(s: string)
    ensures var t := TrimRight(TrimLeft(s)); t == "" || (!IsSpace(t[0]) && !IsSpace(t[|t| - 1]))
  {
    LeftEnd(s);
    RightEnd(TrimLeft(s));
  }

  /** White space by code point: tab, line feed, vertical tab, form feed, carriage return, blank. */
  predicate IsBlank(c: char) {
    9 <= c as int <= 13 || c as int == 32
  }

  predicate AllBlank(s: string) {
    forall i | 0 <= i < |s| :: IsBlank(s[i])
  }

  /** A character of a normalised name: capital letters become small ones, and a slash what slashes become. */
  predicate Becomes(c: char, c': char, slash: char) {
    if c == '/' then c' == slash
    else if 'A' <= c <= 'Z' then c' as int == c as int + 32
    else c' == c
  }

  /** r is what is left of s between two positions, character by character, and only white space is around it. */
  ghost predicate IsNormalised(s: string, r: string, slash: char, i: nat, j: nat) {
    && i < j <= |s| && AllBlank(s[..i]) && AllBlank(s[j..]) && !IsBlank(s[i]) && !IsBlank(s[j - 1])
    && |r| == j - i && forall k | 0 <= k < |r| :: Becomes(s[i + k], r[k], slash)
  }

  lemma {:induction false} TrimLeftIs(s: string) returns (i: nat)
    ensures i <= |s| && AllBlank(s[..i]) && TrimLeft(s) == s[i..] && (i < |s| ==> !IsBlank(s[i]))
  {
    i := 0;
    if s != "" && IsSpace(s[0]) {
      var k := TrimLeftIs(s[1..]);
      i := k + 1;
      assert s[..i] == [s[0]] + s[1..][..k] && s[i..] == s[1..][k..];
    }
  }

  lemma {:induction false} TrimRightIs(s: string) returns (j: nat)
    ensures j <= |s| && AllBlank(s[j..]) && TrimRight(s) == s[..j] && (j > 0 ==> !IsBlank(s[j - 1]))
  {
    j := |s|;
    if s != "" && IsSpace(s[|s| - 1]) {
      var init := s[..|s| - 1];
      j := TrimRightIs(init);
      assert s[j..] == init[j..] + [s[|s| - 1]] && s[..j] == init[..j];
    }
  }

  /** What the two constructors do to a name: one of white space only is refused; otherwise the white space around it
      goes, capital letters become small ones, and in a resource type a slash becomes an underscore. */
  lemma NewTypeMeaning(s: string)
    ensures if AllBlank(s) then NewResourceType(s).None? && NewReporterType(s).None?
            else NewResourceType(s).Some? && NewReporterType(s).Some? &&
                 exists i: nat, j: nat :: IsNormalised(s, NewResourceType(s).value, '_', i, j)
                                          && IsNormalised(s, NewReporterType(s).value, '/', i, j)
  {
    var i := TrimLeftIs(s);
    var t := s[i..];
    var j := TrimRightIs(t);
    if j == 0 {
      assert t[0..] == t;
      assert s[..i] == s;
    } else {
      assert s[i] == t[0] && s[i + j - 1] == t[j - 1] && s[i + j..] == t[j..];
      assert IsNormalised(s, NewResourceType(s).value, '_', i, i + j);
      assert IsNormalised(s, NewReporterType(s).value, '/', i, i + j);
    }
  }

  /** A normalised name is left alone: loading a written name gives that name. */
  lemma NewTypeIsIdempotent(s: string, slash: char)
    requires slash == '_' || slash == '/'
    ensures var t := NewType(s, slash); t.Some? ==> NewType(t.value, slash) == t
  {
    TrimmedEnds(s);
    var t := TrimRight(TrimLeft(s));
    if t != "" {
      var r := Lowered(t, slash);
      assert !IsSpace(r[0]) && !IsSpace(r[|r| - 1]);
      assert TrimLeft(r) == r && TrimRight(r) == r;
      assert Lowered(r, slash) == r;
    }
  }

  // ---------- keys ----------

  datatype Key =
    | Common(resourceType: string)
    | Config(resourceType: string)
    | Reporter(resourceType: string, reporterType: string)
    | ReporterConfig(resourceType: string, reporterType: string)

  function Head(k: Key): string {
    match k
    case Common(_) => "common"
    case Config(_) => "config"
    case Reporter(t, _) => t
    case ReporterConfig(_, _) => "config"
  }

  function Tail(k: Key): string {
    match k
    case Common(t) => t
    case Config(t) => t
    case Reporter(_, r) => r
    case ReporterConfig(t, r) => t + ":" + r
  }

  function Format(k: Key): string {
    Head(k) + ":" + Tail(k)
  }

  /** Written names are normalised; the resource type has no colon and is neither of the two reserved words. */
  predicate Plain(k: Key) {
    && NewResourceType(k.resourceType) == Some(k.resourceType)
    && (k.Reporter? || k.ReporterConfig? ==> NewReporterType(k.reporterType) == Some(k.reporterType))
    && ':' !in k.resourceType && k.resourceType != "common" && k.resourceType != "config"
  }

  lemma HeadIff(a: string, b: string, t: string)
    requires ':' !in a && ':' !in t
    ensures HasPrefix(a + ":" + b, t + ":") <==> a == t
    ensures (a + ":" + b)[|a| + 1..] == b
  {
    var s := a + ":" + b;
    assert s[|a|] == ':' && forall i | 0 <= i < |a| :: s[i] == a[i];
    if HasPrefix(s, t + ":") {
      assert s[|t|] == (t + ":")[|t|] == ':';
      assert forall i | 0 <= i < |t| :: s[i] == (t + ":")[i] == t[i];
      assert |t| == |a|;
    }
  }

  lemma PlainHead(k: Key)
    requires Plain(k)
    ensures ':' !in Head(k) && (Head(k) == "common" <==> k.Common?)
            && (Head(k) == "config" <==> k.Config? || k.ReporterConfig?)
  {
  }

  /** Different keys are written differently. */
  lemma FormatIsInjective(k: Key, k': Key)
    requires Plain(k) && Plain(k') && Format(k) == Format(k')
    ensures k == k'
  {
    PlainHead(k);
    PlainHead(k');
    HeadIff(Head(k), Tail(k), Head(k'));
    HeadIff(Head(k'), Tail(k'), Head(k'));
    assert HasPrefix(Format(k'), Head(k') + ":");
    if k.ReporterConfig? && k'.ReporterConfig? {
      HeadIff(k.resourceType, k.reporterType, k'.resourceType);
      HeadIff(k'.resourceType, k'.reporterType, k'.resourceType);
    }
  }

  /** The keys as they are written. */
  lemma KeyFormats(t: string, r: string)
    ensures Format(Common(t)) == "common:" + t && Format(Config(t)) == "config:" + t
    ensures Format(Reporter(t, r)) == t + ":" + r && Format(ReporterConfig(t, r)) == "config:" + t + ":" + r
  {
    assert "common" + ":" == "common:" && "config" + ":" == "config:";
    assert "config" + ":" + (t + ":" + r) == "config:" + t + ":" + r;
  }

  /** The two reserved words are what the loader cannot tell apart: a reporter schema of a resource type with such a
      name is written under the key of another resource's schema or configuration. */
  lemma ReservedWordsCollide(r: string)
    ensures Format(Reporter("common", r)) == Format(Common(r)) && Format(Reporter("config", r)) == Format(Config(r))
  {
  }

  // ---------- writing ----------

  datatype Value = Str(text: string) | NotAString

  type Schemas = map<Key, string>

  predicate AllPlain(schemas: Schemas) {
    forall k | k in schemas :: Plain(k)
  }

  /** The cache holds exactly the schemas of the given keys. */
  ghost predicate IsWritten(cache: map<string, Value>, schemas: Schemas, keys: set<Key>)
    requires keys <= schemas.Keys
  {
    && (forall k | k in keys :: Format(k) in cache && cache[Format(k)] == Str(schemas[k]))
    && (forall s | s in cache :: exists k :: k in keys && Format(k) == s)
  }

  lemma WriteOne(cache: map<string, Value>, schemas: Schemas, keys: set<Key>, k: Key)
    requires AllPlain(schemas) && keys <= schemas.Keys && IsWritten(cache, schemas, keys) && k in schemas
    ensures IsWritten(cache[Format(k) := Str(schemas[k])], schemas, keys + {k})
  {
    var after := cache[Format(k) := Str(schemas[k])];
    forall k' | k' in keys + {k} ensures Format(k') in after && after[Format(k')] == Str(schemas[k']) {
      if Format(k') == Format(k) {
        FormatIsInjective(k', k);
      }
    }
    forall s | s in after ensures exists k' :: k' in keys + {k} && Format(k') == s {
      if s == Format(k) {
        assert k in keys + {k};
      } else {
        var k' :| k' in keys && Format(k') == s;
        assert k' in keys + {k};
      }
    }
  }

  /** Whatever the order of the directories, every schema ends up under its own key. */
  method PreloadSchemas(schemas: Schemas) returns (cache: map<string, Value>)
    ensures AllPlain(schemas) ==> IsWritten(cache, schemas, schemas.Keys)
  {
    cache := map[];
    var rest := schemas.Keys;
    while rest != {}
      invariant rest <= schemas.Keys
      invariant AllPlain(schemas) ==> IsWritten(cache, schemas, schemas.Keys - rest)
      decreases |rest|
    {
      var k := Pick(rest);
      if AllPlain(schemas) {
        WriteOne(cache, schemas, schemas.Keys - rest, k);
      }
      cache := cache[Format(k) := Str(schemas[k])];
      assert schemas.Keys - (rest - {k}) == schemas.Keys - rest + {k};
      rest := rest - {k};
    }
    assert schemas.Keys - {} == schemas.Keys;
  }

  // ---------- loading ----------

  datatype Entry = Entry(schema: string, reporters: map<string, string>)

  type Content = map<string, Entry>

  /** The resource schemas of the keys, each with exactly the reporter schemas among the keys. */
  ghost predicate Rebuilt(content: Content, schemas: Schemas, resources: set<Key>, reporters: set<Key>)
    requires resources <= schemas.Keys && reporters <= schemas.Keys
  {
    && (forall t :: t in content <==> Common(t) in resources)
    && forall t | t in content ::
         && content[t].schema == schemas[Common(t)]
         && (forall r :: r in content[t].reporters <==> Reporter(t, r) in reporters)
         && forall r | r in content[t].reporters :: content[t].reporters[r] == schemas[Reporter(t, r)]
  }

  const COMMON_PREFIX := "common:"

  /** A key of a written cache, and how the first pass reads it. */
  lemma ReadsAsCommon(k: Key)
    requires Plain(k)
    ensures HasPrefix(Format(k), COMMON_PREFIX) <==> k.Common?
    ensures k.Common? ==> Format(k)[|COMMON_PREFIX|..] == k.resourceType
  {
    PlainHead(k);
    HeadIff(Head(k), Tail(k), "common");
    assert "common" + ":" == COMMON_PREFIX;
  }

  /** One key of the first pass. */
  function LoadResource(content: Content, key: string, value: Value): Option<Content> {
    if !HasPrefix(key, COMMON_PREFIX) then Some(content)
    else
      var t := NewResourceType(key[|COMMON_PREFIX|..]);
      if t.None? || !value.Str? || t.value in content then None
      else Some(content[t.value := Entry(value.text, map[])])
  }

  lemma ResourceLoaded(content: Content, schemas: Schemas, keys: set<Key>, k: Key)
    requires keys <= schemas.Keys && Rebuilt(content, schemas, keys, {}) && k in schemas && k !in keys && Plain(k)
    ensures var r := LoadResource(content, Format(k), Str(schemas[k]));
            r.Some? && Rebuilt(r.value, schemas, keys + {k}, {})
  {
    ReadsAsCommon(k);
  }

  /** The keys already read. */
  ghost function Read(schemas: Schemas, rest: set<string>): (r: set<Key>)
    ensures r <= schemas.Keys
  {
    set k | k in schemas && Format(k) !in rest
  }

  lemma ReadShrinks(schemas: Schemas, rest: set<string>, k: Key)
    requires AllPlain(schemas) && k in schemas && Format(k) in rest
    ensures Read(schemas, rest - {Format(k)}) == Read(schemas, rest) + {k}
  {
    forall k' | k' in schemas && Format(k') == Format(k) ensures k' == k {
      FormatIsInjective(k', k);
    }
  }

  lemma ReadOne(cache: map<string, Value>, schemas: Schemas, rest: set<string>, key: string) returns (k: Key)
    requires AllPlain(schemas) && IsWritten(cache, schemas, schemas.Keys) && key in rest && rest <= cache.Keys
    ensures k in schemas && Format(k) == key && k !in Read(schemas, rest) && cache[key] == Str(schemas[k])
    ensures Read(schemas, rest - {key}) == Read(schemas, rest) + {k}
  {
    k :| k in schemas && Format(k) == key;
    ReadShrinks(schemas, rest, k);
  }

  lemma ReadNoneOrAll(cache: map<string, Value>, schemas: Schemas)
    requires IsWritten(cache, schemas, schemas.Keys)
    ensures Read(schemas, cache.Keys) == {} && Read(schemas, {}) == schemas.Keys
  {
  }

  /** The type that a key gives a resource schema for. */
  ghost predicate Names(key: string, t: string) {
    && |key| >= 7 && key[..7] == "common:" && NewResourceType(key[7..]) == Some(t)
  }

  /** Every key that starts like a resource schema's has a valid type and a text, and no two have the same type. */
  ghost predicate WellFormed(cache: map<string, Value>, keys: set<string>)
    requires keys <= cache.Keys
  {
    && (forall key | key in keys && HasPrefix(key, "common:") :: cache[key].Str? && exists t :: Names(key, t))
    && (forall a, b, t | a in keys && b in keys && Names(a, t) && Names(b, t) :: a == b)
  }

  /** The content is exactly what the keys say. */
  ghost predicate Loaded(cache: map<string, Value>, keys: set<string>, content: Content)
    requires keys <= cache.Keys
  {
    && (forall key, t | key in keys && Names(key, t) ::
          cache[key].Str? && t in content && content[t] == Entry(cache[key].text, map[]))
    && (forall t | t in content :: exists key :: key in keys && Names(key, t))
  }

  lemma NamesIff(key: string)
    ensures HasPrefix(key, COMMON_PREFIX) <==> HasPrefix(key, "common:")
    ensures forall t ::
              Names(key, t) <==> HasPrefix(key, COMMON_PREFIX) && NewResourceType(key[|COMMON_PREFIX|..]) == Some(t)
    ensures forall t :: Names(key, t) ==> t != ""
  {
  }

  lemma LoadedOneMore(cache: map<string, Value>, keys: set<string>, content: Content, key: string)
    requires keys <= cache.Keys && key in cache && key !in keys && WellFormed(cache, keys)
             && Loaded(cache, keys, content)
    ensures var next := LoadResource(content, key, cache[key]);
            if next.None? then !WellFormed(cache, cache.Keys)
            else WellFormed(cache, keys + {key}) && Loaded(cache, keys + {key}, next.value)
  {
    NamesIff(key);
    var next := LoadResource(content, key, cache[key]);
    if next.None? {
      var t := NewResourceType(key[|COMMON_PREFIX|..]);
      if t.Some? && cache[key].Str? {
        assert Names(key, t.value);
        var other :| other in keys && Names(other, t.value);
      }
    } else if HasPrefix(key, COMMON_PREFIX) {
      assert Names(key, NewResourceType(key[|COMMON_PREFIX|..]).value);
    }
  }

  /** The first pass: resource schemas, exactly those named, if all of them are well formed. */
  method LoadResources(cache: map<string, Value>, ghost schemas: Schemas) returns (r: Option<Content>)
    ensures r.Some? <==> WellFormed(cache, cache.Keys)
    ensures r.Some? ==> Loaded(cache, cache.Keys, r.value)
    ensures AllPlain(schemas) && IsWritten(cache, schemas, schemas.Keys) ==>
              r.Some? && Rebuilt(r.value, schemas, schemas.Keys, {})
  {
    ghost var written := AllPlain(schemas) && IsWritten(cache, schemas, schemas.Keys);
    var content: Content := map[];
    var rest := cache.Keys;
    if written {
      ReadNoneOrAll(cache, schemas);
    }
    while rest != {}
      invariant rest <= cache.Keys
      invariant WellFormed(cache, cache.Keys - rest) && Loaded(cache, cache.Keys - rest, content)
      invariant written ==> Rebuilt(content, schemas, Read(schemas, rest), {})
      decreases |rest|
    {
      var key := Pick(rest);
      if written {
        ghost var k := ReadOne(cache, schemas, rest, key);
        ResourceLoaded(content, schemas, Read(schemas, rest), k);
      }
      LoadedOneMore(cache, cache.Keys - rest, content, key);
      var next := LoadResource(content, key, cache[key]);
      if next.None? {
        return None;
      }
      content := next.value;
      assert cache.Keys - (rest - {key}) == cache.Keys - rest + {key};
      rest := rest - {key};
    }
    assert cache.Keys - rest == cache.Keys;
    r := Some(content);
  }

  method FindResourceType(key: string, types: set<string>) returns (t: string, remainder: string)
    ensures t == "" || (t in types && HasPrefix(key, t + ":") && remainder == key[|t| + 1..])
    ensures t == "" ==> "" in types || forall u | u in types :: !HasPrefix(key, u + ":")
  {
    var rest := types;
    while rest != {}
      invariant rest <= types && forall u | u in types && u !in rest :: !HasPrefix(key, u + ":")
      decreases |rest|
    {
      var u := Pick(rest);
      if HasPrefix(key, u + ":") {
        return u, key[|u| + 1..];
      }
      rest := rest - {u};
    }
    return "", "";
  }

  /** How the second pass reads a key, given the resource types. */
  lemma ReadsAsReporter(k: Key, types: set<string>)
    requires Plain(k) && forall t | t in types :: Plain(Common(t))
    ensures forall t | t in types :: HasPrefix(Format(k), t + ":") <==> k.Reporter? && t == k.resourceType
    ensures k.Reporter? ==> Format(k)[|k.resourceType| + 1..] == k.reporterType
    ensures "" !in types
  {
    PlainHead(k);
    forall t | t in types ensures HasPrefix(Format(k), t + ":") <==> k.Reporter? && t == k.resourceType {
      HeadIff(Head(k), Tail(k), t);
    }
    HeadIff(Head(k), Tail(k), Head(k));
    assert !Plain(Common(""));
  }

  /** One key of the second pass, once its resource type is found. */
  function LoadReporter(content: Content, t: string, remainder: string, value: Value): Option<Content>
    requires t in content
  {
    var reporterType := NewReporterType(remainder);
    if reporterType.None? || !value.Str? || reporterType.value in content[t].reporters then None
    else Some(content[t := content[t].(reporters := content[t].reporters[reporterType.value := value.text])])
  }

  lemma ReporterLoaded(content: Content, schemas: Schemas, keys: set<Key>, k: Key)
    requires keys <= schemas.Keys && Rebuilt(content, schemas, schemas.Keys, keys) && k in schemas && k !in keys
             && Plain(k)
    ensures if k.Reporter? && k.resourceType in content then
              var r := LoadReporter(content, k.resourceType, k.reporterType, Str(schemas[k]));
              r.Some? && Rebuilt(r.value, schemas, schemas.Keys, keys + {k})
            else Rebuilt(content, schemas, schemas.Keys, keys + {k})
  {
  }

  /** One key of a written cache in the second pass. */
  lemma ReadAnother(cache: map<string, Value>, schemas: Schemas, rest: set<string>, content: Content, key: string,
                    t: string)
    requires AllPlain(schemas) && IsWritten(cache, schemas, schemas.Keys) && key in rest && rest <= cache.Keys
    requires Rebuilt(content, schemas, schemas.Keys, Read(schemas, rest))
    requires t == "" || (t in content && HasPrefix(key, t + ":"))
    requires t == "" ==> "" in content || forall u | u in content :: !HasPrefix(key, u + ":")
    ensures if t == "" then Rebuilt(content, schemas, schemas.Keys, Read(schemas, rest - {key}))
            else
              var r := LoadReporter(content, t, key[|t| + 1..], cache[key]);
              r.Some? && Rebuilt(r.value, schemas, schemas.Keys, Read(schemas, rest - {key}))
  {
    var k := ReadOne(cache, schemas, rest, key);
    ReadsAsReporter(k, content.Keys);
    ReporterLoaded(content, schemas, Read(schemas, rest), k);
  }

  /** The key's text is the schema of a reporter of a resource type that the key starts with. */
  ghost predicate PlacedAt(content: Content, key: string, value: Value, t: string) {
    && t in content && HasPrefix(key, t + ":") && value.Str?
    && var r := NewReporterType(key[|t| + 1..]);
       r.Some? && r.value in content[t].reporters && content[t].reporters[r.value] == value.text
  }

  /** If the key starts with a loaded type at all, it is placed under one. */
  ghost predicate Placed(content: Content, key: string, value: Value) {
    (exists t :: t in content && HasPrefix(key, t + ":")) ==> exists t :: PlacedAt(content, key, value, t)
  }

  /** Reporter schemas are added under their types; what was placed stays. */
  lemma PlacedOneMore(content: Content, t: string, key: string, value: Value, other: string, otherValue: Value)
    requires t in content && HasPrefix(key, t + ":") && LoadReporter(content, t, key[|t| + 1..], value).Some?
    ensures var next := LoadReporter(content, t, key[|t| + 1..], value).value;
            Placed(next, key, value) && (Placed(content, other, otherValue) ==> Placed(next, other, otherValue))
  {
    var next := LoadReporter(content, t, key[|t| + 1..], value).value;
    assert PlacedAt(next, key, value, t);
    if u :| PlacedAt(content, other, otherValue, u) {
      assert PlacedAt(next, other, otherValue, u);
    }
  }

  /** The state of the second pass: the resources are those of the first, and all keys but the rest are placed. */
  ghost predicate PlacedBut(cache: map<string, Value>, loaded: Content, rest: set<string>, content: Content) {
    && content.Keys == loaded.Keys && (forall t | t in loaded :: content[t].schema == loaded[t].schema)
    && ("" !in loaded ==> forall key | key in cache && key !in rest :: Placed(content, key, cache[key]))
  }

  /** A key of no loaded type is passed over. */
  lemma PassOver(cache: map<string, Value>, loaded: Content, rest: set<string>, content: Content, key: string)
    requires PlacedBut(cache, loaded, rest, content)
             && ("" in content || forall t | t in content :: !HasPrefix(key, t + ":"))
    ensures PlacedBut(cache, loaded, rest - {key}, content)
  {
  }

  lemma PlaceAnother(cache: map<string, Value>, loaded: Content, rest: set<string>, content: Content, t: string,
                     key: string)
    requires key in cache && PlacedBut(cache, loaded, rest, content)
    requires t in content && HasPrefix(key, t + ":") && LoadReporter(content, t, key[|t| + 1..], cache[key]).Some?
    ensures PlacedBut(cache, loaded, rest - {key}, LoadReporter(content, t, key[|t| + 1..], cache[key]).value)
  {
    var next := LoadReporter(content, t, key[|t| + 1..], cache[key]).value;
    if "" !in loaded {
      forall other | other in cache && other !in rest - {key} ensures Placed(next, other, cache[other]) {
        PlacedOneMore(content, t, key, cache[key], other, cache[other]);
      }
    }
  }

  /** The second pass: the reporter schemas of the loaded resources. */
  method LoadReporters(loaded: Content, cache: map<string, Value>, ghost schemas: Schemas) returns (r: Option<Content>)
    ensures AllPlain(schemas) && IsWritten(cache, schemas, schemas.Keys)
            && Rebuilt(loaded, schemas, schemas.Keys, {}) ==>
              r.Some? && Rebuilt(r.value, schemas, schemas.Keys, schemas.Keys)
    ensures r.Some? ==> r.value.Keys == loaded.Keys && forall t | t in loaded :: r.value[t].schema == loaded[t].schema
    ensures r.Some? && "" !in loaded ==> forall key | key in cache :: Placed(r.value, key, cache[key])
  {
    ghost var written := AllPlain(schemas) && IsWritten(cache, schemas, schemas.Keys)
      && Rebuilt(loaded, schemas, schemas.Keys, {});
    var content, types, rest := loaded, loaded.Keys, cache.Keys;
    if written {
      ReadNoneOrAll(cache, schemas);
    }
    while rest != {}
      invariant rest <= cache.Keys && content.Keys == types && PlacedBut(cache, loaded, rest, content)
      invariant written ==> Rebuilt(content, schemas, schemas.Keys, Read(schemas, rest))
      decreases |rest|
    {
      var key := Pick(rest);
      var t, remainder := FindResourceType(key, types);
      if written {
        ReadAnother(cache, schemas, rest, content, key, t);
      }
      if t == "" {
        PassOver(cache, loaded, rest, content, key);
        rest := rest - {key};
        continue;
      }
      var next := LoadReporter(content, t, remainder, cache[key]);
      if next.None? {
        return None;
      }
      PlaceAnother(cache, loaded, rest, content, t, key);
      content := next.value;
      rest := rest - {key};
    }
    r := Some(content);
  }

  /** Loading what was written: whatever the order in which the map is read, exactly the resource schemas come back,
      each with exactly its reporter schemas. Of any other map, a malformed resource schema is an error; what is loaded
      has exactly the resource types named, and every key that starts with one of them is placed under one. */
  method NewFromJsonBytes(cache: map<string, Value>, ghost schemas: Schemas) returns (r: Option<Content>)
    ensures AllPlain(schemas) && IsWritten(cache, schemas, schemas.Keys) ==>
              r.Some? && Rebuilt(r.value, schemas, schemas.Keys, schemas.Keys)
    ensures r.Some? ==> WellFormed(cache, cache.Keys)
    ensures r.Some? ==> forall t :: t in r.value <==> exists key :: key in cache && Names(key, t)
    ensures r.Some? ==> forall key, t | key in cache && Names(key, t) :: cache[key] == Str(r.value[t].schema)
    ensures r.Some? ==> forall key | key in cache :: Placed(r.value, key, cache[key])
  {
    var resources := LoadResources(cache, schemas);
    if resources.None? {
      return None;
    }
    assert "" !in resources.value by {
      if "" in resources.value {
        var key :| key in cache && Names(key, "");
        NamesIff(key);
      }
    }
    r := LoadReporters(resources.value, cache, schemas);
  }
}
