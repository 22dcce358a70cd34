/** The string helpers of tooldelta/cfg.py around the validator: the ".json" path
    normalisation shared by `get_cfg`, `default_cfg` and `exists`, and the parts of
    `getPluginConfigAndVersion` that build the default document and the plugin's
    pattern and read the version string back. Reading and writing files is not
    modelled: documents are already parsed. */
module ConfigFiles {
  import opened Wrappers
  import opened PyText
  import opened CfgTypes
  import opened ToolDeltaCfg
  import opened Versions

  const VersionKey: string := "配置版本"
  const ItemsKey: string := "配置项"
  const JsonExt: string := ".json"

  /** `path if path.endswith(".json") else path + ".json"`. */
  function JsonPath(p: string): (r: string)
    ensures EndsWith(r, JsonExt)
    ensures StartsWith(r, p)
    ensures EndsWith(p, JsonExt) <==> r == p
  {
    if EndsWith(p, JsonExt) then p
    else
      var r := p + JsonExt;
      assert r[|r| - |JsonExt|..] == JsonExt;
      assert r[..|p|] == p;
      r
  }

  /** Normalising twice is normalising once. */
  lemma JsonPathIdempotent(p: string)
    ensures JsonPath(JsonPath(p)) == JsonPath(p)
  {
  }

  /** `".".join([str(n) for n in vers])`: a non-empty version reads back as itself,
      and no version is written as the missing-key sentinel. */
  function VersionString(vers: Version): (s: string)
    ensures |vers| > 0 ==> ParseVersion(s) == Some(vers)
    ensures s != FindNone
  {
    VersionStringNotSentinel(vers);
    var s := Join(Decimals(vers), '.');
    if |vers| > 0 then VersionRoundTrip(vers); s else s
  }

  function Decimals(vers: Version): (parts: seq<string>)
    ensures |parts| == |vers|
    ensures forall i :: 0 <= i < |vers| ==> parts[i] == IntToDecimal(vers[i])
  {
    if |vers| == 0 then [] else [IntToDecimal(vers[0])] + Decimals(vers[1..])
  }

  /** `tuple(int(c) for c in s.split("."))`; any part `int` refuses makes it fail. */
  function ParseVersion(s: string): (r: Option<Version>)
    ensures r.Some? ==> |r.value| == |Split(s, '.')|
  {
    ParseParts(Split(s, '.'))
  }

  function ParseParts(parts: seq<string>): (r: Option<Version>)
    ensures r.Some? <==> forall i :: 0 <= i < |parts| ==> ParseInt(parts[i]).Some?
    ensures r.Some? ==> |r.value| == |parts| && forall i :: 0 <= i < |parts| ==> ParseInt(parts[i]) == Some(r.value[i])
  {
    if |parts| == 0 then Some([])
    else
      match (ParseInt(parts[0]), ParseParts(parts[1..]))
      case (Some(n), Some(rest)) => Some([n] + rest)
      case _ => None
  }

  /** A non-empty version tuple survives being written as a string and read back. */
  lemma VersionRoundTrip(vers: Version)
    requires |vers| > 0
    ensures ParseVersion(Join(Decimals(vers), '.')) == Some(vers)
  {
    SplitJoin(Decimals(vers), '.');
    DecimalsReadBack(vers);
  }

  /** Each decimal part reads back as the number it was written from. */
  lemma DecimalsReadBack(vers: Version)
    ensures ParseParts(Decimals(vers)) == Some(vers)
  {
    var parts := Decimals(vers);
    forall i | 0 <= i < |vers|
      ensures ParseInt(parts[i]) == Some(vers[i])
    {
      ParseIntOfDecimal(vers[i]);
    }
    var r := ParseParts(parts);
    assert r.Some?;
    assert r.value == vers;
  }

  /** The empty tuple is written as "", which `int("")` cannot read back. */
  lemma EmptyVersionUnreadable()
    ensures VersionString([]) == ""
    ensures ParseVersion(VersionString([])) == None
  {
  }

  lemma VersionStringNotSentinel(vers: Version)
    ensures Join(Decimals(vers), '.') != FindNone
  {
    var s := Join(Decimals(vers), '.');
    if |vers| > 0 {
      var parts := Decimals(vers);
      assert s[0] == parts[0][0];
      assert FindNone[0] == '%';
    }
  }

  /** `PLUGINCFG_STANDARD_TYPE` with its "配置项" entry replaced by the plugin's pattern. */
  function PluginConfigPattern(st: Schema): (r: Schema)
    ensures r.SDict?
    ensures forall i :: 0 <= i < |r.entries| ==> r.entries[i].key.KStr? && r.entries[i].key.name !in {FindNone, AnyKey}
    ensures exists i :: 0 <= i < |r.entries| && r.entries[i] == Entry(KStr(ItemsKey), st)
  {
    var r := SDict([Entry(KStr(VersionKey), SType(TStr)), Entry(KStr(ItemsKey), st)]);
    assert r.entries[1] == Entry(KStr(ItemsKey), st);
    r
  }

  /** `PLUGINCFG_DEFAULT` with the plugin's default items and version filled in. */
  function DefaultDocument(default: Json, vers: Version): (r: Json)
    ensures r.JObj?
    ensures Lookup(r.fields, ItemsKey) == Some(default)
    ensures Lookup(r.fields, VersionKey) == Some(JStr(VersionString(vers)))
  {
    JObj([Field(VersionKey, JStr(VersionString(vers))), Field(ItemsKey, default)])
  }

  /** A plugin configuration passes `get_cfg`'s check exactly when it is an object
      whose version is a string and whose items match the plugin's pattern. */
  lemma PluginPatternMeaning(st: Schema, doc: Json)
    ensures CheckDict(PluginConfigPattern(st), doc).Ok?
            <==> && doc.JObj?
                 && Fetch(doc.fields, VersionKey).Some? && Fetch(doc.fields, VersionKey).value.JStr?
                 && Fetch(doc.fields, ItemsKey).Some?
                 && Conforms(st, Fetch(doc.fields, ItemsKey).value)
  {
    var pat := PluginConfigPattern(st);
    EntriesMeaning(pat, 0, doc);
    assert VersionKey != FindNone && ItemsKey != FindNone && VersionKey != AnyKey && ItemsKey != AnyKey;
    assert EntryConforms(pat.entries[0], doc) <==> doc.JObj? && Fetch(doc.fields, VersionKey).Some? && Fetch(doc.fields, VersionKey).value.JStr?;
    assert EntryConforms(pat.entries[1], doc) <==> doc.JObj? && Fetch(doc.fields, ItemsKey).Some? && Conforms(st, Fetch(doc.fields, ItemsKey).value);
  }

  /** `cfgGet["配置版本"]` read back as a version tuple (line 153), when the
      document has a string version that `int` can read. */
  function StoredVersion(doc: Json): (r: Option<Version>)
    ensures r.Some? ==> |r.value| > 0
    ensures r.Some? ==> doc.JObj? && exists i :: 0 <= i < |doc.fields| && doc.fields[i].name == VersionKey
  {
    if doc.JObj? && Lookup(doc.fields, VersionKey).Some? && Lookup(doc.fields, VersionKey).value.JStr?
    then ParseVersion(Lookup(doc.fields, VersionKey).value.s)
    else None
  }

  /** `cfgGet["配置项"]`. */
  function StoredItems(doc: Json): (r: Option<Json>)
    ensures r.Some? <==> doc.JObj? && exists i :: 0 <= i < |doc.fields| && doc.fields[i].name == ItemsKey
    ensures r.Some? ==> exists i :: 0 <= i < |doc.fields| && doc.fields[i] == Field(ItemsKey, r.value)
  {
    if doc.JObj? then Lookup(doc.fields, ItemsKey) else None
  }

  /** The default document built from the plugin's default items passes the later
      check exactly when the items match the plugin's pattern, and reading it back
      gives the default items and the default version. */
  lemma DefaultDocumentRoundTrip(st: Schema, default: Json, vers: Version)
    requires default != JStr(FindNone) && |vers| > 0
    ensures CheckDict(PluginConfigPattern(st), DefaultDocument(default, vers)).Ok? <==> Conforms(st, default)
    ensures StoredItems(DefaultDocument(default, vers)) == Some(default)
    ensures StoredVersion(DefaultDocument(default, vers)) == Some(vers)
  {
    var doc := DefaultDocument(default, vers);
    var v := VersionString(vers);
    assert Lookup(doc.fields, VersionKey) == Some(JStr(v));
    assert ParseVersion(v) == Some(vers);
    assert Fetch(doc.fields, VersionKey) == Some(JStr(v)) by {
      assert JStr(v) != JStr(FindNone);
    }
    assert Fetch(doc.fields, ItemsKey) == Some(default);
    PluginPatternMeaning(st, doc);
  }
}
