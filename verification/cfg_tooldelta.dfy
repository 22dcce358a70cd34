/** The configuration validator of tooldelta/cfg.py: `Cfg.check_auto`, `check_dict_2`
    and `check_list_2`. Unlike the libs copy it keeps no error position: `fromkey` is
    only the key name used in messages, `check_dict_2` never tests that the document
    is an object, and the alternatives branch swallows every exception. */
module ToolDeltaCfg {
  import opened Wrappers
  import opened PyText
  import opened CfgTypes

  /** Returned normally, raised ConfigKeyError, raised ConfigValueError, or raised
      anything else (ValueError, IndexError, AttributeError). */
  datatype Outcome = Ok | KeyErr | ValueErr | ProgErr

  /** The default `fromkey` of `check_auto` and `check_list_2`. */
  const NoKey: string := "?"

  /** `check_auto(standard, val, fromkey)`. */
  function CheckAuto(std: Schema, val: Json, key: string): (r: Outcome)
    ensures key == FindNone ==> r == ProgErr
    ensures std.SType? && key != FindNone ==> (r.Ok? <==> IsInstance(val, std.t)) && (!r.Ok? ==> r == ValueErr)
    decreases std, 5, 0
  {
    if key == FindNone then ProgErr
    else
      match std
      case SType(t) => if IsInstance(val, t) then Ok else ValueErr
      case SList(_) => CheckList(std, val)
      case SDict(_) => CheckDict(std, val)
      case _ => ProgErr
  }

  /** `check_dict_2(pattern, jsondict)`: the entries in order, the first exception
      wins. */
  function CheckDict(std: Schema, doc: Json): (r: Outcome)
    requires std.SDict?
    ensures |std.entries| == 0 ==> r == Ok
    ensures !doc.JObj? ==> r == Ok || r == ProgErr
    decreases std, 4, 0
  {
    CheckEntries(std, 0, doc)
  }

  /** The entries from the `i`-th on: a document that is not an object never raises
      a config error, only AttributeError. */
  function CheckEntries(std: Schema, i: nat, doc: Json): (r: Outcome)
    requires std.SDict? && i <= |std.entries|
    ensures !doc.JObj? ==> r == Ok || r == ProgErr
    ensures r == KeyErr ==> exists k | i <= k < |std.entries| :: CheckEntry(std, k, doc) == KeyErr
    decreases std, 3, |std.entries| - i
  {
    if i == |std.entries| then Ok
    else
      var r := CheckEntry(std, i, doc);
      if r.Ok? then CheckEntries(std, i + 1, doc) else r
  }

  /** One iteration of the entry loop. `jsondict.items()` and `jsondict.get` raise
      AttributeError when the document is not an object. */
  function CheckEntry(std: Schema, i: nat, doc: Json): (r: Outcome)
    requires std.SDict? && i < |std.entries|
    ensures !doc.JObj? ==> r == Ok || r == ProgErr
    ensures var key := std.entries[i].key;
      key.KStr? && key.name != AnyKey && doc.JObj? && Fetch(doc.fields, key.name).None? ==> r == KeyErr
    ensures var key := std.entries[i].key;
      key.KOptional? && doc.JObj? && Fetch(doc.fields, key.key).None? ==> r == Ok
    decreases std, 2, 0
  {
    var sub := std.entries[i].pattern;
    match std.entries[i].key
    case KGroup(_) => CheckGroup(std, i, doc, 0)
    case KStr(k) =>
      if !doc.JObj? then ProgErr
      else if k == AnyKey then CheckAnyValues(std, i, doc, 0)
      else (match Fetch(doc.fields, k)
        case None => KeyErr
        case Some(v) => CheckAuto(sub, v, k))
    case KOptional(k) =>
      if !doc.JObj? then ProgErr
      else (match Fetch(doc.fields, k)
        case None => Ok
        case Some(v) => CheckAuto(sub, v, k))
    case KOther => if !doc.JObj? then ProgErr else KeyErr
  }

  /** A `"%any"` entry: every member, with its own name as `fromkey`. */
  function CheckAnyValues(std: Schema, i: nat, doc: Json, j: nat): (r: Outcome)
    requires std.SDict? && doc.JObj? && i < |std.entries| && j <= |doc.fields|
    ensures r == Ok ==> forall m | j <= m < |doc.fields| :: doc.fields[m].name != FindNone
    decreases std, 1, |doc.fields| - j
  {
    if j == |doc.fields| then Ok
    else
      var r := CheckAuto(std.entries[i].pattern, doc.fields[j].value, doc.fields[j].name);
      if r.Ok? then CheckAnyValues(std, i, doc, j + 1) else r
  }

  /** A `Cfg.Group(...)` entry: each member that is present is checked. */
  function CheckGroup(std: Schema, i: nat, doc: Json, j: nat): (r: Outcome)
    requires std.SDict? && i < |std.entries| && std.entries[i].key.KGroup?
    requires j <= |std.entries[i].key.members|
    ensures !doc.JObj? ==> r == Ok || r == ProgErr
    ensures doc.JObj? && (forall m | j <= m < |std.entries[i].key.members| :: Fetch(doc.fields, std.entries[i].key.members[m]).None?)
            ==> r == Ok
    decreases std, 1, |std.entries[i].key.members| - j
  {
    var ms := std.entries[i].key.members;
    if j == |ms| then Ok
    else if !doc.JObj? then ProgErr
    else
      match Fetch(doc.fields, ms[j])
      case None => CheckGroup(std, i, doc, j + 1)
      case Some(v) =>
        var r := CheckAuto(std.entries[i].pattern, v, ms[j]);
        if r.Ok? then CheckGroup(std, i, doc, j + 1) else r
  }

  /** `check_list_2(pattern, value)`, always reached with the default `fromkey` "?". */
  function CheckList(std: Schema, val: Json): (r: Outcome)
    requires std.SList?
    ensures |std.items| == 0 ==> r == ProgErr
    ensures IsListPattern(std.items) && !val.JList? ==> r == ValueErr
    decreases std, 4, 0
  {
    var items := std.items;
    if |items| == 0 then ProgErr
    else if IsListPattern(items) then
      if !val.JList? then ValueErr
      else
        var limit := ListLimit(items[0].s);
        if limit != 0 && |val.items| != limit then ValueErr
        else CheckElements(std, val, 0)
    else CheckAlternatives(std, val, 0)
  }

  /** `for val in value: check_auto(pattern[1], val, fromkey)`. */
  function CheckElements(std: Schema, val: Json, j: nat): (r: Outcome)
    requires std.SList? && IsListPattern(std.items) && val.JList? && j <= |val.items|
    ensures |std.items| < 2 && j < |val.items| ==> r == ProgErr
    ensures r == Ok ==> j == |val.items| || |std.items| >= 2
    decreases std, 1, |val.items| - j
  {
    if j == |val.items| then Ok
    else if |std.items| < 2 then ProgErr
    else
      var r := CheckAuto(std.items[1], val.items[j], NoKey);
      if r.Ok? then CheckElements(std, val, j + 1) else r
  }

  /** The alternatives branch: a bare `except` turns ANY exception of an alternative
      into "try the next one"; when none passes, ConfigValueError. */
  function CheckAlternatives(std: Schema, val: Json, j: nat): (r: Outcome)
    requires std.SList? && j <= |std.items|
    ensures r == Ok || r == ValueErr
    decreases std, 1, |std.items| - j
  {
    if j == |std.items| then ValueErr
    else if CheckAuto(std.items[j], val, NoKey).Ok? then Ok
    else CheckAlternatives(std, val, j + 1)
  }

  // ---------------------------------------------------------------------------
  // What the checker accepts, for every pattern.

  /** The rules of a pattern as a predicate on documents. No well-formedness is
      assumed: the patterns and documents on which the checker raises are exactly
      those this predicate rejects. A key named "%FindNone" that reaches
      `check_auto` is rejected, since `check_auto` refuses it as `fromkey`. */
  ghost predicate Conforms(std: Schema, v: Json)
    decreases std
  {
    match std
    case SType(t) => IsInstance(v, t)
    case SList(items) =>
      if IsListPattern(items) then
        && v.JList?
        && (ListLimit(items[0].s) == 0 || |v.items| == ListLimit(items[0].s))
        && (if |items| >= 2 then forall m | 0 <= m < |v.items| :: Conforms(items[1], v.items[m])
            else v.items == [])
      else exists m | 0 <= m < |items| :: Conforms(items[m], v)
    case SDict(entries) => forall k | 0 <= k < |entries| :: EntryConforms(entries[k], v)
    case _ => false
  }

  ghost predicate EntryConforms(e: Entry, doc: Json)
    decreases e
  {
    match e.key
    case KGroup(ms) =>
      |ms| == 0
      || (&& doc.JObj?
          && forall m | 0 <= m < |ms| :: Fetch(doc.fields, ms[m]).Some?
               ==> ms[m] != FindNone && Conforms(e.pattern, Fetch(doc.fields, ms[m]).value))
    case KStr(k) =>
      && doc.JObj?
      && if k == AnyKey then
           forall m | 0 <= m < |doc.fields| ::
             doc.fields[m].name != FindNone && Conforms(e.pattern, doc.fields[m].value)
         else
           Fetch(doc.fields, k).Some? && k != FindNone && Conforms(e.pattern, Fetch(doc.fields, k).value)
    case KOptional(k) =>
      && doc.JObj?
      && (Fetch(doc.fields, k).Some? ==> k != FindNone && Conforms(e.pattern, Fetch(doc.fields, k).value))
    case KOther => false
  }

  /** The checker passes exactly the conforming documents, whatever the pattern. */
  lemma {:induction false} AutoMeaning(std: Schema, v: Json, key: string)
    ensures CheckAuto(std, v, key).Ok? <==> key != FindNone && Conforms(std, v)
    decreases std, 5, 0
  {
    if key != FindNone {
      match std
      case SType(_) =>
      case SList(_) => ListMeaning(std, v);
      case SDict(_) => EntriesMeaning(std, 0, v);
      case _ =>
    }
  }

  lemma {:induction false} EntriesMeaning(std: Schema, i: nat, doc: Json)
    requires std.SDict? && i <= |std.entries|
    ensures CheckEntries(std, i, doc).Ok?
            <==> forall k | i <= k < |std.entries| :: EntryConforms(std.entries[k], doc)
    decreases std, 3, |std.entries| - i
  {
    if i < |std.entries| {
      EntryMeaning(std, i, doc);
      EntriesMeaning(std, i + 1, doc);
      assert (forall k | i <= k < |std.entries| :: EntryConforms(std.entries[k], doc))
             <==> EntryConforms(std.entries[i], doc)
                  && forall k | i + 1 <= k < |std.entries| :: EntryConforms(std.entries[k], doc);
    }
  }

  lemma {:induction false} EntryMeaning(std: Schema, i: nat, doc: Json)
    requires std.SDict? && i < |std.entries|
    ensures CheckEntry(std, i, doc).Ok? <==> EntryConforms(std.entries[i], doc)
    decreases std, 2, 0
  {
    var sub := std.entries[i].pattern;
    match std.entries[i].key
    case KGroup(_) => GroupMeaning(std, i, doc, 0);
    case KStr(k) =>
      if doc.JObj? {
        if k == AnyKey {
          AnyMeaning(std, i, doc, 0);
        } else if Fetch(doc.fields, k).Some? {
          AutoMeaning(sub, Fetch(doc.fields, k).value, k);
        }
      }
    case KOptional(k) =>
      if doc.JObj? && Fetch(doc.fields, k).Some? {
        AutoMeaning(sub, Fetch(doc.fields, k).value, k);
      }
    case KOther =>
  }

  lemma {:induction false} AnyMeaning(std: Schema, i: nat, doc: Json, j: nat)
    requires std.SDict? && doc.JObj? && i < |std.entries| && j <= |doc.fields|
    ensures CheckAnyValues(std, i, doc, j).Ok?
            <==> forall m | j <= m < |doc.fields| ::
                   doc.fields[m].name != FindNone && Conforms(std.entries[i].pattern, doc.fields[m].value)
    decreases std, 1, |doc.fields| - j
  {
    if j < |doc.fields| {
      AutoMeaning(std.entries[i].pattern, doc.fields[j].value, doc.fields[j].name);
      AnyMeaning(std, i, doc, j + 1);
    }
  }

  lemma {:induction false} GroupMeaning(std: Schema, i: nat, doc: Json, j: nat)
    requires std.SDict? && i < |std.entries| && std.entries[i].key.KGroup?
    requires j <= |std.entries[i].key.members|
    ensures var ms := std.entries[i].key.members;
      CheckGroup(std, i, doc, j).Ok?
      <==> j == |ms|
           || (&& doc.JObj?
               && forall m | j <= m < |ms| :: Fetch(doc.fields, ms[m]).Some?
                    ==> ms[m] != FindNone && Conforms(std.entries[i].pattern, Fetch(doc.fields, ms[m]).value))
    decreases std, 1, |std.entries[i].key.members| - j
  {
    var ms := std.entries[i].key.members;
    if j < |ms| && doc.JObj? {
      if Fetch(doc.fields, ms[j]).Some? {
        AutoMeaning(std.entries[i].pattern, Fetch(doc.fields, ms[j]).value, ms[j]);
      }
      GroupMeaning(std, i, doc, j + 1);
    }
  }

  lemma {:induction false} ListMeaning(std: Schema, v: Json)
    requires std.SList?
    ensures CheckList(std, v).Ok? <==> Conforms(std, v)
    decreases std, 4, 0
  {
    if IsListPattern(std.items) {
      if v.JList? {
        ElementsMeaning(std, v, 0);
      }
    } else {
      AlternativesMeaning(std, v, 0);
    }
  }

  lemma {:induction false} ElementsMeaning(std: Schema, v: Json, j: nat)
    requires std.SList? && IsListPattern(std.items) && v.JList? && j <= |v.items|
    ensures CheckElements(std, v, j).Ok?
            <==> (j == |v.items| || (|std.items| >= 2 && forall m | j <= m < |v.items| :: Conforms(std.items[1], v.items[m])))
    decreases std, 1, |v.items| - j
  {
    if j < |v.items| && |std.items| >= 2 {
      AutoMeaning(std.items[1], v.items[j], NoKey);
      ElementsMeaning(std, v, j + 1);
    }
  }

  lemma {:induction false} AlternativesMeaning(std: Schema, v: Json, j: nat)
    requires std.SList? && j <= |std.items|
    ensures CheckAlternatives(std, v, j).Ok? <==> exists m | j <= m < |std.items| :: Conforms(std.items[m], v)
    decreases std, 1, |std.items| - j
  {
    if j < |std.items| {
      AutoMeaning(std.items[j], v, NoKey);
      AlternativesMeaning(std, v, j + 1);
    }
  }

  // ---------------------------------------------------------------------------
  // Individual rules.

  /** With no dict-type test, the empty dict pattern accepts every value, object or not. */
  lemma EmptyDictAcceptsAnything(v: Json, key: string)
    requires key != FindNone
    ensures CheckAuto(SDict([]), v, key) == Ok
  {
  }

  /** A non-empty dict pattern applied to a non-object raises a non-config error
      (AttributeError), unless its first entry is an empty group. */
  lemma NonObjectCrashes(std: Schema, v: Json, key: string)
    requires std.SDict? && |std.entries| > 0 && !v.JObj? && key != FindNone
    requires !std.entries[0].key.KGroup? || |std.entries[0].key.members| > 0
    ensures CheckAuto(std, v, key) == ProgErr
  {
    assert CheckEntry(std, 0, v) == ProgErr;
    assert CheckEntries(std, 0, v) == ProgErr;
  }

  /** A pattern that is neither a class, a list nor a dict (a tuple included) raises
      ValueError from `check_auto`. */
  lemma UnknownPatternCrashes(std: Schema, v: Json, key: string)
    requires !(std.SType? || std.SList? || std.SDict?)
    ensures CheckAuto(std, v, key) == ProgErr
  {
  }

  /** A document member literally named "%FindNone" under a "%any" entry raises
      ValueError instead of being checked. */
  lemma SentinelKeyCrashes(sub: Schema, value: Json)
    ensures CheckAuto(SDict([Entry(KStr(AnyKey), sub)]), JObj([Field(FindNone, value)]), NoKey) == ProgErr
  {
    var std := SDict([Entry(KStr(AnyKey), sub)]);
    var doc := JObj([Field(FindNone, value)]);
    assert CheckAnyValues(std, 0, doc, 0) == ProgErr;
    assert CheckEntry(std, 0, doc) == ProgErr;
    assert CheckEntries(std, 0, doc) == ProgErr;
  }

  /** The bare `except` lets the search go on past an alternative that raises a
      non-config error: `[<not a pattern>, int]` accepts 1. */
  lemma AlternativesCatchEverything()
    ensures CheckAuto(SList([SOther, SType(TInt)]), JInt(1), NoKey) == Ok
  {
  }

  /** The module's own self-test: `[int, ["%list", str]]` accepts 12 by its first
      alternative, and rejects a string, which is neither an int nor a list. */
  lemma SelfTest()
    ensures CheckAuto(SList([SType(TInt), SList([SStr(ListTag), SType(TStr)])]), JInt(12), NoKey) == Ok
    ensures CheckAuto(SList([SType(TInt), SList([SStr(ListTag), SType(TStr)])]), JStr("12"), NoKey) == ValueErr
    ensures CheckAuto(SList([SType(TInt), SList([SStr(ListTag), SType(TStr)])]), JList([JStr("a")]), NoKey) == Ok
  {
    var inner := SList([SStr(ListTag), SType(TStr)]);
    assert IsListPattern(inner.items);
    assert ListLimit(ListTag) == 0 by {
      assert RemoveAll(ListTag, ListTag) == "";
    }
    var std := SList([SType(TInt), inner]);
    assert CheckAlternatives(std, JInt(12), 0) == Ok;
    assert CheckAuto(inner, JStr("12"), NoKey) == ValueErr;
    assert CheckAlternatives(std, JStr("12"), 1) == ValueErr;
    assert CheckAlternatives(std, JStr("12"), 0) == ValueErr;
    var l := JList([JStr("a")]);
    assert CheckElements(inner, l, 1) == Ok;
    assert CheckElements(inner, l, 0) == Ok;
    assert CheckList(inner, l) == Ok;
    assert CheckAuto(inner, l, NoKey) == Ok;
    assert CheckAlternatives(std, l, 1) == Ok;
    assert CheckAlternatives(std, l, 0) == Ok;
  }
}
