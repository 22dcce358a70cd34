/** The configuration validator of libs/cfg.py: `Cfg.check_auto`, `check_dict_2` and
    `check_list_2`, the variant that carries the error position `fromkey`.
    Each checker either returns (Ok) or raises: a `ConfigError` subclass carrying
    `errPos`, or another exception (ProgErr), which the alternatives branch does not
    catch. */
module LibsCfg {
  import opened Wrappers
  import opened PyText
  import opened CfgTypes

  /** An element of `fromkey`: a key, or, because the alternatives branch appends
      `fromkey` to a copy of itself, a whole earlier path. */
  datatype PathElem = PKey(key: string) | PSub(path: seq<PathElem>)
  type Path = seq<PathElem>

  /** ConfigKeyError, ConfigValueError, or the bare ConfigError raised for a
      dict-pattern key of an unknown kind. */
  datatype ErrKind = KeyError | ValueError | BaseError

  datatype Outcome = Ok | ConfigErr(kind: ErrKind, pos: Path) | ProgErr

  predicate Extends(path: Path, pos: Path) {
    |path| <= |pos| && pos[..|path|] == path
  }

  /** A key or value error always points at the current path or below it. */
  predicate Located(r: Outcome, path: Path) {
    r.ConfigErr? && r.kind != BaseError ==> |r.pos| > 0 && Extends(path, r.pos)
  }

  lemma LocatedInChild(r: Outcome, path: Path, k: string)
    requires Located(r, path + [PKey(k)])
    ensures Located(r, path)
  {
    if r.ConfigErr? && r.kind != BaseError {
      assert r.pos[..|path|] == r.pos[..|path| + 1][..|path|];
      assert (path + [PKey(k)])[..|path|] == path;
    }
  }

  /** `raise ConfigValueError(f"...{fromkey[-1]}...", fromkey)`: the message is built
      first, so an empty path raises IndexError instead. */
  function ValueFailure(path: Path): Outcome {
    if path == [] then ProgErr else ConfigErr(ValueError, path)
  }

  /** `check_auto(standard, val, fromkey)`. */
  function CheckAuto(std: Schema, val: Json, path: Path): (r: Outcome)
    ensures Located(r, path)
    decreases std, 5, 0
  {
    match std
    case SType(t) => if IsInstance(val, t) then Ok else ValueFailure(path)
    case SList(_) => CheckList(std, val, path)
    case SDict(_) => CheckDict(std, val, path)
    case _ => ProgErr
  }

  /** `check_dict_2(pattern, jsondict, fromkey)`: a non-object is rejected first,
      then the pattern's entries are checked in order and the first failure wins. */
  function CheckDict(std: Schema, val: Json, path: Path): (r: Outcome)
    requires std.SDict?
    ensures Located(r, path)
    decreases std, 4, 0
  {
    if !val.JObj? then ValueFailure(path) else CheckEntries(std, 0, val, path)
  }

  function CheckEntries(std: Schema, i: nat, doc: Json, path: Path): (r: Outcome)
    requires std.SDict? && doc.JObj? && i <= |std.entries|
    ensures Located(r, path)
    decreases std, 3, |std.entries| - i
  {
    if i == |std.entries| then Ok
    else
      var r := CheckEntry(std, i, doc, path);
      if r.Ok? then CheckEntries(std, i + 1, doc, path) else r
  }

  /** One iteration of the `for key, std_val in pattern.items()` loop. */
  function CheckEntry(std: Schema, i: nat, doc: Json, path: Path): (r: Outcome)
    requires std.SDict? && doc.JObj? && i < |std.entries|
    ensures Located(r, path)
    decreases std, 2, 0
  {
    var sub := std.entries[i].pattern;
    match std.entries[i].key
    case KStr(k) =>
      if k == AnyKey then CheckAnyValues(std, i, doc, 0, path)
      else (match Fetch(doc.fields, k)
        case None => if k == "" then ProgErr else ConfigErr(KeyError, path + [PKey(k)])
        case Some(v) =>
          var r := CheckAuto(sub, v, path + [PKey(k)]);
          LocatedInChild(r, path, k);
          r)
    case KGroup(_) => CheckGroup(std, i, doc, 0, path)
    case KOptional(k) =>
      (match Fetch(doc.fields, k)
        case None => Ok
        case Some(v) =>
          var r := CheckAuto(sub, v, path + [PKey(k)]);
          LocatedInChild(r, path, k);
          r)
    case KOther => ConfigErr(BaseError, [])
  }

  /** A `"%any"` entry: every member of the document, in order, at `path + [name]`. */
  function CheckAnyValues(std: Schema, i: nat, doc: Json, j: nat, path: Path): (r: Outcome)
    requires std.SDict? && doc.JObj? && i < |std.entries| && j <= |doc.fields|
    ensures Located(r, path)
    decreases std, 1, |doc.fields| - j
  {
    if j == |doc.fields| then Ok
    else
      var f := doc.fields[j];
      var r := CheckAuto(std.entries[i].pattern, f.value, path + [PKey(f.name)]);
      LocatedInChild(r, path, f.name);
      if r.Ok? then CheckAnyValues(std, i, doc, j + 1, path) else r
  }

  /** A `Cfg.Group(...)` entry: each member that is present is checked. */
  function CheckGroup(std: Schema, i: nat, doc: Json, j: nat, path: Path): (r: Outcome)
    requires std.SDict? && doc.JObj? && i < |std.entries| && std.entries[i].key.KGroup?
    requires j <= |std.entries[i].key.members|
    ensures Located(r, path)
    decreases std, 1, |std.entries[i].key.members| - j
  {
    var members := std.entries[i].key.members;
    if j == |members| then Ok
    else
      match Fetch(doc.fields, members[j])
      case None => CheckGroup(std, i, doc, j + 1, path)
      case Some(v) =>
        var r := CheckAuto(std.entries[i].pattern, v, path + [PKey(members[j])]);
        LocatedInChild(r, path, members[j]);
        if r.Ok? then CheckGroup(std, i, doc, j + 1, path) else r
  }

  /** `check_list_2(pattern, value, fromkey)`. */
  function CheckList(std: Schema, val: Json, path: Path): (r: Outcome)
    requires std.SList?
    ensures Located(r, path)
    decreases std, 4, 0
  {
    var items := std.items;
    if |items| == 0 then ProgErr
    else if IsListPattern(items) then
      if !val.JList? then ValueFailure(path)
      else
        var limit := ListLimit(items[0].s);
        if limit != 0 && |val.items| != limit then ValueFailure(path)
        else CheckElements(std, val, 0, path)
    else CheckAlternatives(std, val, 0, path)
  }

  /** `for val in value: check_auto(pattern[1], val, fromkey)`; `pattern[1]` raises
      IndexError when the pattern has only its head. */
  function CheckElements(std: Schema, val: Json, j: nat, path: Path): (r: Outcome)
    requires std.SList? && IsListPattern(std.items) && val.JList? && j <= |val.items|
    ensures Located(r, path)
    decreases std, 1, |val.items| - j
  {
    if j == |val.items| then Ok
    else if |std.items| < 2 then ProgErr
    else
      var r := CheckAuto(std.items[1], val.items[j], path);
      if r.Ok? then CheckElements(std, val, j + 1, path) else r
  }

  /** The alternatives branch: the first alternative that passes wins; a ConfigError
      moves on to the next one, any other exception propagates. */
  function CheckAlternatives(std: Schema, val: Json, j: nat, path: Path): (r: Outcome)
    requires std.SList? && j <= |std.items|
    ensures Located(r, path)
    decreases std, 1, |std.items| - j
  {
    if j == |std.items| then ValueFailure(path)
    else
      match CheckAuto(std.items[j], val, path + [PSub(path)])
      case Ok => Ok
      case ConfigErr(_, _) => CheckAlternatives(std, val, j + 1, path)
      case ProgErr => ProgErr
  }

  // ---------------------------------------------------------------------------
  // What the checker accepts, stated without reference to its loops.

  /** The rules of a pattern, as a predicate on documents. */
  ghost predicate Conforms(std: Schema, v: Json)
    decreases std
  {
    match std
    case SType(t) => IsInstance(v, t)
    case SList(items) =>
      if IsListPattern(items) then
        && v.JList?
        && (ListLimit(items[0].s) == 0 || |v.items| == ListLimit(items[0].s))
        && (if |items| >= 2 then forall m | 0 <= m < |v.items| :: Conforms(items[1], v.items[m])
            else v.items == [])
      else exists m | 0 <= m < |items| :: Conforms(items[m], v)
    case SDict(entries) => v.JObj? && forall k | 0 <= k < |entries| :: EntryConforms(entries[k], v)
    case _ => false
  }

  /** One dict-pattern entry: required keys present (and not the "%FindNone"
      sentinel), optional keys and group members only checked when present, "%any"
      applied to every member. */
  ghost predicate EntryConforms(e: Entry, doc: Json)
    requires doc.JObj?
    decreases e
  {
    match e.key
    case KStr(k) =>
      if k == AnyKey then forall m | 0 <= m < |doc.fields| :: Conforms(e.pattern, doc.fields[m].value)
      else Fetch(doc.fields, k).Some? && Conforms(e.pattern, Fetch(doc.fields, k).value)
    case KGroup(ms) =>
      forall m | 0 <= m < |ms| :: Fetch(doc.fields, ms[m]).Some? ==> Conforms(e.pattern, Fetch(doc.fields, ms[m]).value)
    case KOptional(k) => Fetch(doc.fields, k).Some? ==> Conforms(e.pattern, Fetch(doc.fields, k).value)
    case KOther => false
  }

  /** Patterns on which the checker never raises anything but a ConfigError below the
      top level: only classes, lists and dicts; list patterns non-empty; a "%listN"
      pattern has its element pattern; no required key is the empty string. */
  ghost predicate WellFormed(std: Schema)
    decreases std
  {
    match std
    case SType(_) => true
    case SList(items) =>
      && |items| > 0
      && if IsListPattern(items) then |items| >= 2 && WellFormed(items[1])
         else forall m | 0 <= m < |items| :: WellFormed(items[m])
    case SDict(entries) =>
      forall k | 0 <= k < |entries| :: entries[k].key != KStr("") && WellFormed(entries[k].pattern)
    case _ => false
  }

  /** On a well-formed pattern the checker passes exactly the conforming documents,
      and below the top level (non-empty path) every failure is a ConfigError. */
  lemma {:induction false} AutoMeaning(std: Schema, v: Json, path: Path)
    requires WellFormed(std)
    ensures CheckAuto(std, v, path).Ok? <==> Conforms(std, v)
    ensures path != [] ==> !CheckAuto(std, v, path).ProgErr?
    decreases std, 5, 0
  {
    match std
    case SType(_) =>
    case SList(_) => ListMeaning(std, v, path);
    case SDict(_) => DictMeaning(std, v, path);
  }

  lemma {:induction false} DictMeaning(std: Schema, v: Json, path: Path)
    requires std.SDict? && WellFormed(std)
    ensures CheckDict(std, v, path).Ok? <==> Conforms(std, v)
    ensures path != [] ==> !CheckDict(std, v, path).ProgErr?
    decreases std, 4, 0
  {
    if v.JObj? {
      EntriesMeaning(std, 0, v, path);
    }
  }

  /** The entry loop from entry `i` on passes exactly when every remaining entry
      conforms, and never raises anything but a ConfigError. */
  lemma EntriesMeaning(std: Schema, i: nat, doc: Json, path: Path)
    requires std.SDict? && WellFormed(std) && doc.JObj? && i <= |std.entries|
    ensures CheckEntries(std, i, doc, path).Ok?
            <==> forall k | i <= k < |std.entries| :: EntryConforms(std.entries[k], doc)
    ensures !CheckEntries(std, i, doc, path).ProgErr?
    decreases std, 3, 0
  {
    forall k | i <= k < |std.entries|
      ensures CheckEntry(std, k, doc, path).Ok? <==> EntryConforms(std.entries[k], doc)
      ensures !CheckEntry(std, k, doc, path).ProgErr?
    {
      EntryMeaning(std, k, doc, path);
    }
    EntriesFold(std, i, doc, path);
    PassingIsConforming(std, i, doc, path);
  }

  /** Entry-wise agreement of checker and rules carries over to all entries at once. */
  lemma PassingIsConforming(std: Schema, i: nat, doc: Json, path: Path)
    requires std.SDict? && doc.JObj? && i <= |std.entries|
    requires forall k | i <= k < |std.entries| :: CheckEntry(std, k, doc, path).Ok? <==> EntryConforms(std.entries[k], doc)
    ensures (forall k | i <= k < |std.entries| :: CheckEntry(std, k, doc, path).Ok?)
            ==> forall k | i <= k < |std.entries| :: EntryConforms(std.entries[k], doc)
    ensures (forall k | i <= k < |std.entries| :: EntryConforms(std.entries[k], doc))
            ==> forall k | i <= k < |std.entries| :: CheckEntry(std, k, doc, path).Ok?
  {
  }

  /** The entry loop passes when every entry passes, and it fails only with a failure
      of one of its entries. */
  lemma {:induction false} EntriesFold(std: Schema, i: nat, doc: Json, path: Path)
    requires std.SDict? && doc.JObj? && i <= |std.entries|
    requires forall k | i <= k < |std.entries| :: !CheckEntry(std, k, doc, path).ProgErr?
    ensures CheckEntries(std, i, doc, path).Ok?
            ==> forall k | i <= k < |std.entries| :: CheckEntry(std, k, doc, path).Ok?
    ensures (forall k | i <= k < |std.entries| :: CheckEntry(std, k, doc, path).Ok?)
            ==> CheckEntries(std, i, doc, path).Ok?
    ensures !CheckEntries(std, i, doc, path).ProgErr?
    decreases |std.entries| - i
  {
    if i < |std.entries| {
      EntriesFold(std, i + 1, doc, path);
    }
  }

  lemma {:induction false} EntryMeaning(std: Schema, i: nat, doc: Json, path: Path)
    requires std.SDict? && WellFormed(std) && doc.JObj? && i < |std.entries|
    ensures CheckEntry(std, i, doc, path).Ok? <==> EntryConforms(std.entries[i], doc)
    ensures !CheckEntry(std, i, doc, path).ProgErr?
    decreases std, 2, 0
  {
    var sub := std.entries[i].pattern;
    assert WellFormed(sub) && std.entries[i].key != KStr("");
    match std.entries[i].key
    case KStr(k) =>
      if k == AnyKey {
        AnyMeaning(std, i, doc, 0, path);
      } else if Fetch(doc.fields, k).Some? {
        AutoMeaning(sub, Fetch(doc.fields, k).value, path + [PKey(k)]);
      }
    case KGroup(_) => GroupMeaning(std, i, doc, 0, path);
    case KOptional(k) =>
      if Fetch(doc.fields, k).Some? {
        AutoMeaning(sub, Fetch(doc.fields, k).value, path + [PKey(k)]);
      }
    case KOther =>
  }

  lemma {:induction false} AnyMeaning(std: Schema, i: nat, doc: Json, j: nat, path: Path)
    requires std.SDict? && WellFormed(std) && doc.JObj? && i < |std.entries| && j <= |doc.fields|
    ensures CheckAnyValues(std, i, doc, j, path).Ok?
            <==> forall m | j <= m < |doc.fields| :: Conforms(std.entries[i].pattern, doc.fields[m].value)
    ensures !CheckAnyValues(std, i, doc, j, path).ProgErr?
    decreases std, 1, |doc.fields| - j
  {
    if j < |doc.fields| {
      assert WellFormed(std.entries[i].pattern);
      var f := doc.fields[j];
      AutoMeaning(std.entries[i].pattern, f.value, path + [PKey(f.name)]);
      AnyMeaning(std, i, doc, j + 1, path);
    }
  }

  lemma {:induction false} GroupMeaning(std: Schema, i: nat, doc: Json, j: nat, path: Path)
    requires std.SDict? && WellFormed(std) && doc.JObj? && i < |std.entries| && std.entries[i].key.KGroup?
    requires j <= |std.entries[i].key.members|
    ensures var ms := std.entries[i].key.members;
      CheckGroup(std, i, doc, j, path).Ok?
      <==> forall m | j <= m < |ms| :: Fetch(doc.fields, ms[m]).Some?
             ==> Conforms(std.entries[i].pattern, Fetch(doc.fields, ms[m]).value)
    ensures !CheckGroup(std, i, doc, j, path).ProgErr?
    decreases std, 1, |std.entries[i].key.members| - j
  {
    var ms := std.entries[i].key.members;
    if j < |ms| {
      assert WellFormed(std.entries[i].pattern);
      if Fetch(doc.fields, ms[j]).Some? {
        AutoMeaning(std.entries[i].pattern, Fetch(doc.fields, ms[j]).value, path + [PKey(ms[j])]);
      }
      GroupMeaning(std, i, doc, j + 1, path);
    }
  }

  lemma {:induction false} ListMeaning(std: Schema, v: Json, path: Path)
    requires std.SList? && WellFormed(std)
    ensures CheckList(std, v, path).Ok? <==> Conforms(std, v)
    ensures path != [] ==> !CheckList(std, v, path).ProgErr?
    decreases std, 4, 0
  {
    if IsListPattern(std.items) {
      if v.JList? {
        ElementsMeaning(std, v, 0, path);
      }
    } else {
      AlternativesMeaning(std, v, 0, path);
    }
  }

  lemma {:induction false} ElementsMeaning(std: Schema, v: Json, j: nat, path: Path)
    requires std.SList? && WellFormed(std) && IsListPattern(std.items) && v.JList? && j <= |v.items|
    ensures CheckElements(std, v, j, path).Ok?
            <==> forall m | j <= m < |v.items| :: Conforms(std.items[1], v.items[m])
    ensures path != [] ==> !CheckElements(std, v, j, path).ProgErr?
    decreases std, 1, |v.items| - j
  {
    if j < |v.items| {
      AutoMeaning(std.items[1], v.items[j], path);
      ElementsMeaning(std, v, j + 1, path);
    }
  }

  lemma {:induction false} AlternativesMeaning(std: Schema, v: Json, j: nat, path: Path)
    requires std.SList? && WellFormed(std) && !IsListPattern(std.items) && j <= |std.items|
    ensures CheckAlternatives(std, v, j, path).Ok? <==> exists m | j <= m < |std.items| :: Conforms(std.items[m], v)
    ensures path != [] ==> !CheckAlternatives(std, v, j, path).ProgErr?
    decreases std, 1, |std.items| - j
  {
    if j < |std.items| {
      assert WellFormed(std.items[j]);
      AutoMeaning(std.items[j], v, path + [PSub(path)]);
      AlternativesMeaning(std, v, j + 1, path);
    }
  }

  // ---------------------------------------------------------------------------
  // Individual rules of check_dict_2 and check_list_2.

  /** A value that is not a JSON object fails a dict pattern with ConfigValueError at
      the current path; at the top level (empty path) `fromkey[-1]` raises first. */
  lemma NonObjectRejected(std: Schema, v: Json, path: Path)
    requires std.SDict? && !v.JObj?
    ensures path != [] ==> CheckAuto(std, v, path) == ConfigErr(ValueError, path)
    ensures path == [] ==> CheckAuto(std, v, path) == ProgErr
  {
  }

  /** Entries are checked in pattern order and the first failing entry's error is
      the result. */
  lemma {:induction false} FirstFailingEntry(std: Schema, doc: Json, path: Path, i: nat, from: nat)
    requires std.SDict? && doc.JObj? && from <= i < |std.entries|
    requires forall k | from <= k < i :: CheckEntry(std, k, doc, path).Ok?
    requires !CheckEntry(std, i, doc, path).Ok?
    ensures CheckEntries(std, from, doc, path) == CheckEntry(std, i, doc, path)
    decreases i - from
  {
    if from < i {
      FirstFailingEntry(std, doc, path, i, from + 1);
    }
  }

  /** A required key that is absent, or whose value is "%FindNone", raises
      ConfigKeyError at `path + [key]` once the entries before it have passed. */
  lemma MissingRequiredKey(std: Schema, doc: Json, path: Path, i: nat)
    requires std.SDict? && doc.JObj? && i < |std.entries|
    requires std.entries[i].key.KStr? && std.entries[i].key.name !in {AnyKey, ""}
    requires Lookup(doc.fields, std.entries[i].key.name) in {None, Some(JStr(FindNone))}
    requires forall k | 0 <= k < i :: CheckEntry(std, k, doc, path).Ok?
    ensures CheckAuto(std, doc, path) == ConfigErr(KeyError, path + [PKey(std.entries[i].key.name)])
  {
    FirstFailingEntry(std, doc, path, i, 0);
  }

  /** A group none of whose members is present passes, whatever its pattern. */
  lemma {:induction false} AbsentGroupPasses(std: Schema, i: nat, doc: Json, path: Path, j: nat)
    requires std.SDict? && doc.JObj? && i < |std.entries| && std.entries[i].key.KGroup?
    requires j <= |std.entries[i].key.members|
    requires forall m | 0 <= m < |std.entries[i].key.members| :: Fetch(doc.fields, std.entries[i].key.members[m]).None?
    ensures CheckGroup(std, i, doc, j, path) == Ok
    decreases |std.entries[i].key.members| - j
  {
    if j < |std.entries[i].key.members| {
      AbsentGroupPasses(std, i, doc, path, j + 1);
    }
  }

  /** Whether a dict-pattern key names the document key `n`. */
  predicate Names(key: Key, n: string) {
    match key
    case KStr(k) => k == n
    case KGroup(ms) => n in ms
    case KOptional(k) => k == n
    case KOther => false
  }

  lemma {:induction false} LookupAppend(fields: seq<Field>, extra: seq<Field>, n: string)
    requires forall f | f in extra :: f.name != n
    ensures Lookup(fields + extra, n) == Lookup(fields, n)
    decreases |fields|
  {
    if |fields| == 0 {
      assert fields + extra == extra;
    } else {
      assert (fields + extra)[1..] == fields[1..] + extra;
      LookupAppend(fields[1..], extra, n);
    }
  }

  lemma {:induction false} GroupIgnoresExtra(std: Schema, i: nat, fields: seq<Field>, extra: seq<Field>, path: Path, j: nat)
    requires std.SDict? && i < |std.entries| && std.entries[i].key.KGroup?
    requires j <= |std.entries[i].key.members|
    requires forall f | f in extra :: !Names(std.entries[i].key, f.name)
    ensures CheckGroup(std, i, JObj(fields + extra), j, path) == CheckGroup(std, i, JObj(fields), j, path)
    decreases |std.entries[i].key.members| - j
  {
    var ms := std.entries[i].key.members;
    if j < |ms| {
      LookupAppend(fields, extra, ms[j]);
      GroupIgnoresExtra(std, i, fields, extra, path, j + 1);
    }
  }

  lemma {:induction false} EntriesIgnoreExtra(std: Schema, fields: seq<Field>, extra: seq<Field>, path: Path, i: nat)
    requires std.SDict? && i <= |std.entries|
    requires forall k | 0 <= k < |std.entries| :: std.entries[k].key != KStr(AnyKey)
    requires forall f, k | f in extra && 0 <= k < |std.entries| :: !Names(std.entries[k].key, f.name)
    ensures CheckEntries(std, i, JObj(fields + extra), path) == CheckEntries(std, i, JObj(fields), path)
    decreases |std.entries| - i
  {
    if i < |std.entries| {
      match std.entries[i].key {
        case KStr(k) => LookupAppend(fields, extra, k);
        case KOptional(k) => LookupAppend(fields, extra, k);
        case KGroup(_) => GroupIgnoresExtra(std, i, fields, extra, path, 0);
        case KOther =>
      }
      EntriesIgnoreExtra(std, fields, extra, path, i + 1);
    }
  }

  /** Document members that no entry of the pattern names cannot change the result
      (unless the pattern has a "%any" entry, which checks every member). */
  lemma ExtraKeysIgnored(std: Schema, fields: seq<Field>, extra: seq<Field>, path: Path)
    requires std.SDict?
    requires forall k | 0 <= k < |std.entries| :: std.entries[k].key != KStr(AnyKey)
    requires forall f, k | f in extra && 0 <= k < |std.entries| :: !Names(std.entries[k].key, f.name)
    ensures CheckAuto(std, JObj(fields + extra), path) == CheckAuto(std, JObj(fields), path)
  {
    EntriesIgnoreExtra(std, fields, extra, path, 0);
  }

  /** A `%list` pattern raises ConfigValueError at `fromkey` on a value that is not a
      list, and on a list whose length differs from a non-zero limit. */
  lemma ListShapeRejected(std: Schema, val: Json, path: Path)
    requires std.SList? && IsListPattern(std.items)
    ensures !val.JList? ==> CheckList(std, val, path) == ValueFailure(path)
    ensures val.JList? && ListLimit(std.items[0].s) != 0 && |val.items| != ListLimit(std.items[0].s)
            ==> CheckList(std, val, path) == ValueFailure(path)
  {
  }

  /** Below the top level, the alternatives raise ConfigValueError exactly when every
      alternative raised a ConfigError, and end in another exception exactly when an
      alternative raised one after only ConfigErrors before it. */
  lemma {:induction false} AlternativesFailures(std: Schema, val: Json, j: nat, path: Path)
    requires std.SList? && j <= |std.items| && path != []
    ensures CheckAlternatives(std, val, j, path) == ValueFailure(path)
            <==> forall m | j <= m < |std.items| :: CheckAuto(std.items[m], val, path + [PSub(path)]).ConfigErr?
    ensures CheckAlternatives(std, val, j, path) == ProgErr
            <==> exists k | j <= k < |std.items| :: CheckAuto(std.items[k], val, path + [PSub(path)]) == ProgErr
                   && forall m | j <= m < k :: CheckAuto(std.items[m], val, path + [PSub(path)]).ConfigErr?
    decreases |std.items| - j
  {
    if j < |std.items| {
      AlternativesFailures(std, val, j + 1, path);
      var a := CheckAuto(std.items[j], val, path + [PSub(path)]);
      if a.ConfigErr? {
        assert CheckAlternatives(std, val, j, path) == CheckAlternatives(std, val, j + 1, path);
        if CheckAlternatives(std, val, j, path) == ProgErr {
          var k :| j + 1 <= k < |std.items| && CheckAuto(std.items[k], val, path + [PSub(path)]) == ProgErr
                   && forall m | j + 1 <= m < k :: CheckAuto(std.items[m], val, path + [PSub(path)]).ConfigErr?;
          assert forall m | j <= m < k :: CheckAuto(std.items[m], val, path + [PSub(path)]).ConfigErr?;
        }
      } else if a == ProgErr {
        assert CheckAlternatives(std, val, j, path) == ProgErr;
      }
    }
  }

  /** In this copy an alternative that raises something other than a ConfigError ends
      the search, even when a later alternative would pass: `[<not a pattern>, int]`
      rejects 1 with the exception while `[int]` accepts it. */
  lemma UncaughtErrorEndsAlternatives()
    ensures CheckAuto(SList([SOther, SType(TInt)]), JInt(1), [PKey("port")]) == ProgErr
    ensures CheckAuto(SList([SType(TInt)]), JInt(1), [PKey("port")]) == Ok
  {
  }

  /** The module's own self-test: `{"%any": {"a": PFloat}}` against
      `{"a": {"a": 3.2}, "b": {"a": 5.1}, "c": {"a": 1}}` fails on the int 1 with
      errPos `["c", "a"]`. */
  lemma SelfTest()
    ensures
      var std := SDict([Entry(KStr(AnyKey), SDict([Entry(KStr("a"), SType(TPFloat))]))]);
      var doc := JObj([Field("a", JObj([Field("a", JFloat(3.2))])),
                       Field("b", JObj([Field("a", JFloat(5.1))])),
                       Field("c", JObj([Field("a", JInt(1))]))]);
      CheckAuto(std, doc, []) == ConfigErr(ValueError, [PKey("c"), PKey("a")])
  {
    var inner := SDict([Entry(KStr("a"), SType(TPFloat))]);
    var std := SDict([Entry(KStr(AnyKey), inner)]);
    var a := JObj([Field("a", JFloat(3.2))]);
    var b := JObj([Field("a", JFloat(5.1))]);
    var c := JObj([Field("a", JInt(1))]);
    var doc := JObj([Field("a", a), Field("b", b), Field("c", c)]);
    assert Fetch(a.fields, "a") == Some(JFloat(3.2));
    assert CheckEntry(inner, 0, a, [PKey("a")]) == Ok;
    assert CheckAuto(inner, a, [PKey("a")]) == Ok;
    assert Fetch(b.fields, "a") == Some(JFloat(5.1));
    assert CheckEntry(inner, 0, b, [PKey("b")]) == Ok;
    assert CheckAuto(inner, b, [PKey("b")]) == Ok;
    assert Fetch(c.fields, "a") == Some(JInt(1));
    assert [PKey("c")] + [PKey("a")] == [PKey("c"), PKey("a")];
    assert CheckEntry(inner, 0, c, [PKey("c")]) == ConfigErr(ValueError, [PKey("c"), PKey("a")]);
    assert CheckAuto(inner, c, [PKey("c")]) == ConfigErr(ValueError, [PKey("c"), PKey("a")]);
    assert CheckAnyValues(std, 0, doc, 2, []) == ConfigErr(ValueError, [PKey("c"), PKey("a")]);
    assert CheckAnyValues(std, 0, doc, 1, []) == ConfigErr(ValueError, [PKey("c"), PKey("a")]);
    assert CheckAnyValues(std, 0, doc, 0, []) == ConfigErr(ValueError, [PKey("c"), PKey("a")]);
    assert CheckEntry(std, 0, doc, []) == ConfigErr(ValueError, [PKey("c"), PKey("a")]);
    assert CheckEntries(std, 0, doc, []) == ConfigErr(ValueError, [PKey("c"), PKey("a")]);
    assert CheckAuto(std, doc, []) == ConfigErr(ValueError, [PKey("c"), PKey("a")]);
  }
}
