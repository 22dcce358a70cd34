/** The values both copies of the configuration validator work on: a parsed JSON
    document, the Python pattern ("standard type") it is checked against, and the
    type test `_CfgIsinstance`, which is the same function in both copies. */
module CfgTypes {
  import opened Wrappers
  import opened PyText

  /** A document as `ujson.load` hands it to the validator. Floats are only ever
      compared with 0, so they are kept as reals. Object members keep their order. */
  datatype Json =
    | JNull
    | JBool(b: bool)
    | JInt(i: int)
    | JFloat(f: real)
    | JStr(s: string)
    | JList(items: seq<Json>)
    | JObj(fields: seq<Field>)

  datatype Field = Field(name: string, value: Json)

  /** The classes a pattern can name: the builtins a JSON value can be an instance
      of, `object`, any other class (`TOtherClass`, e.g. `tuple`), and the six
      refinement classes declared inside `Cfg`. */
  datatype PyType =
    | TInt | TFloat | TStr | TBool | TNoneType | TDict | TList | TObject | TOtherClass
    | TPInt | TNNInt | TPFloat | TNNFloat | TPNumber | TNNNumber

  /** A key of a dict pattern: a plain string (required), `Cfg.Group(*members)`,
      `Cfg.UnneccessaryKey(key)`, or any other hashable value. The string `"%any"`
      is a plain string key that the checkers treat specially. */
  datatype Key =
    | KStr(name: string)
    | KGroup(members: seq<string>)
    | KOptional(key: string)
    | KOther

  /** A pattern: a class, a tuple of classes, a string (only meaningful as the
      `"%listN"` head of a list pattern), a list pattern, a dict pattern, or any
      other Python value. */
  datatype Schema =
    | SType(t: PyType)
    | STuple(members: seq<PyType>)
    | SStr(s: string)
    | SList(items: seq<Schema>)
    | SDict(entries: seq<Entry>)
    | SOther

  datatype Entry = Entry(key: Key, pattern: Schema)

  /** The sentinel `FIND_NONE` that `jsondict.get(key, FIND_NONE)` returns for a missing key. */
  const FindNone: string := "%FindNone"
  const AnyKey: string := "%any"
  const ListTag: string := "%list"

  /** `jsondict.get(k)`: the first member named `k`. */
  function Lookup(fields: seq<Field>, k: string): (r: Option<Json>)
    ensures r.Some? <==> exists i :: 0 <= i < |fields| && fields[i].name == k
    ensures r.Some? ==> exists i :: 0 <= i < |fields| && fields[i] == Field(k, r.value)
  {
    if |fields| == 0 then None
    else if fields[0].name == k then Some(fields[0].value)
    else
      var r := Lookup(fields[1..], k);
      assert forall i :: 0 < i < |fields| ==> fields[i] == fields[1..][i - 1];
      r
  }

  /** `val_get = jsondict.get(k, FIND_NONE)` followed by `val_get != FIND_NONE`: a member
      whose value is the string "%FindNone" counts as absent. */
  function Fetch(fields: seq<Field>, k: string): (r: Option<Json>)
    ensures r.Some? ==> Lookup(fields, k) == r && r.value != JStr(FindNone)
    ensures r.None? ==> Lookup(fields, k) in {None, Some(JStr(FindNone))}
  {
    match Lookup(fields, k)
    case None => None
    case Some(v) => if v == JStr(FindNone) then None else Some(v)
  }

  /** Python's `isinstance(v, int)`: `bool` is a subclass of `int`. */
  predicate IsPyInt(v: Json) {
    v.JInt? || v.JBool?
  }

  predicate IsNumber(v: Json) {
    IsPyInt(v) || v.JFloat?
  }

  /** The numeric value Python compares with 0; `True` is 1 and `False` is 0. */
  function NumValue(v: Json): real
    requires IsNumber(v)
  {
    match v
    case JBool(b) => if b then 1.0 else 0.0
    case JInt(i) => i as real
    case JFloat(f) => f
  }

  /** `isinstance(v, t)` for a JSON value. No JSON value is an instance of a
      refinement class or of an unrelated class. */
  predicate PlainInstance(v: Json, t: PyType) {
    match t
    case TInt => IsPyInt(v)
    case TFloat => v.JFloat?
    case TStr => v.JStr?
    case TBool => v.JBool?
    case TNoneType => v.JNull?
    case TDict => v.JObj?
    case TList => v.JList?
    case TObject => true
    case _ => false
  }

  predicate IsRefinement(t: PyType) {
    t in {TPInt, TNNInt, TPFloat, TNNFloat, TPNumber, TNNNumber}
  }

  /** The single-class branch of `_CfgIsinstance`: the refinement classes test a
      sign, every other class is a plain `isinstance`. `NNFloat` also admits any value
      equal to 0 (`isinstance(obj, float) or obj == 0`). */
  predicate IsInstance(v: Json, t: PyType)
    ensures IsRefinement(t) && IsInstance(v, t) ==> IsNumber(v)
    ensures !IsRefinement(t) ==> (IsInstance(v, t) <==> PlainInstance(v, t))
  {
    match t
    case TPInt => IsPyInt(v) && NumValue(v) > 0.0
    case TNNInt => IsPyInt(v) && NumValue(v) >= 0.0
    case TPFloat => v.JFloat? && v.f > 0.0
    case TNNFloat => (v.JFloat? || (IsNumber(v) && NumValue(v) == 0.0)) && NumValue(v) >= 0.0
    case TPNumber => IsNumber(v) && NumValue(v) > 0.0
    case TNNNumber => IsNumber(v) && NumValue(v) >= 0.0
    case _ => PlainInstance(v, t)
  }

  /** The tuple branch of `_CfgIsinstance`, from member `i` on. A refinement member is
      tested on its own; any other member triggers `isinstance(obj, typ)` on the WHOLE
      tuple, so a plain member at or after `i` lets an earlier plain member answer. */
  function TupleInstance(v: Json, ts: seq<PyType>, i: nat): (r: bool)
    requires i <= |ts|
    ensures r <==> (exists k :: i <= k < |ts| && IsInstance(v, ts[k]))
                   || ((exists k :: i <= k < |ts| && !IsRefinement(ts[k]))
                       && exists k :: 0 <= k < |ts| && PlainInstance(v, ts[k]))
    decreases |ts| - i
  {
    if i == |ts| then false
    else
      var hit := if IsRefinement(ts[i]) then IsInstance(v, ts[i])
                 else exists k :: 0 <= k < |ts| && PlainInstance(v, ts[k]);
      hit || TupleInstance(v, ts, i + 1)
  }

  /** `_CfgIsinstance(obj, typ)`: `None` stands for the ValueError raised when the
      pattern is neither a class nor a tuple. */
  function CfgIsInstance(v: Json, typ: Schema): (r: Option<bool>)
    ensures r.None? <==> !(typ.SType? || typ.STuple?)
    ensures typ.SType? ==> r == Some(IsInstance(v, typ.t))
    ensures typ.STuple? ==> r == Some(exists k :: 0 <= k < |typ.members| && IsInstance(v, typ.members[k]))
  {
    match typ
    case SType(t) => Some(IsInstance(v, t))
    case STuple(ts) =>
      assert forall k :: 0 <= k < |ts| && PlainInstance(v, ts[k]) ==> IsInstance(v, ts[k]);
      Some(TupleInstance(v, ts, 0))
    case _ => None
  }

  /** The refinement classes described value by value. */
  lemma RefinementRules(v: Json)
    ensures IsInstance(v, TPInt) <==> (v.JInt? && v.i > 0) || v == JBool(true)
    ensures IsInstance(v, TNNInt) <==> (v.JInt? && v.i >= 0) || v.JBool?
    ensures IsInstance(v, TPFloat) <==> v.JFloat? && v.f > 0.0
    ensures IsInstance(v, TNNFloat) <==> (v.JFloat? && v.f >= 0.0) || v == JInt(0) || v == JBool(false)
    ensures IsInstance(v, TPNumber) <==> IsInstance(v, TPInt) || IsInstance(v, TPFloat)
    ensures IsInstance(v, TNNNumber) <==> IsInstance(v, TNNInt) || (v.JFloat? && v.f >= 0.0)
    ensures IsInstance(v, TInt) <==> v.JInt? || v.JBool?
  {
  }

  /** Each positive class is contained in its non-negative one, every refinement
      accepts numbers only, and the int classes accept booleans. */
  lemma RefinementInclusions(v: Json)
    ensures IsInstance(v, TPInt) ==> IsInstance(v, TNNInt) && IsInstance(v, TPNumber) && IsInstance(v, TInt)
    ensures IsInstance(v, TPFloat) ==> IsInstance(v, TNNFloat) && IsInstance(v, TPNumber) && IsInstance(v, TFloat)
    ensures IsInstance(v, TPNumber) ==> IsInstance(v, TNNNumber)
    ensures forall t :: IsRefinement(t) && IsInstance(v, t) ==> IsNumber(v)
    ensures IsInstance(JBool(true), TPInt) && !IsInstance(JBool(false), TPInt)
    ensures !IsInstance(JInt(1), TPFloat) && IsInstance(JInt(0), TNNFloat) && !IsInstance(JInt(1), TNNFloat)
  {
  }

  /** A list pattern `["%listN", elem]`: its head is a string starting with "%list". */
  predicate IsListPattern(items: seq<Schema>) {
    |items| > 0 && items[0].SStr? && StartsWith(items[0].s, ListTag)
  }

  /** `limitNumber`: `int(tag.replace("%list", ""))` when that is numeric, else 0.
      So `"%list"` sets no limit and `"%listN"` limits the list to N items. */
  function ListLimit(tag: string): (n: nat)
    ensures tag == ListTag ==> n == 0
    ensures StartsWith(tag, ListTag) && IsDigits(tag[|ListTag|..]) ==> n == DigitsValue(tag[|ListTag|..])
    ensures !IsDigits(RemoveAll(tag, ListTag)) ==> n == 0
  {
    var rest := RemoveAll(tag, ListTag);
    var n := if IsDigits(rest) then DigitsValue(rest) else 0;
    if StartsWith(tag, ListTag) then TagRemoved(tag); n else n
  }

  /** Removing "%list" from "%list" alone leaves nothing, and from "%list"
      followed by decimal digits leaves exactly those digits. */
  lemma TagRemoved(tag: string)
    requires StartsWith(tag, ListTag)
    ensures tag == ListTag ==> RemoveAll(tag, ListTag) == ""
    ensures IsDigits(tag[|ListTag|..]) ==> RemoveAll(tag, ListTag) == tag[|ListTag|..]
  {
    var rest := tag[|ListTag|..];
    assert tag[..|ListTag|] == ListTag;
    if IsDigits(rest) {
      RemoveAllKeepsDigits(rest);
    }
  }

  lemma {:induction false} RemoveAllKeepsDigits(s: string)
    requires forall i :: 0 <= i < |s| ==> IsDigit(s[i])
    ensures RemoveAll(s, ListTag) == s
    decreases |s|
  {
    if |s| >= |ListTag| {
      assert s[..|ListTag|][0] != ListTag[0];
      RemoveAllKeepsDigits(s[1..]);
      assert [s[0]] + s[1..] == s;
    }
  }

  lemma ListLimitExamples()
    ensures ListLimit("%list") == 0
    ensures ListLimit("%list0") == 0
    ensures ListLimit("%list3") == 3
    ensures ListLimit("%list12") == 12
  {
    assert RemoveAll("%list", ListTag) == "";
    assert RemoveAll("%list0", ListTag) == "0";
    assert RemoveAll("%list3", ListTag) == "3";
    assert RemoveAll("%list12", ListTag) == "12";
    assert "12"[..1] == "1";
  }
}
