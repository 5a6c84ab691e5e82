/**
 * Positional array updates (`field.$.sub`): resolving which array and which
 * element a `$` path targets from the query criteria, and rewriting only
 * the first element that the positional filter selects.
 */
module PositionalUtils {
  import opened Wrappers
  import opened Json
  import opened Errors
  import Text

  /** Where a positional update applies: the filter selecting the element, the array path and the sub-path inside the element. */
  datatype PositionalFilter = PositionalFilter(filter: Value, path: string, target: string)

  /** The callback that computes the new content from the element, the update key and the target. */
  type UpdateValue = (Value, string, string) -> Value

  /*
   * Separator trimming
   */

  /** The characters at which a multi-line regular expression's `^` and `$` match. */
  predicate IsLineTerminator(c: char)
  {
    c == '\n' || c == '\r' || c == '\U{2028}' || c == '\U{2029}'
  }

  function LineEnd(s: string): (i: nat)
    ensures i <= |s|
    ensures i < |s| ==> IsLineTerminator(s[i])
    ensures forall j :: 0 <= j < i ==> !IsLineTerminator(s[j])
  {
    if s == [] || IsLineTerminator(s[0]) then 0 else 1 + LineEnd(s[1..])
  }

  /** The end of the run of dots starting at `i`. */
  function DotsFrom(s: string, i: nat): (k: nat)
    requires i <= |s|
    ensures i <= k <= |s|
    ensures forall j :: i <= j < k ==> s[j] == '.'
    ensures k == |s| || s[k] != '.'
    decreases |s| - i
  {
    if i < |s| && s[i] == '.' then DotsFrom(s, i + 1) else i
  }

  /** The start of the run of dots ending at `e`, going back no further than `a`. */
  function DotsBackTo(s: string, e: nat, a: nat): (k: nat)
    requires a <= e <= |s|
    ensures a <= k <= e
    ensures forall j :: k <= j < e ==> s[j] == '.'
    ensures k == a || s[k - 1] != '.'
  {
    if e > a && s[e - 1] == '.' then DotsBackTo(s, e - 1, a) else e
  }

  /** One line with its leading run of dots, then its trailing run of dots, removed. */
  function TrimLine(s: string): string
  {
    var a := DotsFrom(s, 0);
    s[a..DotsBackTo(s, |s|, a)]
  }

  /** `value.replace(/^\.+|\.+$/gm, "")`: leading and trailing dots of every line removed. */
  function TrimSeparators(s: string): string
    decreases |s|
  {
    var i := LineEnd(s);
    if i == |s| then TrimLine(s)
    else TrimLine(s[..i]) + [s[i]] + TrimSeparators(s[i + 1..])
  }

  /**
   * On a single line, trimming keeps a contiguous middle part of the string
   * that neither starts nor ends with a dot, and removes only dots around it.
   */
  lemma TrimSeparatorsLine(s: string)
    requires forall j :: 0 <= j < |s| ==> !IsLineTerminator(s[j])
    ensures var r := TrimSeparators(s);
      var a := DotsFrom(s, 0);
      && a + |r| <= |s|
      && s[a..a + |r|] == r
      && (forall j :: 0 <= j < a ==> s[j] == '.')
      && (forall j :: a + |r| <= j < |s| ==> s[j] == '.')
      && (r == [] || (r[0] != '.' && r[|r| - 1] != '.'))
  {
    assert LineEnd(s) == |s|;
    var a := DotsFrom(s, 0);
    var b := DotsBackTo(s, |s|, a);
    assert TrimSeparators(s) == s[a..b];
    if a < b {
      assert s[a] != '.';
      assert b == |s| || b > a;
    }
  }

  /** A line with no dot at either end is left as it is. */
  lemma TrimSeparatorsKeeps(s: string)
    requires forall j :: 0 <= j < |s| ==> !IsLineTerminator(s[j])
    requires s == [] || (s[0] != '.' && s[|s| - 1] != '.')
    ensures TrimSeparators(s) == s
  {
    assert LineEnd(s) == |s|;
  }

  /*
   * Positional filter resolution
   */

  /**
   * `const [leftPath, rightPath] = key.split("$")`: the text before the first
   * `$` and the text between it and the next `$` (or the end). Without any
   * `$` the right part is undefined and trimming it throws.
   */
  function SplitAtDollar(key: string): (r: Result<(string, string), DbError>)
    ensures '$' !in key <==> r.Err?
    ensures r.Err? ==> r.error == TypeError(NoDollarInKey)
    ensures r.Ok? ==>
      var (left, right) := r.value;
      && '$' !in left && '$' !in right
      && |left| < |key| && key[..|left|] == left && key[|left|] == '$'
      && |left| + 1 + |right| <= |key|
      && key[|left| + 1..|left| + 1 + |right|] == right
      && (|left| + 1 + |right| == |key| || key[|left| + 1 + |right|] == '$')
  {
    var parts := Text.Split(key, '$');
    var i := Text.IndexOf(key, '$');
    if i == |key| then
      assert '$' !in key;
      Err(TypeError(NoDollarInKey))
    else
      var rest := key[i + 1..];
      var j := Text.IndexOf(rest, '$');
      assert parts == [key[..i]] + Text.Split(rest, '$');
      assert j == |rest| ==> rest[..j] == rest;
      assert Text.Split(rest, '$')[0] == rest[..j];
      Ok((parts[0], parts[1]))
  }

  /** The `$elemMatch` property of a criteria value; undefined for anything but an object holding one. */
  function ElemMatchOf(v: Value): Value
  {
    if v.Obj? then Lookup(v.fields, "$elemMatch") else Undefined
  }

  /**
   * The test a criteria key must pass to locate the array element: it
   * contains the array path and either holds a dot or maps to an object.
   */
  predicate Qualifies(key: string, lKey: string, criteria: Fields)
  {
    Text.Includes(key, lKey) && (Text.Includes(key, ".") || IsObjectType(Lookup(criteria, key)))
  }

  /** The filter a qualifying criteria key yields. */
  function FilterFromKey(key: string, lKey: string, rKey: string, criteria: Fields): Result<PositionalFilter, DbError>
  {
    var value := Lookup(criteria, key);
    var rest := TrimSeparators(Text.ReplaceFirst(key, lKey, ""));
    if rest == "" then
      if value.Null? || value.Undefined? then Err(TypeError(PropertyOfNullish))
      else
        var elem := ElemMatchOf(value);
        Ok(PositionalFilter(if elem != Undefined then elem else value, lKey, rKey))
    else
      Ok(PositionalFilter(Obj([(rest, value)]), lKey, rKey))
  }

  /** `getPositionalCriteriaFilter`: `None` stands for the `undefined` it returns for a key that does not qualify. */
  function GetPositionalCriteriaFilter(key: string, lKey: string, rKey: string, criteria: Fields): (r: Option<Result<PositionalFilter, DbError>>)
    ensures r.None? <==> !Qualifies(key, lKey, criteria)
    ensures r.Some? && r.value.Ok? ==> r.value.value.path == lKey && r.value.value.target == rKey
    ensures r.Some? && r.value.Ok? && TrimSeparators(Text.ReplaceFirst(key, lKey, "")) != "" ==>
      r.value.value.filter == Obj([(TrimSeparators(Text.ReplaceFirst(key, lKey, "")), Lookup(criteria, key))])
  {
    if Qualifies(key, lKey, criteria) then Some(FilterFromKey(key, lKey, rKey, criteria)) else None
  }

  /** The loop of `getPositionalFilter` over the criteria keys, from `keys[0]` on. */
  function FirstCriteriaFilter(keys: Fields, lKey: string, rKey: string, criteria: Fields): Option<Result<PositionalFilter, DbError>>
  {
    if keys == [] then None
    else
      match GetPositionalCriteriaFilter(keys[0].0, lKey, rKey, criteria)
      case Some(r) => Some(r)
      case None => FirstCriteriaFilter(keys[1..], lKey, rKey, criteria)
  }

  /** `getPositionalFilter`: the first qualifying criteria key decides, else `criteria[path]` is the filter. */
  function GetPositionalFilter(criteria: Fields, key: string): (r: Result<PositionalFilter, DbError>)
    ensures '$' !in key ==> r == Err(TypeError(NoDollarInKey))
    ensures r.Ok? ==> ('$' in key &&
      var (left, right) := SplitAtDollar(key).value;
      r.value.path == TrimSeparators(left) && r.value.target == TrimSeparators(right))
  {
    match SplitAtDollar(key)
    case Err(e) => Err(e)
    case Ok((left, right)) =>
      var lKey := TrimSeparators(left);
      var rKey := TrimSeparators(right);
      match FirstCriteriaFilter(criteria, lKey, rKey, criteria)
      case Some(r) => FirstCriteriaFilterPaths(criteria, lKey, rKey, criteria); r
      case None => Ok(PositionalFilter(Lookup(criteria, lKey), lKey, rKey))
  }

  lemma {:induction false} FirstCriteriaFilterPaths(keys: Fields, lKey: string, rKey: string, criteria: Fields)
    ensures var r := FirstCriteriaFilter(keys, lKey, rKey, criteria);
      r.Some? && r.value.Ok? ==> r.value.value.path == lKey && r.value.value.target == rKey
  {
    if keys != [] {
      FirstCriteriaFilterPaths(keys[1..], lKey, rKey, criteria);
    }
  }

  /**
   * The criteria key that decides the filter is the first qualifying one in
   * enumeration order; when none qualifies the filter is `criteria[path]`.
   */
  lemma {:induction false} FirstQualifyingKeyDecides(keys: Fields, lKey: string, rKey: string, criteria: Fields)
    ensures var r := FirstCriteriaFilter(keys, lKey, rKey, criteria);
      && (r.None? <==> forall i :: 0 <= i < |keys| ==> !Qualifies(keys[i].0, lKey, criteria))
      && (forall i :: (0 <= i < |keys| && Qualifies(keys[i].0, lKey, criteria) &&
                       (forall j :: 0 <= j < i ==> !Qualifies(keys[j].0, lKey, criteria))) ==>
            r == Some(FilterFromKey(keys[i].0, lKey, rKey, criteria)))
  {
    if keys != [] {
      FirstQualifyingKeyDecides(keys[1..], lKey, rKey, criteria);
      var r := FirstCriteriaFilter(keys, lKey, rKey, criteria);
      forall i | 0 <= i < |keys| && Qualifies(keys[i].0, lKey, criteria) &&
            (forall j :: 0 <= j < i ==> !Qualifies(keys[j].0, lKey, criteria))
        ensures r == Some(FilterFromKey(keys[i].0, lKey, rKey, criteria))
      {
        if i > 0 {
          assert !Qualifies(keys[0].0, lKey, criteria);
          assert keys[1..][i - 1] == keys[i];
          assert forall j :: 0 <= j < i - 1 ==> keys[1..][j] == keys[j + 1];
        }
      }
      if r.None? {
        forall i | 0 <= i < |keys| ensures !Qualifies(keys[i].0, lKey, criteria) {
          if i > 0 { assert keys[1..][i - 1] == keys[i]; }
        }
      }
    }
  }

  /** A qualifying key whose remainder trims away is unwrapped: its `$elemMatch` if it has one, else the value itself. */
  lemma WholeKeyFilter(key: string, lKey: string, rKey: string, criteria: Fields)
    requires TrimSeparators(Text.ReplaceFirst(key, lKey, "")) == ""
    requires var v := Lookup(criteria, key); !v.Null? && !v.Undefined?
    ensures var v := Lookup(criteria, key);
      FilterFromKey(key, lKey, rKey, criteria) ==
        Ok(PositionalFilter(if ElemMatchOf(v) != Undefined then ElemMatchOf(v) else v, lKey, rKey))
  {
  }

  /*
   * Rewriting the first selected element
   */

  /** Index of the first element passing `test`, or `|items|` when none does. */
  function FirstMatch(items: seq<Value>, test: Value -> bool): (i: nat)
    ensures i <= |items|
    ensures i < |items| ==> test(items[i])
    ensures forall j :: 0 <= j < i ==> !test(items[j])
  {
    if items == [] then 0
    else if test(items[0]) then 0
    else 1 + FirstMatch(items[1..], test)
  }

  /** What `getPositionalUpdate` leaves in the array: the first element strictly equal to the filter is replaced. */
  function ValueUpdated(items: seq<Value>, key: string, filter: Value, target: string, updateValue: UpdateValue): seq<Value>
  {
    var i := FirstMatch(items, x => x == filter);
    if i < |items| then items[i := updateValue(items[i], key, target)] else items
  }

  /**
   * What `getPositionalUpdateQuery` leaves in the array: the first element the
   * filter matches is replaced whole when `target` is empty, else written at
   * the `target` sub-path.
   */
  function QueryUpdated(items: seq<Value>, key: string, filter: Value, target: string, updateValue: UpdateValue, matches: Matcher): seq<Value>
  {
    var i := FirstMatch(items, x => matches(filter, x));
    if i == |items| then items
    else if target == "" then items[i := updateValue(items[i], key, target)]
    else items[i := SetPath(items[i], SplitPath(target), updateValue(items[i], key, target))]
  }

  /** `getPositionalUpdate`, in place on the cloned array; `===` against a filter that is not an object is value equality. */
  method GetPositionalUpdate(items: array<Value>, key: string, filter: Value, target: string, updateValue: UpdateValue)
    requires !IsObjectType(filter)
    modifies items
    ensures items[..] == ValueUpdated(old(items[..]), key, filter, target, updateValue)
    ensures forall j :: 0 <= j < items.Length && j != FirstMatch(old(items[..]), x => x == filter) ==> items[j] == old(items[j])
  {
    var index := 0;
    while index < items.Length
      invariant 0 <= index <= items.Length
      invariant items[..] == old(items[..])
      invariant forall j :: 0 <= j < index ==> items[j] != filter
    {
      if items[index] == filter {
        items[index] := updateValue(items[index], key, target);
        break;
      }
      index := index + 1;
    }
  }

  /** `getPositionalUpdateQuery`, in place on the cloned array. */
  method GetPositionalUpdateQuery(items: array<Value>, key: string, filter: Value, target: string, updateValue: UpdateValue, matches: Matcher)
    modifies items
    ensures items[..] == QueryUpdated(old(items[..]), key, filter, target, updateValue, matches)
    ensures forall j :: 0 <= j < items.Length && j != FirstMatch(old(items[..]), x => matches(filter, x)) ==> items[j] == old(items[j])
  {
    var index := 0;
    while index < items.Length
      invariant 0 <= index <= items.Length
      invariant items[..] == old(items[..])
      invariant forall j :: 0 <= j < index ==> !matches(filter, items[j])
    {
      var item := items[index];
      if matches(filter, item) {
        if target == "" {
          items[index] := updateValue(items[index], key, target);
        } else {
          items[index] := SetPath(item, SplitPath(target), updateValue(items[index], key, target));
        }
        break;
      }
      index := index + 1;
    }
  }

  /**
   * The effect of `setPositionalData` on a document: the outcome (whether the
   * array changed by deep equality) and the document afterwards.
   */
  function PositionalWrite(document: Value, criteria: Fields, key: string, objectUpdate: UpdateValue, valueUpdate: UpdateValue, matches: Matcher): Result<(bool, Value), DbError>
  {
    match GetPositionalFilter(criteria, key)
    case Err(e) => Err(e)
    case Ok(pf) =>
      var segs := SplitPath(pf.path);
      var values := GetPath(document, segs);
      if values.Undefined? then Err(NotArray)
      else if !values.Arr? then Err(TypeError(NotIterable))
      else
        var items := PositionalItems(values.items, key, pf, objectUpdate, valueUpdate, matches);
        Ok((!DeepEqual(values, Arr(items)), SetPath(document, segs, Arr(items))))
  }

  /** The array after the rewrite: a query filter for an object-typed filter, strict equality otherwise. */
  function PositionalItems(items: seq<Value>, key: string, pf: PositionalFilter, objectUpdate: UpdateValue, valueUpdate: UpdateValue, matches: Matcher): seq<Value>
  {
    if IsObjectType(pf.filter) then QueryUpdated(items, key, pf.filter, pf.target, objectUpdate, matches)
    else ValueUpdated(items, key, pf.filter, pf.target, valueUpdate)
  }

  /** `clone` of an array: a new array holding the same elements. */
  method CloneArray(values: seq<Value>) returns (items: array<Value>)
    ensures fresh(items) && items[..] == values
  {
    items := new Value[|values|](i requires 0 <= i < |values| => values[i]);
  }

  /** The middle of `setPositionalData`: clone the array and rewrite its selected element. */
  method RewriteClone(values: seq<Value>, key: string, pf: PositionalFilter, objectUpdate: UpdateValue, valueUpdate: UpdateValue, matches: Matcher)
    returns (written: Value)
    ensures written == Arr(PositionalItems(values, key, pf, objectUpdate, valueUpdate, matches))
  {
    var items := CloneArray(values);
    if IsObjectType(pf.filter) {
      GetPositionalUpdateQuery(items, key, pf.filter, pf.target, objectUpdate, matches);
    } else {
      GetPositionalUpdate(items, key, pf.filter, pf.target, valueUpdate);
    }
    written := Arr(items[..]);
  }

  /** `setPositionalData`: rewrites the selected element of a clone of the array and writes the clone back at the array path. */
  method SetPositionalData(document: JsonRef, criteria: Fields, key: string, objectUpdate: UpdateValue, valueUpdate: UpdateValue, matches: Matcher)
    returns (modified: Result<bool, DbError>)
    modifies document
    ensures var w := PositionalWrite(old(document.value), criteria, key, objectUpdate, valueUpdate, matches);
      && (w.Err? ==> modified == Err(w.error) && document.value == old(document.value))
      && (w.Ok? ==> modified == Ok(w.value.0) && document.value == w.value.1)
  {
    ghost var original := document.value;
    var resolved := GetPositionalFilter(criteria, key);
    if resolved.Err? {
      assert PositionalWrite(original, criteria, key, objectUpdate, valueUpdate, matches) == Err(resolved.error);
      return Err(resolved.error);
    }
    var pf := resolved.value;
    var segs := SplitPath(pf.path);
    var values := GetPath(document.value, segs);
    if values.Undefined? {
      assert PositionalWrite(original, criteria, key, objectUpdate, valueUpdate, matches) == Err(NotArray);
      return Err(NotArray);
    }
    if !values.Arr? {
      assert PositionalWrite(original, criteria, key, objectUpdate, valueUpdate, matches) == Err(TypeError(NotIterable));
      return Err(TypeError(NotIterable));
    }
    var written := RewriteClone(values.items, key, pf, objectUpdate, valueUpdate, matches);
    document.value := SetPath(document.value, segs, written);
    modified := Ok(!DeepEqual(values, written));
    assert PositionalWrite(original, criteria, key, objectUpdate, valueUpdate, matches) == Ok((!DeepEqual(values, written), document.value));
  }

  /** "NOT ARRAY" is thrown exactly when the array path reads undefined; any other non-array fails as not iterable. */
  lemma PositionalWriteErrors(document: Value, criteria: Fields, key: string, objectUpdate: UpdateValue, valueUpdate: UpdateValue, matches: Matcher)
    requires GetPositionalFilter(criteria, key).Ok?
    ensures var pf := GetPositionalFilter(criteria, key).value;
      var values := GetPath(document, SplitPath(pf.path));
      var r := PositionalWrite(document, criteria, key, objectUpdate, valueUpdate, matches);
      && (r == Err(NotArray) <==> values.Undefined?)
      && (r == Err(TypeError(NotIterable)) <==> !values.Undefined? && !values.Arr?)
      && (r.Ok? <==> values.Arr?)
  {
  }

  /**
   * When no element is selected the array is written back unchanged and the
   * write reports no modification.
   */
  lemma {:induction false} PositionalWriteWithoutMatch(document: Value, criteria: Fields, key: string, objectUpdate: UpdateValue, valueUpdate: UpdateValue, matches: Matcher)
    requires GetPositionalFilter(criteria, key).Ok?
    requires var pf := GetPositionalFilter(criteria, key).value;
      var values := GetPath(document, SplitPath(pf.path));
      && values.Arr? && WellFormed(values)
      && (IsObjectType(pf.filter) ==> forall j :: 0 <= j < |values.items| ==> !matches(pf.filter, values.items[j]))
      && (!IsObjectType(pf.filter) ==> forall j :: 0 <= j < |values.items| ==> values.items[j] != pf.filter)
    ensures var pf := GetPositionalFilter(criteria, key).value;
      var segs := SplitPath(pf.path);
      PositionalWrite(document, criteria, key, objectUpdate, valueUpdate, matches) ==
        Ok((false, SetPath(document, segs, GetPath(document, segs))))
  {
    var pf := GetPositionalFilter(criteria, key).value;
    var values := GetPath(document, SplitPath(pf.path));
    if IsObjectType(pf.filter) {
      assert FirstMatch(values.items, x => matches(pf.filter, x)) == |values.items|;
    } else {
      assert FirstMatch(values.items, x => x == pf.filter) == |values.items|;
    }
    DeepEqualReflexive(values);
  }

  /** A write that reports a modification has put a different array at the array path. */
  lemma PositionalWriteModifiedChanges(document: Value, criteria: Fields, key: string, objectUpdate: UpdateValue, valueUpdate: UpdateValue, matches: Matcher)
    requires PositionalWrite(document, criteria, key, objectUpdate, valueUpdate, matches).Ok?
    requires var pf := GetPositionalFilter(criteria, key).value;
      WellFormed(GetPath(document, SplitPath(pf.path)))
    requires PositionalWrite(document, criteria, key, objectUpdate, valueUpdate, matches).value.0
    ensures var pf := GetPositionalFilter(criteria, key).value;
      var values := GetPath(document, SplitPath(pf.path));
      exists items :: values != Arr(items) &&
        PositionalWrite(document, criteria, key, objectUpdate, valueUpdate, matches).value.1 == SetPath(document, SplitPath(pf.path), Arr(items))
  {
    var pf := GetPositionalFilter(criteria, key).value;
    var values := GetPath(document, SplitPath(pf.path));
    var items := PositionalItems(values.items, key, pf, objectUpdate, valueUpdate, matches);
    NotDeepEqualDiffers(values, Arr(items));
  }
}
