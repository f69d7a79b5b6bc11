/**
 * The JSON value model: an element is a string, a number, a boolean, null,
 * an object (named members) or an array. Objects are kept as sequences of
 * members with distinct keys, in the order the keys were first inserted.
 */
module Elements {
  import opened Wrappers
  import opened Tokens

  /** The tag every element carries. */
  datatype ValueType = StringType | NumberType | ObjectType | ArrayType | BoolType | NullType | InvalidType

  /** `ValueTypeToString`: the enumerator's own name. */
  function ValueTypeToString(t: ValueType): (name: string)
    ensures |name| > 0
  {
    match t
    case StringType => "STRING_LITERAL"
    case NumberType => "NUMBER_LITERAL"
    case ObjectType => "OBJECT"
    case ArrayType => "ARRAY"
    case BoolType => "BOOL_LITERAL"
    case NullType => "NULL_LITERAL"
    case InvalidType => "INVALID"
  }

  /** Different tags have different names. */
  lemma ValueTypeNamesDistinct(t: ValueType, u: ValueType)
    requires t != u
    ensures ValueTypeToString(t) != ValueTypeToString(u)
  {
  }

  datatype Element =
    | Str(text: string)
    | Number(number: Double)
    | Bool(flag: bool)
    | Null(boxed: bool)   // boxed: the payload is a `Value<nullptr_t>`; otherwise it is a null pointer
    | Obj(members: seq<Member>)
    | Arr(items: seq<Element>)

  datatype Member = Member(key: string, value: Element)

  /** `GetValueType`: the tag of an element. A modelled element is never INVALID. */
  function TypeOf(e: Element): (t: ValueType)
    ensures t != InvalidType
    ensures t == ObjectType <==> e.Obj?
    ensures t == ArrayType <==> e.Arr?
    ensures t == NullType <==> e.Null?
    ensures t == StringType <==> e.Str?
    ensures t == NumberType <==> e.Number?
    ensures t == BoolType <==> e.Bool?
  {
    match e
    case Str(_) => StringType
    case Number(_) => NumberType
    case Bool(_) => BoolType
    case Null(_) => NullType
    case Obj(_) => ObjectType
    case Arr(_) => ArrayType
  }

  /** `IsOfType` (and `operator==` with a tag). */
  predicate IsOfType(e: Element, t: ValueType) {
    TypeOf(e) == t
  }

  /** `GetTypeAsString`. */
  function TypeName(e: Element): (name: string)
    ensures name != "INVALID"
  {
    ValueTypeToString(TypeOf(e))
  }

  /**
   * The C++ types an accessor may be instantiated with. Every modelled number
   * is stored as a `double`, as the parser stores it.
   */
  datatype HostType = HostDouble | HostInt | HostLong | HostFloat | HostString | HostBool | HostNull | HostObject | HostArray

  /** `ValueType_of`. */
  function ValueTypeOf(h: HostType): ValueType {
    match h
    case HostDouble => NumberType
    case HostInt => NumberType
    case HostLong => NumberType
    case HostFloat => NumberType
    case HostString => StringType
    case HostBool => BoolType
    case HostNull => NullType
    case HostObject => ObjectType
    case HostArray => ArrayType
  }

  /** Why an access threw. */
  datatype AccessError =
    | TypeMismatch     // the element's tag is not the requested type's tag
    | WrongType        // the tag matches but the payload is stored as another C++ type
    | NotAnObject      // key access on a non-object
    | NotAnArray       // index access on a non-array

  /** `CanCastTo<T>`: the tags agree. */
  predicate CanCastTo(e: Element, h: HostType): (b: bool)
    ensures b <==> (e.Number? && h in {HostDouble, HostInt, HostLong, HostFloat})
                   || (e.Str? && h == HostString) || (e.Bool? && h == HostBool) || (e.Null? && h == HostNull)
                   || (e.Obj? && h == HostObject) || (e.Arr? && h == HostArray)
  {
    TypeOf(e) == ValueTypeOf(h)
  }

  /**
   * The payload of `e` is stored as host type `h`: numbers are `double`s, and
   * a null holds a `Value<nullptr_t>` only when it is boxed.
   */
  predicate StoredAs(e: Element, h: HostType) {
    CanCastTo(e, h) && (e.Number? ==> h == HostDouble) && (e.Null? ==> e.boxed)
  }

  /** `GetValueAs<T>`: the element itself when it holds a `T`, otherwise the error thrown. */
  function GetValueAs(e: Element, h: HostType): (r: Result<Element, AccessError>)
    ensures r.Ok? <==> StoredAs(e, h)
    ensures r.Ok? ==> r.value == e
    ensures !CanCastTo(e, h) ==> r == Err(TypeMismatch)
    ensures CanCastTo(e, h) && r.Err? ==> r.error == WrongType && (e.Number? || e == Null(false))
  {
    if TypeOf(e) != ValueTypeOf(h) then Err(TypeMismatch)
    else if e.Number? && h != HostDouble then Err(WrongType)
    else if e.Null? && !e.boxed then Err(WrongType)
    else Ok(e)
  }

  /** `TryGetValueAs<T>`: never throws; the value exactly when `GetValueAs` would return it. */
  function TryGetValueAs(e: Element, h: HostType): (r: Option<Element>)
    ensures r.Some? <==> GetValueAs(e, h).Ok?
    ensures r.Some? ==> GetValueAs(e, h) == Ok(r.value)
  {
    if TypeOf(e) != ValueTypeOf(h) then None
    else if e.Number? && h != HostDouble then None
    else if e.Null? && !e.boxed then None
    else Some(e)
  }

  /**
   * `operator>>`: `Ok(None)` (false) when the tags differ; otherwise the
   * value `GetValueAs` returns, or its error.
   */
  function Extract(e: Element, h: HostType): (r: Result<Option<Element>, AccessError>)
    ensures !CanCastTo(e, h) ==> r == Ok(None)
    ensures CanCastTo(e, h) ==> (r.Ok? <==> GetValueAs(e, h).Ok?)
    ensures r.Ok? && r.value.Some? ==> GetValueAs(e, h) == Ok(r.value.value)
    ensures CanCastTo(e, h) && r.Ok? ==> r.value.Some?
    ensures r.Err? ==> GetValueAs(e, h) == Err(r.error)
  {
    if TypeOf(e) != ValueTypeOf(h) then Ok(None)
    else match GetValueAs(e, h)
      case Ok(v) => Ok(Some(v))
      case Err(err) => Err(err)
  }

  /** `From<V>()` for the host types the model stores: the value-initialised payload. */
  function FromDefault(h: HostType): (e: Option<Element>)
    ensures e.Some? <==> h !in {HostInt, HostLong, HostFloat}
    ensures e.Some? ==> StoredAs(e.value, h)
    ensures e.Some? ==> WellFormed(e.value)
    ensures h == HostDouble ==> e == Some(Number(Atof("0")))
    ensures h == HostString ==> e == Some(Str(""))
    ensures h == HostBool ==> e == Some(Bool(false))
    ensures h == HostNull ==> e == Some(Null(true))
    ensures h == HostObject ==> e == Some(Obj([]))
    ensures h == HostArray ==> e == Some(Arr([]))
  {
    match h
    case HostDouble => Some(Number(Atof("0")))
    case HostString => Some(Str(""))
    case HostBool => Some(Bool(false))
    case HostNull => Some(Null(true))
    case HostObject => Some(Obj([]))
    case HostArray => Some(Arr([]))
    case _ => None
  }

  /**
   * `operator[](size_t)`: the item at `i`. A non-array throws; an index past
   * the end is undefined behaviour in the source, so callers must not pass one.
   */
  function ItemAt(e: Element, i: nat): (r: Result<Element, AccessError>)
    requires e.Arr? ==> i < |e.items|
    ensures r.Ok? <==> e.Arr?
    ensures r.Ok? ==> r.value == e.items[i] && r.value in e.items
    ensures r.Err? ==> r.error == NotAnArray
  {
    if !e.Arr? then Err(NotAnArray) else Ok(e.items[i])
  }

  // ---------------------------------------------------------------- objects

  function Keys(ms: seq<Member>): (ks: seq<string>)
    ensures |ks| == |ms|
  {
    if ms == [] then [] else [ms[0].key] + Keys(ms[1..])
  }

  lemma {:induction false} KeysAt(ms: seq<Member>)
    ensures forall i :: 0 <= i < |ms| ==> Keys(ms)[i] == ms[i].key
  {
    if ms != [] {
      KeysAt(ms[1..]);
      assert forall i :: 1 <= i < |ms| ==> Keys(ms)[i] == Keys(ms[1..])[i - 1];
    }
  }

  /** No two members share a key, as in an `unordered_map`. */
  predicate DistinctKeys(ms: seq<Member>) {
    forall i, j :: 0 <= i < j < |ms| ==> ms[i].key != ms[j].key
  }

  /** Every object in the tree has distinct keys. */
  predicate WellFormed(e: Element) {
    match e
    case Obj(ms) => DistinctKeys(ms) && MembersWellFormed(ms)
    case Arr(items) => ItemsWellFormed(items)
    case _ => true
  }

  /** No null anywhere in `e` is boxed: every null has a null-pointer payload, as the parser builds them. */
  predicate NullsUnboxed(e: Element) {
    match e
    case Null(boxed) => !boxed
    case Obj(ms) => forall i :: 0 <= i < |ms| ==> NullsUnboxed(ms[i].value)
    case Arr(items) => forall i :: 0 <= i < |items| ==> NullsUnboxed(items[i])
    case _ => true
  }

  predicate MembersWellFormed(ms: seq<Member>) {
    forall i :: 0 <= i < |ms| ==> WellFormed(ms[i].value)
  }

  predicate ItemsWellFormed(items: seq<Element>) {
    forall i :: 0 <= i < |items| ==> WellFormed(items[i])
  }

  /** The value stored under `key`, if any. */
  function Lookup(ms: seq<Member>, key: string): (r: Option<Element>)
    ensures r.None? <==> key !in Keys(ms)
  {
    if ms == [] then None
    else if ms[0].key == key then Some(ms[0].value)
    else Lookup(ms[1..], key)
  }

  /** With distinct keys, the member at index `i` is what `Lookup` finds for its key. */
  lemma {:induction false} LookupAt(ms: seq<Member>, i: nat)
    requires DistinctKeys(ms) && i < |ms|
    ensures Lookup(ms, ms[i].key) == Some(ms[i].value)
  {
    if i > 0 {
      LookupAt(ms[1..], i - 1);
      assert ms[1..][i - 1] == ms[i];
    }
  }

  /** `map[key] = v`: overwrite the member under `key`, or append a new one. */
  function SetMember(ms: seq<Member>, key: string, v: Element): (r: seq<Member>)
    ensures |r| == if key in Keys(ms) then |ms| else |ms| + 1
  {
    if ms == [] then [Member(key, v)]
    else if ms[0].key == key then [Member(key, v)] + ms[1..]
    else [ms[0]] + SetMember(ms[1..], key, v)
  }

  /** After `map[key] = v`, `key` maps to `v` and every other key to what it mapped to before. */
  lemma {:induction false} SetMemberLookup(ms: seq<Member>, key: string, v: Element, k: string)
    ensures Lookup(SetMember(ms, key, v), k) == if k == key then Some(v) else Lookup(ms, k)
  {
    if ms != [] && ms[0].key != key {
      SetMemberLookup(ms[1..], key, v, k);
      assert ([ms[0]] + SetMember(ms[1..], key, v))[1..] == SetMember(ms[1..], key, v);
    }
  }

  /** `map[key] = v` keeps the keys in place and appends `key` when it is new. */
  lemma {:induction false} SetMemberKeys(ms: seq<Member>, key: string, v: Element)
    ensures Keys(SetMember(ms, key, v)) == if key in Keys(ms) then Keys(ms) else Keys(ms) + [key]
  {
    if ms != [] {
      var r := SetMember(ms, key, v);
      assert r[1..] == if ms[0].key == key then ms[1..] else SetMember(ms[1..], key, v);
      if ms[0].key != key {
        SetMemberKeys(ms[1..], key, v);
        assert ([ms[0].key] + Keys(ms[1..])) + [key] == [ms[0].key] + (Keys(ms[1..]) + [key]);
      }
    }
  }

  /** No text occurs twice in `ks`. */
  predicate NoDuplicates(ks: seq<string>) {
    forall i, j :: 0 <= i < j < |ks| ==> ks[i] != ks[j]
  }

  lemma DistinctKeysByKeys(ms: seq<Member>)
    ensures DistinctKeys(ms) <==> NoDuplicates(Keys(ms))
  {
    KeysAt(ms);
  }

  /** `map[key] = v` keeps the keys distinct. */
  lemma SetMemberDistinct(ms: seq<Member>, key: string, v: Element)
    requires DistinctKeys(ms)
    ensures DistinctKeys(SetMember(ms, key, v))
  {
    SetMemberKeys(ms, key, v);
    DistinctKeysByKeys(ms);
    DistinctKeysByKeys(SetMember(ms, key, v));
  }

  /** `unordered_map::emplace`: insert only when `key` is absent; an existing member is kept. */
  function Emplace(ms: seq<Member>, key: string, v: Element): (r: seq<Member>)
    ensures |r| == if key in Keys(ms) then |ms| else |ms| + 1
    ensures r[..|ms|] == ms
    ensures key !in Keys(ms) ==> r[|ms|] == Member(key, v)
  {
    if key in Keys(ms) then ms else ms + [Member(key, v)]
  }

  /** For a new key, `emplace` and `map[key] = v` agree: both append the member. */
  lemma {:induction false} SetMemberAppends(ms: seq<Member>, key: string, v: Element)
    requires key !in Keys(ms)
    ensures SetMember(ms, key, v) == ms + [Member(key, v)] == Emplace(ms, key, v)
  {
    if ms != [] {
      SetMemberAppends(ms[1..], key, v);
      assert ms == [ms[0]] + ms[1..];
    }
  }

  /** After `emplace`, `key` maps to its old value if it had one and to `v` otherwise; other keys are untouched. */
  lemma EmplaceLookup(ms: seq<Member>, key: string, v: Element, k: string)
    ensures Lookup(Emplace(ms, key, v), k) ==
              if k == key && key !in Keys(ms) then Some(v) else Lookup(ms, k)
  {
    if key !in Keys(ms) {
      SetMemberAppends(ms, key, v);
      SetMemberLookup(ms, key, v, k);
    }
  }

  /** `emplace` keeps the keys distinct. */
  lemma EmplaceDistinct(ms: seq<Member>, key: string, v: Element)
    requires DistinctKeys(ms)
    ensures DistinctKeys(Emplace(ms, key, v))
  {
    if key !in Keys(ms) {
      SetMemberAppends(ms, key, v);
      SetMemberDistinct(ms, key, v);
    }
  }

  /** `unordered_map::erase(key)`: drop every member under `key`. */
  function RemoveMember(ms: seq<Member>, key: string): (r: seq<Member>)
    ensures |r| <= |ms|
    ensures forall m :: m in r ==> m in ms && m.key != key
  {
    if ms == [] then []
    else if ms[0].key == key then RemoveMember(ms[1..], key)
    else [ms[0]] + RemoveMember(ms[1..], key)
  }

  /** After `erase(key)`, `key` is absent and every other key maps to what it mapped to before. */
  lemma {:induction false} RemoveMemberLookup(ms: seq<Member>, key: string, k: string)
    ensures Lookup(RemoveMember(ms, key), k) == if k == key then None else Lookup(ms, k)
  {
    if ms != [] {
      RemoveMemberLookup(ms[1..], key, k);
      if ms[0].key != key {
        assert ([ms[0]] + RemoveMember(ms[1..], key))[1..] == RemoveMember(ms[1..], key);
      }
    }
  }

  /** `erase(key)` keeps the other keys in order, so they stay distinct, and removes one member when `key` was there. */
  lemma {:induction false} RemoveMemberKeys(ms: seq<Member>, key: string)
    requires DistinctKeys(ms)
    ensures DistinctKeys(RemoveMember(ms, key))
    ensures |RemoveMember(ms, key)| == if key in Keys(ms) then |ms| - 1 else |ms|
    ensures key !in Keys(ms) ==> RemoveMember(ms, key) == ms
  {
    if ms != [] {
      var rest := RemoveMember(ms[1..], key);
      assert DistinctKeys(ms[1..]);
      RemoveMemberKeys(ms[1..], key);
      KeysAt(ms);
      if ms[0].key == key {
        KeysAt(ms[1..]);
        forall i | 0 <= i < |ms| - 1 ensures Keys(ms[1..])[i] != key {
          assert ms[1..][i] == ms[i + 1];
        }
      } else {
        RemoveMemberSubset(ms[1..], key);
        assert ms == [ms[0]] + ms[1..];
        var r := [ms[0]] + rest;
        forall i, j | 0 <= i < j < |r| ensures r[i].key != r[j].key {
          if i == 0 {
            assert r[j] in rest;
          }
        }
      }
    }
  }

  /** Every member left by `erase` was a member before. */
  lemma {:induction false} RemoveMemberSubset(ms: seq<Member>, key: string)
    ensures forall m :: m in RemoveMember(ms, key) ==> m in ms
  {
    if ms != [] {
      RemoveMemberSubset(ms[1..], key);
    }
  }

  /** Every member after `map[key] = v` is an old member or the new one. */
  lemma {:induction false} SetMemberValues(ms: seq<Member>, key: string, v: Element)
    ensures forall m :: m in SetMember(ms, key, v) ==> m in ms || m == Member(key, v)
  {
    if ms != [] && ms[0].key != key {
      SetMemberValues(ms[1..], key, v);
    }
  }

  /** `map[key] = v` on a well-formed object with a well-formed value gives a well-formed object. */
  lemma SetMemberWellFormed(ms: seq<Member>, key: string, v: Element)
    requires WellFormed(Obj(ms)) && WellFormed(v)
    ensures WellFormed(Obj(SetMember(ms, key, v)))
  {
    SetMemberDistinct(ms, key, v);
    SetMemberValues(ms, key, v);
    var r := SetMember(ms, key, v);
    forall i | 0 <= i < |r| ensures WellFormed(r[i].value) {
      assert r[i] in r;
    }
  }

  /** `emplace` on a well-formed object with a well-formed value gives a well-formed object. */
  lemma EmplaceWellFormed(ms: seq<Member>, key: string, v: Element)
    requires WellFormed(Obj(ms)) && WellFormed(v)
    ensures WellFormed(Obj(Emplace(ms, key, v)))
  {
    if key !in Keys(ms) {
      SetMemberAppends(ms, key, v);
      SetMemberWellFormed(ms, key, v);
    }
  }

  /** `erase(key)` on a well-formed object gives a well-formed object. */
  lemma RemoveMemberWellFormed(ms: seq<Member>, key: string)
    requires WellFormed(Obj(ms))
    ensures WellFormed(Obj(RemoveMember(ms, key)))
  {
    RemoveMemberKeys(ms, key);
    RemoveMemberSubset(ms, key);
    var r := RemoveMember(ms, key);
    forall i | 0 <= i < |r| ensures WellFormed(r[i].value) {
      assert r[i] in r;
    }
  }

  /** Appending a well-formed item to a well-formed array gives a well-formed array. */
  lemma AppendItemWellFormed(items: seq<Element>, v: Element)
    requires WellFormed(Arr(items)) && WellFormed(v)
    ensures WellFormed(Arr(items + [v]))
  {
    assert forall i :: 0 <= i < |items| ==> (items + [v])[i] == items[i];
  }

  /** Erasing one item of a well-formed array gives a well-formed array. */
  lemma EraseItemWellFormed(items: seq<Element>, at: nat)
    requires WellFormed(Arr(items)) && at < |items|
    ensures WellFormed(Arr(items[..at] + items[at + 1..]))
  {
    var r := items[..at] + items[at + 1..];
    forall i | 0 <= i < |r| ensures WellFormed(r[i]) {
      if i < at {
        assert r[i] == items[i];
      } else {
        assert r[i] == items[i + 1];
      }
    }
  }
}
