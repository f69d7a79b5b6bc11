/**
 * The element operations that change an element in place (`Add`,
 * `operator[]` with a key, `operator<<`, the three `Remove`s), on an object
 * that holds one element value.
 */
module Mutation {
  import opened Wrappers
  import opened Elements

  class ElementSlot {
    var element: Element

    constructor(e: Element)
      ensures element == e
    {
      element := e;
    }

    /** `Add(key, value)`: sets the member on an object; false, and nothing changes, otherwise. */
    method AddMember(key: string, v: Element) returns (ok: bool)
      modifies this
      ensures ok <==> old(element).Obj?
      ensures ok ==> element == Obj(SetMember(old(element).members, key, v))
      ensures !ok ==> element == old(element)
      ensures WellFormed(old(element)) && WellFormed(v) ==> WellFormed(element)
    {
      if !element.Obj? {
        return false;
      }
      if WellFormed(element) && WellFormed(v) {
        SetMemberWellFormed(element.members, key, v);
      }
      element := Obj(SetMember(element.members, key, v));
      return true;
    }

    /** `Add(value)`: appends to an array; false, and nothing changes, otherwise. */
    method AddItem(v: Element) returns (ok: bool)
      modifies this
      ensures ok <==> old(element).Arr?
      ensures ok ==> element == Arr(old(element).items + [v])
      ensures !ok ==> element == old(element)
      ensures WellFormed(old(element)) && WellFormed(v) ==> WellFormed(element)
    {
      if !element.Arr? {
        return false;
      }
      if WellFormed(element) && WellFormed(v) {
        AppendItemWellFormed(element.items, v);
      }
      element := Arr(element.items + [v]);
      return true;
    }

    /**
     * `operator[](key)`: on an object, the member under `key`, first inserting
     * `Element()`, a null without payload, when the key is new; on anything
     * else it throws.
     */
    method Index(key: string) returns (r: Result<Element, AccessError>)
      modifies this
      ensures old(element).Obj? ==>
                element == Obj(Emplace(old(element).members, key, Null(false)))
                && r == Ok(if key in Keys(old(element).members) then Lookup(old(element).members, key).value else Null(false))
      ensures !old(element).Obj? ==> r == Err(NotAnObject) && element == old(element)
      ensures WellFormed(old(element)) ==> WellFormed(element)
    {
      if !element.Obj? {
        return Err(NotAnObject);
      }
      var ms := element.members;
      EmplaceLookup(ms, key, Null(false), key);
      if WellFormed(element) {
        EmplaceWellFormed(ms, key, Null(false));
      }
      element := Obj(Emplace(ms, key, Null(false)));
      r := Ok(Lookup(element.members, key).value);
    }

    /**
     * `operator<<`: appends to an array, replaces a null, and leaves any other
     * element unchanged.
     */
    method Push(v: Element)
      modifies this
      ensures old(element).Arr? ==> element == Arr(old(element).items + [v])
      ensures old(element).Null? ==> element == v
      ensures !old(element).Arr? && !old(element).Null? ==> element == old(element)
      ensures WellFormed(old(element)) && WellFormed(v) ==> WellFormed(element)
    {
      if element.Arr? {
        if WellFormed(element) && WellFormed(v) {
          AppendItemWellFormed(element.items, v);
        }
        element := Arr(element.items + [v]);
      }
      if element.Null? {
        element := v;
      }
    }

    /**
     * `Remove(key)`: erases the member and reports whether there was one. The
     * type check on a non-object has no effect, so `GetValueAs` throws there.
     */
    method RemoveKey(key: string) returns (r: Result<bool, AccessError>)
      modifies this
      ensures old(element).Obj? ==>
                element == Obj(RemoveMember(old(element).members, key))
                && r == Ok(key in Keys(old(element).members))
      ensures !old(element).Obj? ==> r == Err(TypeMismatch) && element == old(element)
      ensures WellFormed(old(element)) ==> WellFormed(element)
    {
      var got := GetValueAs(element, HostObject);
      if got.Err? {
        return Err(got.error);
      }
      var ms := element.members;
      if WellFormed(element) {
        RemoveMemberWellFormed(ms, key);
      }
      element := Obj(RemoveMember(ms, key));
      r := Ok(key in Keys(ms));
    }

    /**
     * `Remove(at)`: erases the item at `at` and returns true. The type check on
     * a non-array has no effect, so `GetValueAs` throws there; erasing past the
     * end is undefined behaviour in the source, so callers must not.
     */
    method RemoveAt(at: nat) returns (r: Result<bool, AccessError>)
      requires element.Arr? ==> at < |element.items|
      modifies this
      ensures old(element).Arr? ==>
                element == Arr(old(element).items[..at] + old(element).items[at + 1..]) && r == Ok(true)
      ensures !old(element).Arr? ==> r == Err(TypeMismatch) && element == old(element)
      ensures WellFormed(old(element)) ==> WellFormed(element)
    {
      var got := GetValueAs(element, HostArray);
      if got.Err? {
        return Err(got.error);
      }
      var items := element.items;
      if WellFormed(element) {
        EraseItemWellFormed(items, at);
      }
      element := Arr(items[..at] + items[at + 1..]);
      r := Ok(true);
    }

    /** `Remove(key)` with its type check returning false, as the guard evidently means: it never throws. */
    method RemoveKeyChecked(key: string) returns (removed: bool)
      modifies this
      ensures old(element).Obj? ==>
                element == Obj(RemoveMember(old(element).members, key)) && removed == (key in Keys(old(element).members))
      ensures !old(element).Obj? ==> !removed && element == old(element)
      ensures WellFormed(old(element)) ==> WellFormed(element)
    {
      if !element.Obj? {
        return false;
      }
      var ms := element.members;
      if WellFormed(element) {
        RemoveMemberWellFormed(ms, key);
      }
      element := Obj(RemoveMember(ms, key));
      removed := key in Keys(ms);
    }

    /** `Remove(at)` with its type check returning false, as the guard evidently means: it never throws. */
    method RemoveAtChecked(at: nat) returns (removed: bool)
      requires element.Arr? ==> at < |element.items|
      modifies this
      ensures old(element).Arr? ==>
                element == Arr(old(element).items[..at] + old(element).items[at + 1..]) && removed
      ensures !old(element).Arr? ==> !removed && element == old(element)
      ensures WellFormed(old(element)) ==> WellFormed(element)
    {
      if !element.Arr? {
        return false;
      }
      var items := element.items;
      if WellFormed(element) {
        EraseItemWellFormed(items, at);
      }
      element := Arr(items[..at] + items[at + 1..]);
      removed := true;
    }

    /** `Remove()`: the element becomes a null holding a `Value<nullptr_t>`. */
    method Remove() returns (ok: bool)
      modifies this
      ensures element == Null(true) && ok
      ensures GetValueAs(element, HostNull) == Ok(element)
    {
      element := Null(true);
      ok := true;
    }
  }

  /** As written, `Remove(key)` on an array throws instead of returning false. */
  method RemoveKeyOnArrayThrows() returns (r: Result<bool, AccessError>)
    ensures r == Err(TypeMismatch)
  {
    var slot := new ElementSlot(Arr([]));
    r := slot.RemoveKey("a");
  }

  /** With the guard returning, the same call reports that nothing was removed and leaves the array as it was. */
  method RemoveKeyCheckedOnArray() returns (removed: bool, e: Element)
    ensures !removed && e == Arr([])
  {
    var slot := new ElementSlot(Arr([]));
    removed := slot.RemoveKeyChecked("a");
    e := slot.element;
  }
}
