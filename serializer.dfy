/**
 * The two serialisers of an element: the compact one behind
 * `Element::ToString()` and the indented one behind `ToString(indent)` /
 * `GetStringFormated`. Numbers are printed by `fmt`, which stands for
 * `std::to_string`. Members are written in the model's member order.
 */
module Serializer {
  import opened Tokens
  import opened Elements

  /** A string between double quotes, written verbatim: nothing is escaped. */
  function Quote(s: string): (r: string)
    ensures |r| == |s| + 2 && r[0] == '"' && r[|r| - 1] == '"' && r[1..|r| - 1] == s
  {
    "\"" + s + "\""
  }

  /** `GetIndents`: `n` spaces. */
  function Indents(n: nat): (r: string)
    ensures |r| == n
    ensures forall i :: 0 <= i < n ==> r[i] == ' '
  {
    if n == 0 then "" else " " + Indents(n - 1)
  }

  // ------------------------------------------------------------------ compact

  /**
   * `Element::ToString()`: `null`, a quoted string, a number, `true`/`false`,
   * or a container opened by `[ ` / `{ ` and closed by ` ]` / ` }` after the
   * last child, children separated by `, `. An empty container has no last
   * child, so it is never closed.
   */
  function Compact(e: Element, fmt: Double -> string): (r: string)
    ensures e.Arr? ==> |r| >= 2 && r[0] == '[' && r[1] == ' '
    ensures e.Obj? ==> |r| >= 2 && r[0] == '{' && r[1] == ' '
    ensures e.Arr? ==> (e.items != [] <==> |r| >= 4 && r[|r| - 2] == ' ' && r[|r| - 1] == ']')
    ensures e.Obj? ==> (e.members != [] <==> |r| >= 4 && r[|r| - 2] == ' ' && r[|r| - 1] == '}')
    decreases e, 1
  {
    match e
    case Null(_) => "null"
    case Str(s) => Quote(s)
    case Number(d) => fmt(d)
    case Bool(b) => if b then "true" else "false"
    case Arr(items) => "[ " + CompactItems(items, fmt)
    case Obj(ms) => "{ " + CompactMembers(ms, fmt)
  }

  /** The array loop: each item, then `, ` or, after the last one, ` ]`. */
  function CompactItems(items: seq<Element>, fmt: Double -> string): (r: string)
    ensures items == [] <==> r == ""
    ensures items != [] ==> |r| >= 2 && r[|r| - 2] == ' ' && r[|r| - 1] == ']'
    decreases items, 0
  {
    if items == [] then ""
    else Compact(items[0], fmt) + (if |items| > 1 then ", " + CompactItems(items[1..], fmt) else " ]")
  }

  /** The object loop: `"key": value`, then `, ` or, after the last member, ` }`. */
  function CompactMembers(ms: seq<Member>, fmt: Double -> string): (r: string)
    ensures ms == [] <==> r == ""
    ensures ms != [] ==> |r| >= 2 && r[|r| - 2] == ' ' && r[|r| - 1] == '}'
    decreases ms, 0
  {
    if ms == [] then ""
    else Quote(ms[0].key) + ": " + Compact(ms[0].value, fmt)
         + (if |ms| > 1 then ", " + CompactMembers(ms[1..], fmt) else " }")
  }

  /**
   * The compact form with empty containers closed, as `[]` / `{}` like the
   * indented form prints them; everything else is as in `Compact`.
   */
  function CompactFixed(e: Element, fmt: Double -> string): string
    decreases e, 1
  {
    match e
    case Arr(items) => if items == [] then "[]" else "[ " + CompactFixedItems(items, fmt)
    case Obj(ms) => if ms == [] then "{}" else "{ " + CompactFixedMembers(ms, fmt)
    case Null(_) => "null"
    case Str(s) => Quote(s)
    case Number(d) => fmt(d)
    case Bool(b) => if b then "true" else "false"
  }

  function CompactFixedItems(items: seq<Element>, fmt: Double -> string): string
    decreases items, 0
  {
    if items == [] then ""
    else CompactFixed(items[0], fmt) + (if |items| > 1 then ", " + CompactFixedItems(items[1..], fmt) else " ]")
  }

  function CompactFixedMembers(ms: seq<Member>, fmt: Double -> string): string
    decreases ms, 0
  {
    if ms == [] then ""
    else Quote(ms[0].key) + ": " + CompactFixed(ms[0].value, fmt)
         + (if |ms| > 1 then ", " + CompactFixedMembers(ms[1..], fmt) else " }")
  }

  /** No array or object anywhere in `e` is empty. */
  predicate NoEmptyContainer(e: Element)
    decreases e
  {
    match e
    case Arr(items) => items != [] && forall i :: 0 <= i < |items| ==> NoEmptyContainer(items[i])
    case Obj(ms) => ms != [] && forall i :: 0 <= i < |ms| ==> NoEmptyContainer(ms[i].value)
    case _ => true
  }

  /** The corrected compact form differs from the original only where a container is empty. */
  lemma {:induction false} CompactFixedAgrees(e: Element, fmt: Double -> string)
    requires NoEmptyContainer(e)
    ensures CompactFixed(e, fmt) == Compact(e, fmt)
    decreases e, 1
  {
    match e
    case Arr(items) => CompactFixedItemsAgree(items, fmt);
    case Obj(ms) => CompactFixedMembersAgree(ms, fmt);
    case _ =>
  }

  lemma {:induction false} CompactFixedItemsAgree(items: seq<Element>, fmt: Double -> string)
    requires forall i :: 0 <= i < |items| ==> NoEmptyContainer(items[i])
    ensures CompactFixedItems(items, fmt) == CompactItems(items, fmt)
    decreases items, 0
  {
    if items != [] {
      CompactFixedAgrees(items[0], fmt);
      CompactFixedItemsAgree(items[1..], fmt);
    }
  }

  lemma {:induction false} CompactFixedMembersAgree(ms: seq<Member>, fmt: Double -> string)
    requires forall i :: 0 <= i < |ms| ==> NoEmptyContainer(ms[i].value)
    ensures CompactFixedMembers(ms, fmt) == CompactMembers(ms, fmt)
    decreases ms, 0
  {
    if ms != [] {
      CompactFixedAgrees(ms[0].value, fmt);
      CompactFixedMembersAgree(ms[1..], fmt);
    }
  }

  // ----------------------------------------------------------------- indented

  /**
   * `GetStringFormated(indent, offset)`: an empty container is `[]` / `{}`;
   * otherwise the opener and a line break, then each child on its own line
   * after `indent + offset` spaces, rendered one level deeper and ended by
   * `,` plus line break (a line break alone after the last child), then the
   * closer after `indent` spaces.
   */
  function Formatted(e: Element, indent: nat, offset: nat, fmt: Double -> string): (r: string)
    ensures e.Arr? ==> |r| >= 2 && r[0] == '[' && r[|r| - 1] == ']'
    ensures e.Obj? ==> |r| >= 2 && r[0] == '{' && r[|r| - 1] == '}'
    ensures e == Arr([]) ==> r == "[]"
    ensures e == Obj([]) ==> r == "{}"
    ensures (e.Arr? && e.items != []) || (e.Obj? && e.members != []) ==>
              |r| >= indent + offset + indent + 4 && r[1] == '\n' && r[|r| - indent - 2] == '\n'
    decreases e, 1
  {
    match e
    case Null(_) => "null"
    case Str(s) => Quote(s)
    case Number(d) => fmt(d)
    case Bool(b) => if b then "true" else "false"
    case Arr(items) =>
      if items == [] then "[]"
      else "[\n" + FormattedItems(items, indent, offset, fmt) + Indents(indent) + "]"
    case Obj(ms) =>
      if ms == [] then "{}"
      else "{\n" + FormattedMembers(ms, indent, offset, fmt) + Indents(indent) + "}"
  }

  /** The lines of a non-empty array's items. */
  function FormattedItems(items: seq<Element>, indent: nat, offset: nat, fmt: Double -> string): (r: string)
    ensures items != [] ==> |r| > indent + offset && r[|r| - 1] == '\n'
    decreases items, 0
  {
    if items == [] then ""
    else Indents(indent + offset) + Formatted(items[0], indent + offset, offset, fmt)
         + (if |items| > 1 then ",\n" + FormattedItems(items[1..], indent, offset, fmt) else "\n")
  }

  /** The lines of a non-empty object's members. */
  function FormattedMembers(ms: seq<Member>, indent: nat, offset: nat, fmt: Double -> string): (r: string)
    ensures ms != [] ==> |r| > indent + offset && r[|r| - 1] == '\n'
    decreases ms, 0
  {
    if ms == [] then ""
    else Indents(indent + offset) + Quote(ms[0].key) + ": " + Formatted(ms[0].value, indent + offset, offset, fmt)
         + (if |ms| > 1 then ",\n" + FormattedMembers(ms[1..], indent, offset, fmt) else "\n")
  }

  /** `Element::ToString(indent)`: the indented form at the outermost level, `indent` spaces per level. */
  function ToStringIndented(e: Element, indent: nat, fmt: Double -> string): (r: string)
    ensures e.Arr? ==> |r| >= 2 && r[0] == '[' && r[|r| - 1] == ']'
    ensures e.Obj? ==> |r| >= 2 && r[0] == '{' && r[|r| - 1] == '}'
    ensures (e.Arr? && e.items != []) || (e.Obj? && e.members != []) ==>
              |r| >= indent + 4 && r[|r| - 2] == '\n'
  {
    Formatted(e, 0, indent, fmt)
  }

  /** The first item line of the indented form starts with `indent + offset` spaces. */
  lemma FormattedItemsIndented(items: seq<Element>, indent: nat, offset: nat, fmt: Double -> string)
    requires items != []
    ensures FormattedItems(items, indent, offset, fmt)[..indent + offset] == Indents(indent + offset)
  {
    var line := Indents(indent + offset) + Formatted(items[0], indent + offset, offset, fmt);
    var tail := if |items| > 1 then ",\n" + FormattedItems(items[1..], indent, offset, fmt) else "\n";
    assert FormattedItems(items, indent, offset, fmt) == Indents(indent + offset) + (Formatted(items[0], indent + offset, offset, fmt) + tail);
  }

  /** The first member line of the indented form starts with `indent + offset` spaces. */
  lemma FormattedMembersIndented(ms: seq<Member>, indent: nat, offset: nat, fmt: Double -> string)
    requires ms != []
    ensures FormattedMembers(ms, indent, offset, fmt)[..indent + offset] == Indents(indent + offset)
  {
    var tail := if |ms| > 1 then ",\n" + FormattedMembers(ms[1..], indent, offset, fmt) else "\n";
    assert FormattedMembers(ms, indent, offset, fmt)
           == Indents(indent + offset) + (Quote(ms[0].key) + ": " + Formatted(ms[0].value, indent + offset, offset, fmt) + tail);
  }

  /** Slices of `a + b + c + d`: the first `k` characters of `b`, and all of `c`. */
  lemma SliceOfFour(a: string, b: string, c: string, d: string, k: nat)
    requires k <= |b|
    ensures var r := a + b + c + d;
            r[|a|..|a| + k] == b[..k] && r[|a| + |b|..|a| + |b| + |c|] == c
  {
    var r := a + b + c + d;
    assert forall i :: 0 <= i < k ==> r[|a| + i] == b[i];
    assert forall i :: 0 <= i < |c| ==> r[|a| + |b| + i] == c[i];
  }

  /** A line, a separator and a rest that starts with `pad`: the separator and `pad` sit right after the line. */
  lemma SeparatedLines(line: string, rest: string, pad: string)
    requires |pad| <= |rest| && rest[..|pad|] == pad
    ensures var r := line + ",\n" + rest;
            |r| >= |line| + 2 + |pad| && r[|line|..|line| + 2] == ",\n" && r[|line| + 2..|line| + 2 + |pad|] == pad
  {
    var r := line + ",\n" + rest;
    assert forall i :: 0 <= i < |pad| ==> r[|line| + 2 + i] == rest[i];
  }

  /**
   * A non-empty array in the indented form: the opener and a line break, the
   * first item line after `indent + offset` spaces, and at the end a line
   * break, `indent` spaces and the closer.
   */
  lemma FormattedArrayLayout(items: seq<Element>, indent: nat, offset: nat, fmt: Double -> string)
    requires items != []
    ensures var r := Formatted(Arr(items), indent, offset, fmt);
            r[2..2 + indent + offset] == Indents(indent + offset)
            && r[|r| - indent - 2] == '\n' && r[|r| - indent - 1..|r| - 1] == Indents(indent)
  {
    var body := FormattedItems(items, indent, offset, fmt);
    FormattedItemsIndented(items, indent, offset, fmt);
    SliceOfFour("[\n", body, Indents(indent), "]", indent + offset);
  }

  /** The same for a non-empty object and its member lines. */
  lemma FormattedObjectLayout(ms: seq<Member>, indent: nat, offset: nat, fmt: Double -> string)
    requires ms != []
    ensures var r := Formatted(Obj(ms), indent, offset, fmt);
            r[2..2 + indent + offset] == Indents(indent + offset)
            && r[|r| - indent - 2] == '\n' && r[|r| - indent - 1..|r| - 1] == Indents(indent)
  {
    var body := FormattedMembers(ms, indent, offset, fmt);
    FormattedMembersIndented(ms, indent, offset, fmt);
    SliceOfFour("{\n", body, Indents(indent), "}", indent + offset);
  }

  /** `ToString(indent)` of a non-empty container indents its first child line by `indent` and its closer not at all. */
  lemma ToStringIndentedLayout(e: Element, indent: nat, fmt: Double -> string)
    requires (e.Arr? && e.items != []) || (e.Obj? && e.members != [])
    ensures var r := ToStringIndented(e, indent, fmt);
            r[2..2 + indent] == Indents(indent) && r[|r| - 2] == '\n' && r[|r| - 1] in "]}"
  {
    if e.Arr? {
      FormattedArrayLayout(e.items, 0, indent, fmt);
    } else {
      FormattedObjectLayout(e.members, 0, indent, fmt);
    }
  }

  /**
   * Between two item lines of the indented form: the first line is its
   * indentation and the item, then `,` and a line break, then the next line,
   * which starts with the same indentation.
   */
  lemma FormattedItemsSeparator(items: seq<Element>, indent: nat, offset: nat, fmt: Double -> string)
    requires |items| > 1
    ensures var line := Indents(indent + offset) + Formatted(items[0], indent + offset, offset, fmt);
            FormattedItems(items, indent, offset, fmt) == line + ",\n" + FormattedItems(items[1..], indent, offset, fmt)
    ensures var line := Indents(indent + offset) + Formatted(items[0], indent + offset, offset, fmt);
            var r := FormattedItems(items, indent, offset, fmt);
            |r| >= |line| + 2 + indent + offset
            && r[|line|..|line| + 2] == ",\n" && r[|line| + 2..|line| + 2 + indent + offset] == Indents(indent + offset)
  {
    var r := FormattedItems(items, indent, offset, fmt);
    var rest := FormattedItems(items[1..], indent, offset, fmt);
    var line := Indents(indent + offset) + Formatted(items[0], indent + offset, offset, fmt);
    FormattedItemsIndented(items[1..], indent, offset, fmt);
    assert r == line + ",\n" + rest;
    SeparatedLines(line, rest, Indents(indent + offset));
  }

  /** The last item line of the indented form: its indentation, the item and a line break. */
  lemma FormattedItemsLast(items: seq<Element>, indent: nat, offset: nat, fmt: Double -> string)
    requires |items| == 1
    ensures FormattedItems(items, indent, offset, fmt)
            == Indents(indent + offset) + Formatted(items[0], indent + offset, offset, fmt) + "\n"
  {
  }

  /** The same for member lines: `"key": value`, then `,` and a line break, then the next indented line. */
  lemma FormattedMembersSeparator(ms: seq<Member>, indent: nat, offset: nat, fmt: Double -> string)
    requires |ms| > 1
    ensures var line := Indents(indent + offset) + Quote(ms[0].key) + ": " + Formatted(ms[0].value, indent + offset, offset, fmt);
            FormattedMembers(ms, indent, offset, fmt) == line + ",\n" + FormattedMembers(ms[1..], indent, offset, fmt)
    ensures var line := Indents(indent + offset) + Quote(ms[0].key) + ": " + Formatted(ms[0].value, indent + offset, offset, fmt);
            var r := FormattedMembers(ms, indent, offset, fmt);
            |r| >= |line| + 2 + indent + offset
            && r[|line|..|line| + 2] == ",\n" && r[|line| + 2..|line| + 2 + indent + offset] == Indents(indent + offset)
  {
    var r := FormattedMembers(ms, indent, offset, fmt);
    var rest := FormattedMembers(ms[1..], indent, offset, fmt);
    var line := Indents(indent + offset) + Quote(ms[0].key) + ": " + Formatted(ms[0].value, indent + offset, offset, fmt);
    FormattedMembersIndented(ms[1..], indent, offset, fmt);
    assert r == line + ",\n" + rest;
    SeparatedLines(line, rest, Indents(indent + offset));
  }

  /** The last member line: its indentation, `"key": value` and a line break. */
  lemma FormattedMembersLast(ms: seq<Member>, indent: nat, offset: nat, fmt: Double -> string)
    requires |ms| == 1
    ensures FormattedMembers(ms, indent, offset, fmt)
            == Indents(indent + offset) + Quote(ms[0].key) + ": " + Formatted(ms[0].value, indent + offset, offset, fmt) + "\n"
  {
  }
}
