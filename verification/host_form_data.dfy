/** The host's mutable `FormData` object and its entry list, following the
    WHATWG XMLHttpRequest Standard, section 4 (Interface FormData): an
    ordered list of (name, value) entries where a value is a string or a
    file. */
module HostFormData {
  import opened Values

  /** An entry value: a string, or a file holding bytes. */
  datatype FormValue = Text(text: string) | File(bytes: seq<byte>)

  datatype Entry = Entry(name: string, value: FormValue)

  /** The entry list with every entry named `name` removed, the others in
      their order (`delete`). */
  function Without(es: seq<Entry>, name: string): (r: seq<Entry>)
    ensures |r| <= |es|
    ensures forall e :: e in r ==> e in es && e.name != name
    ensures forall e :: e in es && e.name != name ==> e in r
  {
    if es == [] then []
    else if es[0].name == name then Without(es[1..], name)
    else [es[0]] + Without(es[1..], name)
  }

  /** The entry list after `set(name, value)`: the first entry named `name`
      is replaced, the later ones removed; with none, the entry is
      appended. */
  function SetEntry(es: seq<Entry>, name: string, value: FormValue): (r: seq<Entry>)
    ensures Entry(name, value) in r
    ensures |r| <= |es| + 1
  {
    if es == [] then [Entry(name, value)]
    else if es[0].name == name then [Entry(name, value)] + Without(es[1..], name)
    else [es[0]] + SetEntry(es[1..], name, value)
  }

  /** `getAll(name)`: the values of the entries named `name`, in order. */
  function ValuesOf(es: seq<Entry>, name: string): (r: seq<FormValue>)
    ensures |r| <= |es|
    ensures forall v :: v in r <==> Entry(name, v) in es
  {
    if es == [] then []
    else if es[0].name == name then [es[0].value] + ValuesOf(es[1..], name)
    else ValuesOf(es[1..], name)
  }

  /** `has(name)`: some entry is named `name`, that is, `name` is among
      the names `keys()` yields. */
  predicate HasName(es: seq<Entry>, name: string)
    ensures HasName(es, name) <==> name in Names(es)
  {
    exists i :: 0 <= i < |es| && es[i].name == name
  }

  /** `keys()`: the name of every entry, in order, repeats included. */
  function Names(es: seq<Entry>): (r: seq<string>)
    ensures |r| == |es|
    ensures forall i :: 0 <= i < |es| ==> r[i] == es[i].name
  {
    if es == [] then [] else [es[0].name] + Names(es[1..])
  }

  /** The host object. Its methods change only its own entry list. */
  class FormData {
    var entries: seq<Entry>

    /** `new FormData()`. */
    constructor ()
      ensures entries == []
    {
      entries := [];
    }

    method Append(name: string, value: FormValue)
      modifies this
      ensures entries == old(entries) + [Entry(name, value)]
    {
      entries := entries + [Entry(name, value)];
    }

    method Set(name: string, value: FormValue)
      modifies this
      ensures entries == SetEntry(old(entries), name, value)
    {
      entries := SetEntry(entries, name, value);
    }

    method Delete(name: string)
      modifies this
      ensures entries == Without(old(entries), name)
    {
      entries := Without(entries, name);
    }
  }

  /** `has` is true exactly when `getAll` is non-empty. */
  lemma {:induction false} HasNameIff(es: seq<Entry>, name: string)
    ensures HasName(es, name) <==> ValuesOf(es, name) != []
  {
    if es != [] {
      HasNameIff(es[1..], name);
      assert Names(es) == [es[0].name] + Names(es[1..]);
    }
  }

  /** `getAll` on an entry list with one more entry at the end: the new
      value is last under its own name, and every other name is untouched. */
  lemma {:induction false} ValuesOfAppend(es: seq<Entry>, e: Entry, name: string)
    ensures ValuesOf(es + [e], name) ==
      if e.name == name then ValuesOf(es, name) + [e.value] else ValuesOf(es, name)
  {
    if es == [] {
      assert es + [e] == [e];
    } else {
      assert (es + [e])[1..] == es[1..] + [e];
      ValuesOfAppend(es[1..], e, name);
    }
  }

  /** After `delete(name)` nothing is named `name`, and every other name
      keeps its values in order. */
  lemma {:induction false} ValuesOfWithout(es: seq<Entry>, name: string, other: string)
    ensures ValuesOf(Without(es, name), name) == []
    ensures other != name ==> ValuesOf(Without(es, name), other) == ValuesOf(es, other)
  {
    if es != [] {
      ValuesOfWithout(es[1..], name, other);
    }
  }

  /** After `set(name, value)` exactly one entry is named `name` and holds
      `value`; every other name keeps its values in order. */
  lemma {:induction false} ValuesOfSetEntry(es: seq<Entry>, name: string, value: FormValue, other: string)
    ensures ValuesOf(SetEntry(es, name, value), name) == [value]
    ensures other != name ==> ValuesOf(SetEntry(es, name, value), other) == ValuesOf(es, other)
  {
    if es != [] {
      if es[0].name == name {
        ValuesOfWithout(es[1..], name, other);
      } else {
        ValuesOfSetEntry(es[1..], name, value, other);
      }
    }
  }

  /** After `set(name, value)` the entries are the new one and the entries
      not named `name`: none is invented, none of the others is lost. */
  lemma {:induction false} SetEntryEntries(es: seq<Entry>, name: string, value: FormValue)
    ensures forall e :: e in SetEntry(es, name, value) ==> e == Entry(name, value) || (e in es && e.name != name)
    ensures forall e :: e in es && e.name != name ==> e in SetEntry(es, name, value)
  {
    if es != [] && es[0].name != name {
      SetEntryEntries(es[1..], name, value);
      assert es == [es[0]] + es[1..];
    }
  }

  /** `set` replaces the first entry named `name` where it stands and keeps
      the entries before it; with no such entry it appends. */
  lemma {:induction false} SetEntryPlace(es: seq<Entry>, name: string, value: FormValue, i: nat)
    requires i <= |es|
    requires forall j :: 0 <= j < i ==> es[j].name != name
    requires i == |es| || es[i].name == name
    ensures i < |SetEntry(es, name, value)| && SetEntry(es, name, value)[i] == Entry(name, value)
    ensures SetEntry(es, name, value)[..i] == es[..i]
    ensures i == |es| ==> SetEntry(es, name, value) == es + [Entry(name, value)]
  {
    if i == 0 {
      if es != [] {
        assert SetEntry(es, name, value) == [Entry(name, value)] + Without(es[1..], name);
      }
    } else {
      var rest := es[1..];
      SetEntryPlace(rest, name, value, i - 1);
      var tail := SetEntry(rest, name, value);
      assert SetEntry(es, name, value) == [es[0]] + tail;
      assert es[..i] == [es[0]] + rest[..i - 1];
      assert ([es[0]] + tail)[..i] == [es[0]] + tail[..i - 1];
    }
  }
}
