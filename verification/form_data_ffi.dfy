/** Gleam's immutable form data over the host's mutable `FormData`
    (src/gleam_fetch_ffi.mjs, `newFormData` to `keysFormData`). Every
    change is made to a fresh copy; the object passed in is never
    changed. */
module FormDataFfi {
  import opened Values
  import opened HostFormData
  import Utf8

  /** `newFormData`. */
  method NewFormData() returns (f: FormData)
    ensures fresh(f)
    ensures f.entries == []
  {
    f := new FormData();
  }

  /** `cloneFormData`: a fresh object with the same entries in the same
      order, appended one by one. */
  method CloneFormData(source: FormData) returns (f: FormData)
    ensures fresh(f)
    ensures f.entries == source.entries
  {
    f := new FormData();
    for i := 0 to |source.entries|
      invariant f.entries == source.entries[..i]
    {
      var e := source.entries[i];
      f.Append(e.name, e.value);
      assert source.entries[..i + 1] == source.entries[..i] + [e];
    }
    assert source.entries[..|source.entries|] == source.entries;
  }

  /** `appendFormData`: a copy with the string entry added at the end. */
  method AppendFormData(source: FormData, key: string, value: string) returns (f: FormData)
    ensures fresh(f) && unchanged(source)
    ensures f.entries == source.entries + [Entry(key, Text(value))]
  {
    f := CloneFormData(source);
    f.Append(key, Text(value));
  }

  /** `setFormData`: a copy where the string entry takes the place of the
      first entry under `key` and the others under `key` are gone. */
  method SetFormData(source: FormData, key: string, value: string) returns (f: FormData)
    ensures fresh(f) && unchanged(source)
    ensures f.entries == SetEntry(source.entries, key, Text(value))
  {
    f := CloneFormData(source);
    f.Set(key, Text(value));
  }

  /** `appendBitsFormData`: a copy with a file entry holding the bit
      array's bytes added at the end. */
  method AppendBitsFormData(source: FormData, key: string, value: BitArray) returns (f: FormData)
    ensures fresh(f) && unchanged(source)
    ensures f.entries == source.entries + [Entry(key, File(value.rawBuffer))]
  {
    f := CloneFormData(source);
    f.Append(key, File(value.rawBuffer));
  }

  /** `setBitsFormData`: `setFormData` with a file entry. */
  method SetBitsFormData(source: FormData, key: string, value: BitArray) returns (f: FormData)
    ensures fresh(f) && unchanged(source)
    ensures f.entries == SetEntry(source.entries, key, File(value.rawBuffer))
  {
    f := CloneFormData(source);
    f.Set(key, File(value.rawBuffer));
  }

  /** `deleteFormData`: a copy without the entries under `key`. */
  method DeleteFormData(source: FormData, key: string) returns (f: FormData)
    ensures fresh(f) && unchanged(source)
    ensures f.entries == Without(source.entries, key)
  {
    f := CloneFormData(source);
    f.Delete(key);
  }

  /** The string values among `values`, in order. */
  function Texts(values: seq<FormValue>): (r: seq<string>)
    ensures |r| <= |values|
    ensures forall s :: s in r ==> Text(s) in values
  {
    if values == [] then []
    else if values[0].Text? then [values[0].text] + Texts(values[1..])
    else Texts(values[1..])
  }

  /** `getFormData`: the string values under `key`, in insertion order;
      file values are skipped. */
  function GetFormData(f: FormData, key: string): (r: seq<string>)
    reads f
    ensures |r| <= |ValuesOf(f.entries, key)|
    ensures forall s :: s in r ==> Text(s) in ValuesOf(f.entries, key)
  {
    Texts(ValuesOf(f.entries, key))
  }

  /** The bytes of each value: a string UTF-8 encoded, a file as it is. */
  function AllBytes(values: seq<FormValue>): (r: seq<seq<byte>>)
    ensures |r| == |values|
    ensures forall i :: 0 <= i < |values| ==>
      r[i] == match values[i] case Text(s) => Utf8.Encode(s) case File(bytes) => bytes
  {
    if values == [] then []
    else
      var head := match values[0] case Text(s) => Utf8.Encode(s) case File(bytes) => bytes;
      [head] + AllBytes(values[1..])
  }

  /** `getBitsFormData`: one byte buffer per value under `key`, in
      insertion order. */
  function GetBitsFormData(f: FormData, key: string): (r: seq<seq<byte>>)
    reads f
    ensures |r| == |ValuesOf(f.entries, key)|
    ensures forall i :: 0 <= i < |r| && ValuesOf(f.entries, key)[i].File? ==> r[i] == ValuesOf(f.entries, key)[i].bytes
  {
    AllBytes(ValuesOf(f.entries, key))
  }

  /** `hasFormData`. */
  function HasFormData(f: FormData, key: string): (r: bool)
    reads f
    ensures r <==> ValuesOf(f.entries, key) != []
  {
    HasNameIff(f.entries, key);
    HasName(f.entries, key)
  }

  /** The names in `names` with repeats dropped, each where it first
      occurs: what adding them in order to a JavaScript `Set` and spreading
      it gives. */
  function Distinct(names: seq<string>): (r: seq<string>)
    ensures |r| <= |names|
    ensures forall n :: n in r ==> n in names
  {
    if names == [] then []
    else
      var before := Distinct(names[..|names| - 1]);
      if names[|names| - 1] in before then before else before + [names[|names| - 1]]
  }

  predicate NoRepeats(names: seq<string>)
  {
    forall i, j :: 0 <= i < j < |names| ==> names[i] != names[j]
  }

  /** `Distinct` keeps every name once and adds none. */
  lemma {:induction false} DistinctProperties(names: seq<string>)
    ensures NoRepeats(Distinct(names))
    ensures forall n :: n in Distinct(names) <==> n in names
  {
    if names != [] {
      var init := names[..|names| - 1];
      DistinctProperties(init);
      assert names == init + [names[|names| - 1]];
    }
  }

  /** `keysFormData`: each entry name once, in the order it first occurs. */
  method KeysFormData(f: FormData) returns (keys: seq<string>)
    ensures keys == Distinct(Names(f.entries))
    ensures NoRepeats(keys)
    ensures forall k :: k in keys <==> HasName(f.entries, k)
  {
    var names := Names(f.entries);
    keys := [];
    for i := 0 to |names|
      invariant keys == Distinct(names[..i])
    {
      assert names[..i + 1][..i] == names[..i];
      if names[i] !in keys {
        keys := keys + [names[i]];
      }
    }
    assert names[..|names|] == names;
    DistinctProperties(names);
    forall k ensures k in keys <==> HasName(f.entries, k) {
      if k in names {
        var i :| 0 <= i < |names| && names[i] == k;
        assert f.entries[i].name == k;
      }
      if HasName(f.entries, k) {
        var i :| 0 <= i < |f.entries| && f.entries[i].name == k;
        assert names[i] == k;
      }
    }
  }

  // What the form-data operations do to the accessors.

  /** After appending a string under `key`, `get` gives the old strings
      under `key` followed by the new one; after appending a file, the same
      strings as before. Other keys are untouched either way. */
  lemma GetAfterAppend(es: seq<Entry>, key: string, value: FormValue, other: string)
    ensures Texts(ValuesOf(es + [Entry(key, value)], key)) ==
      if value.Text? then Texts(ValuesOf(es, key)) + [value.text] else Texts(ValuesOf(es, key))
    ensures other != key ==> ValuesOf(es + [Entry(key, value)], other) == ValuesOf(es, other)
  {
    ValuesOfAppend(es, Entry(key, value), key);
    ValuesOfAppend(es, Entry(key, value), other);
    TextsAppend(ValuesOf(es, key), value);
  }

  lemma {:induction false} TextsAppend(values: seq<FormValue>, value: FormValue)
    ensures Texts(values + [value]) == if value.Text? then Texts(values) + [value.text] else Texts(values)
  {
    if values == [] {
      assert values + [value] == [value];
    } else {
      assert (values + [value])[1..] == values[1..] + [value];
      TextsAppend(values[1..], value);
    }
  }

  /** After setting a string under `key`, `get` gives exactly that
      string and `has` is true; after deleting `key`, `get` gives nothing
      and `has` is false. */
  lemma GetAfterSetAndDelete(es: seq<Entry>, key: string, value: string)
    ensures Texts(ValuesOf(SetEntry(es, key, Text(value)), key)) == [value]
    ensures HasName(SetEntry(es, key, Text(value)), key)
    ensures Texts(ValuesOf(Without(es, key), key)) == []
    ensures !HasName(Without(es, key), key)
  {
    ValuesOfSetEntry(es, key, Text(value), key);
    HasNameIff(SetEntry(es, key, Text(value)), key);
    ValuesOfWithout(es, key, key);
    HasNameIff(Without(es, key), key);
  }

  /** Copy-on-write, observed through the accessors: a client chains
      append, set and delete. Each step returns a new object; the object
      given to the chain answers `get`, `getBits`, `has` and `keys` as
      before; and the last copy has nothing under `key` while every other
      key keeps its values. */
  method MutatorsLeaveSourceAlone(source: FormData, key: string, value: string, other: string)
    returns (appended: FormData, replaced: FormData, deleted: FormData)
    ensures fresh(appended) && fresh(replaced) && fresh(deleted)
    ensures appended != replaced && replaced != deleted && deleted != appended
    ensures unchanged(source)
    ensures GetFormData(deleted, key) == [] && !HasFormData(deleted, key)
    ensures other != key ==> GetFormData(deleted, other) == GetFormData(source, other)
  {
    var before := GetFormData(source, other);
    var beforeBits := GetBitsFormData(source, other);
    var beforeHas := HasFormData(source, other);
    var beforeKeys := KeysFormData(source);
    appended := AppendFormData(source, key, value);
    replaced := SetFormData(appended, key, value);
    deleted := DeleteFormData(replaced, key);
    assert GetFormData(source, other) == before;
    assert GetBitsFormData(source, other) == beforeBits;
    assert HasFormData(source, other) == beforeHas;
    var afterKeys := KeysFormData(source);
    assert afterKeys == beforeKeys;
    GetAfterSetAndDelete(replaced.entries, key, value);
    if other != key {
      ValuesOfWithout(replaced.entries, key, other);
      ValuesOfSetEntry(appended.entries, key, Text(value), other);
      ValuesOfAppend(source.entries, Entry(key, Text(value)), other);
    }
  }

  /** `getBits(set(new FormData(), "f", "hello"), "f")` is one buffer: the
      UTF-8 bytes of "hello". */
  lemma GetBitsOfHello()
    ensures AllBytes(ValuesOf(SetEntry([], "f", Text("hello")), "f")) == [[104, 101, 108, 108, 111]]
  {
    var hello := "hello";
    Utf8.EncodeAscii(hello);
    assert Utf8.Encode(hello) == [104, 101, 108, 108, 111];
  }
}
