/**
 * Records and the edit buffer of the CV builder's list editor.
 *
 * A record is the plain JavaScript object the editor stores in a résumé slot:
 * an ordered sequence of (key, value) entries, in the order the keys were first
 * assigned (the order `Object.entries` reports for non-numeric keys).
 * Reading a key that is absent yields "", as every read in the editor is
 * written `obj[key] || ""`.
 *
 * The edit buffer is a sequence of fields, one per schema label, each holding
 * the value being composed. A field with no `value` yet and a field whose
 * value is "" are the same here, for the same reason.
 */
module Records {

  /** One property of a record: `key: value`. */
  datatype Entry = Entry(key: string, value: string)

  /** A record, keys in insertion order. */
  type Record = seq<Entry>

  /** One entry of the edit buffer: the schema label (`name`) and its current value. */
  datatype Field = Field(name: string, value: string)

  /** The keys of a record, in order. */
  function Keys(r: Record): (ks: seq<string>)
    ensures |ks| == |r|
    ensures forall i :: 0 <= i < |r| ==> ks[i] == r[i].key
  {
    if r == [] then [] else [r[0].key] + Keys(r[1..])
  }

  /** The labels of a buffer, in order. */
  function Labels(fs: seq<Field>): seq<string>
  {
    seq(|fs|, i requires 0 <= i < |fs| => fs[i].name)
  }

  predicate Distinct(s: seq<string>)
  {
    forall i, j :: 0 <= i < j < |s| ==> s[i] != s[j]
  }

  /** `r[k] || ""`: the value stored under `k`, or "" when `k` is absent. */
  function Lookup(r: Record, k: string): string
  {
    if r == [] then "" else if r[0].key == k then r[0].value else Lookup(r[1..], k)
  }

  lemma {:induction false} LookupAbsent(r: Record, k: string)
    requires k !in Keys(r)
    ensures Lookup(r, k) == ""
  {
    if r != [] {
      LookupAbsent(r[1..], k);
    }
  }

  /** In a record with distinct keys, looking up the key of entry `i` yields the value of entry `i`. */
  lemma {:induction false} LookupAt(r: Record, i: nat)
    requires Distinct(Keys(r)) && i < |r|
    ensures Lookup(r, r[i].key) == r[i].value
  {
    if i > 0 {
      assert Distinct(Keys(r[1..])) by {
        forall a, b | 0 <= a < b < |r| - 1
          ensures Keys(r[1..])[a] != Keys(r[1..])[b]
        {
          assert Keys(r)[a + 1] != Keys(r)[b + 1];
        }
      }
      LookupAt(r[1..], i - 1);
      assert Keys(r)[0] != Keys(r)[i];
    }
  }

  /**
   * `obj[k] = v` on a JavaScript object: an existing key keeps its place and
   * takes the new value; a new key is added at the end.
   */
  function Assign(r: Record, k: string, v: string): (r': Record)
    ensures Lookup(r', k) == v
    ensures forall k' :: k' != k ==> Lookup(r', k') == Lookup(r, k')
    ensures Keys(r') == if k in Keys(r) then Keys(r) else Keys(r) + [k]
  {
    if r == [] then
      [Entry(k, v)]
    else if r[0].key == k then
      [Entry(k, v)] + r[1..]
    else
      var rest := Assign(r[1..], k, v);
      assert ([r[0]] + rest)[1..] == rest;
      [r[0]] + rest
  }

  /**
   * The record built from a buffer by assigning `entry[f.name] = f.value || ""`
   * for each field `f` in buffer order, starting from the empty object.
   */
  function Materialise(fs: seq<Field>): Record
    decreases |fs|
  {
    if fs == [] then []
    else
      var n := |fs| - 1;
      Assign(Materialise(fs[..n]), fs[n].name, fs[n].value)
  }

  /**
   * The `forEach` loop that builds `liveData` in `handleChange` and `entry`
   * in `save`.
   */
  method BuildRecord(fs: seq<Field>) returns (r: Record)
    ensures r == Materialise(fs)
  {
    r := [];
    var i := 0;
    while i < |fs|
      invariant 0 <= i <= |fs|
      invariant r == Materialise(fs[..i])
    {
      assert fs[..i + 1][..i] == fs[..i];
      r := Assign(r, fs[i].name, fs[i].value);
      i := i + 1;
    }
    assert fs[..i] == fs;
  }

  /** Distinct labels stay distinct in any prefix of the buffer. */
  lemma DistinctPrefix(fs: seq<Field>, n: nat)
    requires Distinct(Labels(fs)) && n <= |fs|
    ensures Labels(fs[..n]) == Labels(fs)[..n]
    ensures Distinct(Labels(fs[..n]))
  {
  }

  /** With distinct labels, the keys of the materialised record are the buffer's labels, in buffer order. */
  lemma {:induction false} MaterialiseKeys(fs: seq<Field>)
    requires Distinct(Labels(fs))
    ensures Keys(Materialise(fs)) == Labels(fs)
  {
    if fs != [] {
      var n := |fs| - 1;
      var pre := fs[..n];
      DistinctPrefix(fs, n);
      MaterialiseKeys(pre);
      assert fs[n].name !in Labels(pre) by {
        forall j | 0 <= j < n ensures Labels(pre)[j] != fs[n].name {
          assert Labels(fs)[j] != Labels(fs)[n];
        }
      }
      assert Labels(fs) == Labels(pre) + [fs[n].name];
    }
  }

  /** With distinct labels, every label of the buffer reads back as its field's value. */
  lemma {:induction false} MaterialiseLookup(fs: seq<Field>, i: nat)
    requires Distinct(Labels(fs)) && i < |fs|
    ensures Lookup(Materialise(fs), fs[i].name) == fs[i].value
  {
    var n := |fs| - 1;
    if i < n {
      var pre := fs[..n];
      DistinctPrefix(fs, n);
      MaterialiseLookup(pre, i);
      assert pre[i] == fs[i];
      assert Labels(fs)[i] != Labels(fs)[n];
    }
  }

  /** A key that is no label of the buffer reads as "" in the materialised record. */
  lemma {:induction false} MaterialiseAbsent(fs: seq<Field>, k: string)
    requires k !in Labels(fs)
    ensures Lookup(Materialise(fs), k) == ""
  {
    if fs == [] {
      LookupAbsent([], k);
    } else {
      var n := |fs| - 1;
      assert Labels(fs[..n]) == Labels(fs)[..n];
      assert k != Labels(fs)[n];
      MaterialiseAbsent(fs[..n], k);
    }
  }

  /**
   * With distinct labels, the materialised record has exactly the buffer's
   * labels as keys, in buffer order, each mapped to its field's value, and
   * every other key reads as "".
   */
  lemma MaterialiseShape(fs: seq<Field>)
    requires Distinct(Labels(fs))
    ensures Keys(Materialise(fs)) == Labels(fs)
    ensures forall i :: 0 <= i < |fs| ==> Lookup(Materialise(fs), fs[i].name) == fs[i].value
    ensures forall k :: k !in Labels(fs) ==> Lookup(Materialise(fs), k) == ""
  {
    MaterialiseKeys(fs);
    forall i: nat | i < |fs| ensures Lookup(Materialise(fs), fs[i].name) == fs[i].value {
      MaterialiseLookup(fs, i);
    }
    forall k | k !in Labels(fs) ensures Lookup(Materialise(fs), k) == "" {
      MaterialiseAbsent(fs, k);
    }
  }

  /** The buffer paired up entry by entry: field `i` becomes entry `i`. */
  function Pairs(fs: seq<Field>): Record
  {
    seq(|fs|, i requires 0 <= i < |fs| => Entry(fs[i].name, fs[i].value))
  }

  /**
   * With distinct labels, materialising the buffer keeps one entry per field,
   * in buffer order, with the field's label and value.
   */
  lemma MaterialiseIsPairs(fs: seq<Field>)
    requires Distinct(Labels(fs))
    ensures Materialise(fs) == Pairs(fs)
  {
    var r := Materialise(fs);
    MaterialiseKeys(fs);
    assert Distinct(Keys(r));
    forall i: nat | i < |fs| ensures r[i] == Entry(fs[i].name, fs[i].value) {
      assert Keys(r)[i] == fs[i].name;
      LookupAt(r, i);
      MaterialiseLookup(fs, i);
    }
  }

  /** The buffer with every value empty: the schema defaults, and the buffer after `save`. */
  function Cleared(schema: seq<string>): (fs: seq<Field>)
    ensures Labels(fs) == schema
    ensures forall i :: 0 <= i < |fs| ==> fs[i].value == ""
  {
    seq(|schema|, i requires 0 <= i < |schema| => Field(schema[i], ""))
  }

  /** The buffer filled from an existing record: each label takes `item[label] || ""`. */
  function Populated(schema: seq<string>, item: Record): (fs: seq<Field>)
    ensures Labels(fs) == schema
    ensures forall i :: 0 <= i < |fs| ==> fs[i].value == Lookup(item, schema[i])
  {
    seq(|schema|, i requires 0 <= i < |schema| => Field(schema[i], Lookup(item, schema[i])))
  }

  /** `newFields[index] = {...newFields[index], value}`: one value replaced, labels kept. */
  function SetField(fs: seq<Field>, index: nat, v: string): (fs': seq<Field>)
    requires index < |fs|
    ensures |fs'| == |fs| && Labels(fs') == Labels(fs)
    ensures fs'[index].value == v
    ensures forall j :: 0 <= j < |fs| && j != index ==> fs'[j] == fs[j]
  {
    fs[index := Field(fs[index].name, v)]
  }

  /**
   * Opening a record the editor itself built for editing refills the buffer
   * with exactly the values it was built from.
   */
  lemma EditRoundTrip(fs: seq<Field>)
    requires Distinct(Labels(fs))
    ensures Populated(Labels(fs), Materialise(fs)) == fs
  {
    MaterialiseShape(fs);
    var p := Populated(Labels(fs), Materialise(fs));
    assert forall i :: 0 <= i < |fs| ==> p[i] == fs[i];
  }

  /**
   * Saving without changes what `toggleEditMode` loaded from a record the
   * editor built yields that same record.
   */
  lemma SaveUnchangedRoundTrip(fs: seq<Field>)
    requires Distinct(Labels(fs))
    ensures Materialise(Populated(Labels(fs), Materialise(fs))) == Materialise(fs)
  {
    EditRoundTrip(fs);
  }
}
