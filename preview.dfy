/**
 * The pure summaries the editor and the CV preview compute from records:
 * the compact one-line view of a list item and the empty-section check.
 */
module Preview {
  import opened Records

  /** The labels shown in the compact list-item view. */
  const DisplayFields: seq<string> :=
    ["Skill", "Level", "College", "Degree", "Company Name", "Position Title", "Project Name"]

  /** An entry appears in the compact view when its label is a display label and its value is non-empty. */
  predicate Shown(e: Entry)
  {
    e.key in DisplayFields && e.value != ""
  }

  /** `Object.entries(item).filter(([label, value]) => displayFields.includes(label) && value)` */
  function ShownEntries(item: Record): (r: Record)
    ensures |r| <= |item|
    ensures forall j :: 0 <= j < |r| ==> Shown(r[j])
  {
    if item == [] then []
    else (if Shown(item[0]) then [item[0]] else []) + ShownEntries(item[1..])
  }

  /** `getPreviewFields`: the values of the shown entries, in the item's key order. */
  function PreviewFields(item: Record): (r: seq<string>)
    ensures |r| <= |item|
    ensures forall j :: 0 <= j < |r| ==> r[j] != ""
  {
    var kept := ShownEntries(item);
    seq(|kept|, j requires 0 <= j < |kept| => kept[j].value)
  }

  /** The preview of one entry: its value if it is shown, nothing otherwise. */
  lemma PreviewSingle(e: Entry)
    ensures PreviewFields([e]) == if Shown(e) then [e.value] else []
  {
    assert [e][1..] == [];
  }

  /**
   * The preview of a record split in two is the preview of the first part
   * followed by that of the second: values keep the item's key order.
   */
  lemma {:induction false} PreviewConcat(a: Record, b: Record)
    ensures PreviewFields(a + b) == PreviewFields(a) + PreviewFields(b)
  {
    ShownConcat(a, b);
  }

  lemma {:induction false} ShownConcat(a: Record, b: Record)
    ensures ShownEntries(a + b) == ShownEntries(a) + ShownEntries(b)
  {
    if a != [] {
      assert (a + b)[0] == a[0];
      assert (a + b)[1..] == a[1..] + b;
      ShownConcat(a[1..], b);
    } else {
      assert a + b == b;
    }
  }

  /** A value is in the preview exactly when some shown entry of the item carries it. */
  lemma {:induction false} PreviewMember(item: Record, v: string)
    ensures v in PreviewFields(item) <==> exists j :: 0 <= j < |item| && Shown(item[j]) && item[j].value == v
  {
    if item != [] {
      PreviewMember(item[1..], v);
      ShownConcat([item[0]], item[1..]);
      assert [item[0]] + item[1..] == item;
      PreviewConcat([item[0]], item[1..]);
      PreviewSingle(item[0]);
      if exists j :: 0 <= j < |item| && Shown(item[j]) && item[j].value == v {
        var j :| 0 <= j < |item| && Shown(item[j]) && item[j].value == v;
        if j > 0 {
          assert item[1..][j - 1] == item[j];
        }
      }
      if exists j :: 0 <= j < |item| - 1 && Shown(item[1..][j]) && item[1..][j].value == v {
        var j :| 0 <= j < |item| - 1 && Shown(item[1..][j]) && item[1..][j].value == v;
        assert item[j + 1] == item[1..][j];
      }
    }
  }

  /** The separator glyph rendered between two preview values. */
  const Separator: string := " · "

  /** One rendered preview value, and whether a separator dot follows it. */
  datatype Span = Span(text: string, dot: bool)

  /** `values.map((value, i) => <span>{value}{i < values.length - 1 && dot}</span>)` */
  function Render(values: seq<string>): seq<Span>
  {
    seq(|values|, i requires 0 <= i < |values| => Span(values[i], i < |values| - 1))
  }

  /** The text a sequence of spans shows. */
  function SpanText(spans: seq<Span>): string
  {
    if spans == [] then ""
    else spans[0].text + (if spans[0].dot then Separator else "") + SpanText(spans[1..])
  }

  /** The values joined by the separator: between consecutive values, never after the last. */
  function Join(values: seq<string>): string
  {
    if values == [] then ""
    else if |values| == 1 then values[0]
    else values[0] + Separator + Join(values[1..])
  }

  /** The rendered preview reads as the values joined by the separator. */
  lemma {:induction false} RenderJoin(values: seq<string>)
    ensures SpanText(Render(values)) == Join(values)
  {
    if values != [] {
      RenderJoin(values[1..]);
      assert Render(values)[1..] == Render(values[1..]);
    }
  }

  /** What a CV section shows: a placeholder, or one entry per item. */
  datatype SectionView = Placeholder | Entries(count: nat)

  /** `CVSection` with `itemCount = items.length`: content iff `itemCount > 0`. */
  function Section(items: seq<Record>): (v: SectionView)
    ensures v == Placeholder <==> items == []
    ensures v.Entries? ==> v.count == |items|
  {
    if |items| > 0 then Entries(|items|) else Placeholder
  }
}
