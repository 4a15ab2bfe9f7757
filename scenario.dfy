/**
 * The education editor worked through one add, one edit and one delete,
 * first on the pure list algebra and then on the editor objects.
 */
module Walkthrough {
  import opened Records
  import opened ListOps
  import opened Preview
  import opened Editor

  /** The labels of the education editor's `defaultFields`. */
  const EducationSchema: seq<string> := ["College", "Degree", "Graduation Date"]

  const StanfordMS: Record :=
    [Entry("College", "Stanford"), Entry("Degree", "MS"), Entry("Graduation Date", "2024-06")]

  const StanfordPhD: Record :=
    [Entry("College", "Stanford"), Entry("Degree", "PhD"), Entry("Graduation Date", "2024-06")]

  lemma EducationLabelsDistinct(fs: seq<Field>)
    requires Labels(fs) == EducationSchema
    ensures Distinct(Labels(fs))
  {
    assert "College" != "Degree" by { assert "College"[1] != "Degree"[1]; }
    assert "College" != "Graduation Date" by { assert |"College"| != |"Graduation Date"|; }
    assert "Degree" != "Graduation Date" by { assert |"Degree"| != |"Graduation Date"|; }
  }

  /** "+ Add", type the three values, "Save" on an empty list: the list is that one record. */
  lemma AddFirstEducation()
    ensures SaveList([], -1, Materialise(
              SetField(SetField(SetField(Cleared(EducationSchema), 0, "Stanford"), 1, "MS"), 2, "2024-06")))
            == [StanfordMS]
  {
    var buf := SetField(SetField(SetField(Cleared(EducationSchema), 0, "Stanford"), 1, "MS"), 2, "2024-06");
    EducationLabelsDistinct(buf);
    MaterialiseIsPairs(buf);
    assert Pairs(buf) == StanfordMS;
  }

  /** The compact view of that record: College precedes Degree, and the date is not a display label. */
  lemma StanfordPreview()
    ensures PreviewFields(StanfordMS) == ["Stanford", "MS"]
    ensures SpanText(Render(PreviewFields(StanfordMS))) == "Stanford · MS"
  {
    var e0, e1, e2 := StanfordMS[0], StanfordMS[1], StanfordMS[2];
    assert Shown(e0) by { assert DisplayFields[2] == "College"; }
    assert Shown(e1) by { assert DisplayFields[3] == "Degree"; }
    assert !Shown(e2) by {
      forall j | 0 <= j < |DisplayFields| ensures DisplayFields[j] != "Graduation Date" {
        assert |DisplayFields[j]| != |"Graduation Date"|;
      }
    }
    PreviewSingle(e0);
    PreviewSingle(e1);
    PreviewSingle(e2);
    PreviewConcat([e1], [e2]);
    PreviewConcat([e0], [e1, e2]);
    assert [e0] + [e1, e2] == StanfordMS;
    RenderJoin(["Stanford", "MS"]);
    assert ["Stanford", "MS"][1..] == ["MS"];
  }

  /** "Edit" item 0, change Degree, "Update Item": one record, Degree changed, the rest kept. */
  lemma EditEducation()
    ensures SaveList([StanfordMS], 0, Materialise(SetField(Populated(EducationSchema, StanfordMS), 1, "PhD")))
            == [StanfordPhD]
  {
    var loaded := Populated(EducationSchema, StanfordMS);
    EducationLabelsDistinct(Cleared(EducationSchema));
    assert Keys(StanfordMS) == EducationSchema;
    LookupAt(StanfordMS, 0);
    LookupAt(StanfordMS, 1);
    LookupAt(StanfordMS, 2);
    assert loaded == [Field("College", "Stanford"), Field("Degree", "MS"), Field("Graduation Date", "2024-06")];
    var buf := SetField(loaded, 1, "PhD");
    EducationLabelsDistinct(buf);
    MaterialiseIsPairs(buf);
    assert Pairs(buf) == StanfordPhD;
    ReplaceAtSpec([StanfordMS], 0, StanfordPhD);
  }

  /** "Delete" item 0: the list is empty and the CV section shows its placeholder. */
  lemma DeleteEducation()
    ensures RemoveAt([StanfordPhD], 0) == []
    ensures Section(RemoveAt([StanfordPhD], 0)) == Placeholder
  {
    RemoveAtSpec([StanfordPhD], 0);
  }

  /** The same walk on the editor and store objects, from an empty résumé. */
  method EducationSession()
  {
    var store := new Store();
    var education := new ListEditor(EducationSchema, true, Education, store);
    education.ToggleDropdown();
    assert education.CurrentView().list;
    education.ToggleEditMode(-1);
    assert education.CurrentView().form;
    education.HandleChange(0, "Stanford");
    education.HandleChange(1, "MS");
    education.HandleChange(2, "2024-06");
    assert store.education == [];
    education.Save();
    AddFirstEducation();
    assert store.education == [StanfordMS];
    assert education.CurrentView().list;

    education.ToggleEditMode(0);
    assert education.CurrentView().saveButton == ButtonLabelled("Update Item");
    education.HandleChange(1, "PhD");
    education.Save();
    EditEducation();
    assert store.education == [StanfordPhD];

    education.DeleteItem(0);
    DeleteEducation();
    assert store.education == [];
  }

  /** Opening a list editor, typing into it and closing it leaves the store as it was. */
  method CloseWithoutSave(store: Store, editor: ListEditor, index: nat, value: string)
    requires editor.Valid() && editor.isDynamic && editor.store == store
    requires !editor.isOpen && index < |editor.schema|
    modifies editor, store
    ensures unchanged(store)
    ensures !editor.isOpen && editor.fields == Cleared(editor.schema)
  {
    editor.ToggleDropdown();
    editor.ToggleEditMode(-1);
    editor.HandleChange(index, value);
    editor.ToggleDropdown();
  }
}
