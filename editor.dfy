/**
 * The CV builder's aggregate store and its reusable list editor (the
 * `Dropdown` component), as objects whose handlers update their fields.
 *
 * Each handler is one atomic transition: it reads the editor's state and the
 * current list of the slot it is bound to, and writes the new state. Where
 * the source calls `onSave(value)`, the editor writes `value` into its slot
 * of the store.
 */
module Editor {
  import opened Records
  import ListOps

  /** The five slots of the store, one per editor instance. */
  datatype Slot = PersonalInfo | Education | Skills | Projects | Experience

  /** The parent-owned data: the personal-info record and the four lists. */
  class Store {
    var personalInfo: Record
    var education: seq<Record>
    var skills: seq<Record>
    var projects: seq<Record>
    var experience: seq<Record>

    constructor ()
      ensures personalInfo == [] && education == [] && skills == [] && projects == [] && experience == []
    {
      personalInfo, education, skills, projects, experience := [], [], [], [], [];
    }

    /**
     * The `items` an editor bound to `slot` receives; the personal-info
     * editor is given none and sees the default `[]`.
     */
    function Items(slot: Slot): seq<Record>
      reads this
    {
      match slot
      case PersonalInfo => []
      case Education => education
      case Skills => skills
      case Projects => projects
      case Experience => experience
    }

    /** The setter of one list slot. */
    method SetList(slot: Slot, list: seq<Record>)
      requires slot != PersonalInfo
      modifies this
      ensures Items(slot) == list
      ensures personalInfo == old(personalInfo)
      ensures forall s :: s != slot ==> Items(s) == old(Items(s))
    {
      match slot
      case Education => education := list;
      case Skills => skills := list;
      case Projects => projects := list;
      case Experience => experience := list;
    }

    /** `setPersonalInfo`. */
    method SetPersonalInfo(r: Record)
      modifies this
      ensures personalInfo == r
      ensures forall s :: Items(s) == old(Items(s))
    {
      personalInfo := r;
    }

    /** `handleClearResume`: personal info becomes the empty record and all four lists become empty. */
    method Clear()
      modifies this
      ensures personalInfo == []
      ensures forall s :: Items(s) == []
    {
      personalInfo, education, skills, projects, experience := [], [], [], [], [];
    }
  }

  /** A button, when one is rendered, with its label. */
  datatype Button = NoButton | ButtonLabelled(caption: string)

  /** Which parts of the editor's panel are visible. */
  datatype View = View(form: bool, list: bool, saveButton: Button)

  /**
   * The panel visibility: the form shows iff the editor is open and either
   * scalar or composing; the list shows iff it is open, dynamic and not
   * composing; a dynamic form carries a button whose label says whether an
   * existing item is being updated.
   */
  function Panel(isOpen: bool, isDynamic: bool, editMode: bool, editIndex: int): (v: View)
    ensures !(v.form && v.list)
    ensures (v.form || v.list) <==> isOpen
    ensures v.list ==> isDynamic
    ensures v.saveButton.ButtonLabelled? <==> v.form && isDynamic
    ensures v.saveButton.ButtonLabelled? ==>
      v.saveButton.caption == (if editIndex > -1 then "Update Item" else "Save")
  {
    var form := isOpen && (!isDynamic || editMode);
    View(form,
         isOpen && isDynamic && !editMode,
         if form && isDynamic then ButtonLabelled(if editIndex > -1 then "Update Item" else "Save") else NoButton)
  }

  /** One `Dropdown` instance, bound to one slot of the store. */
  class ListEditor {
    /** The labels of `defaultFields`, in order. */
    const schema: seq<string>
    /** False for the live personal-info editor, true for the four list editors. */
    const isDynamic: bool
    const slot: Slot
    const store: Store

    var isOpen: bool
    /** The edit buffer. */
    var fields: seq<Field>
    var editMode: bool
    /** -1 for a new item, otherwise the position in the slot's list being edited. */
    var editIndex: int

    /**
     * The buffer always carries the schema labels in schema order; outside
     * edit mode no item is targeted; only list editors enter edit mode; and
     * an editor is dynamic exactly when it is bound to a list slot.
     */
    ghost predicate Valid()
      reads this
    {
      Labels(fields) == schema &&
      -1 <= editIndex &&
      (!editMode ==> editIndex == -1) &&
      (!isDynamic ==> !editMode) &&
      (isDynamic <==> slot != PersonalInfo)
    }

    /** The visible panel of this editor. */
    function CurrentView(): View
      reads this
    {
      Panel(isOpen, isDynamic, editMode, editIndex)
    }

    constructor (schema: seq<string>, isDynamic: bool, slot: Slot, store: Store)
      requires isDynamic <==> slot != PersonalInfo
      ensures Valid()
      ensures this.schema == schema && this.isDynamic == isDynamic && this.slot == slot && this.store == store
      ensures !isOpen && fields == Cleared(schema) && !editMode && editIndex == -1
    {
      this.schema, this.isDynamic, this.slot, this.store := schema, isDynamic, slot, store;
      isOpen, fields, editMode, editIndex := false, Cleared(schema), false, -1;
    }

    /**
     * `toggleDropdown`: flips `isOpen`, leaves edit mode with no target, and
     * resets the buffer to the defaults only when closing.
     */
    method ToggleDropdown()
      requires Valid()
      modifies this
      ensures Valid()
      ensures isOpen == !old(isOpen)
      ensures fields == if old(isOpen) then Cleared(schema) else old(fields)
      ensures !editMode && editIndex == -1
    {
      if isOpen {
        fields := Cleared(schema);
      }
      isOpen := !isOpen;
      editMode := false;
      editIndex := -1;
    }

    /**
     * `handleChange(index, value)`: sets one buffer value; the personal-info
     * editor also pushes the whole buffer as a record at once.
     */
    method HandleChange(index: nat, value: string)
      requires Valid() && index < |fields|
      modifies this, store
      ensures Valid()
      ensures fields == SetField(old(fields), index, value)
      ensures isOpen == old(isOpen) && editMode == old(editMode) && editIndex == old(editIndex)
      ensures isDynamic ==> unchanged(store)
      ensures !isDynamic ==> store.personalInfo == Materialise(fields)
      ensures forall s :: store.Items(s) == old(store.Items(s))
    {
      fields := SetField(fields, index, value);
      if !isDynamic {
        var liveData := BuildRecord(fields);
        store.SetPersonalInfo(liveData);
      }
    }

    /**
     * `deleteItem(index)`: pushes the slot's list without position `index`;
     * the editor's own state is untouched.
     */
    method DeleteItem(index: int)
      requires Valid() && isDynamic
      modifies store
      ensures unchanged(this)
      ensures store.Items(slot) == ListOps.RemoveAt(old(store.Items(slot)), index)
      ensures store.personalInfo == old(store.personalInfo)
      ensures forall s :: s != slot ==> store.Items(s) == old(store.Items(s))
    {
      var updatedList := ListOps.RemoveAt(store.Items(slot), index);
      store.SetList(slot, updatedList);
    }

    /**
     * `toggleEditMode(index)`: enters edit mode targeting `index`, filling the
     * buffer from the item there, or clearing it for a new item.
     */
    method ToggleEditMode(index: int)
      requires Valid() && isDynamic
      requires -1 <= index < |store.Items(slot)|
      modifies this
      ensures Valid()
      ensures editMode && editIndex == index && isOpen == old(isOpen)
      ensures fields == if index > -1 then Populated(schema, store.Items(slot)[index]) else Cleared(schema)
    {
      editIndex := index;
      editMode := true;
      if index > -1 {
        var itemToEdit := store.Items(slot)[index];
        fields := Populated(schema, itemToEdit);
      } else {
        fields := Cleared(schema);
      }
    }

    /**
     * `save`: pushes the slot's list with the materialised buffer replacing
     * the edited item or appended as a new one, then returns to the list view
     * with a cleared buffer.
     */
    method Save()
      requires Valid() && isDynamic
      modifies this, store
      ensures Valid()
      ensures store.Items(slot) == ListOps.SaveList(old(store.Items(slot)), old(editIndex), Materialise(old(fields)))
      ensures store.personalInfo == old(store.personalInfo)
      ensures forall s :: s != slot ==> store.Items(s) == old(store.Items(s))
      ensures fields == Cleared(schema) && !editMode && editIndex == -1 && isOpen == old(isOpen)
    {
      var entry := BuildRecord(fields);
      var updatedList := ListOps.SaveList(store.Items(slot), editIndex, entry);
      store.SetList(slot, updatedList);
      fields := Cleared(schema);
      editMode := false;
      editIndex := -1;
    }
  }
}
