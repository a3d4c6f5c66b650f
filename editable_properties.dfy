/** The property editor of an item
    (frontend/src/components/Items/EditableProperties.tsx): every property
    but the row's own keys can be edited, and a save sends the edited map. */
module EditableProperties {
  import opened Common

  const IdKey: string := "ID"
  const ContentIdKey: string := "content_id"

  /** `getEditableProps`: every entry except "ID" and "content_id", values unchanged. */
  function EditableProps(props: map<string, string>): (r: map<string, string>)
    ensures forall k :: k in r <==> k in props && k != IdKey && k != ContentIdKey
    ensures forall k :: k in r ==> r[k] == props[k]
  {
    map k | k in props && k != IdKey && k != ContentIdKey :: props[k]
  }

  /** Neither row key is ever editable. */
  predicate NoRowKeys(m: map<string, string>)
  {
    IdKey !in m && ContentIdKey !in m
  }

  /** Filtering twice is filtering once. */
  lemma EditablePropsIdempotent(props: map<string, string>)
    ensures NoRowKeys(EditableProps(props))
    ensures EditableProps(EditableProps(props)) == EditableProps(props)
  {
  }

  /** The editor's state: the property it shows, the edited map, edit mode,
      and the maps sent by the saves so far. */
  class PropertiesEditor {
    const property: map<string, string>
    var edited: map<string, string>
    var isEditing: bool
    var sent: seq<map<string, string>>

    /** No row key is in the edited map or in anything sent. */
    predicate Valid()
      reads this
    {
      NoRowKeys(edited) && forall i :: 0 <= i < |sent| ==> NoRowKeys(sent[i])
    }

    constructor (property: map<string, string>)
      ensures Valid()
      ensures this.property == property && edited == EditableProps(property)
      ensures !isEditing && sent == []
    {
      this.property := property;
      edited := EditableProps(property);
      isEditing := false;
      sent := [];
    }

    /** The edit button. */
    method StartEditing()
      modifies this`isEditing
      ensures isEditing
    {
      isEditing := true;
    }

    /** `handleChange`: one key takes the new value, every other entry stays.
        The inputs exist only for keys of the edited map, which keeps the row
        keys out. */
    method HandleChange(key: string, value: string)
      modifies this`edited
      ensures edited == old(edited)[key := value]
      ensures old(Valid()) && key in old(edited) ==> Valid()
    {
      edited := edited[key := value];
    }

    /** `handleCancel`: the edited map is rebuilt from the property and edit
        mode ends. */
    method HandleCancel()
      requires Valid()
      modifies this`edited, this`isEditing
      ensures Valid()
      ensures edited == EditableProps(property) && !isEditing
    {
      edited := EditableProps(property);
      isEditing := false;
    }

    /** `handleSave`: the edited map is sent as it is; a success ends edit
        mode, a failure stays in it. */
    method HandleSave(succeeded: bool)
      requires Valid()
      modifies this`sent, this`isEditing
      ensures Valid()
      ensures sent == old(sent) + [edited]
      ensures isEditing == (if succeeded then false else old(isEditing))
    {
      sent := sent + [edited];
      if succeeded {
        isEditing := false;
      }
    }
  }

  /** An edit of a shown key keeps the row keys out and neither adds nor
      removes a field: the inputs exist only for the shown keys. */
  lemma ChangeKeepsShownKeys(props: map<string, string>, key: string, value: string)
    requires key in EditableProps(props)
    ensures NoRowKeys(EditableProps(props)[key := value])
    ensures EditableProps(props)[key := value].Keys == EditableProps(props).Keys
  {
  }
}
