/** The environment-variables screen of a profile: a list of variables, a
    key/value editor with one cursor for the field being edited, and the
    check an edit must pass before it is saved. */
module Environment {
  import opened Common

  datatype EnvItem = EnvItem(key: string, value: string, isSecret: bool)

  datatype EditField = Key | Value

  const EMPTY_NAME_ERROR: string := "Variable name cannot be empty"
  const INVALID_NAME_ERROR: string := "Variable name can only contain letters, numbers, and underscores"
  const DUPLICATE_NAME_ERROR: string := "Variable with this name already exists"

  /** What `format_value` shows for a hidden value. */
  const MASK: string := "********"

  /** A character allowed in a variable name. */
  predicate NameChar(c: char) { IsAlnum(c) || c == '_' }

  /** `validate` over the editor's contents: the key is trimmed; it must be
      non-empty, made of letters, digits and underscores, and, for a new
      variable, not already in use. */
  function ValidateEdit(variables: seq<EnvItem>, isNew: bool, editKey: string, editValue: string): (r: Result<(string, string), string>)
    ensures r.Err? ==> r.error in {EMPTY_NAME_ERROR, INVALID_NAME_ERROR, DUPLICATE_NAME_ERROR}
    ensures r.Ok? ==> r.value.1 == editValue
  {
    var key := Trim(editKey);
    if key == [] then Err(EMPTY_NAME_ERROR)
    else if !(forall i :: 0 <= i < |key| ==> NameChar(key[i])) then Err(INVALID_NAME_ERROR)
    else if isNew && (exists v :: v in variables && v.key == key) then Err(DUPLICATE_NAME_ERROR)
    else Ok((key, editValue))
  }

  /** An edit is accepted exactly when its trimmed key is a non-empty name
      of allowed characters that, for a new variable, is not taken; the
      accepted key is the trimmed one, which has no surrounding spaces. */
  lemma ValidateAccepts(variables: seq<EnvItem>, isNew: bool, editKey: string, editValue: string)
    ensures var key := Trim(editKey);
      ValidateEdit(variables, isNew, editKey, editValue).Ok?
      <==> (key != [] && (forall i :: 0 <= i < |key| ==> NameChar(key[i]))
            && !(isNew && exists v :: v in variables && v.key == key))
    ensures ValidateEdit(variables, isNew, editKey, editValue).Ok? ==>
      var key := ValidateEdit(variables, isNew, editKey, editValue).value.0;
      key == Trim(editKey) && Trim(key) == key
  {
    TrimIdempotent(editKey);
  }

  /** The errors are reported in order: an empty name first, then a bad
      character, then a duplicate. */
  lemma ValidateErrorOrder(variables: seq<EnvItem>, isNew: bool, editKey: string, editValue: string)
    ensures Trim(editKey) == [] ==> ValidateEdit(variables, isNew, editKey, editValue) == Err(EMPTY_NAME_ERROR)
    ensures ValidateEdit(variables, isNew, editKey, editValue) == Err(DUPLICATE_NAME_ERROR) ==>
      isNew && exists v :: v in variables && v.key == Trim(editKey)
    ensures !isNew ==> ValidateEdit(variables, isNew, editKey, editValue) != Err(DUPLICATE_NAME_ERROR)
  {
  }

  /** `format_value`: the value, or a fixed mask while values are hidden. */
  function FormatValue(item: EnvItem, showValues: bool): (r: string)
    ensures showValues ==> r == item.value
    ensures !showValues ==> r == MASK
  {
    if showValues then item.value else MASK
  }

  /** A hidden value tells nothing about the value: two variables look the
      same. */
  lemma MaskHidesValue(a: EnvItem, b: EnvItem)
    ensures FormatValue(a, false) == FormatValue(b, false)
  {
  }

  /** `toggle_secret` on a list: flips the secret mark of one variable. */
  function ToggleSecretAt(variables: seq<EnvItem>, i: nat): (r: seq<EnvItem>)
    ensures |r| == |variables|
    ensures forall j :: 0 <= j < |r| ==> r[j].key == variables[j].key && r[j].value == variables[j].value
    ensures forall j :: 0 <= j < |r| && j != i ==> r[j] == variables[j]
    ensures i < |variables| ==> r[i].isSecret == !variables[i].isSecret
  {
    if i < |variables| then variables[i := variables[i].(isSecret := !variables[i].isSecret)] else variables
  }

  /** Marking twice restores the list. */
  lemma ToggleSecretTwice(variables: seq<EnvItem>, i: nat)
    ensures ToggleSecretAt(ToggleSecretAt(variables, i), i) == variables
  {
  }

  class EnvironmentState {
    var variables: seq<EnvItem>
    var selected: nat
    var editMode: bool
    var isNew: bool
    var editField: EditField
    var editKey: string
    var editValue: string
    var cursor: nat
    var error: Option<string>
    var showValues: bool
    var profileName: Option<string>

    /** The buffer of the field being edited. */
    function CurrentText(): string
      reads this`editField, this`editKey, this`editValue
    {
      match editField
      case Key => editKey
      case Value => editValue
    }

    /** The cursor lies inside the field being edited. */
    predicate Valid()
      reads this`editField, this`editKey, this`editValue, this`cursor
    {
      cursor <= |CurrentText()|
    }

    /** `EnvironmentState::new` with `with_variables` and, when given,
        `with_profile`. */
    constructor (vars: seq<EnvItem>, profile: Option<string>)
      ensures Valid()
      ensures variables == vars && profileName == profile && selected == 0
      ensures !editMode && !isNew && editField == Key && editKey == [] && editValue == [] && cursor == 0
      ensures error.None? && !showValues
    {
      variables := vars;
      selected := 0;
      editMode := false;
      isNew := false;
      editField := Key;
      editKey := [];
      editValue := [];
      cursor := 0;
      error := None;
      showValues := false;
      profileName := profile;
    }

    /** `selected_variable`. */
    function SelectedVariable(): (r: Option<EnvItem>)
      reads this`variables, this`selected
      ensures r.Some? <==> selected < |variables|
      ensures r.Some? ==> r.value == variables[selected]
    {
      if selected < |variables| then Some(variables[selected]) else None
    }

    /** `select_prev`: one row up, not while editing. */
    method SelectPrev()
      modifies this`selected
      ensures selected == if !editMode then SatSub(old(selected), 1) else old(selected)
    {
      if !editMode && selected > 0 {
        selected := selected - 1;
      }
    }

    /** `select_next`: one row down, never past the last variable, not
        while editing. */
    method SelectNext()
      modifies this`selected
      ensures selected == if !editMode && old(selected) < SatSub(|variables|, 1) then old(selected) + 1 else old(selected)
      ensures old(selected) < |variables| ==> selected < |variables|
      ensures editMode ==> selected == old(selected)
    {
      if !editMode && selected < SatSub(|variables|, 1) {
        selected := selected + 1;
      }
    }

    /** `toggle_visibility`. */
    method ToggleVisibility()
      modifies this`showValues
      ensures showValues == !old(showValues)
    {
      showValues := !showValues;
    }

    /** `start_new`: an empty editor on the key field. */
    method StartNew()
      modifies this`editMode, this`isNew, this`editField, this`editKey, this`editValue, this`cursor, this`error
      ensures editMode && isNew && editField == Key && editKey == [] && editValue == [] && cursor == 0
      ensures error.None? && Valid()
    {
      editMode := true;
      isNew := true;
      editField := Key;
      editKey := [];
      editValue := [];
      cursor := 0;
      error := None;
    }

    /** `start_edit`: the highlighted variable in the editor, on the value
        field with the cursor at its end; without one, nothing happens. */
    method StartEdit()
      modifies this`editMode, this`isNew, this`editField, this`editKey, this`editValue, this`cursor, this`error
      ensures old(SelectedVariable()).None? ==>
        editMode == old(editMode) && isNew == old(isNew) && editField == old(editField) && editKey == old(editKey)
        && editValue == old(editValue) && cursor == old(cursor) && error == old(error)
      ensures old(SelectedVariable()).Some? ==>
        var v := old(SelectedVariable()).value;
        editMode && !isNew && editField == Value && editKey == v.key && editValue == v.value
        && cursor == |v.value| && error.None?
      ensures old(Valid()) ==> Valid()
    {
      if selected < |variables| {
        var v := variables[selected];
        editMode := true;
        isNew := false;
        editField := Value;
        editKey := v.key;
        editValue := v.value;
        cursor := |v.value|;
        error := None;
      }
    }

    /** `cancel_edit`: leaves the editor with both buffers and the cursor
        cleared; the field and the error stay. */
    method CancelEdit()
      modifies this`editMode, this`isNew, this`editKey, this`editValue, this`cursor
      ensures !editMode && !isNew && editKey == [] && editValue == [] && cursor == 0 && Valid()
    {
      editMode := false;
      isNew := false;
      editKey := [];
      editValue := [];
      cursor := 0;
    }

    /** `switch_field`: only while creating a variable; the cursor goes to
        the end of the other field. */
    method SwitchField()
      modifies this`editField, this`cursor
      ensures editMode && isNew ==> editField != old(editField) && cursor == |CurrentText()|
      ensures !(editMode && isNew) ==> editField == old(editField) && cursor == old(cursor)
      ensures old(Valid()) ==> Valid()
    {
      if editMode && isNew {
        match editField {
          case Key =>
            editField := Value;
            cursor := |editValue|;
          case Value =>
            editField := Key;
            cursor := |editKey|;
        }
      }
    }

    /** `insert_char`: while editing, the character goes into the edited
        field at the cursor and the cursor moves past it; the other field
        is untouched. */
    method InsertChar(c: char)
      requires editMode ==> cursor <= |CurrentText()|
      modifies this`editKey, this`editValue, this`cursor
      ensures editMode ==> (CurrentText(), cursor) == InsertAt(old(CurrentText()), old(cursor), c)
      ensures editMode ==> |CurrentText()| == |old(CurrentText())| + 1
      ensures editField == Key ==> editValue == old(editValue)
      ensures editField == Value ==> editKey == old(editKey)
      ensures !editMode ==> editKey == old(editKey) && editValue == old(editValue) && cursor == old(cursor)
      ensures old(Valid()) ==> Valid()
    {
      if editMode {
        match editField {
          case Key => editKey := InsertAt(editKey, cursor, c).0;
          case Value => editValue := InsertAt(editValue, cursor, c).0;
        }
        cursor := cursor + 1;
      }
    }

    /** `delete_char`: backspace in the edited field while editing; at the
        start of the field nothing happens. */
    method DeleteChar()
      requires editMode ==> cursor <= |CurrentText()|
      modifies this`editKey, this`editValue, this`cursor
      ensures editMode ==> (CurrentText(), cursor) == DeleteBefore(old(CurrentText()), old(cursor))
      ensures old(cursor) == 0 ==> editKey == old(editKey) && editValue == old(editValue) && cursor == 0
      ensures editField == Key ==> editValue == old(editValue)
      ensures editField == Value ==> editKey == old(editKey)
      ensures !editMode ==> editKey == old(editKey) && editValue == old(editValue) && cursor == old(cursor)
      ensures old(Valid()) ==> Valid()
    {
      if editMode && cursor > 0 {
        match editField {
          case Key => editKey := DeleteBefore(editKey, cursor).0;
          case Value => editValue := DeleteBefore(editValue, cursor).0;
        }
        cursor := cursor - 1;
      }
    }

    /** `cursor_left`. */
    method CursorLeft()
      modifies this`cursor
      ensures cursor == SatSub(old(cursor), 1)
      ensures old(Valid()) ==> Valid()
    {
      if cursor > 0 {
        cursor := cursor - 1;
      }
    }

    /** `cursor_right`: never past the end of the edited field. */
    method CursorRight()
      modifies this`cursor
      ensures cursor == if old(cursor) < |CurrentText()| then old(cursor) + 1 else old(cursor)
      ensures old(Valid()) ==> Valid()
    {
      var max := match editField case Key => |editKey| case Value => |editValue|;
      if cursor < max {
        cursor := cursor + 1;
      }
    }

    /** `validate`. */
    function Validate(): (r: Result<(string, string), string>)
      reads this`variables, this`isNew, this`editKey, this`editValue
      ensures r.Ok? ==> r.value == (Trim(editKey), editValue)
      ensures r.Ok? && isNew ==> forall v :: v in variables ==> v.key != r.value.0
    {
      ValidateEdit(variables, isNew, editKey, editValue)
    }

    /** `toggle_secret`: flips the mark of the highlighted variable. */
    method ToggleSecret()
      modifies this`variables
      ensures variables == ToggleSecretAt(old(variables), selected)
    {
      if selected < |variables| {
        variables := variables[selected := variables[selected].(isSecret := !variables[selected].isSecret)];
      }
    }
  }
}
