/** The AI settings wizard: endpoint URL, then API key, then a wait for
    the model list, then the choice of a model. The request for the model
    list is a parameter: what the client answered. */
module AiWizard {
  import opened Common
  import AiClient

  datatype AIWizardStep = Endpoint | ApiKey | FetchingModels | ModelSelect

  /** A model as the model-list endpoint describes it. */
  datatype ModelInfo = ModelInfo(id: string, created: int, ownedBy: string)

  /** Whose settings are edited, and whether they exist already. */
  datatype Target = Target(isEdit: bool, isDefaultAi: bool, profileName: Option<string>)

  /** A text field and its cursor, counted in characters. */
  datatype Field = Field(text: string, cursor: nat)
  {
    predicate Valid() { cursor <= |text| }
  }

  const DEFAULT_ENDPOINT: string := "https://api.openai.com/v1"
  const ENDPOINT_REQUIRED: string := "Endpoint URL is required"
  const NO_MODELS: AiClient.AIError := AiClient.ConfigError("No models available")

  /** A field holding `s` with the cursor at its end. */
  function FilledField(s: string): (f: Field)
    ensures f.Valid() && f.text == s && f.cursor == |s|
  {
    Field(s, |s|)
  }

  /** Typing into a field. */
  function TypeInto(f: Field, c: char): (r: Field)
    requires f.Valid()
    ensures r.Valid() && |r.text| == |f.text| + 1 && r.cursor == f.cursor + 1
  {
    var (t, k) := InsertAt(f.text, f.cursor, c);
    Field(t, k)
  }

  /** Backspace in a field; nothing at its start. */
  function BackspaceIn(f: Field): (r: Field)
    requires f.Valid()
    ensures r.Valid()
    ensures f.cursor == 0 ==> r == f
    ensures f.cursor > 0 ==> |r.text| == |f.text| - 1 && r.cursor == f.cursor - 1
  {
    var (t, k) := DeleteBefore(f.text, f.cursor);
    Field(t, k)
  }

  /** Backspace right after typing restores the field. */
  lemma BackspaceUndoesType(f: Field, c: char)
    requires f.Valid()
    ensures BackspaceIn(TypeInto(f, c)) == f
  {
    DeleteUndoesInsert(f.text, f.cursor, c);
  }

  /** Models ordered by id. */
  predicate IdLe(a: ModelInfo, b: ModelInfo) { StrLe(a.id, b.id) }

  lemma IdLeTotal()
    ensures Total(IdLe)
  {
    forall a: ModelInfo, b: ModelInfo
      ensures IdLe(a, b) || IdLe(b, a)
    {
      StrLeTotal(a.id, b.id);
    }
  }

  /** The position of the first model with this id. */
  function FindModel(models: seq<ModelInfo>, id: string): (r: Option<nat>)
    ensures r.Some? ==> r.value < |models| && models[r.value].id == id
                        && forall k :: 0 <= k < r.value ==> models[k].id != id
    ensures r.None? ==> forall k :: 0 <= k < |models| ==> models[k].id != id
  {
    if models == [] then None
    else if models[0].id == id then Some(0)
    else
      var rest := FindModel(models[1..], id);
      if rest.Some? then Some(rest.value + 1) else None
  }

  /** The model highlighted after a fetch: the previously chosen model
      when the list has it, otherwise the first. */
  function PreselectIndex(models: seq<ModelInfo>, selectedModel: string): (r: nat)
    ensures models != [] ==> r < |models|
    ensures selectedModel != [] && (exists k :: 0 <= k < |models| && models[k].id == selectedModel)
            ==> r < |models| && models[r].id == selectedModel
    ensures (selectedModel == [] || forall k :: 0 <= k < |models| ==> models[k].id != selectedModel) ==> r == 0
  {
    if selectedModel == [] then 0 else FindModel(models, selectedModel).GetOr(0)
  }

  class AIWizardState {
    var visible: bool
    var step: AIWizardStep
    var target: Target
    var endpoint: Field
    var apiKey: Field
    var models: seq<ModelInfo>
    var modelIndex: nat
    var selectedModel: string
    var error: Option<string>
    var loadingMessage: Option<string>
    var showDeleteConfirm: bool

    /** Both cursors lie inside their fields, and a listed model is
        highlighted whenever the list is non-empty. */
    predicate Valid()
      reads this`endpoint, this`apiKey, this`models, this`modelIndex
    {
      endpoint.Valid() && apiKey.Valid() && (models != [] ==> modelIndex < |models|)
    }

    /** Every field as `reset` leaves it (visibility aside). */
    predicate IsReset()
      reads this
    {
      step == Endpoint && target == Target(false, false, None)
      && endpoint == Field([], 0) && apiKey == Field([], 0)
      && models == [] && modelIndex == 0 && selectedModel == []
      && error.None? && loadingMessage.None? && !showDeleteConfirm
    }

    /** `AIWizardState::new`: hidden and reset. */
    constructor ()
      ensures !visible && IsReset() && Valid()
    {
      visible := false;
      step := Endpoint;
      target := Target(false, false, None);
      endpoint := Field([], 0);
      apiKey := Field([], 0);
      models := [];
      modelIndex := 0;
      selectedModel := [];
      error := None;
      loadingMessage := None;
      showDeleteConfirm := false;
    }

    /** `reset`. */
    method Reset()
      modifies this`step, this`target, this`endpoint, this`apiKey, this`models, this`modelIndex,
               this`selectedModel, this`error, this`loadingMessage, this`showDeleteConfirm
      ensures IsReset() && Valid()
    {
      step := Endpoint;
      target := Target(false, false, None);
      endpoint := Field([], 0);
      apiKey := Field([], 0);
      models := [];
      modelIndex := 0;
      selectedModel := [];
      error := None;
      loadingMessage := None;
      showDeleteConfirm := false;
    }

    /** `open_new`: fresh settings, the stock endpoint filled in with the
        cursor at its end. */
    method OpenNew(isDefaultAi: bool, profileName: Option<string>)
      modifies this
      ensures visible && step == Endpoint && target == Target(false, isDefaultAi, profileName)
      ensures endpoint == FilledField(DEFAULT_ENDPOINT) && apiKey == Field([], 0)
      ensures models == [] && modelIndex == 0 && selectedModel == [] && error.None?
      ensures loadingMessage.None? && !showDeleteConfirm && Valid()
    {
      Reset();
      visible := true;
      target := Target(false, isDefaultAi, profileName);
      endpoint := FilledField(DEFAULT_ENDPOINT);
      step := Endpoint;
    }

    /** `open_edit`: the stored endpoint, key and model, cursors at the
        ends. */
    method OpenEdit(isDefaultAi: bool, profileName: Option<string>, ep: string, key: string, model: string)
      modifies this
      ensures visible && step == Endpoint && target == Target(true, isDefaultAi, profileName)
      ensures endpoint == FilledField(ep) && apiKey == FilledField(key) && selectedModel == model
      ensures models == [] && modelIndex == 0 && error.None? && loadingMessage.None? && !showDeleteConfirm
      ensures Valid()
    {
      Reset();
      visible := true;
      target := Target(true, isDefaultAi, profileName);
      endpoint := FilledField(ep);
      apiKey := FilledField(key);
      selectedModel := model;
      step := Endpoint;
    }

    /** `close`: hidden, every field back to its default. */
    method Close()
      modifies this
      ensures !visible && IsReset() && Valid()
    {
      visible := false;
      Reset();
    }

    /** `next_step`: the endpoint step needs a non-blank URL, otherwise it
        reports that one is required and stays; the key step goes on to
        fetching; the later steps wait for outside events. */
    method NextStep()
      modifies this`step, this`error
      ensures old(step) == Endpoint && IsBlank(endpoint.text) ==> step == Endpoint && error == Some(ENDPOINT_REQUIRED)
      ensures old(step) == Endpoint && !IsBlank(endpoint.text) ==> step == ApiKey && error.None?
      ensures old(step) == ApiKey ==> step == FetchingModels && error.None?
      ensures old(step) in {FetchingModels, ModelSelect} ==> step == old(step) && error == old(error)
    {
      match step {
        case Endpoint =>
          if Trim(endpoint.text) == [] {
            error := Some(ENDPOINT_REQUIRED);
          } else {
            error := None;
            step := ApiKey;
          }
        case ApiKey =>
          error := None;
          step := FetchingModels;
        case FetchingModels =>
        case ModelSelect =>
      }
    }

    /** `prev_step`: from the endpoint the wizard closes; nothing happens
        while fetching; otherwise one step back with the error cleared. */
    method PrevStep()
      modifies this
      ensures old(step) == Endpoint ==> !visible && IsReset()
      ensures old(step) == FetchingModels ==> unchanged(this)
      ensures old(step) == ApiKey ==> step == Endpoint && error.None? && visible == old(visible)
      ensures old(step) == ModelSelect ==> step == ApiKey && error.None? && visible == old(visible)
      ensures old(step) in {ApiKey, ModelSelect} ==>
        endpoint == old(endpoint) && apiKey == old(apiKey) && models == old(models) && modelIndex == old(modelIndex)
      ensures old(Valid()) ==> Valid()
    {
      match step {
        case Endpoint =>
          Close();
        case ApiKey =>
          error := None;
          step := Endpoint;
        case FetchingModels =>
        case ModelSelect =>
          error := None;
          step := ApiKey;
      }
    }

    /** `fetch_models`, given what the client answered: a failure changes
        nothing; an empty list is stored and reported as an error; a list
        is stored sorted by id with the previous choice highlighted. */
    method FetchModels(listed: Result<seq<ModelInfo>, AiClient.AIError>) returns (r: Result<(), AiClient.AIError>)
      modifies this`models, this`modelIndex
      ensures listed.Err? ==> r == Err(listed.error) && models == old(models) && modelIndex == old(modelIndex)
      ensures listed == Ok([]) ==> r == Err(NO_MODELS) && models == [] && modelIndex == old(modelIndex)
      ensures listed.Ok? && listed.value != [] ==>
        r == Ok(()) && multiset(models) == multiset(listed.value) && SortedBy(models, IdLe)
        && modelIndex == PreselectIndex(models, selectedModel)
      ensures old(Valid()) ==> Valid()
    {
      if listed.Err? {
        return Err(listed.error);
      }
      models := listed.value;
      if models == [] {
        return Err(NO_MODELS);
      }
      IdLeTotal();
      models := SortBy(models, IdLe);
      modelIndex := PreselectIndex(models, selectedModel);
      return Ok(());
    }

    /** `fetch_complete`. */
    method FetchComplete()
      modifies this`loadingMessage, this`step
      ensures loadingMessage.None? && step == ModelSelect
    {
      loadingMessage := None;
      step := ModelSelect;
    }

    /** `fetch_failed`, given the displayed text of the error: back to the
        key step with the error shown. */
    method FetchFailed(displayed: string)
      modifies this`loadingMessage, this`error, this`step
      ensures loadingMessage.None? && error == Some(displayed) && step == ApiKey
    {
      loadingMessage := None;
      error := Some(displayed);
      step := ApiKey;
    }

    /** `current_model`. */
    function CurrentModel(): (r: Option<ModelInfo>)
      reads this`models, this`modelIndex
      ensures r.Some? <==> modelIndex < |models|
      ensures r.Some? ==> r.value == models[modelIndex]
    {
      if modelIndex < |models| then Some(models[modelIndex]) else None
    }

    /** `select_next_model`: one down, never past the last model. */
    method SelectNextModel()
      modifies this`modelIndex
      ensures modelIndex == if old(modelIndex) < SatSub(|models|, 1) then old(modelIndex) + 1 else old(modelIndex)
      ensures old(Valid()) ==> Valid()
    {
      if modelIndex < SatSub(|models|, 1) {
        modelIndex := modelIndex + 1;
      }
    }

    /** `select_prev_model`. */
    method SelectPrevModel()
      modifies this`modelIndex
      ensures modelIndex == SatSub(old(modelIndex), 1)
      ensures old(Valid()) ==> Valid()
    {
      if modelIndex > 0 {
        modelIndex := modelIndex - 1;
      }
    }

    /** `insert_char`: into the endpoint or the key, whichever step is
        shown; the error is cleared on every step. */
    method InsertChar(c: char)
      requires step == Endpoint ==> endpoint.Valid()
      requires step == ApiKey ==> apiKey.Valid()
      modifies this`endpoint, this`apiKey, this`error
      ensures step == Endpoint ==> endpoint == TypeInto(old(endpoint), c) && apiKey == old(apiKey)
      ensures step == ApiKey ==> apiKey == TypeInto(old(apiKey), c) && endpoint == old(endpoint)
      ensures step in {FetchingModels, ModelSelect} ==> endpoint == old(endpoint) && apiKey == old(apiKey)
      ensures error.None?
      ensures old(Valid()) ==> Valid()
    {
      match step {
        case Endpoint => endpoint := TypeInto(endpoint, c);
        case ApiKey => apiKey := TypeInto(apiKey, c);
        case _ =>
      }
      error := None;
    }

    /** `delete_char`: backspace in the shown field; the error is cleared
        on every step. */
    method DeleteChar()
      requires step == Endpoint ==> endpoint.Valid()
      requires step == ApiKey ==> apiKey.Valid()
      modifies this`endpoint, this`apiKey, this`error
      ensures step == Endpoint ==> endpoint == BackspaceIn(old(endpoint)) && apiKey == old(apiKey)
      ensures step == ApiKey ==> apiKey == BackspaceIn(old(apiKey)) && endpoint == old(endpoint)
      ensures step in {FetchingModels, ModelSelect} ==> endpoint == old(endpoint) && apiKey == old(apiKey)
      ensures error.None?
      ensures old(Valid()) ==> Valid()
    {
      match step {
        case Endpoint => endpoint := BackspaceIn(endpoint);
        case ApiKey => apiKey := BackspaceIn(apiKey);
        case _ =>
      }
      error := None;
    }

    /** `cursor_left` in the shown field. */
    method CursorLeft()
      modifies this`endpoint, this`apiKey
      ensures step == Endpoint ==> endpoint == old(endpoint).(cursor := SatSub(old(endpoint.cursor), 1)) && apiKey == old(apiKey)
      ensures step == ApiKey ==> apiKey == old(apiKey).(cursor := SatSub(old(apiKey.cursor), 1)) && endpoint == old(endpoint)
      ensures step in {FetchingModels, ModelSelect} ==> endpoint == old(endpoint) && apiKey == old(apiKey)
      ensures old(Valid()) ==> Valid()
    {
      match step {
        case Endpoint => endpoint := endpoint.(cursor := SatSub(endpoint.cursor, 1));
        case ApiKey => apiKey := apiKey.(cursor := SatSub(apiKey.cursor, 1));
        case _ =>
      }
    }

    /** `cursor_right` in the shown field, never past its end. */
    method CursorRight()
      modifies this`endpoint, this`apiKey
      ensures step == Endpoint ==> (apiKey == old(apiKey) && endpoint.text == old(endpoint.text)
        && endpoint.cursor == (if old(endpoint.cursor) < |endpoint.text| then old(endpoint.cursor) + 1 else old(endpoint.cursor)))
      ensures step == ApiKey ==> (endpoint == old(endpoint) && apiKey.text == old(apiKey.text)
        && apiKey.cursor == (if old(apiKey.cursor) < |apiKey.text| then old(apiKey.cursor) + 1 else old(apiKey.cursor)))
      ensures step in {FetchingModels, ModelSelect} ==> endpoint == old(endpoint) && apiKey == old(apiKey)
      ensures old(Valid()) ==> Valid()
    {
      match step {
        case Endpoint =>
          if endpoint.cursor < |endpoint.text| {
            endpoint := endpoint.(cursor := endpoint.cursor + 1);
          }
        case ApiKey =>
          if apiKey.cursor < |apiKey.text| {
            apiKey := apiKey.(cursor := apiKey.cursor + 1);
          }
        case _ =>
      }
    }

    /** `is_text_input`. */
    predicate IsTextInput()
      reads this`step
    {
      step == Endpoint || step == ApiKey
    }

    /** `show_delete`. */
    method ShowDelete()
      modifies this`showDeleteConfirm
      ensures showDeleteConfirm
    {
      showDeleteConfirm := true;
    }

    /** `cancel_delete`. */
    method CancelDelete()
      modifies this`showDeleteConfirm
      ensures !showDeleteConfirm
    {
      showDeleteConfirm := false;
    }

    /** `target_description`: the default settings, a named profile, or a
        generic label. */
    function TargetDescription(): (r: string)
      reads this`target
      ensures target.isDefaultAi ==> r == "Default AI Settings"
      ensures !target.isDefaultAi && target.profileName.Some? ==> r == "Profile: " + target.profileName.value
      ensures !target.isDefaultAi && target.profileName.None? ==> r == "AI Settings"
    {
      if target.isDefaultAi then "Default AI Settings"
      else if target.profileName.Some? then "Profile: " + target.profileName.value
      else "AI Settings"
    }
  }
}
