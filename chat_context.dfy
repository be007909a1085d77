/** The chat context's model bookkeeping: the model list shown first from
    the browser's cache and then from the engine, the rule that picks the
    selected model (the saved one when it is listed, else the first), and
    clearing the conversation. The browser's storage is a map from key to
    string; the engine's list call is a parameter. */
module ChatContext {
  import opened Wrappers
  import Json
  import Schema
  import opened Models

  // ---------------------------------------------------------------------
  // The selection rule
  // ---------------------------------------------------------------------

  /** A present, non-empty string: what `if (savedModelId)` admits. */
  predicate Truthy(s: Option<string>)
  {
    s.Some? && s.value != ""
  }

  /** `list.find((model) => model.id === id)`: the first model with that id. */
  function FindById(list: seq<ModelType>, id: string): (r: Option<ModelType>)
    ensures r.None? <==> forall k :: 0 <= k < |list| ==> list[k].id != id
    ensures r.Some? ==>
      exists k :: 0 <= k < |list| && list[k] == r.value && r.value.id == id
                  && forall j :: 0 <= j < k ==> list[j].id != id
  {
    if |list| == 0 then None
    else if list[0].id == id then Some(list[0])
    else
      var r := FindById(list[1..], id);
      if r.Some? then
        var k :| 0 <= k < |list[1..]| && list[1..][k] == r.value && r.value.id == id
                 && forall j :: 0 <= j < k ==> list[1..][j].id != id;
        assert list[k + 1] == r.value;
        r
      else r
  }

  /** The model `loadModels` selects from `list` given the saved id: the
      first model with that id when the id is set and listed, otherwise the
      first model, or none for an empty list. */
  function SelectModel(list: seq<ModelType>, saved: Option<string>): (r: Option<ModelType>)
    ensures Truthy(saved) && (exists k :: 0 <= k < |list| && list[k].id == saved.value) ==>
      r.Some? && r.value.id == saved.value
      && exists k :: 0 <= k < |list| && list[k] == r.value
                     && forall j :: 0 <= j < k ==> list[j].id != saved.value
    ensures !(Truthy(saved) && exists k :: 0 <= k < |list| && list[k].id == saved.value) ==>
      r == if |list| > 0 then Some(list[0]) else None
  {
    if Truthy(saved) && FindById(list, saved.value).Some? then FindById(list, saved.value)
    else if |list| > 0 then Some(list[0])
    else None
  }

  /** Saving the selected model's id and selecting again from the same list
      selects the same model. */
  lemma ReselectStable(list: seq<ModelType>, saved: Option<string>)
    ensures SelectModel(list, saved).Some? ==>
      SelectModel(list, Some(SelectModel(list, saved).value.id)) == SelectModel(list, saved)
  {
    var r := SelectModel(list, saved);
    if r.Some? {
      var id := r.value.id;
      var k :| 0 <= k < |list| && list[k] == r.value
               && (forall j :: 0 <= j < k ==> list[j].id != id);
      var again := SelectModel(list, Some(id));
      if id != "" {
        var k2 :| 0 <= k2 < |list| && list[k2] == again.value
                  && forall j :: 0 <= j < k2 ==> list[j].id != id;
        assert k2 == k;
      }
    }
  }

  /** A selection, when there is one, is a model of the list. */
  lemma SelectionIsListed(list: seq<ModelType>, saved: Option<string>)
    ensures SelectModel(list, saved).Some? <==> |list| > 0
    ensures SelectModel(list, saved).Some? ==> SelectModel(list, saved).value in list
  {
  }

  // ---------------------------------------------------------------------
  // The cached model list
  // ---------------------------------------------------------------------

  /** Strings as a JSON array. */
  function StringsToJson(ss: seq<string>): (r: seq<Json.Value>)
    ensures |r| == |ss| && forall i :: 0 <= i < |ss| ==> r[i] == Json.Str(ss[i])
  {
    seq(|ss|, i requires 0 <= i < |ss| => Json.Str(ss[i]))
  }

  /** The strings of a JSON array of strings. */
  function StringsFromJson(items: seq<Json.Value>): (r: Option<seq<string>>)
    ensures r.Some? <==> forall i :: 0 <= i < |items| ==> items[i].Str?
    ensures r.Some? ==>
      |r.value| == |items| && forall i :: 0 <= i < |items| ==> items[i] == Json.Str(r.value[i])
  {
    if |items| == 0 then Some([])
    else if !items[0].Str? then None
    else
      match StringsFromJson(items[1..])
      case None =>
        var i :| 0 <= i < |items[1..]| && !items[1..][i].Str?;
        assert items[1..][i] == items[i + 1];
        None
      case Some(rest) =>
        assert forall i :: 1 <= i < |items| ==> items[i] == items[1..][i - 1];
        Some([items[0].s] + rest)
  }

  lemma StringsRoundTrip(ss: seq<string>)
    ensures StringsFromJson(StringsToJson(ss)) == Some(ss)
  {
    var r := StringsFromJson(StringsToJson(ss));
    assert r.Some?;
    assert r.value == ss;
  }

  /** `JSON.stringify` of a model: its members in declaration order,
      `isPinned` only when it is set. */
  function ModelToJson(m: ModelType): Json.Value
  {
    Json.Obj(
      [ Json.Member("id", Json.Str(m.id)),
        Json.Member("name", Json.Str(m.name)),
        Json.Member("version", Json.Str(m.version)),
        Json.Member("icon", Json.Str(m.icon)) ]
      + (if m.isPinned.Some? then [Json.Member("isPinned", Json.Bool(m.isPinned.value))] else [])
      + [ Json.Member("features", Json.Arr(StringsToJson(m.features))) ])
  }

  /** A string member of an object. */
  function StringField(v: Json.Value, key: string): (r: Option<string>)
    ensures r.Some? <==> Json.Field(v, key).Some? && Json.Field(v, key).value.Str?
    ensures r.Some? ==> Json.Field(v, key) == Some(Json.Str(r.value))
  {
    match Json.Field(v, key)
    case Some(Str(s)) => Some(s)
    case _ => None
  }

  /** A parsed cache entry read as a model: four string members, an
      optional boolean `isPinned` and an optional array of strings
      `features`; anything else is not a model. */
  function ModelFromJson(v: Json.Value): (r: Option<ModelType>)
    ensures r.Some? ==>
      Json.Field(v, "id") == Some(Json.Str(r.value.id))
      && Json.Field(v, "name") == Some(Json.Str(r.value.name))
      && Json.Field(v, "version") == Some(Json.Str(r.value.version))
      && Json.Field(v, "icon") == Some(Json.Str(r.value.icon))
  {
    var id := StringField(v, "id");
    var name := StringField(v, "name");
    var version := StringField(v, "version");
    var icon := StringField(v, "icon");
    var isPinned: Option<Option<bool>> :=
      match Json.Field(v, "isPinned")
      case None => Some(None)
      case Some(Bool(b)) => Some(Some(b))
      case Some(_) => None;
    var features: Option<seq<string>> :=
      match Json.Field(v, "features")
      case None => Some([])
      case Some(Arr(items)) => StringsFromJson(items)
      case Some(_) => None;
    if id.Some? && name.Some? && version.Some? && icon.Some? && isPinned.Some? && features.Some? then
      Some(ModelType(id.value, name.value, version.value, icon.value, isPinned.value, features.value))
    else None
  }

  /** A model read back from its JSON is the same model. */
  lemma ModelRoundTrip(m: ModelType)
    ensures ModelFromJson(ModelToJson(m)) == Some(m)
  {
    var v := ModelToJson(m);
    var ms := v.members;
    var n := |ms|;
    assert Json.Field(v, "id") == Some(Json.Str(m.id)) by { Json.GetLast(ms, 0); }
    assert Json.Field(v, "name") == Some(Json.Str(m.name)) by { Json.GetLast(ms, 1); }
    assert Json.Field(v, "version") == Some(Json.Str(m.version)) by { Json.GetLast(ms, 2); }
    assert Json.Field(v, "icon") == Some(Json.Str(m.icon)) by { Json.GetLast(ms, 3); }
    assert Json.Field(v, "features") == Some(Json.Arr(StringsToJson(m.features))) by {
      Json.GetLast(ms, n - 1);
    }
    if m.isPinned.Some? {
      assert Json.Field(v, "isPinned") == Some(Json.Bool(m.isPinned.value)) by { Json.GetLast(ms, 4); }
    } else {
      assert Json.Field(v, "isPinned").None? by { Json.GetFound(ms, "isPinned"); }
    }
    StringsRoundTrip(m.features);
  }

  /** `JSON.stringify(installedModels)`. */
  function EncodeModels(list: seq<ModelType>): string
  {
    Json.Encode(Json.Arr(seq(|list|, i requires 0 <= i < |list| => ModelToJson(list[i]))))
  }

  /** Each element of a parsed array read as a model; none when one is not
      a model. */
  function ModelsFromJson(items: seq<Json.Value>): (r: Option<seq<ModelType>>)
    ensures r.Some? <==> forall i :: 0 <= i < |items| ==> ModelFromJson(items[i]).Some?
    ensures r.Some? ==>
      |r.value| == |items| && forall i :: 0 <= i < |items| ==> ModelFromJson(items[i]) == Some(r.value[i])
  {
    if |items| == 0 then Some([])
    else
      match ModelFromJson(items[0])
      case None => None
      case Some(m) =>
        match ModelsFromJson(items[1..])
        case None =>
          var i :| 0 <= i < |items[1..]| && ModelFromJson(items[1..][i]).None?;
          assert items[1..][i] == items[i + 1];
          None
        case Some(rest) =>
          assert forall i :: 1 <= i < |items| ==> items[i] == items[1..][i - 1];
          Some([m] + rest)
  }

  /** `JSON.parse(cachedModels)` read as a model list: none when the text
      is not JSON (the parse throws) or not an array of models. */
  function CachedModels(cached: string): Option<seq<ModelType>>
  {
    match Json.Decode(cached)
    case Some(Arr(items)) => ModelsFromJson(items)
    case _ => None
  }

  /** The list written to the cache is the list the next load reads from
      it, and the written text is never empty. */
  lemma CacheRoundTrip(list: seq<ModelType>)
    ensures CachedModels(EncodeModels(list)) == Some(list)
    ensures EncodeModels(list) != ""
  {
    var items := seq(|list|, i requires 0 <= i < |list| => ModelToJson(list[i]));
    Json.DecodeEncode(Json.Arr(items));
    Json.EncodeStart(Json.Arr(items));
    forall i | 0 <= i < |list|
      ensures ModelFromJson(items[i]) == Some(list[i])
    {
      ModelRoundTrip(list[i]);
    }
    var r := ModelsFromJson(items);
    assert r.Some?;
    assert r.value == list;
  }

  // ---------------------------------------------------------------------
  // The provider's state
  // ---------------------------------------------------------------------

  const ModelsKey := "installedModels"
  const SelectedKey := "selectedModelId"
  const LoadFailedMessage := "Failed to load models. Please try again later."

  /** `localStorage.getItem(key)`: null for a missing key. */
  function GetItem(storage: map<string, string>, key: string): (r: Option<string>)
    ensures r.Some? <==> key in storage
    ensures r.Some? ==> r.value == storage[key]
  {
    if key in storage then Some(storage[key]) else None
  }

  class ChatProvider {
    var messages: seq<Schema.ChatMessage>
    var currentChatId: Option<string>
    var error: Option<string>
    var models: seq<ModelType>
    var selectedModel: Option<ModelType>
    var modelsLoading: bool
    var optimisticModelsLoaded: bool
    var storage: map<string, string>

    /** The provider's initial state over the browser's storage. */
    constructor (initialChatId: Option<string>, initialMessages: seq<Schema.ChatMessage>, storage: map<string, string>)
      ensures messages == initialMessages && currentChatId == initialChatId
      ensures error.None? && models == [] && selectedModel.None?
      ensures modelsLoading && !optimisticModelsLoaded
      ensures this.storage == storage
    {
      messages := initialMessages;
      currentChatId := initialChatId;
      error := None;
      models := [];
      selectedModel := None;
      modelsLoading := true;
      optimisticModelsLoaded := false;
      this.storage := storage;
    }

    /** The first step of `loadModels`: a cached list is shown, with the
        selection rule applied to it, before the engine answers. Returns
        false when the cached text does not parse as a model list, which
        is where the source's `JSON.parse` throws. */
    method ShowCachedModels() returns (readable: bool)
      modifies this
      ensures var cached := GetItem(old(storage), ModelsKey);
        && (!Truthy(cached) ==>
              readable && !optimisticModelsLoaded && models == old(models) && selectedModel == old(selectedModel))
        && (Truthy(cached) ==> (readable <==> CachedModels(cached.value).Some?))
        && (Truthy(cached) && readable ==>
              models == CachedModels(cached.value).value && optimisticModelsLoaded
              && selectedModel == SelectModel(models, GetItem(old(storage), SelectedKey)))
        && (!readable ==>
              models == old(models) && selectedModel == old(selectedModel)
              && optimisticModelsLoaded == old(optimisticModelsLoaded))
      ensures storage == old(storage) && messages == old(messages) && currentChatId == old(currentChatId)
      ensures error == old(error) && modelsLoading == old(modelsLoading)
    {
      var cachedModels := GetItem(storage, ModelsKey);
      if Truthy(cachedModels) {
        var parsedModels := CachedModels(cachedModels.value);
        if parsedModels.None? {
          return false;
        }
        models := parsedModels.value;
        optimisticModelsLoaded := true;
        var savedModelId := GetItem(storage, SelectedKey);
        selectedModel := SelectModel(parsedModels.value, savedModelId);
      } else {
        optimisticModelsLoaded := false;
      }
      return true;
    }

    /** The second step of `loadModels`: the engine's list replaces the
        shown one, is written to the cache, and then the selection rule is
        applied to it. */
    method ApplyInstalledModels(listed: Result<seq<string>, Thrown>)
      modifies this
      ensures models == GetInstalledModels(listed)
      ensures storage == old(storage)[ModelsKey := EncodeModels(models)]
      ensures CachedModels(storage[ModelsKey]) == Some(models)
      ensures selectedModel == SelectModel(models, GetItem(old(storage), SelectedKey))
      ensures messages == old(messages) && currentChatId == old(currentChatId) && error == old(error)
      ensures modelsLoading == old(modelsLoading) && optimisticModelsLoaded == old(optimisticModelsLoaded)
    {
      var installedModels := GetInstalledModels(listed);
      models := installedModels;
      storage := storage[ModelsKey := EncodeModels(installedModels)];
      CacheRoundTrip(installedModels);
      assert ModelsKey != SelectedKey by { assert ModelsKey[0] != SelectedKey[0]; }
      var savedModelId := GetItem(storage, SelectedKey);
      selectedModel := SelectModel(installedModels, savedModelId);
    }

    /** `loadModels`: the cached list first, then the engine's; an
        unreadable cache stops the load with the error message. Loading
        ends on every path. `shown` is the list rendered from the cache
        before the engine answers, if any. */
    method LoadModels(listed: Result<seq<string>, Thrown>) returns (shown: Option<seq<ModelType>>)
      modifies this
      ensures !modelsLoading
      ensures var cached := GetItem(old(storage), ModelsKey);
        && (Truthy(cached) ==> shown == CachedModels(cached.value))
        && (!Truthy(cached) ==> shown.None?)
        && (Truthy(cached) && CachedModels(cached.value).None? ==>
              error == Some(LoadFailedMessage) && storage == old(storage)
              && models == old(models) && selectedModel == old(selectedModel)
              && optimisticModelsLoaded == old(optimisticModelsLoaded))
        && (!(Truthy(cached) && CachedModels(cached.value).None?) ==>
              error == old(error)
              && models == GetInstalledModels(listed)
              && storage == old(storage)[ModelsKey := EncodeModels(models)]
              && Truthy(GetItem(storage, ModelsKey))
              && CachedModels(storage[ModelsKey]) == Some(models)
              && selectedModel == SelectModel(models, GetItem(old(storage), SelectedKey))
              && optimisticModelsLoaded == Truthy(cached))
      ensures messages == old(messages) && currentChatId == old(currentChatId)
    {
      modelsLoading := true;
      var readable := ShowCachedModels();
      shown := if readable && optimisticModelsLoaded then Some(models) else None;
      if !readable {
        error := Some(LoadFailedMessage);
      } else {
        ApplyInstalledModels(listed);
        CacheRoundTrip(models);
      }
      modelsLoading := false;
    }

    /** `clearMessages`: an empty conversation with no current chat. */
    method ClearMessages()
      modifies this
      ensures messages == [] && currentChatId.None?
      ensures error == old(error) && models == old(models) && selectedModel == old(selectedModel)
      ensures modelsLoading == old(modelsLoading) && optimisticModelsLoaded == old(optimisticModelsLoaded)
      ensures storage == old(storage)
    {
      messages := [];
      currentChatId := None;
    }
  }

  /** Two loads in a row: the second shows, from the cache, the list the
      first fetched before its own fetch replaces it. */
  method LoadTwice(p: ChatProvider, first: Result<seq<string>, Thrown>, second: Result<seq<string>, Thrown>)
    returns (shown: Option<seq<ModelType>>)
    requires !Truthy(GetItem(p.storage, ModelsKey)) || CachedModels(p.storage[ModelsKey]).Some?
    modifies p
    ensures shown == Some(GetInstalledModels(first))
    ensures p.models == GetInstalledModels(second) && !p.modelsLoading && p.error == old(p.error)
    ensures ModelsKey in p.storage && CachedModels(p.storage[ModelsKey]) == Some(p.models)
  {
    var _ := p.LoadModels(first);
    shown := p.LoadModels(second);
  }
}
