/** The multimodal-recognition settings dialog of tools/model_config_dialog.py:
    the provider presets, the filling of the form from config.json, the
    replacement of the `model_config` entry when the form is saved, and the
    OK button that closes the dialog only after a successful save.

    The widgets are reduced to what the dialog reads and writes: the two
    "enabled" radio buttons, the provider combo box, the URL field with its
    read-only flag, the key field and the model field. */
module ModelConfig {
  import opened Wrappers
  import opened JsonData
  import opened Notices
  import Recognition

  const SiliconFlow := "硅基流动"
  const Custom := "自定义"
  const SiliconFlowUrl := "https://api.siliconflow.cn/v1"
  const SiliconFlowModel := "Qwen/Qwen2.5-VL-72B-Instruct"

  /** The `system_prompt` every save stores, whatever the form holds. */
  const SystemPrompt := "你是一个专业的数学公式识别系统，请严格按照以下要求操作：\n1. 专注识别图像中的数学公式、符号、希腊字母、运算符等\n2. 输出标准LaTeX代码，确保可被编译器解析\n3. 所有公式必须转换为单行格式（禁止使用\\begin{align}等多行环境）\n4. 多行公式用空格分隔或合并为单行\n5. 不添加解释性文字，直接输出纯净的LaTeX代码"

  /** The two items of the provider combo box. */
  predicate IsProvider(p: string) {
    p == SiliconFlow || p == Custom
  }

  /** What the dialog shows: the "是"/"否" radio buttons, the provider combo
      box, the URL field and whether it is read-only, the key and the model. */
  datatype Form = Form(yes: bool, no: bool, provider: string, url: string, urlReadOnly: bool,
                       key: string, model: string)

  /** The widgets as `__init__` builds them, before `load_config`: no radio
      checked, the combo box on its first item, every field empty and
      editable. */
  const InitialForm := Form(false, false, SiliconFlow, "", false, "", "")

  // ---------------------------------------------------------------------------
  // Widget behaviour

  /** `enableRadioYes.setChecked(b)`. The two radio buttons are auto-exclusive
      siblings: checking one unchecks the other, and the checked one cannot be
      unchecked, so `setChecked(False)` never changes anything. */
  function YesChecked(f: Form, b: bool): (r: Form)
    ensures b ==> r.yes && !r.no
    ensures !b ==> r == f
    ensures r.(yes := f.yes, no := f.no) == f
  {
    if b then f.(yes := true, no := false) else f
  }

  /** `enableRadioNo.setChecked(b)`, with the same exclusivity. */
  function NoChecked(f: Form, b: bool): (r: Form)
    ensures b ==> r.no && !r.yes
    ensures !b ==> r == f
    ensures r.(yes := f.yes, no := f.no) == f
  {
    if b then f.(yes := false, no := true) else f
  }

  /** `on_provider_changed`: the preset provider fills in its URL, locks it
      and fills in its model; any other provider clears both and unlocks the
      URL. The provider shown, the radios and the key are left alone. */
  function ProviderChanged(f: Form, p: string): (r: Form)
    ensures p == SiliconFlow ==> r.url == SiliconFlowUrl && r.urlReadOnly && r.model == SiliconFlowModel
    ensures p != SiliconFlow ==> r.url == "" && !r.urlReadOnly && r.model == ""
    ensures r.(url := f.url, urlReadOnly := f.urlReadOnly, model := f.model) == f
  {
    if p == SiliconFlow then f.(url := SiliconFlowUrl, urlReadOnly := true, model := SiliconFlowModel)
    else f.(url := "", urlReadOnly := false, model := "")
  }

  /** `providerComboBox.setCurrentText(v)` with the combo box's
      `currentTextChanged` connected to `on_provider_changed`: text equal to
      the current one, or not among the items (a non-string value included),
      changes nothing; another item becomes current and triggers the
      provider rule. */
  function CurrentTextSet(f: Form, v: Json): (r: Form)
    requires IsProvider(f.provider)
    ensures IsProvider(r.provider)
    ensures r.provider == (if v.JStr? && IsProvider(v.s) then v.s else f.provider)
    ensures r.yes == f.yes && r.no == f.no && r.key == f.key
    ensures r.provider != f.provider ==> r == ProviderChanged(f.(provider := r.provider), r.provider)
    ensures r.provider == f.provider ==> r == f
  {
    if v == JStr(f.provider) then f
    else if v.JStr? && IsProvider(v.s) then ProviderChanged(f.(provider := v.s), v.s)
    else f
  }

  // ---------------------------------------------------------------------------
  // Loading (`load_config`)

  /** The form after `load_config`, and the message of the exception that
      stopped it, if one did. `typeError` is the message PyQt gives when
      `setText` receives a value that is not a string. */
  datatype Loaded = Loaded(form: Form, error: Option<string>)

  /** The content of the "加载配置失败" pop-up. */
  function LoadFailedNotice(message: string): Notice {
    Notice(Error, "错误", "加载配置失败: " + message)
  }

  /** The `model_config` entry of a parsed dict, `{}` when absent. */
  function ModelConfigOf(doc: map<string, Json>): Json {
    Get(doc, "model_config", JObj(map[]))
  }

  /** `load_config` step by step from form `f`: each `.get` on a non-dict and
      each `setText` of a non-string raises, and the steps before it stay
      done; after the four fields are filled, the provider rule runs once
      more on the provider now shown. */
  function LoadForm(f: Form, file: ConfigFile, typeError: string): (r: Loaded)
    requires IsProvider(f.provider)
    ensures IsProvider(r.form.provider)
    ensures file.Unreadable? ==> r == Loaded(f, Some(file.message))
    ensures file.Parsed? && !file.doc.JObj? ==> r == Loaded(f, Some(NoGetMessage(file.doc)))
    ensures file.Parsed? && file.doc.JObj? && !ModelConfigOf(file.doc.fields).JObj? ==>
              r == Loaded(f, Some(NoGetMessage(ModelConfigOf(file.doc.fields))))
  {
    match file
    case Unreadable(message) => Loaded(f, Some(message))
    case Parsed(doc) =>
      if !doc.JObj? then Loaded(f, Some(NoGetMessage(doc)))
      else
        var mc := ModelConfigOf(doc.fields);
        if !mc.JObj? then Loaded(f, Some(NoGetMessage(mc)))
        else
          var enabled := Truthy(Get(mc.fields, "enabled", JBool(false)));
          var f1 := NoChecked(YesChecked(f, enabled), !enabled);
          var f2 := CurrentTextSet(f1, Get(mc.fields, "provider", JStr(SiliconFlow)));
          var url := Get(mc.fields, "api_url", JStr(SiliconFlowUrl));
          if !url.JStr? then Loaded(f2, Some(typeError))
          else
            var f3 := f2.(url := url.s);
            var key := Get(mc.fields, "api_key", JStr(""));
            if !key.JStr? then Loaded(f3, Some(typeError))
            else
              var f4 := f3.(key := key.s);
              var model := Get(mc.fields, "model_name", JStr(SiliconFlowModel));
              if !model.JStr? then Loaded(f4, Some(typeError))
              else
                var f5 := f4.(model := model.s);
                Loaded(ProviderChanged(f5, f5.provider), None)
  }

  /** Whether every value `load_config` hands to `setText` is a string. */
  predicate FieldsAreText(mc: map<string, Json>) {
    && Get(mc, "api_url", JStr(SiliconFlowUrl)).JStr?
    && Get(mc, "api_key", JStr("")).JStr?
    && Get(mc, "model_name", JStr(SiliconFlowModel)).JStr?
  }

  /** Loading succeeds exactly when the file parses to a dict whose
      `model_config` is a dict whose URL, key and model are strings (or
      absent); any other file leaves an error message. */
  lemma LoadSucceedsIff(f: Form, file: ConfigFile, typeError: string)
    requires IsProvider(f.provider)
    ensures LoadForm(f, file, typeError).error == None <==>
      && file.Parsed? && file.doc.JObj?
      && ModelConfigOf(file.doc.fields).JObj?
      && FieldsAreText(ModelConfigOf(file.doc.fields).fields)
  {
  }

  /** Once `load_config` gets past the radio buttons, exactly one of them is
      checked: "是" when `enabled` is truthy, "否" otherwise, whatever was
      checked before. */
  lemma LoadedRadiosComplementary(f: Form, file: ConfigFile, typeError: string)
    requires IsProvider(f.provider)
    requires file.Parsed? && file.doc.JObj? && ModelConfigOf(file.doc.fields).JObj?
    ensures var r := LoadForm(f, file, typeError).form;
      var enabled := Truthy(Get(ModelConfigOf(file.doc.fields).fields, "enabled", JBool(false)));
      r.yes == enabled && r.no == !enabled
  {
  }

  /** After a successful load the URL and the model are decided by the
      provider alone: the preset's values for "硅基流动", empty for
      "自定义", so a stored URL or model never survives loading. The key is
      the stored one, and the provider is the stored one when it is an item
      of the combo box, the one shown before otherwise. */
  lemma LoadedFieldsFollowProvider(f: Form, file: ConfigFile, typeError: string)
    requires IsProvider(f.provider)
    requires LoadForm(f, file, typeError).error == None
    ensures file.Parsed? && file.doc.JObj? && ModelConfigOf(file.doc.fields).JObj?
    ensures var mc := ModelConfigOf(file.doc.fields).fields;
      var stored := Get(mc, "provider", JStr(SiliconFlow));
      var r := LoadForm(f, file, typeError).form;
      && r.provider == (if stored.JStr? && IsProvider(stored.s) then stored.s else f.provider)
      && r.key == Get(mc, "api_key", JStr("")).s
      && (r.provider == SiliconFlow ==> r.url == SiliconFlowUrl && r.urlReadOnly && r.model == SiliconFlowModel)
      && (r.provider == Custom ==> r.url == "" && !r.urlReadOnly && r.model == "")
  {
    LoadSucceedsIff(f, file, typeError);
  }

  /** A config without `model_config` opens the dialog on the defaults:
      not enabled, the preset provider with its URL locked, its model, and
      no key. */
  lemma EmptyConfigLoadsDefaults(typeError: string)
    ensures LoadForm(InitialForm, Parsed(JObj(map[])), typeError)
         == Loaded(Form(false, true, SiliconFlow, SiliconFlowUrl, true, "", SiliconFlowModel), None)
  {
    var r := LoadForm(InitialForm, Parsed(JObj(map[])), typeError);
    LoadedFieldsFollowProvider(InitialForm, Parsed(JObj(map[])), typeError);
    LoadedRadiosComplementary(InitialForm, Parsed(JObj(map[])), typeError);
  }

  /** When config.json cannot be read, the provider rule never runs: the
      dialog opens on the preset provider with an empty, editable URL, no
      model and neither radio checked, and saving it as it stands stores an
      empty `api_url` and `"enabled": false`. */
  lemma UnreadableConfigSkipsPreset(message: string, typeError: string)
    ensures var r := LoadForm(InitialForm, Unreadable(message), typeError);
      && r.error == Some(message)
      && r.form.provider == SiliconFlow && r.form.url == "" && !r.form.urlReadOnly && r.form.model == ""
      && !r.form.yes && !r.form.no
      && !Settled(r.form)
      && ModelConfigEntry(r.form)["api_url"] == JStr("")
      && ModelConfigEntry(r.form)["enabled"] == JBool(false)
  {
  }

  // ---------------------------------------------------------------------------
  // Saving (`save_config`)

  /** The dict `save_config` stores under `model_config`. */
  function ModelConfigEntry(f: Form): (entry: map<string, Json>)
    ensures entry.Keys == {"enabled", "provider", "api_url", "api_key", "model_name", "system_prompt"}
    ensures entry["enabled"] == JBool(f.yes) && entry["provider"] == JStr(f.provider)
    ensures entry["api_url"] == JStr(f.url) && entry["api_key"] == JStr(f.key)
    ensures entry["model_name"] == JStr(f.model) && entry["system_prompt"] == JStr(SystemPrompt)
  {
    map["enabled" := JBool(f.yes), "provider" := JStr(f.provider), "api_url" := JStr(f.url),
        "api_key" := JStr(f.key), "model_name" := JStr(f.model),
        "system_prompt" := JStr(SystemPrompt)]
  }

  /** The message of the `TypeError` that `config["model_config"] = …`
      raises on a value that is not a dict. */
  function ItemAssignMessage(v: Json): string {
    if v.JArr? then "list indices must be integers or slices, not str"
    else "'" + TypeName(v) + "' object does not support item assignment"
  }

  /** The config `save_config` writes back, or the message of the exception
      raised before writing. */
  datatype Stored = Stored(config: map<string, Json>) | StoreFailed(message: string)

  /** The existing file's dict, or `{}` when it cannot be read, with
      `model_config` replaced by the form's entry. */
  function StoredConfig(file: ConfigFile, f: Form): (r: Stored)
    ensures r.StoreFailed? <==> file.Parsed? && !file.doc.JObj?
    ensures r.StoreFailed? ==> r.message == ItemAssignMessage(file.doc)
    ensures r.Stored? ==> "model_config" in r.config && r.config["model_config"] == JObj(ModelConfigEntry(f))
    ensures r.Stored? && file.Parsed? ==> OthersUnchanged(file.doc.fields, r.config, "model_config")
    ensures file.Unreadable? ==> r == Stored(map["model_config" := JObj(ModelConfigEntry(f))])
  {
    match file
    case Unreadable(_) => Stored(map["model_config" := JObj(ModelConfigEntry(f))])
    case Parsed(doc) =>
      if doc.JObj? then Stored(doc.fields["model_config" := JObj(ModelConfigEntry(f))])
      else StoreFailed(ItemAssignMessage(doc))
  }

  /** Saving the same form over a file it was saved to changes nothing. */
  lemma StoreIdempotent(file: ConfigFile, f: Form)
    requires StoredConfig(file, f).Stored?
    ensures StoredConfig(Parsed(JObj(StoredConfig(file, f).config)), f) == StoredConfig(file, f)
  {
    var c := StoredConfig(file, f).config;
    assert c["model_config" := JObj(ModelConfigEntry(f))] == c;
  }

  /** A form as a load or a provider change leaves it: one radio checked, an
      item of the combo box shown, and the URL, lock and model the provider
      rule gives. */
  predicate Settled(f: Form) {
    f.yes != f.no && IsProvider(f.provider) && ProviderChanged(f, f.provider) == f
  }

  /** Reopening the dialog on what it saved shows the same form, from
      whatever the widgets held before the load. */
  lemma SaveThenLoad(file: ConfigFile, f: Form, before: Form, typeError: string)
    requires Settled(f) && IsProvider(before.provider)
    requires StoredConfig(file, f).Stored?
    ensures LoadForm(before, Parsed(JObj(StoredConfig(file, f).config)), typeError) == Loaded(f, None)
  {
    var doc := Parsed(JObj(StoredConfig(file, f).config));
    LoadSucceedsIff(before, doc, typeError);
    LoadedRadiosComplementary(before, doc, typeError);
    LoadedFieldsFollowProvider(before, doc, typeError);
  }

  /** What a save means for recognition: the next `process_pixmap` picks the
      remote backend exactly when "是" was checked, and its request carries
      the saved URL, key and model and the fixed system prompt. */
  lemma StoredConfigDrivesRecognition(file: ConfigFile, f: Form)
    requires StoredConfig(file, f).Stored?
    ensures var config := Parsed(JObj(StoredConfig(file, f).config));
      Recognition.SelectBackend(config) == Recognition.Remote <==> f.yes
    ensures var request := Recognition.BuildRequest(ModelConfigEntry(f));
      && request.RequestOk?
      && request.request.baseUrl == JStr(f.url) && request.request.apiKey == JStr(f.key)
      && request.request.modelName == JStr(f.model)
      && request.request.systemPrompt == JStr(SystemPrompt)
  {
  }

  function SavedNotice(): Notice {
    Notice(Success, "成功", "配置已保存")
  }

  function SaveFailedNotice(message: string): Notice {
    Notice(Error, "错误", "保存配置失败: " + message)
  }

  // ---------------------------------------------------------------------------
  // The dialog

  class ModelConfigDialog {
    var yes: bool
    var no: bool
    var provider: string
    var url: string
    var urlReadOnly: bool
    var key: string
    var model: string
    /** Whether the dialog was accepted (closed by OK). */
    var accepted: bool
    var notices: seq<Notice>
    /** Every dictionary written to config.json, oldest first. */
    var written: seq<map<string, Json>>

    function Fields(): Form
      reads this
    {
      Form(yes, no, provider, url, urlReadOnly, key, model)
    }

    predicate Valid()
      reads this
    {
      IsProvider(provider)
    }

    /** `__init__`: the widgets as built, then `load_config`. */
    constructor (file: ConfigFile, typeError: string)
      ensures Valid()
      ensures Fields() == LoadForm(InitialForm, file, typeError).form
      ensures notices == (match LoadForm(InitialForm, file, typeError).error
                          case None => []
                          case Some(m) => [LoadFailedNotice(m)])
      ensures !accepted && written == []
    {
      yes, no, provider, url, urlReadOnly, key, model := false, false, SiliconFlow, "", false, "", "";
      accepted, notices, written := false, [], [];
      new;
      LoadConfig(file, typeError);
    }

    method SetYesChecked(b: bool)
      modifies this`yes, this`no
      ensures Fields() == YesChecked(old(Fields()), b)
    {
      if b {
        yes, no := true, false;
      }
    }

    method SetNoChecked(b: bool)
      modifies this`yes, this`no
      ensures Fields() == NoChecked(old(Fields()), b)
    {
      if b {
        yes, no := false, true;
      }
    }

    /** `on_provider_changed`. */
    method OnProviderChanged(p: string)
      modifies this`url, this`urlReadOnly, this`model
      ensures Fields() == ProviderChanged(old(Fields()), p)
    {
      if p == SiliconFlow {
        url := SiliconFlowUrl;
        urlReadOnly := true;
        model := SiliconFlowModel;
      } else {
        url := "";
        urlReadOnly := false;
        model := "";
      }
    }

    /** `providerComboBox.setCurrentText(v)` and the signal it may emit. */
    method SetCurrentText(v: Json)
      requires Valid()
      modifies this`provider, this`url, this`urlReadOnly, this`model
      ensures Valid()
      ensures Fields() == CurrentTextSet(old(Fields()), v)
    {
      if v != JStr(provider) && v.JStr? && IsProvider(v.s) {
        provider := v.s;
        OnProviderChanged(v.s);
      }
    }

    /** `load_config`: the form changes as `LoadForm` says, and a failure
        adds one error pop-up. */
    method LoadConfig(file: ConfigFile, typeError: string)
      requires Valid()
      modifies this`yes, this`no, this`provider, this`url, this`urlReadOnly, this`key, this`model,
               this`notices
      ensures Valid()
      ensures Fields() == LoadForm(old(Fields()), file, typeError).form
      ensures notices == old(notices) + (match LoadForm(old(Fields()), file, typeError).error
                                         case None => []
                                         case Some(m) => [LoadFailedNotice(m)])
    {
      var mc: map<string, Json>;
      match file {
        case Unreadable(message) =>
          notices := notices + [LoadFailedNotice(message)];
          return;
        case Parsed(doc) =>
          if !doc.JObj? {
            notices := notices + [LoadFailedNotice(NoGetMessage(doc))];
            return;
          }
          var entry := ModelConfigOf(doc.fields);
          if !entry.JObj? {
            notices := notices + [LoadFailedNotice(NoGetMessage(entry))];
            return;
          }
          mc := entry.fields;
      }
      var enabled := Truthy(Get(mc, "enabled", JBool(false)));
      SetYesChecked(enabled);
      SetNoChecked(!enabled);
      SetCurrentText(Get(mc, "provider", JStr(SiliconFlow)));
      var error := FillFields(mc, typeError);
      match error {
        case Some(message) =>
          notices := notices + [LoadFailedNotice(message)];
        case None =>
          OnProviderChanged(provider);
      }
    }

    /** The three `setText` calls of `load_config`, stopping at the first
        value that is not a string. */
    method FillFields(mc: map<string, Json>, typeError: string) returns (error: Option<string>)
      modifies this`url, this`key, this`model
      ensures error == None <==> FieldsAreText(mc)
      ensures error != None ==> error == Some(typeError)
      ensures var v := Get(mc, "api_url", JStr(SiliconFlowUrl));
        url == if v.JStr? then v.s else old(url)
      ensures var v := Get(mc, "api_key", JStr(""));
        key == if v.JStr? && Get(mc, "api_url", JStr(SiliconFlowUrl)).JStr? then v.s else old(key)
      ensures model == if FieldsAreText(mc) then Get(mc, "model_name", JStr(SiliconFlowModel)).s else old(model)
    {
      var v := Get(mc, "api_url", JStr(SiliconFlowUrl));
      if !v.JStr? {
        return Some(typeError);
      }
      url := v.s;
      v := Get(mc, "api_key", JStr(""));
      if !v.JStr? {
        return Some(typeError);
      }
      key := v.s;
      v := Get(mc, "model_name", JStr(SiliconFlowModel));
      if !v.JStr? {
        return Some(typeError);
      }
      model := v.s;
      return None;
    }

    /** `save_config`: the existing file's dict (or `{}`) gets the form's
        `model_config` and is written back; `ok` is what it returns. */
    method SaveConfig(file: ConfigFile, writeError: Option<string>) returns (ok: bool)
      modifies this`notices, this`written
      ensures ok <==> StoredConfig(file, Fields()).Stored? && writeError == None
      ensures ok ==>
                && written == old(written) + [StoredConfig(file, Fields()).config]
                && notices == old(notices) + [SavedNotice()]
      ensures !ok && writeError.Some? && StoredConfig(file, Fields()).Stored? ==>
                && written == old(written) && notices == old(notices) + [SaveFailedNotice(writeError.value)]
      ensures StoredConfig(file, Fields()).StoreFailed? ==>
                && written == old(written)
                && notices == old(notices) + [SaveFailedNotice(StoredConfig(file, Fields()).message)]
    {
      var form := Fields();
      var stored := StoredConfig(file, form);
      if stored.StoreFailed? {
        notices := notices + [SaveFailedNotice(stored.message)];
        assert Fields() == form;
        return false;
      }
      match writeError {
        case Some(message) =>
          notices := notices + [SaveFailedNotice(message)];
          assert Fields() == form;
          return false;
        case None =>
          written := written + [stored.config];
          notices := notices + [SavedNotice()];
          assert Fields() == form;
          return true;
      }
    }

    /** `accept`: the dialog closes only when the save succeeded. */
    method Accept(file: ConfigFile, writeError: Option<string>)
      modifies this`notices, this`written, this`accepted
      ensures accepted <==> old(accepted) || (StoredConfig(file, Fields()).Stored? && writeError == None)
      ensures written == old(written) + (if StoredConfig(file, Fields()).Stored? && writeError == None
                                         then [StoredConfig(file, Fields()).config] else [])
      ensures StoredConfig(file, Fields()).StoreFailed? ==>
                notices == old(notices) + [SaveFailedNotice(StoredConfig(file, Fields()).message)]
      ensures StoredConfig(file, Fields()).Stored? && writeError.Some? ==>
                notices == old(notices) + [SaveFailedNotice(writeError.value)]
      ensures StoredConfig(file, Fields()).Stored? && writeError.None? ==>
                notices == old(notices) + [SavedNotice()]
    {
      var ok := SaveConfig(file, writeError);
      if ok {
        accepted := true;
      }
    }
  }
}
