/** The shortcut settings dialog of tools/shortcut_config_dialog.py: three
    key-capturing fields filled from the "shortcuts" entry of config.json,
    and a save that validates the stripped texts (none empty, no two equal)
    before writing them back into the same dictionary. Reading and writing
    the file are parameters; Qt's key-sequence naming is a function
    parameter. */
module ShortcutConfig {
  import opened Wrappers
  import opened Text
  import opened JsonData
  import opened Notices

  /** Qt key codes of the four modifier keys. */
  const KeyShift := 0x0100_0020
  const KeyControl := 0x0100_0021
  const KeyMeta := 0x0100_0022
  const KeyAlt := 0x0100_0023

  const DefaultScreenshot := "Ctrl+Alt+Q"
  const DefaultUpload := "Ctrl+U"
  const DefaultPaste := "Ctrl+V"

  predicate IsModifierKey(key: int) {
    key == KeyControl || key == KeyShift || key == KeyAlt || key == KeyMeta
  }

  /** `ShortcutLineEdit`: a read-only field that shows the last key
      combination pressed in it. */
  class ShortcutLineEdit {
    var text: string

    constructor ()
      ensures text == ""
    {
      text := "";
    }

    /** `setText`. */
    method SetText(t: string)
      modifies this`text
      ensures text == t
    {
      text := t;
    }

    /** `keyPressEvent`. `keySequence(modifiers, key)` stands for
        `QKeySequence(modifiers | key).toString()`. A lone modifier key is
        ignored, and so is a combination Qt has no name for. */
    method KeyPressEvent(key: int, modifiers: int, keySequence: (int, int) -> string)
      modifies this`text
      ensures IsModifierKey(key) ==> text == old(text)
      ensures !IsModifierKey(key) && keySequence(modifiers, key) == "" ==> text == old(text)
      ensures !IsModifierKey(key) && keySequence(modifiers, key) != "" ==> text == keySequence(modifiers, key)
    {
      if IsModifierKey(key) {
        return;
      }
      var shortcutText := keySequence(modifiers, key);
      if shortcutText != "" {
        text := shortcutText;
      }
    }

    /** `mousePressEvent`: a click clears the field for a new combination. */
    method MousePressEvent()
      modifies this`text
      ensures text == ""
    {
      text := "";
    }
  }

  // ---------------------------------------------------------------------------
  // The configuration dictionary

  /** The "shortcuts" entry, when present, is a dictionary; saving indexes
      into it and would raise on anything else. */
  predicate ShortcutsIsDict(config: map<string, Json>) {
    "shortcuts" in config ==> config["shortcuts"].JObj?
  }

  /** `config.get("shortcuts", {})`. */
  function Shortcuts(config: map<string, Json>): (inner: map<string, Json>)
    requires ShortcutsIsDict(config)
    ensures "shortcuts" !in config ==> inner == map[]
  {
    if "shortcuts" in config then config["shortcuts"].fields else map[]
  }

  /** A field's entry, when present, is one `setText` accepts: a string, or
      `null`, which PyQt takes as the null string. */
  predicate TextOrAbsent(config: map<string, Json>, key: string)
    requires ShortcutsIsDict(config)
  {
    key in Shortcuts(config) ==> Shortcuts(config)[key].JStr? || Shortcuts(config)[key].JNull?
  }

  /** A configuration the dialog can be built on. */
  predicate Displayable(config: map<string, Json>) {
    && ShortcutsIsDict(config)
    && TextOrAbsent(config, "screenshot")
    && TextOrAbsent(config, "upload")
    && TextOrAbsent(config, "paste")
  }

  /** The text a field shows after `setText(config.get("shortcuts",
      {}).get(key, default))`: a `null` entry shows as an empty field. */
  function ShortcutText(config: map<string, Json>, key: string, default: string): (t: string)
    requires ShortcutsIsDict(config) && TextOrAbsent(config, key)
    ensures key !in Shortcuts(config) ==> t == default
    ensures key in Shortcuts(config) && Shortcuts(config)[key].JStr? ==> Shortcuts(config)[key] == JStr(t)
    ensures key in Shortcuts(config) && Shortcuts(config)[key].JNull? ==> t == ""
  {
    if key !in Shortcuts(config) then default
    else if Shortcuts(config)[key].JNull? then ""
    else Shortcuts(config)[key].s
  }

  /** The file can be opened when it is a dictionary the fields can show;
      an unreadable file is always fine. */
  predicate Loadable(file: ConfigFile) {
    file.Parsed? ==> file.doc.JObj? && Displayable(file.doc.fields)
  }

  /** `load_config`: the parsed dictionary, or `{"shortcuts": {}}` when
      reading or parsing failed. */
  function LoadConfig(file: ConfigFile): (config: map<string, Json>)
    requires Loadable(file)
    ensures Displayable(config)
    ensures file.Unreadable? ==> config.Keys == {"shortcuts"} && Shortcuts(config) == map[]
  {
    if file.Parsed? then file.doc.fields else map["shortcuts" := JObj(map[])]
  }

  /** An unreadable file shows the three default shortcuts. */
  lemma FailedLoadShowsDefaults(message: string)
    ensures var config := LoadConfig(Unreadable(message));
      && ShortcutText(config, "screenshot", DefaultScreenshot) == "Ctrl+Alt+Q"
      && ShortcutText(config, "upload", DefaultUpload) == "Ctrl+U"
      && ShortcutText(config, "paste", DefaultPaste) == "Ctrl+V"
  {
  }

  /** A `null` entry opens as an empty field, and a save of the dialog as it
      opened stops at the missing-shortcut check. */
  lemma NullEntryBlocksSave(file: ConfigFile)
    requires Loadable(file) && file.Parsed?
    requires var inner := Shortcuts(file.doc.fields); "screenshot" in inner && inner["screenshot"] == JNull
    ensures var config := LoadConfig(file);
      && ShortcutText(config, "screenshot", DefaultScreenshot) == ""
      && Validate(ShortcutText(config, "screenshot", DefaultScreenshot),
                  ShortcutText(config, "upload", DefaultUpload),
                  ShortcutText(config, "paste", DefaultPaste)) == MissingShortcut
  {
  }

  // ---------------------------------------------------------------------------
  // Validating and storing the shortcuts

  datatype Validation =
    | MissingShortcut
    | DuplicateShortcut
    | Accepted(screenshot: string, upload: string, paste: string)

  /** Some two of the three texts are equal. */
  predicate HasDuplicates(a: string, b: string, c: string) {
    a == b || b == c || a == c
  }

  /** This is Python's test `len(shortcuts) != len(set(shortcuts))`: the
      set of the three texts is smaller than their list exactly when two
      are equal. */
  lemma DuplicatesIffSetSmaller(a: string, b: string, c: string)
    ensures HasDuplicates(a, b, c) <==> |[a, b, c]| != |{a, b, c}|
  {
    if !HasDuplicates(a, b, c) {
      assert {a, b, c} == {a} + {b} + {c};
      assert |{a} + {b}| == 2;
    } else if a == b {
      assert {a, b, c} == {a, c};
    } else if b == c {
      assert {a, b, c} == {a, b};
    } else {
      assert {a, b, c} == {a, b};
    }
  }

  /** The two checks of `save_and_accept`, on the stripped texts: emptiness
      first, then repetition. */
  function Validate(screenshot: string, upload: string, paste: string): (v: Validation)
    ensures v == MissingShortcut <==> Strip(screenshot) == "" || Strip(upload) == "" || Strip(paste) == ""
    ensures v.Accepted? ==> v == Accepted(Strip(screenshot), Strip(upload), Strip(paste))
    ensures v.Accepted? ==> v.screenshot != "" && v.upload != "" && v.paste != ""
  {
    var s, u, p := Strip(screenshot), Strip(upload), Strip(paste);
    if s == "" || u == "" || p == "" then MissingShortcut
    else if HasDuplicates(s, u, p) then DuplicateShortcut
    else Accepted(s, u, p)
  }

  /** What passes validation is three distinct, non-empty stripped texts;
      repetition is reported only when none is empty. */
  lemma ValidateOutcomes(screenshot: string, upload: string, paste: string)
    ensures var v := Validate(screenshot, upload, paste);
      var s, u, p := Strip(screenshot), Strip(upload), Strip(paste);
      && (v == DuplicateShortcut <==> s != "" && u != "" && p != "" && |[s, u, p]| != |{s, u, p}|)
      && (v.Accepted? ==> s != u && u != p && s != p)
  {
    DuplicatesIffSetSmaller(Strip(screenshot), Strip(upload), Strip(paste));
  }

  /** Stripped texts pass again unchanged: validation is idempotent. */
  lemma ValidateIdempotent(screenshot: string, upload: string, paste: string)
    requires Validate(screenshot, upload, paste).Accepted?
    ensures var v := Validate(screenshot, upload, paste);
      Validate(v.screenshot, v.upload, v.paste) == v
  {
    var v := Validate(screenshot, upload, paste);
    StripStripped(v.screenshot);
    StripStripped(v.upload);
    StripStripped(v.paste);
  }

  /** The dictionary after the three assignments of `save_and_accept`,
      creating "shortcuts" when it is missing. */
  function WithShortcuts(config: map<string, Json>, screenshot: string, upload: string, paste: string)
    : (config': map<string, Json>)
    requires ShortcutsIsDict(config)
    ensures Displayable(config')
  {
    var inner := Shortcuts(config);
    config["shortcuts" := JObj(inner["screenshot" := JStr(screenshot)]["upload" := JStr(upload)]["paste" := JStr(paste)])]
  }

  /** The stored shortcuts are the ones a reopened dialog shows; every other
      key, at the top and inside "shortcuts", keeps its value. */
  lemma WithShortcutsStores(config: map<string, Json>, screenshot: string, upload: string, paste: string)
    requires ShortcutsIsDict(config)
    ensures var c := WithShortcuts(config, screenshot, upload, paste);
      && ShortcutText(c, "screenshot", DefaultScreenshot) == screenshot
      && ShortcutText(c, "upload", DefaultUpload) == upload
      && ShortcutText(c, "paste", DefaultPaste) == paste
      && OthersUnchanged(config, c, "shortcuts")
      && Shortcuts(c).Keys == Shortcuts(config).Keys + {"screenshot", "upload", "paste"}
      && (forall k :: k in Shortcuts(config) && k != "screenshot" && k != "upload" && k != "paste" ==>
            Shortcuts(c)[k] == Shortcuts(config)[k])
  {
  }

  /** Saving the same shortcuts twice changes nothing the second time. */
  lemma WithShortcutsIdempotent(config: map<string, Json>, screenshot: string, upload: string, paste: string)
    requires ShortcutsIsDict(config)
    ensures var c := WithShortcuts(config, screenshot, upload, paste);
      WithShortcuts(c, screenshot, upload, paste) == c
  {
    var c := WithShortcuts(config, screenshot, upload, paste);
    var c2 := WithShortcuts(c, screenshot, upload, paste);
    assert Shortcuts(c2) == Shortcuts(c);
    assert c2 == c;
  }

  // ---------------------------------------------------------------------------
  // The dialog

  class ShortcutConfigDialog {
    var config: map<string, Json>
    const screenshotEdit: ShortcutLineEdit
    const uploadEdit: ShortcutLineEdit
    const pasteEdit: ShortcutLineEdit
    /** Whether the dialog was accepted (closed with its changes kept). */
    var accepted: bool
    var notices: seq<Notice>
    /** Every dictionary written to config.json, oldest first. */
    var written: seq<map<string, Json>>

    predicate Valid()
      reads this
    {
      ShortcutsIsDict(config)
    }

    /** How `save_and_accept` judges the three fields as they stand. */
    function SaveValidation(): Validation
      reads screenshotEdit, uploadEdit, pasteEdit
    {
      Validate(screenshotEdit.text, uploadEdit.text, pasteEdit.text)
    }

    /** `__init__`: load the file, then fill each field from it or with its
        default. */
    constructor (file: ConfigFile)
      requires Loadable(file)
      ensures Valid()
      ensures config == LoadConfig(file)
      ensures fresh(screenshotEdit) && fresh(uploadEdit) && fresh(pasteEdit)
      ensures screenshotEdit.text == ShortcutText(config, "screenshot", DefaultScreenshot)
      ensures uploadEdit.text == ShortcutText(config, "upload", DefaultUpload)
      ensures pasteEdit.text == ShortcutText(config, "paste", DefaultPaste)
      ensures !accepted && notices == [] && written == []
    {
      config := LoadConfig(file);
      var s := new ShortcutLineEdit();
      var u := new ShortcutLineEdit();
      var p := new ShortcutLineEdit();
      screenshotEdit, uploadEdit, pasteEdit := s, u, p;
      accepted, notices, written := false, [], [];
      new;
      screenshotEdit.SetText(ShortcutText(config, "screenshot", DefaultScreenshot));
      uploadEdit.SetText(ShortcutText(config, "upload", DefaultUpload));
      pasteEdit.SetText(ShortcutText(config, "paste", DefaultPaste));
    }

    /** The assignments of `save_and_accept`: "shortcuts" is created when
        missing, then its dictionary is updated in place. */
    method StoreShortcuts(screenshot: string, upload: string, paste: string)
      requires Valid()
      modifies this`config
      ensures Valid()
      ensures config == WithShortcuts(old(config), screenshot, upload, paste)
    {
      if "shortcuts" !in config {
        config := config["shortcuts" := JObj(map[])];
      }
      var shortcuts := config["shortcuts"].fields;
      assert shortcuts == Shortcuts(old(config));
      shortcuts := shortcuts["screenshot" := JStr(screenshot)];
      shortcuts := shortcuts["upload" := JStr(upload)];
      shortcuts := shortcuts["paste" := JStr(paste)];
      config := config["shortcuts" := JObj(shortcuts)];
      assert config == old(config)["shortcuts" := JObj(shortcuts)];
    }

    /** `save_and_accept`. `writeError` is the message of the exception
        writing config.json raised, if any. A rejected save leaves the
        dictionary alone; an accepted one updates it in place before the
        write, so a failed write still leaves the new shortcuts in memory.
        The dialog closes only after a successful write. */
    method SaveAndAccept(writeError: Option<string>)
      requires Valid()
      modifies this`config, this`accepted, this`notices, this`written
      ensures Valid()
      ensures old(SaveValidation()) == MissingShortcut ==>
        config == old(config) && written == old(written) && accepted == old(accepted)
        && notices == old(notices) + [Notice(Error, "错误", "所有快捷键都必须设置")]
      ensures old(SaveValidation()) == DuplicateShortcut ==>
        config == old(config) && written == old(written) && accepted == old(accepted)
        && notices == old(notices) + [Notice(Warning, "警告", "快捷键不能重复")]
      ensures old(SaveValidation()).Accepted? ==>
        config == WithShortcuts(old(config), old(SaveValidation()).screenshot, old(SaveValidation()).upload, old(SaveValidation()).paste)
      ensures old(SaveValidation()).Accepted? && writeError.None? ==>
        written == old(written) + [config] && accepted
        && notices == old(notices) + [Notice(Success, "成功", "快捷键设置已保存，重启应用后生效")]
      ensures old(SaveValidation()).Accepted? && writeError.Some? ==>
        written == old(written) && accepted == old(accepted)
        && notices == old(notices) + [Notice(Error, "保存失败", "无法保存配置: " + writeError.value)]
    {
      var v := ValidateFields();
      match v {
        case MissingShortcut =>
          notices := notices + [Notice(Error, "错误", "所有快捷键都必须设置")];
        case DuplicateShortcut =>
          notices := notices + [Notice(Warning, "警告", "快捷键不能重复")];
        case Accepted(screenshot, upload, paste) =>
          StoreShortcuts(screenshot, upload, paste);
          WriteConfig(writeError);
      }
    }

    /** The checks at the head of `save_and_accept`: strip the three texts,
        refuse an empty one, then refuse a repeated one. */
    method ValidateFields() returns (v: Validation)
      ensures v == Validate(screenshotEdit.text, uploadEdit.text, pasteEdit.text)
    {
      var screenshot := Strip(screenshotEdit.text);
      var upload := Strip(uploadEdit.text);
      var paste := Strip(pasteEdit.text);
      if screenshot == "" || upload == "" || paste == "" {
        return MissingShortcut;
      }
      if HasDuplicates(screenshot, upload, paste) {
        return DuplicateShortcut;
      }
      return Accepted(screenshot, upload, paste);
    }

    /** `json.dump` of the whole dictionary, then the success notice and the
        (delayed) `accept`; or the error notice when writing raised. */
    method WriteConfig(writeError: Option<string>)
      modifies this`accepted, this`notices, this`written
      ensures writeError.None? ==>
        written == old(written) + [config] && accepted
        && notices == old(notices) + [Notice(Success, "成功", "快捷键设置已保存，重启应用后生效")]
      ensures writeError.Some? ==>
        written == old(written) && accepted == old(accepted)
        && notices == old(notices) + [Notice(Error, "保存失败", "无法保存配置: " + writeError.value)]
    {
      if writeError.None? {
        written := written + [config];
        notices := notices + [Notice(Success, "成功", "快捷键设置已保存，重启应用后生效")];
        accepted := true;
      } else {
        notices := notices + [Notice(Error, "保存失败", "无法保存配置: " + writeError.value)];
      }
    }
  }
}
