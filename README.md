# FreeTex recognition and settings logic in Dafny

FreeTex is a desktop tool that turns an image of a formula into LaTeX. The
image comes from a screenshot, an upload or the clipboard. A worker object runs
either a local formula-recognition model or a remote multimodal chat API. The
main window shows the result and offers it for copying, wrapped in one of three
ways. Three dialogs edit config.json or check for a newer release:

- the multimodal-recognition settings;
- the keyboard shortcuts;
- the About box.

This project models the sequential logic under those widgets and proves what
that logic guarantees:

- `Recognition` (recognition.dfy, from tools/local_processor.py):
  - the brightness rule and the inversion of dark images;
  - the order of the guards in `process_pixmap`;
  - the choice between the local and the remote backend, read from
    `model_config.enabled`;
  - the fall-back to the local model when anything in the config read or the
    remote call raises;
  - the clean-up of the remote reply;
  - the `LocalProcessor` object whose `model` and `vis_processor` are set as it
    loads. It emits `model_loaded` once per load and `finished` once per request.
- `Presentation` (presentation.dfy, from main.py):
  - the export wrapping;
  - the rule that enables both copy buttons, and the MathML gate that follows
    the same rule;
  - the model-status transition keyed on "失败";
  - the gate that sends a captured image to the worker;
  - the centring offsets of the scaled image;
  - `MainWindow` as a class over the state those handlers change.
- `UpdateCheck` (update_check.dfy, from tools/about_dialog.py):
  - the version parser: strip leading 'v's, split on '.', delete non-digits,
    `int`;
  - Python's list comparison, proved equal to lexicographic order;
  - the three outcomes of the check;
  - `AboutDialog`'s button and notices.
- `ShortcutConfig` (shortcut_config.dfy, from tools/shortcut_config_dialog.py):
  - the key-capturing field;
  - the load fallback;
  - the two validation checks, in order;
  - the in-place update of the `shortcuts` dictionary;
  - the write and the notices.
- `ModelConfig` (model_config.dfy, from tools/model_config_dialog.py):
  - the provider presets;
  - the step-by-step filling of the form from config.json, including how the
    two auto-exclusive radio buttons and the combo box's change signal behave;
  - the replacement of `model_config` on save;
  - an OK button that closes the dialog only after a successful save.

Shared modules:

- `Text` (text.dfy): the Python string operations used above — `strip`,
  `split()`, `" ".join`, `replace`, `split(sep)`, `lstrip(c)`, `startswith` and
  `in` — with Python's whitespace class.
- `JsonData` (json_data.dfy): parsed JSON values, Python truthiness and
  `dict.get`.
- `Notices` (notices.dfy): the InfoBar pop-ups.
- `Wrappers` (wrappers.dfy): `Option`.

Foreign code is passed in as parameters:

- the recognition model, the HTTP calls and the image conversions;
- reading and writing config.json;
- Qt's key-sequence naming.

A signal that an object emits is a log of the values emitted, appended to on
each emission.

Behaviour the code has and a reader might not expect, each stated as a lemma:

- Export index 1 is labelled "$$包裹" but wraps the formula in single dollars
  (`Presentation.DollarExportIsInline`).
- Only texts starting with exactly "识别失败:" disable copying. The worker's
  other failure texts leave both copy buttons enabled: "模型未加载，无法处理图像",
  "图像预处理失败", "图像转换失败" and "识别失败 (路径): …".
- When `load_processor` raises after the model was built, `model` stays set. The
  window then keeps upload and screenshot disabled but still forwards a pasted
  image, and the worker answers with its not-loaded text
  (`Presentation.ProcessorFailureScenario`).
- A remote failure is never reported, because the local model answers instead
  (`Recognition.RemoteFailureFallsBackToLocal`).
- "1.2.0" counts as newer than "1.2" (`UpdateCheck.LongerTagIsNewer`).
- The model-config dialog never keeps a stored URL or model name. Loading
  re-applies the provider rule, so "自定义" shows them empty and "硅基流动"
  shows the preset (`ModelConfig.LoadedFieldsFollowProvider`).
- When config.json cannot be read, the model-config dialog shows the preset
  provider with an empty, editable URL and neither radio checked
  (`ModelConfig.UnreadableConfigSkipsPreset`).

## Model

| member | source | states |
|---|---|---|
| Text.Strip | main.py:900 | `strip()` with Python's whitespace class: the result is empty or has non-space ends, and is never longer than the input |
| Text.StripSlice | main.py:900 | `strip()` removes whitespace at the two ends and nothing else: the result is one slice of the input, and every character outside it is whitespace |
| Text.StripKeepsPrefix | main.py:905 | stripping a text that starts with a non-space character keeps a prefix of it, at least up to any non-space character |
| Text.TrimStartChar | tools/about_dialog.py:46 | `lstrip('v')` removes exactly the leading run of 'v's: the result is a suffix that does not start with 'v', and every removed character is a 'v' |
| Text.JoinWordsSingleSpaced | tools/local_processor.py:274 | joining the words of `split()` with single spaces gives text with no leading, trailing, doubled or non-space whitespace |
| Text.JoinSplitSingleSpaced | tools/local_processor.py:274 | `" ".join(s.split())` returns an already single-spaced string unchanged |
| Text.SplitWordsEmpty | tools/local_processor.py:274 | `split()` finds no word exactly when the text is all whitespace |
| Text.SplitWordsWord | tools/local_processor.py:274 | a non-empty run of non-whitespace is one word |
| Text.SplitWordsAtSpace | tools/local_processor.py:274 | `split()` breaks at every whitespace character: the words of `a + c + b` are those of `a` followed by those of `b`. With the two rows above this fixes `split()` on every string: its words are the maximal runs of non-whitespace, in order |
| Text.SplitJoinWords | tools/local_processor.py:274 | splitting the single-space join of non-empty, whitespace-free words gives the same words back |
| Text.SplitWordsKeepsNonSpace | tools/local_processor.py:274 | the words of `split()`, run together, are exactly the non-whitespace characters of the text, in order |
| Text.SplitJoinOn | tools/about_dialog.py:46-47 | joining separator-free parts with '.' and splitting on '.' again gives the parts back |
| Text.JoinSplitOn | tools/about_dialog.py:46-47 | splitting on a separator and rejoining gives the string back |
| JsonData.Get | tools/local_processor.py:203-204 | `dict.get(key, default)`: the stored value when the key is present, the default otherwise |
| Recognition.UniformDarkIffBelow128 | tools/local_processor.py:129-133 | on an image of one grey level, the sum test is exactly "level below 128" |
| Recognition.DarkImageFacts | tools/local_processor.py:129-133 | on the `mean < 128` test `IsDark`: an empty image is never dark, and a dark image has at least one pixel below 128 |
| Recognition.Invert | tools/local_processor.py:136 | `bitwise_not` keeps the image's shape |
| Recognition.InvertIsInverse | tools/local_processor.py:136 | every byte v of the image becomes 255 - v |
| Recognition.InvertInvolution | tools/local_processor.py:136 | inverting twice gives the original image |
| Recognition.Preprocess | tools/local_processor.py:113-141 | a dark image comes back inverted, with the same size. A light image, or one that cannot be converted to an array, comes back unchanged. The result is None exactly when a dark image's inversion cannot be turned back into a pixmap |
| Recognition.BuildRequest | tools/local_processor.py:240-268 | the request carries `api_key`, `api_url` and `model_name` from the config and the stored system prompt or "". It has the fixed image prefix, instruction, 1024 tokens and temperature 0.2. It fails exactly when one of the three indexed keys is missing |
| Recognition.RemoveWrapperTokens | tools/local_processor.py:272-273 | the four `replace` calls never lengthen the reply, and leave a reply without wrapper tokens unchanged |
| Recognition.CleanLatex | tools/local_processor.py:271-274 | the cleaned reply is single-spaced, its words are exactly the words of the reply with the wrapper tokens removed, and so are its non-whitespace characters, in order: only whitespace is merged |
| Recognition.CleanLatexKeepsCleanInput | tools/local_processor.py:271-274 | a reply with no wrapper token that is already single-spaced is returned unchanged |
| Recognition.CleanLatexUnwrapsAlign | tools/local_processor.py:272-274 | `\begin{align}` + body + `\end{align}` is cleaned exactly as the bare body is, for any body free of wrapper tokens (line breaks and commands included); a single-spaced body comes out as itself |
| Recognition.CleanLatexUnwrapsAligned | tools/local_processor.py:273-274 | `\begin{aligned}` + body + `\end{aligned}` is cleaned exactly as the bare body is, for any body free of wrapper tokens |
| Recognition.SelectBackend | tools/local_processor.py:200-212 | the remote backend exactly when the file parses to a dict whose `model_config` is a dict with a truthy `enabled` |
| Recognition.LocalBackendOutcome | tools/local_processor.py:207-212 | with the local backend selected, the outcome is the local model's |
| Recognition.RemoteBackendOutcome | tools/local_processor.py:204-206 | with the remote backend selected and a reply received, the outcome is the cleaned reply |
| Recognition.RemoteFailureFallsBackToLocal | tools/local_processor.py:213-219 | a missing key or a raising remote call yields the local model's outcome, never a remote failure |
| Recognition.TryDispatch | tools/local_processor.py:200-212 | with the local backend selected, the result is the local model's or an exception from reading the config; a reply the remote backend returns is single-spaced |
| Recognition.Dispatch | tools/local_processor.py:200-219 | every outcome is the local model's or a single-spaced remote reply, and a failure is always the local model's own |
| Recognition.Reported | tools/local_processor.py:222-226 | a result is emitted as it is; an exception is emitted as "识别失败: " followed by its message |
| Recognition.LoadFailureMessage | tools/local_processor.py:57 | the failure text always contains "失败" |
| Recognition.DeviceNameIsNotFailure | tools/local_processor.py:51 | a device name never contains "失败", so the window can tell success from failure |
| Recognition.LocalProcessor.constructor | tools/local_processor.py:27-36 | construction loads nothing: `model` and `vis_processor` are None and nothing has been emitted |
| Recognition.LocalProcessor.StartLoading | tools/local_processor.py:40-80 | emits `model_loaded` exactly once: the device name on success, "加载失败 (device): err" otherwise. The emitted text contains "失败" exactly on failure. `model` is set whenever the build succeeded, even when `load_processor` then raised |
| Recognition.LocalProcessor.ProcessPixmap | tools/local_processor.py:180-226 | emits `finished` exactly once. The guards run in order: model not loaded, preprocessing failed, conversion failed. Past them it emits the dispatch's result, or "识别失败: " + message |
| Recognition.LocalProcessor.ProcessImage | tools/local_processor.py:82-111 | emits `finished` exactly once: "识别失败: 模型尚未加载完成" when the model is not loaded, otherwise the recognised text or "识别失败 (路径): " + message |
| Presentation.FormatForCopy | main.py:834-849 | nothing to copy exactly when the text is empty. Otherwise the copy starts with the index's opening ("$" for 1, "\begin{equation}" and a newline for 2) and ends with its closing, around the unstripped text. Any index other than 1 and 2 copies the text as it is |
| Presentation.UnwrapFormat | main.py:841-848 | removing the wrapping of any index gives the formula back |
| Presentation.DollarExportIsInline | main.py:841-842 | index 1's label starts with "$$", yet its output starts and ends with one '$' and does not start with "$$" |
| Presentation.ProcessFailureDisablesCopy | main.py:900-907 | "识别失败: " + message, what `process_pixmap` emits when an exception escapes, disables copying |
| Presentation.CopyEnabledByPrefix | main.py:900-907 | a text whose stripped form differs early from the stripped placeholder and from "识别失败:" enables copying |
| Presentation.FixedFailureTextsEnableCopy | tools/local_processor.py:184-196 | the three fixed failure texts of `process_pixmap` enable copying |
| Presentation.PathFailureTextEnablesCopy | tools/local_processor.py:109-111 | the path-failure text "识别失败 (路径): …" enables copying |
| Presentation.PlaceholderDisablesCopy | main.py:900-907 | the placeholder and any all-whitespace text disable copying |
| Presentation.CopyEnabled | main.py:900-907 | the copy rule: all-whitespace text never enables copying |
| Presentation.MathmlCopy | main.py:862-889 | the converter is called exactly when the copy rule holds, on the stripped text. Its result or its exception is what is reported |
| Presentation.CentreOffset | main.py:694-695 | `(canvas - scaled) // 2` centres to within one pixel and stays inside the canvas when the image fits |
| Presentation.MainWindow.constructor | main.py:243-245 | starts loading, with upload, screenshot and both copy buttons disabled |
| Presentation.MainWindow.UpdateCopyButtonState | main.py:897-910 | both copy buttons get the same value, the copy rule on the current text |
| Presentation.MainWindow.SetLatexText | main.py:414 | setting the text re-evaluates the copy buttons through `textChanged` |
| Presentation.MainWindow.OnModelLoadingFinished | main.py:425-442 | a text containing "失败" gives the failed status with upload and screenshot disabled. Any other text gives the loaded status with them enabled. The copy buttons follow the copy rule |
| Presentation.MainWindow.StartWorker | main.py:229-238 | after loading, upload and screenshot are enabled exactly when both model and processor were built. The worker logs one `model_loaded` text, the device name or the failure text, and a failure status carries that text. The worker's fields are as loading left them, and the copy buttons follow the copy rule |
| Presentation.MainWindow.ScaleAndDisplayImage | main.py:664-700 | no image clears the label, and a label without area changes nothing. Otherwise the image is drawn at the centring offsets |
| Presentation.MainWindow.DisplayResultPixmap | main.py:631-662 | a request is sent only for a non-null pixmap while the worker's `model` is set. An accepted pixmap is stored and drawn as `_scale_and_display_image` says. Each branch sets its status text, a rejected pixmap clears the stored image and the label, and the copy buttons follow the copy rule |
| Presentation.MainWindow.OnRecognitionFinished | main.py:776-808 | the result becomes the text and `current_latex`, and the copy buttons follow the copy rule |
| Presentation.MainWindow.SetExportFormat | main.py:389-393 | the chosen combo-box index becomes the export index |
| Presentation.MainWindow.CopyLatexResult | main.py:834-860 | copies exactly when the text is non-empty, and puts the wrapped text on the clipboard |
| Presentation.MainWindow.CopyMathmlResult | main.py:862-895 | the clipboard changes only when the gated conversion returned MathML |
| Presentation.ProcessorFailureScenario | main.py:642-653 | with the processor failed after the model was built, a pasted image still reaches the worker, which answers "模型未加载，无法处理图像" |
| UpdateCheck.KeepDigits | tools/about_dialog.py:50-51 | `re.sub(r'\D', '', x)` keeps only digits, is never longer, leaves an all-digit string unchanged, and is empty exactly when the input holds no digit |
| UpdateCheck.KeepDigitsSingle | tools/about_dialog.py:50-51 | one character is kept exactly when it is a digit; with `KeepDigitsAppend` this fixes the result on every string, in order |
| UpdateCheck.KeepDigitsAppend | tools/about_dialog.py:50-51 | deleting non-digits distributes over concatenation |
| UpdateCheck.ParseInt | tools/about_dialog.py:50-51 | `int` of ASCII digits raises exactly on the empty string, with Python's message |
| UpdateCheck.ParsePart | tools/about_dialog.py:50-51 | a part fails exactly when it holds no digit |
| UpdateCheck.ParseParts | tools/about_dialog.py:50-51 | succeeds exactly when every part has a digit. It keeps the length, and each element is its part's value |
| UpdateCheck.ParseVersion | tools/about_dialog.py:46-51 | a parsed version has at least one number |
| UpdateCheck.FormatParseRoundTrip | tools/about_dialog.py:46-51 | a version written from numbers, with any number of leading 'v's, parses back to those numbers |
| UpdateCheck.NoDigitPartFails | tools/about_dialog.py:50-51 | one part without digits makes the whole parse raise `int('')`'s error |
| UpdateCheck.LessIffLexicographic | tools/about_dialog.py:54 | Python's list `<` holds exactly when, after a common prefix, the first list ends first or has the smaller element |
| UpdateCheck.Less | tools/about_dialog.py:54 | Python's list `<`: no list is less than itself, and no list is less than the empty list |
| UpdateCheck.LessTransitive | tools/about_dialog.py:54 | list `<` is transitive |
| UpdateCheck.LessTrichotomy | tools/about_dialog.py:54 | any two lists are equal or ordered one way, never both |
| UpdateCheck.ProperPrefixIsLess | tools/about_dialog.py:54 | a proper prefix is less |
| UpdateCheck.CheckForUpdate | tools/about_dialog.py:33-59 | a fetch failure is the error outcome. An update carries the raw tag, and a parse failure reports `int('')`'s message |
| UpdateCheck.UpdateIffNewer | tools/about_dialog.py:50-57 | update exactly when both versions parse and the latest is greater. No update exactly when both parse and it is not. Error exactly when one fails to parse |
| UpdateCheck.SameVersionNoUpdate | tools/about_dialog.py:53-57 | the same numbers, with any leading 'v's on either side, give no update |
| UpdateCheck.NumericComparison | tools/about_dialog.py:50-54 | after equal leading numbers the larger number wins, whatever its digit count |
| UpdateCheck.TenIsNewerThanNine | tools/about_dialog.py:50-55 | "1.10" is reported as an update over "1.9" |
| UpdateCheck.LongerTagIsNewer | tools/about_dialog.py:54-55 | a tag that extends the current numbers is reported as an update |
| UpdateCheck.NoticeFor | tools/about_dialog.py:244-281 | success exactly for an update and error exactly for a failure, whose text is "错误信息：" + message |
| UpdateCheck.AboutDialog.constructor | tools/about_dialog.py:162 | the button starts enabled with "检查更新" |
| UpdateCheck.AboutDialog.CheckUpdate | tools/about_dialog.py:230-234 | the button is disabled and reads "正在检查..." |
| UpdateCheck.AboutDialog.OnOutcome | tools/about_dialog.py:244-281 | the button text is restored and exactly the outcome's notice is added |
| UpdateCheck.AboutDialog.OnFinished | tools/about_dialog.py:241 | the thread's end re-enables the button |
| UpdateCheck.AboutDialog.RunUpdateCheck | tools/about_dialog.py:230-242 | one click ends with the button enabled and restored, and exactly one notice, for the check's outcome |
| ShortcutConfig.ShortcutLineEdit.constructor | tools/shortcut_config_dialog.py:31-34 | the field starts empty |
| ShortcutConfig.ShortcutLineEdit.SetText | tools/shortcut_config_dialog.py:52 | the field then shows exactly the given text |
| ShortcutConfig.ShortcutLineEdit.KeyPressEvent | tools/shortcut_config_dialog.py:36-52 | a lone modifier key or an unnamed combination leaves the text unchanged. Otherwise the text is the combination's name |
| ShortcutConfig.ShortcutLineEdit.MousePressEvent | tools/shortcut_config_dialog.py:54-57 | a click clears the field |
| ShortcutConfig.ShortcutText | tools/shortcut_config_dialog.py:96-110 | a field shows the stored shortcut, an empty text for a `null` entry, or its default when none is stored |
| ShortcutConfig.LoadConfig | tools/shortcut_config_dialog.py:126-134 | a failed read gives exactly `{"shortcuts": {}}` |
| ShortcutConfig.FailedLoadShowsDefaults | tools/shortcut_config_dialog.py:128-134 | after a failed read the fields show Ctrl+Alt+Q, Ctrl+U and Ctrl+V |
| ShortcutConfig.DuplicatesIffSetSmaller | tools/shortcut_config_dialog.py:154-155 | two equal texts is exactly `len(list) != len(set(list))` |
| ShortcutConfig.Validate | tools/shortcut_config_dialog.py:139-163 | missing exactly when a stripped text is empty. What passes is the three stripped texts, none empty |
| ShortcutConfig.ValidateOutcomes | tools/shortcut_config_dialog.py:143-163 | repetition is reported exactly when none is empty and the set is smaller, and what passes is pairwise distinct |
| ShortcutConfig.ValidateIdempotent | tools/shortcut_config_dialog.py:139-141 | accepted texts pass again unchanged |
| ShortcutConfig.WithShortcuts | tools/shortcut_config_dialog.py:166-171 | the updated config can be shown by the dialog again |
| ShortcutConfig.WithShortcutsStores | tools/shortcut_config_dialog.py:166-171 | a reopened dialog shows the stored shortcuts. Every other top-level key and every other key inside `shortcuts` keeps its value |
| ShortcutConfig.WithShortcutsIdempotent | tools/shortcut_config_dialog.py:166-171 | storing the same shortcuts twice changes nothing the second time |
| ShortcutConfig.NullEntryBlocksSave | tools/shortcut_config_dialog.py:96-151 | a `null` entry opens as an empty field, and saving the dialog as opened stops at "所有快捷键都必须设置" |
| ShortcutConfig.ShortcutConfigDialog.constructor | tools/shortcut_config_dialog.py:63-111 | the three fields show the loaded shortcuts or their defaults |
| ShortcutConfig.ShortcutConfigDialog.StoreShortcuts | tools/shortcut_config_dialog.py:165-171 | the in-place assignments give exactly `WithShortcuts` of the old config |
| ShortcutConfig.ShortcutConfigDialog.SaveAndAccept | tools/shortcut_config_dialog.py:136-197 | an empty or a repeated shortcut leaves config, file and dialog unchanged and adds its own notice. Otherwise the config is updated, then written and accepted, or kept in memory with a write-failure notice |
| ShortcutConfig.ShortcutConfigDialog.ValidateFields | tools/shortcut_config_dialog.py:139-163 | the early-return checks compute `Validate` of the three texts |
| ShortcutConfig.ShortcutConfigDialog.WriteConfig | tools/shortcut_config_dialog.py:173-197 | a successful write records the config, shows success and accepts. A failure shows "无法保存配置: " + message and changes nothing else |
| ModelConfig.YesChecked | tools/model_config_dialog.py:193 | checking "是" unchecks "否". Unchecking changes nothing, because an auto-exclusive radio button cannot be unchecked |
| ModelConfig.NoChecked | tools/model_config_dialog.py:194 | the same for "否" |
| ModelConfig.ProviderChanged | tools/model_config_dialog.py:172-181 | "硅基流动" sets its URL (read-only) and its model. Any other provider clears both and unlocks the URL. Nothing else changes |
| ModelConfig.CurrentTextSet | tools/model_config_dialog.py:196 | only an item of the combo box that differs from the current one is selected, and it then triggers the provider rule |
| ModelConfig.LoadForm | tools/model_config_dialog.py:183-212 | an unreadable file, a non-dict file or a non-dict `model_config` leaves the form unchanged, with the matching error message |
| ModelConfig.LoadSucceedsIff | tools/model_config_dialog.py:185-212 | loading succeeds exactly when file and `model_config` are dicts and URL, key and model are strings or absent |
| ModelConfig.LoadedRadiosComplementary | tools/model_config_dialog.py:192-194 | once loading reaches the radios, exactly one is checked: "是" exactly when `enabled` is truthy |
| ModelConfig.LoadedFieldsFollowProvider | tools/model_config_dialog.py:196-202 | after a successful load, the provider is the stored one if it is an item. The key is the stored one. The URL, lock and model are the provider rule's, never the stored values |
| ModelConfig.EmptyConfigLoadsDefaults | tools/model_config_dialog.py:189-202 | a config without `model_config` opens on "否", "硅基流动", the locked preset URL, no key and the preset model |
| ModelConfig.UnreadableConfigSkipsPreset | tools/model_config_dialog.py:183-212 | an unreadable file leaves the preset provider with an empty, editable URL, no model and no radio checked, and saving that stores an empty URL |
| ModelConfig.ModelConfigEntry | tools/model_config_dialog.py:226-233 | `model_config` gets exactly six keys: the form's values and the fixed system prompt |
| ModelConfig.StoredConfig | tools/model_config_dialog.py:218-233 | the existing dict, or `{}` when unreadable, gets the new `model_config` and keeps every other key. A non-dict file fails with Python's item-assignment message |
| ModelConfig.StoreIdempotent | tools/model_config_dialog.py:226-233 | saving the same form over its own result changes nothing |
| ModelConfig.SaveThenLoad | tools/model_config_dialog.py:183-233 | reopening on a saved settled form shows that form again, whatever the widgets held before |
| ModelConfig.StoredConfigDrivesRecognition | tools/model_config_dialog.py:226-233 | after a save, recognition picks the remote backend exactly when "是" was checked. Its request carries the saved URL, key and model and the fixed prompt |
| ModelConfig.ModelConfigDialog.constructor | tools/model_config_dialog.py:30-140 | the widgets as built, then loaded as `LoadForm` says, with one error notice on failure |
| ModelConfig.ModelConfigDialog.SetYesChecked | tools/model_config_dialog.py:193 | the radios change as `YesChecked` says |
| ModelConfig.ModelConfigDialog.SetNoChecked | tools/model_config_dialog.py:194 | the radios change as `NoChecked` says |
| ModelConfig.ModelConfigDialog.OnProviderChanged | tools/model_config_dialog.py:172-181 | the fields change as `ProviderChanged` says |
| ModelConfig.ModelConfigDialog.SetCurrentText | tools/model_config_dialog.py:196 | the combo box and the signal it fires change the fields as `CurrentTextSet` says |
| ModelConfig.ModelConfigDialog.LoadConfig | tools/model_config_dialog.py:183-212 | the form ends as `LoadForm` says, and a failure adds exactly one "加载配置失败: " notice |
| ModelConfig.ModelConfigDialog.FillFields | tools/model_config_dialog.py:197-199 | the three `setText` calls stop at the first non-string value, which raises |
| ModelConfig.ModelConfigDialog.SaveConfig | tools/model_config_dialog.py:214-259 | returns True exactly when the config could be updated and written. It then records `StoredConfig` and shows "配置已保存"; otherwise it shows "保存配置失败: " + message and writes nothing |
| ModelConfig.ModelConfigDialog.Accept | tools/model_config_dialog.py:292-295 | the dialog is accepted exactly when the save succeeded, and the file is written exactly then. The notice is the save's: "配置已保存", or "保存配置失败: " + the item-assignment or write error |

## Left out

- Image conversions. QPixmap, QImage, cv2 and PIL conversions are inputs. These
  inputs are whether each conversion succeeds and the grey-level grid cv2
  derives.
- Grey-level arithmetic. cv2's weighted grey conversion and `np.mean` work in
  floating point; the model uses the integer test sum < 128 × count. An empty
  grid is not dark, as NaN < 128 is false.
- The local model. The torch/unimernet build, `model.eval()` and inference are
  left out. How `init_model` ends is an input, and the recognizer is a
  deterministic function parameter.
- Network calls. The OpenAI request, with the base64/PNG encoding of the image,
  and the GitHub release request are function parameters or inputs. A missing
  or non-string `tag_name` counts as a failed fetch.
- File I/O. Reading and writing config.json are inputs: the parsed document or
  the exception's message, and a write error. `resource_path` is left out.
  `json.dump` formatting and partial writes are not modelled.
- Threads and timers. Signals are delivered synchronously, in emission order.
  The one-second `QTimer` before the shortcut dialog accepts is taken as
  immediate.
- Presentation. Qt layout, styling, tooltips, LaTeX-to-HTML rendering, logging,
  fonts, the tray icon, screenshot capture and clipboard watching are not
  modelled.
- Image scaling. Qt's aspect-ratio scaling is not modelled; the scaled size is
  an input to `Presentation.MainWindow.ScaleAndDisplayImage`.
- The MathML converter is a function parameter.
- Test connection. `test_connection` in tools/model_config_dialog.py:261-290
  makes a network call only, and is not modelled.
- Digits. `\D` and `int` in Python also accept non-ASCII decimal digits; the
  model keeps ASCII digits only.
- JSON values. Numbers are integers only (no floats), and the key order of
  dictionaries is not modelled.
- Presentation.MainWindow.SetLatexText: takes `latexEdit.toPlainText()` to give back exactly the text passed to `setText`. Qt's QTextEdit reads text that looks like HTML (such as `a < b > c`, or one holding `&lt;`) as rich text, and `toPlainText` turns U+00A0 into a space. The copy rule and the copied text then see Qt's conversion, which is not modelled.
- Presentation.MainWindow.OnRecognitionFinished: the same simplification of `setText` and `toPlainText` for the recognised text.
- ShortcutConfig.ShortcutConfigDialog.constructor: requires a config whose
  `shortcuts` entry is a dict whose three entries, when present, are strings or
  `null` (a `null` entry shows as an empty field). With a non-dict `shortcuts`
  entry the source raises at `.get`, and with a number, boolean, list or dict
  entry PyQt's `setText` raises `TypeError`; the model does not describe the
  dialog in those cases. ShortcutConfig.ShortcutText and
  ShortcutConfig.LoadConfig carry the same requirement.
- ShortcutConfig.ShortcutLineEdit.KeyPressEvent: the name Qt gives a key
  combination (`QKeySequence.toString`) is a function parameter.
- ModelConfig.LoadForm: the text of PyQt's `TypeError` for a non-string
  `setText` argument is a parameter. `None` is treated like any other
  non-string. A non-boolean `enabled` is taken by its truthiness, where PyQt
  may raise instead.
- ModelConfig.CurrentTextSet: follows the combo box of the qfluentwidgets
  library, whose source is not part of this model. It ignores text that is
  not one of its items and emits `currentTextChanged` only when the current
  text changes.
